# faceapp-server: the clustering pipeline and the per-user storage handlers

This project models the core of a small photo-grouping server. The server
runs a face model on each uploaded photo and clusters the resulting
embeddings. It then copies every photo into a `Person_<n>` album folder, one
folder per cluster.

Two pieces are modelled:

- **The batch pipeline** (`clustering.py`).
  - `process_images` drops paths whose lower-cased name does not end in `.jpg`, `.jpeg` or `.png`.
  - It asks the face model for an embedding for each remaining path and keeps the successes in two parallel lists.
  - It raises "No valid face embeddings found." when nothing survives.
  - Otherwise it labels the embeddings and calls `create_albums`. That copies each kept image, under its basename, into `Person_<label + 1>`.
- **The three storage handlers** (`app.py`).
  - `/process` (`process_faces`) checks the user id, creates `uploads/<user>` and `clustered/<user>`, saves every upload, and runs the pipeline on the user's album directory.
  - `/clusters` (`list_clusters`) lists each album folder that holds at least one file whose name ends in `.jpg`, `.jpeg` or `.png`. This test is case-sensitive.
  - `/delete_all` (`delete_user_data`) removes both of the user's trees where they exist. A failure in the first removal skips the second.

## Modules

- `Paths` (`paths.dfy`): the two suffix tests, ASCII lower-casing, and POSIX `os.path.basename` and `os.path.join`.
- `AlbumNames` (`album_names.dfy`): album folder names `Person_<label + 1>` and reading the number back.
- `Storage` (`storage.dfy`): the abstract filesystem.
  - The class `FileSystem` holds two maps. `uploads` maps a user to their intake file names. `clustered` maps a user to their album tree: folder name to file names.
  - For a user id that is a single path segment other than `.` or `..`, a key is present exactly when that user's directory exists. Ids that name another place through `/` or `..` are not modelled (see "## Left out").
  - Its methods are the `makedirs`, `save`, `copy` and `rmtree` calls the source makes.
  - `Disk` is a value snapshot of both maps.
- `Clustering` (`clustering.dfy`): `extract_face_embedding`, the collecting loop, `create_albums` and `process_images`.
  - Imperative methods are proved against the specification functions `Survivors`, `Embeddings`, `Published` and `PipelineResult`.
  - The face model is a parameter `deepFace: Path -> FaceReport`. It either raises or reports the embeddings of every face it found.
  - `cluster_faces` is a parameter of type `Labeller`, a function that returns one natural-number label per embedding. With `min_samples=1` DBSCAN marks no point as noise (label -1).
- `App` (`app.dfy`): the three handlers as methods on a `FileSystem`.
  - `ProcessFaces` and `DeleteUserData` are each proved equal to a function from the old `Disk` to a response and a new `Disk`: `ProcessFacesEffect` and `DeleteEffect`.
  - `ListClusters` changes nothing and is proved to return `Listing` of the album map.
  - The `rmtree` exceptions are parameters (`uploadFault`, `clusterFault`).
- `PipelineProperties` and `ServerProperties`: lemmas about the specification functions, alone and across handlers.

## Model

| member | source | states |
|---|---|---|
| Paths.Basename | clustering.py:27 | the basename holds no `/`, is a suffix of the path, and is the whole path or comes right after a `/` |
| Paths.BasenameUnique | clustering.py:27 | any separator-free suffix that is the whole path or follows a `/` is the basename |
| Paths.BasenameOfJoin | app.py:31 | a name without `/` joined under any directory has itself as basename |
| Paths.ExactSuffixPassesFolded | app.py:52 | every name the case-sensitive listing filter accepts also passes the pipeline's lower-cased filter |
| Paths.Lower | clustering.py:35 | `str.lower()` on ASCII: a string of the same length in which each of `A`-`Z` becomes its lower-case letter and every other character is kept |
| Paths.UpperCaseExtensionPassesFoldedOnly | clustering.py:35 | `A.JPG` passes the pipeline's lower-cased filter but not the listing's exact filter |
| Paths.IsImagePath | clustering.py:35 | the pipeline's filter: the lower-cased path ends in `.jpg`, `.jpeg` or `.png` |
| Paths.ImagePathAfterPrefix | clustering.py:35 | a name that passes the lower-cased test still passes after any prefix |
| Paths.ImagePathDependsOnEnd | clustering.py:35 | for a name of at least five characters (the length of `.jpeg`), the lower-cased test gives the same verdict with or without any prefix |
| Paths.Join | app.py:23-24 | posix `os.path.join` of two components: an absolute name replaces the directory; otherwise the result is the directory, one `/` exactly when the directory is non-empty and does not end in `/`, then the name |
| AlbumNames.Decimal | clustering.py:25 | the f-string rendering of a natural number: a non-empty digit string with no leading zero (it starts with `0` only for 0) |
| AlbumNames.AlbumName | clustering.py:25 | the folder name of a label is `Person_` followed by a decimal number without leading zero |
| AlbumNames.DecimalRoundTrip | clustering.py:25 | the decimal digits written for `n` read back as `n` |
| AlbumNames.AlbumNameRoundTrip | clustering.py:25 | the folder of label `l` is `Person_` followed by the number `l + 1` |
| AlbumNames.AlbumNameInjective | clustering.py:25 | two labels share a folder iff they are equal |
| Clustering.ExtractFaceEmbedding | clustering.py:8-15 | an embedding is returned iff the model returned normally with at least one face, and it is the first face's embedding; an exception gives None |
| Clustering.Admit | clustering.py:35-38 | the embedding the loop keeps for one path: None when the lower-cased path lacks an image suffix (the `continue`), otherwise what `extract_face_embedding` returns |
| Clustering.Survivors | clustering.py:31-40 | `valid_paths` after the loop: the input paths that `Admit` accepts, in input order, with every admitted repeat kept |
| Clustering.Embeddings | clustering.py:31-40 | one embedding is collected per kept path |
| Clustering.CollectEmbeddings | clustering.py:31-40 | the loop's two lists are exactly `Survivors` and `Embeddings` of the input |
| Clustering.Published | clustering.py:23-27 | the album tree after `create_albums`: for each label in order, folder `Person_<label + 1>` is created if absent and the basename of the path at the same index is added to it; nothing is removed |
| Clustering.PipelineResult | clustering.py:30-46 | `process_images` on an album tree: when at least one embedding was collected, `Ok` of publishing the survivors under the labeller's labels for the embeddings; otherwise `Err("No valid face embeddings found.")` with no tree |
| Clustering.CreateAlbums | clustering.py:23-27 | the user's album tree becomes `Published(old tree, paths, labels)`, the intake tree is unchanged, and with no labels nothing changes |
| Clustering.ProcessImages | clustering.py:30-46 | returns normally with the albums of `PipelineResult`, or raises its message and leaves the album tree untouched |
| PipelineProperties.SurvivorsAligned | clustering.py:31-40 | the lists have equal length; the k-th kept path passed the extension test, the model found a face in it, and the k-th embedding is its first face |
| PipelineProperties.SurvivorsMembership | clustering.py:34-40 | a path is kept iff it is an input that passes both the extension test and the extraction |
| PipelineProperties.SurvivorsInOrder | clustering.py:34-40 | the kept paths are the inputs read at strictly increasing positions |
| PipelineProperties.SurvivorIndicesExact | clustering.py:34-40 | a position is kept iff the path there passes the filter and the extraction, so every admitted occurrence of a repeated path is kept |
| PipelineProperties.RejectedPathExcluded | clustering.py:8-15 | a path that fails the extension test, makes the model raise, or shows no face is not kept |
| PipelineProperties.PipelineFailsOnlyWithoutEmbeddings | clustering.py:42-46 | the pipeline raises iff no input passes the filter and the extraction, and the message is "No valid face embeddings found." |
| PipelineProperties.PublishedMembers | clustering.py:24-27 | after publishing, a folder exists iff it existed or some label maps to it; a file is in it iff it was there or some image with that basename carries such a label |
| PipelineProperties.PublishedIsAdditive | clustering.py:26-27 | publishing never removes a folder or a file |
| PipelineProperties.PublishedIdempotent | clustering.py:26-27 | publishing twice with the same input is publishing once |
| PipelineProperties.AlbumsAreLabelClasses | clustering.py:24-27 | on a fresh directory the folder of label `l` holds exactly the basenames of the images labelled `l`, every image is in its own label's folder, and every folder number is at least 1 |
| PipelineProperties.PipelinePlacesEverySurvivor | clustering.py:42-44 | on success there is one label per kept image, each kept image is in its label's folder, and earlier content stays |
| PipelineProperties.PipelineIdempotent | clustering.py:30-46 | running the pipeline again on its own output with the same images changes nothing |
| Storage.FileSystem.MakeUploadDir | app.py:25 | the user's intake directory exists afterwards, keeping its files; nothing else changes |
| Storage.FileSystem.MakeClusterDir | app.py:26 | the user's album directory exists afterwards, keeping its folders; nothing else changes |
| Storage.FileSystem.SaveUpload | app.py:32 | the name is added to the user's intake directory |
| Storage.FileSystem.MakeAlbumDir | clustering.py:26 | the album folder, and its parent directory, exist afterwards with their old content |
| Storage.FileSystem.CopyIntoAlbum | clustering.py:27 | the name is added to that album folder |
| Storage.FileSystem.RemoveUploadTree | app.py:95-96 | the intake tree is gone unless the removal raised; the exception text is returned |
| Storage.FileSystem.RemoveClusterTree | app.py:97-98 | the album tree is gone unless the removal raised; the exception text is returned |
| App.UserGiven | app.py:20 | `if not user_id` negated (the same test is app.py:88): the argument is present and is not the empty string |
| App.WithUserDirs | app.py:25-26 | the disk after `makedirs(..., exist_ok=True)` of both user directories: each user entry exists afterwards with its old content, and every other entry is unchanged |
| App.UploadPath | app.py:31 | the intake path of one upload: `os.path.join` of the user directory built at app.py:23 and the file name |
| App.UploadPaths | app.py:29-33 | the `paths` list: the intake path of each upload, one per upload, in upload order |
| App.ProcessFacesEffect | app.py:17-39 | a missing user gets "Missing user ID" and no change; otherwise both directories are made, every upload name joins the intake directory, and the pipeline runs on the upload paths and the user's album tree: success answers "Faces clustered" with the album tree replaced by the pipeline's, failure answers the pipeline's message with the saved uploads kept and the album tree as the directory creation left it |
| App.SaveUploads | app.py:28-33 | every upload's name joins the intake directory, and the returned paths are the intake paths in upload order |
| App.ProcessFaces | app.py:17-39 | the response and the new disk are `ProcessFacesEffect` of the old disk |
| Paths.IsImageName | app.py:52 | the listing's test `img.endswith(('.jpg', '.jpeg', '.png'))`: the name ends in one of the three suffixes, case-sensitively |
| App.ImageNames | app.py:52 | the names of a folder that end in `.jpg`, `.jpeg` or `.png`, case-sensitively |
| App.Listing | app.py:41-55 | `list_clusters`: an empty map when the user has no album directory; otherwise each folder holding at least one name with an exact image suffix maps to exactly those names, and no other folder appears |
| App.ListClusters | app.py:41-55 | empty for an unknown user; otherwise a folder is listed iff it holds a name ending in `.jpg`, `.jpeg` or `.png` (case-sensitive), and it maps to exactly those names |
| App.DeleteUserData | app.py:85-102 | the response and the new disk are `DeleteEffect` of the old disk |
| App.DeleteEffect | app.py:85-102 | a missing user gets "Missing user ID" and no change; otherwise an existing intake tree is removed unless its removal raises (then the error text is answered and nothing changes), then an existing album tree likewise (a raise leaves the intake removed), and success answers "Data deleted for user <u>" |
| App.DeletedMessage | app.py:99 | the success message `f"Data deleted for user {user_id}"`: the fixed text followed by the user id |
| ServerProperties.MissingUserRejected | app.py:19-21 | a missing or empty user id gets "Missing user ID" from `/process` and `/delete_all`, with the disk unchanged |
| ServerProperties.EmptyUserNeverStored | app.py:19-21 | `/process` never creates directories for the empty user id |
| ServerProperties.UserDirsIdempotent | app.py:23-26 | creating a user's directories keeps all content, and doing it twice is doing it once |
| ServerProperties.ProcessDisk | app.py:23-39 | `/process` rewrites only the user's intake entry (old files plus the uploads) and album entry (the pipeline's albums, or on error the entry as `makedirs` left it: the old tree, or an empty one if it was absent) |
| ServerProperties.ProcessKeepsExistingContent | app.py:23-39 | after `/process` every earlier intake file, album folder and album file is still present, whatever the outcome |
| ServerProperties.ProcessSavesEveryUpload | app.py:28-33 | every upload is saved in the user's intake directory, whatever its extension, and both directories exist |
| ServerProperties.ProcessTouchesOnlyItsUser | app.py:23-39 | for a user id that is a single path segment, other users' intake and album trees are unchanged by `/process` |
| ServerProperties.ProcessSucceedsIffSomeFaceFound | app.py:35-39 | `/process` reports "Faces clustered" iff some upload passes the filter and yields a face; otherwise it reports the pipeline's message |
| ServerProperties.ProcessedImagesListed | app.py:49-54 | after a successful `/process`, each kept image is in its label's album, and `/clusters` lists it there iff its name ends in an exact image suffix |
| ServerProperties.ListedIffImageName | app.py:52 | a stored album file is listed iff its name passes the case-sensitive test |
| ServerProperties.ListedNamesAreImages | app.py:52 | every listed name is stored in that folder and passes both suffix tests |
| ServerProperties.UploadPathKeepsName | app.py:31 | the album copy of an upload without `/` keeps the upload's name |
| ServerProperties.UpperCaseUploadNeverListed | app.py:52 | an upload `A.JPG` in which a face is found is saved and copied into its label's album, yet `/clusters` never lists it |
| ServerProperties.DeleteThenListEmpty | app.py:91-98 | for a user id that is a single path segment, a successful `/delete_all` removes exactly the user's two entries, so `/clusters` for that user is then empty |
| ServerProperties.DeleteOutcome | app.py:94-102 | `/delete_all` succeeds iff no removal it attempts raises; an intake failure returns its text with nothing removed; an album failure returns its text after the intake is gone |
| ServerProperties.DeleteWithoutDataIsNoop | app.py:94-99 | `/delete_all` for a user with no directories succeeds and changes nothing |
| ServerProperties.DeleteIdempotent | app.py:94-99 | repeating a successful `/delete_all` succeeds again and changes nothing |
| ServerProperties.DeleteOnlyRemoves | app.py:94-98 | for a user id that is a single path segment, `/delete_all` creates nothing and changes no entry it keeps |

`ServerProperties.UpperCaseUploadNeverListed` records a real disagreement in the source. The pipeline lower-cases the path before testing the suffix (clustering.py:35), but `/clusters` does not (app.py:52). So a photo named `A.JPG` is clustered and copied into an album, but is never listed. The model keeps both tests as written.

Two facts about the code that the model keeps as written:

- `delete_user_data` wraps both removals in one `try`, so the first exception ends it (`DeleteEffect`, `ServerProperties.DeleteOutcome`).
- Nothing is locked, and publishing is additive (`PipelineProperties.PublishedIsAdditive`): folders from an earlier run stay.

## Left out

- The face model (`DeepFace.represent`, clustering.py:10) is the parameter `deepFace`. Its result depends only on the path, because file contents are not modelled.
- `normalize` and DBSCAN (clustering.py:18-20) are the parameter `cluster`. Their floating-point arithmetic is not modelled, and embeddings are sequences of reals. An exception they might raise on malformed vectors is not modelled.
- The exception message printed by `extract_face_embedding` (clustering.py:14) is not modelled, nor is other `print` logging (app.py:101).
- Flask routing, CORS, request parsing and JSON rendering are not modelled. A response is reduced to its status and message.
- `serve_image` and `download_cluster` (app.py:57-83) are file-serving and zip plumbing with no state change. They are not modelled.
- The module-level `makedirs` of the two root directories (app.py:14-15) and `app.run` are not modelled.
- Failures of `file.save`, `os.makedirs` and `shutil.copy` are not modelled.
- Concurrency between requests is not modelled: each handler runs alone.
- File contents are not modelled. Saving a name that already exists overwrites the file, which the model shows as the name staying in the set.
- App.ListClusters: the user id is a string. A request without the `user` argument makes `os.path.join` raise (HTTP 500 in Flask), and that path is not modelled. For an empty user id the source lists the album root. The model answers that from the `""` entry, which no handler ever creates (`ServerProperties.EmptyUserNeverStored`).
- App.ListClusters: a user id is taken as a single path segment other than `.` or `..`. The source builds the album path with `os.path.join` (app.py:44) without checking the id, so `user=./v` or `user=v/` lists the albums of user `v`. The model answers from the `./v` or `v/` entry, which no handler creates for a single-segment id, so it returns an empty listing there.
- App.ListClusters: listings are sets of names. The order `os.listdir` returns them in is not modelled.
- App.ListClusters: every entry of an album directory is a folder, so the `isdir` test (app.py:51) always passes.
- App.DeleteUserData: a user id is taken as a single path segment other than `.` or `..`, so each user's trees are separate entries. The source never checks the id, and `os.path.join` (app.py:91-92) lets it name another place. For example, with `user=../clustered` the intake path `uploads/../clustered` is the album root that app.py:15 creates, so app.py:96 removes every user's albums; the album path then no longer exists and the handler answers "Data deleted for user ../clustered". The model answers the same but changes only the `../clustered` entries, which do not exist. Likewise `u` and `u/` name one directory but are two entries in the model.
- App.DeleteUserData: a removal that raises is modelled as removing nothing. What `rmtree` deleted before it failed is not modelled.
- App.ProcessFaces: user ids and upload names are taken as plain path components. For example, `user=../clustered/v` saves the uploads under `clustered/v` and publishes albums inside user `v`'s album directory, while the model writes to the separate `../clustered/v` entries. Names containing `/` or `..`, and absolute names that make `os.path.join` drop the directory, are modelled only through `Join`'s rules. They are not tied to where a real filesystem would put the file.
- Paths.Lower: lower-casing covers ASCII only. No other character lowers to a character of `.jpg`, `.jpeg` or `.png`, so the suffix test is unaffected.
