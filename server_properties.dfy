/** What the three handlers promise, alone and in sequence, proved on their specification functions. */
module ServerProperties {
  import opened Wrappers
  import opened Paths
  import opened AlbumNames
  import opened Storage
  import opened Clustering
  import opened PipelineProperties
  import opened App

  /** A missing or empty user id is answered with an error before anything on disk changes. */
  lemma MissingUserRejected(d: Disk, user: Option<string>, names: seq<FileName>, deepFace: Path -> FaceReport,
                            cluster: Labeller, uploadFault: Option<string>, clusterFault: Option<string>)
    requires !UserGiven(user)
    ensures ProcessFacesEffect(d, user, names, deepFace, cluster) == Effect(Error(MISSING_USER_MESSAGE), d)
    ensures DeleteEffect(d, user, uploadFault, clusterFault) == Effect(Error(MISSING_USER_MESSAGE), d)
  {
  }

  /** Creating a user's directories keeps everything already on disk, and doing it twice is doing it once. */
  lemma UserDirsIdempotent(d: Disk, u: UserId)
    ensures WithUserDirs(WithUserDirs(d, u), u) == WithUserDirs(d, u)
    ensures var e := WithUserDirs(d, u);
      && u in e.uploads && u in e.clustered
      && (forall v :: v in d.uploads ==> v in e.uploads && e.uploads[v] == d.uploads[v])
      && (forall v :: v in d.clustered ==> v in e.clustered && e.clustered[v] == d.clustered[v])
  {
  }

  /**
    `/process` never removes anything: every intake file, album folder and
    album file that existed before is still there, whatever the outcome.
   */
  lemma ProcessKeepsExistingContent(d: Disk, user: Option<string>, names: seq<FileName>,
                                    deepFace: Path -> FaceReport, cluster: Labeller)
    ensures var after := ProcessFacesEffect(d, user, names, deepFace, cluster).disk;
      && (forall v :: v in d.uploads ==> v in after.uploads && d.uploads[v] <= after.uploads[v])
      && (forall v, folder :: v in d.clustered && folder in d.clustered[v] ==>
            v in after.clustered && folder in after.clustered[v] && d.clustered[v][folder] <= after.clustered[v][folder])
  {
    if UserGiven(user) {
      var u := user.value;
      var tree := TreeOf(d.clustered, u);
      var paths := UploadPaths(u, names);
      var result := PipelineResult(tree, paths, deepFace, cluster);
      if result.Ok? {
        PublishedIsAdditive(tree, Survivors(paths, deepFace), cluster(Embeddings(paths, deepFace)));
      }
    }
  }

  /**
    For a given user, `/process` creates both directories and saves every
    upload under the user's intake directory, whatever its extension.
   */
  lemma ProcessSavesEveryUpload(d: Disk, user: Option<string>, names: seq<FileName>,
                                deepFace: Path -> FaceReport, cluster: Labeller)
    requires UserGiven(user)
    ensures var u, after := user.value, ProcessFacesEffect(d, user, names, deepFace, cluster).disk;
      && u in after.uploads && u in after.clustered
      && after.uploads[u] == FilesOf(d.uploads, u) + NameSet(names)
      && (forall i :: 0 <= i < |names| ==> names[i] in after.uploads[u])
  {
    ProcessDisk(d, user.value, names, deepFace, cluster);
  }

  /** `/process` leaves every other user's directories as they were. */
  lemma ProcessTouchesOnlyItsUser(d: Disk, user: Option<string>, names: seq<FileName>,
                                  deepFace: Path -> FaceReport, cluster: Labeller)
    requires UserGiven(user)
    ensures var u, after := user.value, ProcessFacesEffect(d, user, names, deepFace, cluster).disk;
      && after.uploads - {u} == d.uploads - {u}
      && after.clustered - {u} == d.clustered - {u}
  {
    var u := user.value;
    ProcessDisk(d, u, names, deepFace, cluster);
    var result := PipelineResult(TreeOf(d.clustered, u), UploadPaths(u, names), deepFace, cluster);
    UpdateThenRemove(d.uploads, u, FilesOf(d.uploads, u) + NameSet(names));
    UpdateThenRemove(d.clustered, u, if result.Ok? then result.value else TreeOf(d.clustered, u));
  }

  /** The disk `/process` leaves behind for a given user: one entry of each map rewritten, nothing else. */
  lemma ProcessDisk(d: Disk, u: UserId, names: seq<FileName>, deepFace: Path -> FaceReport, cluster: Labeller)
    requires u != ""
    ensures var after := ProcessFacesEffect(d, Some(u), names, deepFace, cluster).disk;
      var result := PipelineResult(TreeOf(d.clustered, u), UploadPaths(u, names), deepFace, cluster);
      && after.uploads == d.uploads[u := FilesOf(d.uploads, u) + NameSet(names)]
      && after.clustered == d.clustered[u := if result.Ok? then result.value else TreeOf(d.clustered, u)]
  {
    ProcessUploads(d, u, names, deepFace, cluster);
    ProcessAlbums(d, u, names, deepFace, cluster);
  }

  lemma ProcessUploads(d: Disk, u: UserId, names: seq<FileName>, deepFace: Path -> FaceReport, cluster: Labeller)
    requires u != ""
    ensures ProcessFacesEffect(d, Some(u), names, deepFace, cluster).disk.uploads
         == d.uploads[u := FilesOf(d.uploads, u) + NameSet(names)]
  {
    var ready := WithUserDirs(d, u);
    assert ready.uploads[u := ready.uploads[u] + NameSet(names)] == d.uploads[u := FilesOf(d.uploads, u) + NameSet(names)];
  }

  lemma ProcessAlbums(d: Disk, u: UserId, names: seq<FileName>, deepFace: Path -> FaceReport, cluster: Labeller)
    requires u != ""
    ensures var result := PipelineResult(TreeOf(d.clustered, u), UploadPaths(u, names), deepFace, cluster);
      ProcessFacesEffect(d, Some(u), names, deepFace, cluster).disk.clustered
        == d.clustered[u := if result.Ok? then result.value else TreeOf(d.clustered, u)]
  {
    assert WithUserDirs(d, u).clustered[u] == TreeOf(d.clustered, u);
  }

  /** Rewriting one entry of a map and then dropping it is dropping it. */
  lemma UpdateThenRemove<K, V>(m: map<K, V>, k: K, v: V)
    ensures m[k := v] - {k} == m - {k}
  {
  }

  /**
    `/process` reports success exactly when some upload passes the extension
    test and yields a face; otherwise the answer is the pipeline's
    "No valid face embeddings found." error.
   */
  lemma ProcessSucceedsIffSomeFaceFound(d: Disk, user: Option<string>, names: seq<FileName>,
                                        deepFace: Path -> FaceReport, cluster: Labeller)
    requires UserGiven(user)
    ensures var response := ProcessFacesEffect(d, user, names, deepFace, cluster).response;
      && (response.Success? <==> exists i :: 0 <= i < |names| && Admit(deepFace, UploadPath(user.value, names[i])).Some?)
      && (response.Success? ==> response.message == CLUSTERED_MESSAGE)
      && (response.Error? ==> response.message == NO_EMBEDDINGS_MESSAGE)
  {
    var u := user.value;
    var paths := UploadPaths(u, names);
    PipelineFailsOnlyWithoutEmbeddings(TreeOf(d.clustered, u), paths, deepFace, cluster);
    if exists i :: 0 <= i < |names| && Admit(deepFace, UploadPath(u, names[i])).Some? {
      var i :| 0 <= i < |names| && Admit(deepFace, UploadPath(u, names[i])).Some?;
      assert paths[i] in paths;
    }
  }

  /**
    After a successful `/process`, every image the pipeline kept is in the
    album folder of its label, and `/clusters` lists it there exactly when its
    basename ends in a lower-case image suffix.
   */
  lemma ProcessedImagesListed(d: Disk, user: Option<string>, names: seq<FileName>,
                              deepFace: Path -> FaceReport, cluster: Labeller, k: nat)
    requires UserGiven(user)
    requires ProcessFacesEffect(d, user, names, deepFace, cluster).response.Success?
    requires k < |Survivors(UploadPaths(user.value, names), deepFace)|
    ensures var u, after := user.value, ProcessFacesEffect(d, user, names, deepFace, cluster).disk;
      var paths := UploadPaths(u, names);
      var kept, labels := Survivors(paths, deepFace), cluster(Embeddings(paths, deepFace));
      var folder, name := AlbumName(labels[k]), Basename(kept[k]);
      var listing := Listing(after.clustered, u);
      && u in after.clustered && folder in after.clustered[u] && name in after.clustered[u][folder]
      && ((folder in listing && name in listing[folder]) <==> IsImageName(name))
  {
    var u := user.value;
    var after := ProcessFacesEffect(d, user, names, deepFace, cluster).disk;
    var paths := UploadPaths(u, names);
    var kept, labels := Survivors(paths, deepFace), cluster(Embeddings(paths, deepFace));
    var tree := TreeOf(d.clustered, u);
    var result := PipelineResult(tree, paths, deepFace, cluster);
    assert result.Ok? && after.clustered == WithUserDirs(d, u).clustered[u := result.value];
    PipelinePlacesEverySurvivor(tree, paths, deepFace, cluster);
    ListedIffImageName(after.clustered, u, AlbumName(labels[k]), Basename(kept[k]));
  }

  /** A file stored in one of the user's album folders is listed there exactly when its name passes the case-sensitive test. */
  lemma ListedIffImageName(clustered: map<UserId, AlbumTree>, u: UserId, folder: FolderName, name: FileName)
    requires u in clustered && folder in clustered[u] && name in clustered[u][folder]
    ensures var listing := Listing(clustered, u);
      (folder in listing && name in listing[folder]) <==> IsImageName(name)
  {
    if IsImageName(name) {
      assert name in ImageNames(clustered[u][folder]);
    }
  }

  /**
    An upload named `A.JPG` in which a face is found passes the pipeline's
    case-insensitive filter and is copied into an album, yet `/clusters`,
    which filters case-sensitively, never lists it.
   */
  lemma UpperCaseUploadNeverListed(d: Disk, u: UserId, deepFace: Path -> FaceReport, cluster: Labeller)
    requires u != ""
    requires deepFace(UploadPath(u, "A.JPG")).Faces? && deepFace(UploadPath(u, "A.JPG")).embeddings != []
    ensures var e := ProcessFacesEffect(d, Some(u), ["A.JPG"], deepFace, cluster);
      var folder := AlbumName(cluster([deepFace(UploadPath(u, "A.JPG")).embeddings[0]])[0]);
      && e.response == Success(CLUSTERED_MESSAGE)
      && "A.JPG" in e.disk.uploads[u]
      && folder in e.disk.clustered[u] && "A.JPG" in e.disk.clustered[u][folder]
      && forall f :: f in Listing(e.disk.clustered, u) ==> "A.JPG" !in Listing(e.disk.clustered, u)[f]
  {
    UpperCaseUploadKept(u, deepFace);
    UpperCaseUploadPath(u);
    var e := ProcessFacesEffect(d, Some(u), ["A.JPG"], deepFace, cluster);
    ProcessSucceedsIffSomeFaceFound(d, Some(u), ["A.JPG"], deepFace, cluster);
    assert Admit(deepFace, UploadPath(u, ["A.JPG"][0])).Some?;
    ProcessSavesEveryUpload(d, Some(u), ["A.JPG"], deepFace, cluster);
    assert "A.JPG" == ["A.JPG"][0];
    ProcessedImagesListed(d, Some(u), ["A.JPG"], deepFace, cluster, 0);
    ListedNamesAreImages(e.disk.clustered, u);
    UpperCaseExtensionPassesFoldedOnly();
  }

  /** The pipeline keeps `A.JPG` when a face is found in it. */
  lemma UpperCaseUploadKept(u: UserId, deepFace: Path -> FaceReport)
    requires deepFace(UploadPath(u, "A.JPG")).Faces? && deepFace(UploadPath(u, "A.JPG")).embeddings != []
    ensures var path := UploadPath(u, "A.JPG");
      && Survivors(UploadPaths(u, ["A.JPG"]), deepFace) == [path]
      && Embeddings(UploadPaths(u, ["A.JPG"]), deepFace) == [deepFace(path).embeddings[0]]
  {
    var path := UploadPath(u, "A.JPG");
    UpperCaseUploadPath(u);
    var paths := UploadPaths(u, ["A.JPG"]);
    assert paths == [path];
    SingleSurvivor(path, deepFace);
  }

  /** A single admitted path is kept, with its embedding. */
  lemma SingleSurvivor(path: Path, deepFace: Path -> FaceReport)
    requires Admit(deepFace, path).Some?
    ensures Survivors([path], deepFace) == [path]
    ensures Embeddings([path], deepFace) == [Admit(deepFace, path).value]
  {
    assert [path][..0] == [];
  }

  /** The intake path of `A.JPG` passes the folded extension test, and its basename is the upload's name. */
  lemma UpperCaseUploadPath(u: UserId)
    ensures IsImagePath(UploadPath(u, "A.JPG")) && Basename(UploadPath(u, "A.JPG")) == "A.JPG"
  {
    UpperCaseExtensionPassesFoldedOnly();
    assert "A.JPG"[0] != '/';
    assert '/' !in "A.JPG";
    UploadPathKeepsName(u, "A.JPG");
    UploadPathKeepsImage(u, "A.JPG");
  }

  /** A plain upload name is the basename of its intake path. */
  lemma UploadPathKeepsName(u: UserId, name: FileName)
    requires '/' !in name
    ensures Basename(UploadPath(u, name)) == name
  {
    BasenameOfJoin(Join(UPLOAD_FOLDER, u), name);
  }

  /** A relative upload name that passes the folded test keeps passing it once joined under the intake directory. */
  lemma UploadPathKeepsImage(u: UserId, name: FileName)
    requires IsImagePath(name) && (|name| == 0 || name[0] != '/')
    ensures IsImagePath(UploadPath(u, name))
  {
    JoinKeepsImagePath(Join(UPLOAD_FOLDER, u), name);
  }

  /** Every name `/clusters` lists would also pass the pipeline's case-insensitive filter. */
  lemma ListedNamesAreImages(clustered: map<UserId, AlbumTree>, u: UserId)
    ensures var listing := Listing(clustered, u);
      forall folder, name :: folder in listing && name in listing[folder] ==>
        u in clustered && folder in clustered[u] && name in clustered[u][folder] && IsImageName(name) && IsImagePath(name)
  {
    var listing := Listing(clustered, u);
    forall folder, name | folder in listing && name in listing[folder]
      ensures IsImagePath(name)
    {
      ExactSuffixPassesFolded(name);
    }
  }

  /**
    A successful `/delete_all` removes exactly the user's two trees, so
    `/clusters` for that user answers with an empty mapping, and every other
    user's directories are unchanged.
   */
  lemma DeleteThenListEmpty(d: Disk, user: Option<string>, uploadFault: Option<string>, clusterFault: Option<string>)
    requires DeleteEffect(d, user, uploadFault, clusterFault).response.Success?
    ensures UserGiven(user)
    ensures var after := DeleteEffect(d, user, uploadFault, clusterFault).disk;
      && after.uploads == d.uploads - {user.value}
      && after.clustered == d.clustered - {user.value}
      && Listing(after.clustered, user.value) == map[]
  {
  }

  /** `/delete_all` succeeds exactly when no removal it attempts raises, and its first failure ends it. */
  lemma DeleteOutcome(d: Disk, user: Option<string>, uploadFault: Option<string>, clusterFault: Option<string>)
    requires UserGiven(user)
    ensures var u, e := user.value, DeleteEffect(d, user, uploadFault, clusterFault);
      && (e.response.Success? <==> !(u in d.uploads && uploadFault.Some?) && !(u in d.clustered && clusterFault.Some?))
      && (u in d.uploads && uploadFault.Some? ==> e == Effect(Error(uploadFault.value), d))
      && (!(u in d.uploads && uploadFault.Some?) && u in d.clustered && clusterFault.Some? ==>
            e == Effect(Error(clusterFault.value), d.(uploads := d.uploads - {u})))
  {
  }

  /** `/delete_all` for a user without data succeeds and changes nothing. */
  lemma DeleteWithoutDataIsNoop(d: Disk, u: UserId, uploadFault: Option<string>, clusterFault: Option<string>)
    requires u != "" && u !in d.uploads && u !in d.clustered
    ensures DeleteEffect(d, Some(u), uploadFault, clusterFault) == Effect(Success(DeletedMessage(u)), d)
  {
    assert d.uploads - {u} == d.uploads;
    assert d.clustered - {u} == d.clustered;
  }

  /** Repeating a successful `/delete_all` succeeds again, whatever the I/O would do, and changes nothing more. */
  lemma DeleteIdempotent(d: Disk, user: Option<string>, uploadFault: Option<string>, clusterFault: Option<string>,
                         uploadFault': Option<string>, clusterFault': Option<string>)
    requires DeleteEffect(d, user, uploadFault, clusterFault).response.Success?
    ensures var once := DeleteEffect(d, user, uploadFault, clusterFault);
      DeleteEffect(once.disk, user, uploadFault', clusterFault') == once
  {
    var once := DeleteEffect(d, user, uploadFault, clusterFault);
    DeleteWithoutDataIsNoop(once.disk, user.value, uploadFault', clusterFault');
  }

  /** `/process` never creates a directory for the empty user id. */
  lemma EmptyUserNeverStored(d: Disk, user: Option<string>, names: seq<FileName>, deepFace: Path -> FaceReport,
                             cluster: Labeller)
    requires "" !in d.uploads && "" !in d.clustered
    ensures var after := ProcessFacesEffect(d, user, names, deepFace, cluster).disk;
      "" !in after.uploads && "" !in after.clustered
  {
    if UserGiven(user) {
      ProcessDisk(d, user.value, names, deepFace, cluster);
    }
  }

  /** `/delete_all` only ever removes users' directories; it creates none. */
  lemma DeleteOnlyRemoves(d: Disk, user: Option<string>, uploadFault: Option<string>, clusterFault: Option<string>)
    ensures var after := DeleteEffect(d, user, uploadFault, clusterFault).disk;
      && after.uploads.Keys <= d.uploads.Keys && after.clustered.Keys <= d.clustered.Keys
      && (forall v :: v in after.uploads ==> after.uploads[v] == d.uploads[v])
      && (forall v :: v in after.clustered ==> after.clustered[v] == d.clustered[v])
  {
  }
}
