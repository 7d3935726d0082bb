/**
  The three request handlers that touch storage: `/process`, `/clusters` and
  `/delete_all`. Request parsing and JSON rendering are reduced to the user
  argument, the uploaded file names and the status/message pair returned.
 */
module App {
  import opened Wrappers
  import opened Paths
  import opened Storage
  import opened Clustering

  const UPLOAD_FOLDER := "uploads"
  const MISSING_USER_MESSAGE := "Missing user ID"
  const CLUSTERED_MESSAGE := "Faces clustered"

  /** The `{"status": ..., "message": ...}` body of a response. */
  datatype Response = Success(message: string) | Error(message: string)

  /** A response together with the disk it leaves behind. */
  datatype Effect = Effect(response: Response, disk: Disk)

  function DeletedMessage(user: UserId): string {
    "Data deleted for user " + user
  }

  /** `if not user_id`: the argument is present and not the empty string. */
  predicate UserGiven(user: Option<string>) {
    user.Some? && user.value != ""
  }

  /** `os.path.join(os.path.join(UPLOAD_FOLDER, user), name)`. */
  function UploadPath(user: UserId, name: FileName): Path {
    Join(Join(UPLOAD_FOLDER, user), name)
  }

  /** The `paths` list built while saving the uploads, in upload order. */
  function UploadPaths(user: UserId, names: seq<FileName>): seq<Path> {
    seq(|names|, i requires 0 <= i < |names| => UploadPath(user, names[i]))
  }

  function NameSet(names: seq<FileName>): set<FileName> {
    set n | n in names
  }

  /** The disk after `os.makedirs(..., exist_ok=True)` on both directories of `user`. */
  function WithUserDirs(d: Disk, user: UserId): Disk {
    Disk(d.uploads[user := FilesOf(d.uploads, user)], d.clustered[user := TreeOf(d.clustered, user)])
  }

  /** What `process_faces` answers and leaves on disk. */
  function ProcessFacesEffect(d: Disk, user: Option<string>, names: seq<FileName>,
                              deepFace: Path -> FaceReport, cluster: Labeller): Effect
  {
    if !UserGiven(user) then Effect(Error(MISSING_USER_MESSAGE), d)
    else
      var u := user.value;
      var ready := WithUserDirs(d, u);
      var saved := ready.(uploads := ready.uploads[u := ready.uploads[u] + NameSet(names)]);
      match PipelineResult(saved.clustered[u], UploadPaths(u, names), deepFace, cluster)
      case Ok(tree) => Effect(Success(CLUSTERED_MESSAGE), saved.(clustered := saved.clustered[u := tree]))
      case Err(message) => Effect(Error(message), saved)
  }

  /** The comprehension of `list_clusters`: names ending in an image suffix, case-sensitively. */
  function ImageNames(files: set<FileName>): set<FileName> {
    set f | f in files && IsImageName(f)
  }

  /** What `list_clusters` answers for `user`. */
  function Listing(clustered: map<UserId, AlbumTree>, user: UserId): map<FolderName, set<FileName>> {
    if user !in clustered then map[]
    else
      var tree := clustered[user];
      map folder | folder in tree && ImageNames(tree[folder]) != {} :: ImageNames(tree[folder])
  }

  /**
    What `delete_user_data` answers and leaves on disk. `uploadFault` and
    `clusterFault` are the exceptions the two removals raise, if any.
   */
  function DeleteEffect(d: Disk, user: Option<string>, uploadFault: Option<string>, clusterFault: Option<string>): Effect {
    if !UserGiven(user) then Effect(Error(MISSING_USER_MESSAGE), d)
    else
      var u := user.value;
      if u in d.uploads && uploadFault.Some? then Effect(Error(uploadFault.value), d)
      else
        var cleared := d.(uploads := d.uploads - {u});
        if u in d.clustered && clusterFault.Some? then Effect(Error(clusterFault.value), cleared)
        else Effect(Success(DeletedMessage(u)), cleared.(clustered := d.clustered - {u}))
  }

  /** `/process`: check the user, create both directories, save every upload, run the pipeline. */
  method ProcessFaces(fs: FileSystem, user: Option<string>, names: seq<FileName>,
                      deepFace: Path -> FaceReport, cluster: Labeller)
    returns (response: Response)
    modifies fs
    ensures Effect(response, fs.State()) == ProcessFacesEffect(old(fs.State()), user, names, deepFace, cluster)
  {
    if user.None? || user.value == "" {
      return Error(MISSING_USER_MESSAGE);
    }
    var u := user.value;
    fs.MakeUploadDir(u);
    fs.MakeClusterDir(u);
    var paths := SaveUploads(fs, u, names);
    var raised := ProcessImages(fs, paths, u, deepFace, cluster);
    if raised.None? {
      response := Success(CLUSTERED_MESSAGE);
    } else {
      response := Error(raised.value);
    }
  }

  /** The saving loop of `/process`: every upload is written to the intake directory, whatever its name. */
  method SaveUploads(fs: FileSystem, u: UserId, names: seq<FileName>) returns (paths: seq<Path>)
    requires u in fs.uploads
    modifies fs
    ensures paths == UploadPaths(u, names)
    ensures fs.uploads == old(fs.uploads)[u := old(fs.uploads)[u] + NameSet(names)]
    ensures fs.clustered == old(fs.clustered)
  {
    ghost var start := fs.uploads;
    paths := [];
    SaveStep(start, u, names, 0);
    for i := 0 to |names|
      invariant fs.clustered == old(fs.clustered)
      invariant fs.uploads == start[u := start[u] + NameSet(names[..i])]
      invariant paths == UploadPaths(u, names[..i])
    {
      var path := UploadPath(u, names[i]);
      fs.SaveUpload(u, names[i]);
      paths := paths + [path];
      SaveStep(start, u, names, i);
    }
    assert names[..|names|] == names;
  }

  /** Saving the uploads one at a time adds exactly the uploaded names to the intake directory. */
  lemma SaveStep(uploads: map<UserId, set<FileName>>, u: UserId, names: seq<FileName>, i: nat)
    requires u in uploads && i <= |names|
    ensures i == 0 ==> uploads[u := uploads[u] + NameSet(names[..i])] == uploads
    ensures i < |names| ==>
      var before := uploads[u := uploads[u] + NameSet(names[..i])];
      before[u := before[u] + {names[i]}] == uploads[u := uploads[u] + NameSet(names[..i + 1])]
  {
    if i == 0 {
      assert NameSet(names[..0]) == {};
      assert uploads[u] + {} == uploads[u];
    }
    if i < |names| {
      assert names[..i + 1] == names[..i] + [names[i]];
      assert NameSet(names[..i + 1]) == NameSet(names[..i]) + {names[i]};
      var before := uploads[u := uploads[u] + NameSet(names[..i])];
      assert before[u] + {names[i]} == uploads[u] + NameSet(names[..i + 1]);
    }
  }

  /**
    `/clusters`: one entry per album folder of `user` that holds at least one
    file whose name ends in `.jpg`, `.jpeg` or `.png` (case-sensitively),
    mapping it to exactly those names.
   */
  method ListClusters(fs: FileSystem, user: UserId) returns (result: map<FolderName, set<FileName>>)
    ensures user !in fs.clustered ==> result == map[]
    ensures forall folder :: folder in result <==>
      user in fs.clustered && folder in fs.clustered[user] && ImageNames(fs.clustered[user][folder]) != {}
    ensures forall folder :: folder in result ==> result[folder] == ImageNames(fs.clustered[user][folder])
    ensures result == Listing(fs.clustered, user)
  {
    result := map[];
    if user !in fs.clustered {
      return;
    }
    var tree := fs.clustered[user];
    var pending := tree.Keys;
    // Every entry of the model's cluster directory is a folder, so the `isdir` test always passes.
    while pending != {}
      invariant pending <= tree.Keys
      invariant forall folder :: folder in result <==> folder in tree && folder !in pending && ImageNames(tree[folder]) != {}
      invariant forall folder :: folder in result ==> result[folder] == ImageNames(tree[folder])
      decreases pending
    {
      var folder :| folder in pending;
      var images := ImageNames(tree[folder]);
      if images != {} {
        result := result[folder := images];
      }
      pending := pending - {folder};
    }
    assert result == Listing(fs.clustered, user);
  }

  /**
    `/delete_all`: remove the intake and the cluster tree of `user` where they
    exist; an exception in the first removal skips the second.
   */
  method DeleteUserData(fs: FileSystem, user: Option<string>, uploadFault: Option<string>, clusterFault: Option<string>)
    returns (response: Response)
    modifies fs
    ensures Effect(response, fs.State()) == DeleteEffect(old(fs.State()), user, uploadFault, clusterFault)
  {
    if user.None? || user.value == "" {
      return Error(MISSING_USER_MESSAGE);
    }
    var u := user.value;
    if u in fs.uploads {
      var error := fs.RemoveUploadTree(u, uploadFault);
      if error.Some? {
        return Error(error.value);
      }
    }
    if u in fs.clustered {
      var error := fs.RemoveClusterTree(u, clusterFault);
      if error.Some? {
        return Error(error.value);
      }
    }
    response := Success(DeletedMessage(u));
  }
}
