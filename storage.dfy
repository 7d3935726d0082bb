/**
  The part of the filesystem the server touches: one intake directory
  `uploads/<user>` per user, holding file names, and one cluster directory
  `clustered/<user>` per user, holding album folders that hold file names.
  A key is present exactly when the directory exists. File contents are not
  modelled.
 */
module Storage {
  import opened Wrappers

  type UserId = string
  type FileName = string
  type FolderName = string

  /** The album folders of one cluster directory and the files in each. */
  type AlbumTree = map<FolderName, set<FileName>>

  /** A snapshot of both trees, for stating what an operation does to them. */
  datatype Disk = Disk(uploads: map<UserId, set<FileName>>, clustered: map<UserId, AlbumTree>)

  /** The files of a user's intake directory, empty when it does not exist. */
  function FilesOf(uploads: map<UserId, set<FileName>>, user: UserId): set<FileName> {
    if user in uploads then uploads[user] else {}
  }

  /** The album folders of a user's cluster directory, none when it does not exist. */
  function TreeOf(clustered: map<UserId, AlbumTree>, user: UserId): AlbumTree {
    if user in clustered then clustered[user] else map[]
  }

  function FolderOf(tree: AlbumTree, folder: FolderName): set<FileName> {
    if folder in tree then tree[folder] else {}
  }

  /** `tree` after creating `folder` if needed and copying `name` into it. */
  function WithFile(tree: AlbumTree, folder: FolderName, name: FileName): AlbumTree {
    tree[folder := FolderOf(tree, folder) + {name}]
  }

  class FileSystem {
    var uploads: map<UserId, set<FileName>>
    var clustered: map<UserId, AlbumTree>

    function State(): Disk
      reads this
    {
      Disk(uploads, clustered)
    }

    constructor ()
      ensures uploads == map[] && clustered == map[]
    {
      uploads := map[];
      clustered := map[];
    }

    /** `os.makedirs(uploads/<user>, exist_ok=True)`. */
    method MakeUploadDir(user: UserId)
      modifies this
      ensures uploads == old(uploads)[user := FilesOf(old(uploads), user)]
      ensures clustered == old(clustered)
    {
      uploads := uploads[user := FilesOf(uploads, user)];
    }

    /** `os.makedirs(clustered/<user>, exist_ok=True)`. */
    method MakeClusterDir(user: UserId)
      modifies this
      ensures clustered == old(clustered)[user := TreeOf(old(clustered), user)]
      ensures uploads == old(uploads)
    {
      clustered := clustered[user := TreeOf(clustered, user)];
    }

    /** `file.save(uploads/<user>/<name>)`: creates or overwrites the file. */
    method SaveUpload(user: UserId, name: FileName)
      requires user in uploads
      modifies this
      ensures uploads == old(uploads)[user := old(uploads)[user] + {name}]
      ensures clustered == old(clustered)
    {
      uploads := uploads[user := uploads[user] + {name}];
    }

    /** `os.makedirs(clustered/<user>/<folder>, exist_ok=True)`, parents included. */
    method MakeAlbumDir(user: UserId, folder: FolderName)
      modifies this
      ensures var tree := TreeOf(old(clustered), user);
        clustered == old(clustered)[user := tree[folder := FolderOf(tree, folder)]]
      ensures uploads == old(uploads)
    {
      var tree := TreeOf(clustered, user);
      clustered := clustered[user := tree[folder := FolderOf(tree, folder)]];
    }

    /** `shutil.copy` of a file into an existing album folder under the name `name`. */
    method CopyIntoAlbum(user: UserId, folder: FolderName, name: FileName)
      requires user in clustered && folder in clustered[user]
      modifies this
      ensures clustered == old(clustered)[user := WithFile(old(clustered)[user], folder, name)]
      ensures uploads == old(uploads)
    {
      clustered := clustered[user := WithFile(clustered[user], folder, name)];
    }

    /**
      `shutil.rmtree(uploads/<user>)`. The outcome of the I/O is the parameter
      `fault`: the text of the exception it raises, or None when it succeeds.
     */
    method RemoveUploadTree(user: UserId, fault: Option<string>) returns (error: Option<string>)
      requires user in uploads
      modifies this
      ensures error == fault
      ensures uploads == if fault.None? then old(uploads) - {user} else old(uploads)
      ensures clustered == old(clustered)
    {
      error := fault;
      if fault.None? {
        uploads := uploads - {user};
      }
    }

    /** `shutil.rmtree(clustered/<user>)`, with its outcome given as for RemoveUploadTree. */
    method RemoveClusterTree(user: UserId, fault: Option<string>) returns (error: Option<string>)
      requires user in clustered
      modifies this
      ensures error == fault
      ensures clustered == if fault.None? then old(clustered) - {user} else old(clustered)
      ensures uploads == old(uploads)
    {
      error := fault;
      if fault.None? {
        clustered := clustered - {user};
      }
    }
  }
}
