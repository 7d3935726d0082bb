/**
  The batch pipeline: filter the paths by extension, extract one embedding per
  image, cluster the embeddings, and copy every clustered image into the album
  folder of its label.
 */
module Clustering {
  import opened Wrappers
  import opened Paths
  import opened AlbumNames
  import opened Storage

  type Vector = seq<real>

  /** What the face model reports for one image: an exception, or one embedding per detected face. */
  datatype FaceReport = Raised | Faces(embeddings: seq<Vector>)

  /**
    `extract_face_embedding`: the embedding of the first detected face, or None
    when the model raised (the exception is caught) or detected no face.
   */
  function ExtractFaceEmbedding(deepFace: Path -> FaceReport, path: Path): (embedding: Option<Vector>)
    ensures embedding.Some? <==> deepFace(path).Faces? && deepFace(path).embeddings != []
    ensures embedding.Some? ==> embedding.value == deepFace(path).embeddings[0]
  {
    match deepFace(path)
    case Raised => None
    case Faces(faces) => if faces != [] then Some(faces[0]) else None
  }

  /**
    `cluster_faces`: normalisation followed by DBSCAN with `min_samples=1`,
    taken as given. It returns one label per embedding, and with
    `min_samples=1` no point is noise, so no label is -1.
   */
  type Labeller = f: seq<Vector> -> seq<nat> | forall vs :: |f(vs)| == |vs|
    witness (vs: seq<Vector>) => seq(|vs|, i => 0)

  /** The embedding the loop keeps for `p`: None when the extension test or the extraction rejects it. */
  function Admit(deepFace: Path -> FaceReport, p: Path): Option<Vector> {
    if IsImagePath(p) then ExtractFaceEmbedding(deepFace, p) else None
  }

  /** `valid_paths` after the loop over `paths`. */
  function Survivors(paths: seq<Path>, deepFace: Path -> FaceReport): seq<Path>
    decreases |paths|
  {
    if paths == [] then []
    else
      var p := paths[|paths| - 1];
      Survivors(paths[..|paths| - 1], deepFace) + (if Admit(deepFace, p).Some? then [p] else [])
  }

  /** `embeddings` after the loop over `paths`; it stays in lockstep with `valid_paths`. */
  function Embeddings(paths: seq<Path>, deepFace: Path -> FaceReport): (es: seq<Vector>)
    ensures |es| == |Survivors(paths, deepFace)|
    decreases |paths|
  {
    if paths == [] then []
    else
      var p := paths[|paths| - 1];
      Embeddings(paths[..|paths| - 1], deepFace) + (if Admit(deepFace, p).Some? then [Admit(deepFace, p).value] else [])
  }

  /** The positions in `paths` that `Survivors` keeps, in order. */
  function SurvivorIndices(paths: seq<Path>, deepFace: Path -> FaceReport): seq<nat>
    decreases |paths|
  {
    if paths == [] then []
    else
      var k := |paths| - 1;
      SurvivorIndices(paths[..k], deepFace) + (if Admit(deepFace, paths[k]).Some? then [k] else [])
  }

  /** `sub` is `s` read at the strictly increasing positions `idx`. */
  predicate SubsequenceAt<T(==)>(sub: seq<T>, s: seq<T>, idx: seq<nat>) {
    && |idx| == |sub|
    && (forall k :: 0 <= k < |idx| ==> idx[k] < |s| && sub[k] == s[idx[k]])
    && (forall j, k :: 0 <= j < k < |idx| ==> idx[j] < idx[k])
  }

  /** Some image among the first `|labels|` paths is copied under the name `name` into `folder`. */
  predicate Placed(paths: seq<Path>, labels: seq<nat>, folder: FolderName, name: FileName)
    requires |labels| <= |paths|
  {
    exists i :: 0 <= i < |labels| && AlbumName(labels[i]) == folder && Basename(paths[i]) == name
  }

  /** Some label is published in `folder`. */
  predicate Labelled(labels: seq<nat>, folder: FolderName) {
    exists i :: 0 <= i < |labels| && AlbumName(labels[i]) == folder
  }

  /** The cluster directory after `create_albums(paths, labels, ...)` ran on `tree`. */
  function Published(tree: AlbumTree, paths: seq<Path>, labels: seq<nat>): AlbumTree
    requires |labels| <= |paths|
    decreases |labels|
  {
    if labels == [] then tree
    else
      var k := |labels| - 1;
      WithFile(Published(tree, paths, labels[..k]), AlbumName(labels[k]), Basename(paths[k]))
  }

  const NO_EMBEDDINGS_MESSAGE := "No valid face embeddings found."

  /** `process_images(paths, ...)` on a cluster directory holding `tree`. */
  function PipelineResult(tree: AlbumTree, paths: seq<Path>, deepFace: Path -> FaceReport, cluster: Labeller): Result<AlbumTree> {
    var embeddings := Embeddings(paths, deepFace);
    if embeddings != [] then Ok(Published(tree, Survivors(paths, deepFace), cluster(embeddings)))
    else Err(NO_EMBEDDINGS_MESSAGE)
  }

  /** The filter-and-collect loop of `process_images`. */
  method CollectEmbeddings(imagePaths: seq<Path>, deepFace: Path -> FaceReport)
    returns (embeddings: seq<Vector>, validPaths: seq<Path>)
    ensures validPaths == Survivors(imagePaths, deepFace)
    ensures embeddings == Embeddings(imagePaths, deepFace)
  {
    embeddings, validPaths := [], [];
    for i := 0 to |imagePaths|
      invariant validPaths == Survivors(imagePaths[..i], deepFace)
      invariant embeddings == Embeddings(imagePaths[..i], deepFace)
    {
      var path := imagePaths[i];
      assert imagePaths[..i + 1][..i] == imagePaths[..i];
      if !IsImagePath(path) {
        continue;
      }
      var embedding := ExtractFaceEmbedding(deepFace, path);
      if embedding.Some? {
        embeddings := embeddings + [embedding.value];
        validPaths := validPaths + [path];
      }
    }
    assert imagePaths[..|imagePaths|] == imagePaths;
  }

  /** `create_albums`: one folder per label, one copy per labelled image. */
  method CreateAlbums(fs: FileSystem, imagePaths: seq<Path>, labels: seq<nat>, out: UserId)
    requires |labels| <= |imagePaths|
    modifies fs
    ensures fs.clustered == if labels == [] then old(fs.clustered)
      else old(fs.clustered)[out := Published(TreeOf(old(fs.clustered), out), imagePaths, labels)]
    ensures fs.uploads == old(fs.uploads)
  {
    ghost var start, tree := fs.clustered, TreeOf(fs.clustered, out);
    ghost var done := tree;
    for idx := 0 to |labels|
      invariant fs.uploads == old(fs.uploads)
      invariant done == Published(tree, imagePaths, labels[..idx])
      invariant fs.clustered == if idx == 0 then start else start[out := done]
    {
      var folder, name := AlbumName(labels[idx]), Basename(imagePaths[idx]);
      ghost var before := fs.clustered;
      fs.MakeAlbumDir(out, folder);
      fs.CopyIntoAlbum(out, folder, name);
      MakeThenCopy(start, before, out, done, folder, name);
      PublishedStep(tree, imagePaths, labels, idx);
      done := WithFile(done, folder, name);
    }
    assert labels[..|labels|] == labels;
  }

  /** Creating the album folder before the copy leaves the same directory as the copy alone. */
  lemma MakeThenCopy(start: map<UserId, AlbumTree>, before: map<UserId, AlbumTree>, out: UserId,
                     tree: AlbumTree, folder: FolderName, name: FileName)
    requires TreeOf(before, out) == tree
    requires before == start || before == start[out := tree]
    ensures var made := before[out := tree[folder := FolderOf(tree, folder)]];
      made[out := WithFile(made[out], folder, name)] == start[out := WithFile(tree, folder, name)]
  {
    var made := before[out := tree[folder := FolderOf(tree, folder)]];
    assert WithFile(made[out], folder, name) == WithFile(tree, folder, name);
  }

  lemma PublishedStep(tree: AlbumTree, paths: seq<Path>, labels: seq<nat>, idx: nat)
    requires idx < |labels| <= |paths|
    ensures Published(tree, paths, labels[..idx + 1])
      == WithFile(Published(tree, paths, labels[..idx]), AlbumName(labels[idx]), Basename(paths[idx]))
  {
    assert labels[..idx + 1][..idx] == labels[..idx];
  }

  /** `process_images`: returns normally, or raises with the message in `raised`. */
  method ProcessImages(fs: FileSystem, imagePaths: seq<Path>, out: UserId, deepFace: Path -> FaceReport, cluster: Labeller)
    returns (raised: Option<string>)
    modifies fs
    ensures fs.uploads == old(fs.uploads)
    ensures match PipelineResult(TreeOf(old(fs.clustered), out), imagePaths, deepFace, cluster)
      case Ok(tree) => raised == None && fs.clustered == old(fs.clustered)[out := tree]
      case Err(message) => raised == Some(message) && fs.clustered == old(fs.clustered)
  {
    var embeddings, validPaths := CollectEmbeddings(imagePaths, deepFace);
    if embeddings != [] {
      var labels := cluster(embeddings);
      CreateAlbums(fs, validPaths, labels, out);
      raised := None;
    } else {
      raised := Some(NO_EMBEDDINGS_MESSAGE);
    }
  }
}
