/** What `process_images` and `create_albums` promise, proved on their specification functions. */
module PipelineProperties {
  import opened Wrappers
  import opened Paths
  import opened AlbumNames
  import opened Storage
  import opened Clustering

  /**
    The two lists stay in lockstep: the k-th kept path passed the folded
    extension test, the model found at least one face in it, and the k-th
    embedding is the first of those faces.
   */
  lemma {:induction false} SurvivorsAligned(paths: seq<Path>, deepFace: Path -> FaceReport)
    ensures var kept, es := Survivors(paths, deepFace), Embeddings(paths, deepFace);
      |kept| == |es| &&
      forall k :: 0 <= k < |kept| ==>
        && IsImagePath(kept[k])
        && deepFace(kept[k]).Faces?
        && deepFace(kept[k]).embeddings != []
        && es[k] == deepFace(kept[k]).embeddings[0]
    decreases |paths|
  {
    if paths != [] {
      SurvivorsAligned(paths[..|paths| - 1], deepFace);
    }
  }

  /** A path is kept exactly when it is one of the inputs and both the filter and the extraction accept it. */
  lemma {:induction false} SurvivorsMembership(paths: seq<Path>, deepFace: Path -> FaceReport)
    ensures forall p :: p in Survivors(paths, deepFace) <==> p in paths && Admit(deepFace, p).Some?
    decreases |paths|
  {
    if paths != [] {
      var init := paths[..|paths| - 1];
      SurvivorsMembership(init, deepFace);
      assert paths == init + [paths[|paths| - 1]];
    }
  }

  /** The kept paths are the inputs read at strictly increasing positions: input order is preserved. */
  lemma {:induction false} SurvivorsInOrder(paths: seq<Path>, deepFace: Path -> FaceReport)
    ensures SubsequenceAt(Survivors(paths, deepFace), paths, SurvivorIndices(paths, deepFace))
    ensures forall k :: 0 <= k < |SurvivorIndices(paths, deepFace)| ==> SurvivorIndices(paths, deepFace)[k] < |paths|
    decreases |paths|
  {
    if paths != [] {
      var n := |paths| - 1;
      var init := paths[..n];
      SurvivorsInOrder(init, deepFace);
      var idx := SurvivorIndices(paths, deepFace);
      var kept := Survivors(paths, deepFace);
      forall k | 0 <= k < |idx|
        ensures idx[k] < |paths| && kept[k] == paths[idx[k]]
      {
        if k < |SurvivorIndices(init, deepFace)| {
          assert init[SurvivorIndices(init, deepFace)[k]] == paths[SurvivorIndices(init, deepFace)[k]];
        }
      }
    }
  }

  /**
    Every admitted position is kept and no other: a path that occurs twice
    and is admitted is kept twice.
   */
  lemma {:induction false} SurvivorIndicesExact(paths: seq<Path>, deepFace: Path -> FaceReport)
    ensures forall i :: i in SurvivorIndices(paths, deepFace) <==> 0 <= i < |paths| && Admit(deepFace, paths[i]).Some?
    decreases |paths|
  {
    if paths != [] {
      var n := |paths| - 1;
      SurvivorIndicesExact(paths[..n], deepFace);
      forall i | 0 <= i < n
        ensures paths[..n][i] == paths[i]
      {
      }
    }
  }

  /**
    A path that fails the extension test, or whose extraction raised or found
    no face, is not kept, and its embedding is not collected.
   */
  lemma RejectedPathExcluded(paths: seq<Path>, deepFace: Path -> FaceReport, p: Path)
    requires !IsImagePath(p) || deepFace(p) == Raised || deepFace(p) == Faces([])
    ensures p !in Survivors(paths, deepFace)
  {
    SurvivorsMembership(paths, deepFace);
  }

  /**
    `process_images` raises "No valid face embeddings found." exactly when no
    input passes both the filter and the extraction, and then it leaves the
    cluster directory as it was (the caller keeps the old tree).
   */
  lemma PipelineFailsOnlyWithoutEmbeddings(tree: AlbumTree, paths: seq<Path>, deepFace: Path -> FaceReport, cluster: Labeller)
    ensures var r := PipelineResult(tree, paths, deepFace, cluster);
      (r.Err? <==> forall p :: p in paths ==> Admit(deepFace, p).None?) &&
      (r.Err? ==> r.message == NO_EMBEDDINGS_MESSAGE)
  {
    SurvivorsMembership(paths, deepFace);
    var kept := Survivors(paths, deepFace);
    if kept != [] {
      assert kept[0] in kept;
    }
  }

  /**
    What `create_albums` leaves in a directory: a folder exists afterwards iff
    it existed or some label is published in it, and a file is in a folder iff
    it was there before or some image with that basename carries a label
    published in that folder. Album membership is the inverse image of the labels.
   */
  lemma {:induction false} PublishedMembers(tree: AlbumTree, paths: seq<Path>, labels: seq<nat>)
    requires |labels| <= |paths|
    ensures forall folder :: folder in Published(tree, paths, labels) <==> folder in tree || Labelled(labels, folder)
    ensures forall folder, name :: folder in Published(tree, paths, labels) ==>
      (name in Published(tree, paths, labels)[folder] <==> name in FolderOf(tree, folder) || Placed(paths, labels, folder, name))
    decreases |labels|
  {
    if labels != [] {
      var k := |labels| - 1;
      PublishedMembers(tree, paths, labels[..k]);
      LabelledStep(labels);
      PlacedStep(paths, labels);
    }
  }

  lemma LabelledStep(labels: seq<nat>)
    requires labels != []
    ensures var k := |labels| - 1;
      forall folder :: Labelled(labels, folder) <==> Labelled(labels[..k], folder) || AlbumName(labels[k]) == folder
  {
    var k := |labels| - 1;
    var init := labels[..k];
    forall folder
      ensures Labelled(labels, folder) <==> Labelled(init, folder) || AlbumName(labels[k]) == folder
    {
      if Labelled(labels, folder) {
        var i :| 0 <= i < |labels| && AlbumName(labels[i]) == folder;
        if i < k {
          assert init[i] == labels[i];
        }
      }
      if Labelled(init, folder) {
        var i :| 0 <= i < |init| && AlbumName(init[i]) == folder;
        assert labels[i] == init[i];
      }
    }
  }

  lemma PlacedStep(paths: seq<Path>, labels: seq<nat>)
    requires 0 < |labels| <= |paths|
    ensures var k := |labels| - 1;
      forall folder, name :: Placed(paths, labels, folder, name) <==>
        Placed(paths, labels[..k], folder, name) || (AlbumName(labels[k]) == folder && Basename(paths[k]) == name)
  {
    var k := |labels| - 1;
    var init := labels[..k];
    forall folder, name
      ensures Placed(paths, labels, folder, name) <==>
        Placed(paths, init, folder, name) || (AlbumName(labels[k]) == folder && Basename(paths[k]) == name)
    {
      if Placed(paths, labels, folder, name) {
        var i :| 0 <= i < |labels| && AlbumName(labels[i]) == folder && Basename(paths[i]) == name;
        if i < k {
          assert init[i] == labels[i];
        }
      }
      if Placed(paths, init, folder, name) {
        var i :| 0 <= i < |init| && AlbumName(init[i]) == folder && Basename(paths[i]) == name;
        assert labels[i] == init[i];
      }
    }
  }

  /** Publishing never removes a folder or a file that was already there. */
  lemma PublishedIsAdditive(tree: AlbumTree, paths: seq<Path>, labels: seq<nat>)
    requires |labels| <= |paths|
    ensures forall folder :: folder in tree ==>
      folder in Published(tree, paths, labels) && tree[folder] <= Published(tree, paths, labels)[folder]
  {
    PublishedMembers(tree, paths, labels);
  }

  /** Running `create_albums` a second time on the same input changes nothing. */
  lemma PublishedIdempotent(tree: AlbumTree, paths: seq<Path>, labels: seq<nat>)
    requires |labels| <= |paths|
    ensures Published(Published(tree, paths, labels), paths, labels) == Published(tree, paths, labels)
  {
    var once := Published(tree, paths, labels);
    var twice := Published(once, paths, labels);
    PublishedMembers(tree, paths, labels);
    PublishedMembers(once, paths, labels);
    forall folder | Labelled(labels, folder)
      ensures folder in once
    {
    }
    assert twice.Keys == once.Keys;
    forall folder | folder in once
      ensures twice[folder] == once[folder]
    {
      forall name | Placed(paths, labels, folder, name)
        ensures name in once[folder]
      {
      }
    }
  }

  /**
    On a fresh cluster directory, the folder of label `l` holds exactly the
    basenames of the images labelled `l`, every image is in the folder of its
    own label, and every folder is numbered from 1.
   */
  lemma AlbumsAreLabelClasses(paths: seq<Path>, labels: seq<nat>, l: nat)
    requires |labels| <= |paths|
    ensures var albums := Published(map[], paths, labels);
      forall name :: (AlbumName(l) in albums && name in albums[AlbumName(l)]) <==>
        exists i :: 0 <= i < |labels| && labels[i] == l && Basename(paths[i]) == name
    ensures var albums := Published(map[], paths, labels);
      forall i :: 0 <= i < |labels| ==> AlbumName(labels[i]) in albums && Basename(paths[i]) in albums[AlbumName(labels[i])]
    ensures forall folder :: folder in Published(map[], paths, labels) ==>
      AlbumNumber(folder).Some? && AlbumNumber(folder).value >= 1
  {
    PublishedMembers(map[], paths, labels);
    LabelFolderContents(paths, labels, l);
    EveryImageInItsFolder(paths, labels);
    FolderNumbersPositive(paths, labels);
  }

  lemma LabelFolderContents(paths: seq<Path>, labels: seq<nat>, l: nat)
    requires |labels| <= |paths|
    requires var albums := Published(map[], paths, labels);
      && (forall folder :: folder in albums <==> Labelled(labels, folder))
      && (forall folder, name :: folder in albums ==> (name in albums[folder] <==> Placed(paths, labels, folder, name)))
    ensures var albums := Published(map[], paths, labels);
      forall name :: (AlbumName(l) in albums && name in albums[AlbumName(l)]) <==>
        exists i :: 0 <= i < |labels| && labels[i] == l && Basename(paths[i]) == name
  {
    var albums := Published(map[], paths, labels);
    forall name
      ensures (AlbumName(l) in albums && name in albums[AlbumName(l)]) <==>
        exists i :: 0 <= i < |labels| && labels[i] == l && Basename(paths[i]) == name
    {
      if AlbumName(l) in albums && name in albums[AlbumName(l)] {
        var i :| 0 <= i < |labels| && AlbumName(labels[i]) == AlbumName(l) && Basename(paths[i]) == name;
        AlbumNameInjective(labels[i], l);
      }
      if exists i :: 0 <= i < |labels| && labels[i] == l && Basename(paths[i]) == name {
        var i :| 0 <= i < |labels| && labels[i] == l && Basename(paths[i]) == name;
        assert Labelled(labels, AlbumName(l));
        assert Placed(paths, labels, AlbumName(l), name);
      }
    }
  }

  lemma EveryImageInItsFolder(paths: seq<Path>, labels: seq<nat>)
    requires |labels| <= |paths|
    requires var albums := Published(map[], paths, labels);
      && (forall folder :: folder in albums <==> Labelled(labels, folder))
      && (forall folder, name :: folder in albums ==> (name in albums[folder] <==> Placed(paths, labels, folder, name)))
    ensures var albums := Published(map[], paths, labels);
      forall i :: 0 <= i < |labels| ==> AlbumName(labels[i]) in albums && Basename(paths[i]) in albums[AlbumName(labels[i])]
  {
    forall i | 0 <= i < |labels|
      ensures Labelled(labels, AlbumName(labels[i])) && Placed(paths, labels, AlbumName(labels[i]), Basename(paths[i]))
    {
    }
  }

  lemma FolderNumbersPositive(paths: seq<Path>, labels: seq<nat>)
    requires |labels| <= |paths|
    requires forall folder :: folder in Published(map[], paths, labels) <==> Labelled(labels, folder)
    ensures forall folder :: folder in Published(map[], paths, labels) ==>
      AlbumNumber(folder).Some? && AlbumNumber(folder).value >= 1
  {
    forall folder | folder in Published(map[], paths, labels)
      ensures AlbumNumber(folder).Some? && AlbumNumber(folder).value >= 1
    {
      var i :| 0 <= i < |labels| && AlbumName(labels[i]) == folder;
      AlbumNameRoundTrip(labels[i]);
    }
  }

  /**
    When `process_images` returns normally, every kept image sits, under its
    basename, in the folder of the label the clusterer gave its embedding, and
    everything that was in the cluster directory is still there.
   */
  lemma PipelinePlacesEverySurvivor(tree: AlbumTree, paths: seq<Path>, deepFace: Path -> FaceReport, cluster: Labeller)
    requires PipelineResult(tree, paths, deepFace, cluster).Ok?
    ensures var albums := PipelineResult(tree, paths, deepFace, cluster).value;
      var kept, labels := Survivors(paths, deepFace), cluster(Embeddings(paths, deepFace));
      && |labels| == |kept|
      && (forall k :: 0 <= k < |kept| ==> AlbumName(labels[k]) in albums && Basename(kept[k]) in albums[AlbumName(labels[k])])
      && (forall folder :: folder in tree ==> folder in albums && tree[folder] <= albums[folder])
  {
    var kept, labels := Survivors(paths, deepFace), cluster(Embeddings(paths, deepFace));
    PublishedMembers(tree, kept, labels);
    forall k | 0 <= k < |kept|
      ensures AlbumName(labels[k]) in Published(tree, kept, labels)
      ensures Basename(kept[k]) in Published(tree, kept, labels)[AlbumName(labels[k])]
    {
      assert Labelled(labels, AlbumName(labels[k]));
      assert Placed(kept, labels, AlbumName(labels[k]), Basename(kept[k]));
    }
  }

  /** Running `process_images` again on the directory it produced, with the same images, changes nothing. */
  lemma PipelineIdempotent(tree: AlbumTree, paths: seq<Path>, deepFace: Path -> FaceReport, cluster: Labeller)
    requires PipelineResult(tree, paths, deepFace, cluster).Ok?
    ensures var once := PipelineResult(tree, paths, deepFace, cluster).value;
      PipelineResult(once, paths, deepFace, cluster) == Ok(once)
  {
    PublishedIdempotent(tree, Survivors(paths, deepFace), cluster(Embeddings(paths, deepFace)));
  }
}
