/** The overlays of a starter: when they combine, and what the combined files are. */
module StarterOverlays {
  import opened Common
  import opened Ordered
  import opened Starter

  lemma DistinctPathsAreKeys(files: seq<StarterFile>)
    ensures DistinctKeys(files, FilePath) <==> DistinctPaths(files)
  {
    assert forall i :: 0 <= i < |files| ==> FilePath(files[i]) == files[i].path;
  }

  lemma PathsOfConcat(a: seq<StarterFile>, b: seq<StarterFile>)
    ensures Paths(a + b) == Paths(a) + Paths(b)
  {
    var ab := a + b;
    forall path ensures path in Paths(ab) <==> path in Paths(a) || path in Paths(b) {
      if path in Paths(a) {
        var i :| 0 <= i < |a| && a[i].path == path;
        assert ab[i].path == path;
      } else if path in Paths(b) {
        var i :| 0 <= i < |b| && b[i].path == path;
        assert ab[|a| + i].path == path;
      }
    }
  }

  lemma DistinctPathsOfConcat(a: seq<StarterFile>, b: seq<StarterFile>)
    ensures DistinctPaths(a + b) <==> DistinctPaths(a) && DistinctPaths(b) && Paths(a) * Paths(b) == {}
  {
    var ab := a + b;
    if DistinctPaths(ab) {
      forall i, j | 0 <= i < j < |a| ensures a[i].path != a[j].path {
        assert ab[i].path != ab[j].path;
      }
      forall i, j | 0 <= i < j < |b| ensures b[i].path != b[j].path {
        assert ab[|a| + i].path != ab[|a| + j].path;
      }
      forall path | path in Paths(a) ensures path !in Paths(b) {
        var i :| 0 <= i < |a| && a[i].path == path;
        forall j | 0 <= j < |b| ensures b[j].path != path {
          assert ab[i].path != ab[|a| + j].path;
        }
      }
    } else {
      var i, j :| 0 <= i < j < |ab| && ab[i].path == ab[j].path;
      if i < |a| <= j {
        assert a[i].path in Paths(a) * Paths(b);
      }
    }
  }

  lemma {:induction false} OverlaysFitMeans(files: seq<StarterFile>, selected: seq<Capability>, i: nat)
    requires i <= |selected| && DistinctPaths(files)
    ensures OverlaysFit(Paths(files), selected, i) <==> DistinctPaths(files + OverlayFiles(selected, i))
    decreases |selected| - i
  {
    if i == |selected| {
      assert files + OverlayFiles(selected, i) == files;
    } else {
      var overlay, rest := selected[i].files, OverlayFiles(selected, i + 1);
      ConcatAssociates(files, overlay, rest);
      PathsOfConcat(files, overlay);
      DistinctPathsOfConcat(files, overlay);
      if DistinctPaths(files + overlay) {
        OverlaysFitMeans(files + overlay, selected, i + 1);
      } else {
        DistinctPathsOfConcat(files + overlay, rest);
      }
    }
  }

  /** The overlays combine exactly when no path comes twice; the result is everything, in path order. */
  lemma CombinedIsDisjointUnion(base: seq<StarterFile>, selected: seq<Capability>)
    requires DistinctPaths(base)
    ensures Combined(base, selected).Ok? <==> DistinctPaths(base + OverlayFiles(selected, 0))
    ensures Combined(base, selected).Ok? ==>
              var files := Combined(base, selected).value;
              && multiset(files) == multiset(base) + multiset(OverlayFiles(selected, 0))
              && Ascending(files, FilePath) && DistinctPaths(files)
  {
    var all := base + OverlayFiles(selected, 0);
    OverlaysFitMeans(base, selected, 0);
    if DistinctPaths(all) {
      DistinctPathsAreKeys(all);
      SortAscends(all, FilePath);
      SortKeepsElements(all, FilePath);
      AscendingFilesAreDistinct(Sort(all, FilePath));
    }
  }

  lemma AscendingFilesAreDistinct(files: seq<StarterFile>)
    requires Ascending(files, FilePath)
    ensures DistinctPaths(files)
  {
    forall i, j | 0 <= i < j < |files| ensures files[i].path != files[j].path {
      AscendingKeysDiffer(files, FilePath, i, j);
    }
  }
}
