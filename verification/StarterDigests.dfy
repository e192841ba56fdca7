/** What the starter's digests promise. */
module StarterDigests {
  // A tree digest pins exactly the bytes at the paths, the composite digest exactly the base tree and the capabilities,
  // and a copied tree verifies exactly when it holds the files of its manifest.

  import opened Common
  import opened Ordered
  import opened CanonicalText
  import opened Starter
  import opened StarterOverlays

  // ------------------------------------------------------ what a digest pins

  function RowKey(row: seq<string>): string {
    if |row| < 2 then "" else row[0]
  }

  function CapabilityKey(row: seq<string>): string {
    if |row| < 2 then "" else row[1]
  }

  /** Neither path nor digest holds a NUL. */
  predicate CleanFile(f: StarterFile) {
    '\0' !in f.path && '\0' !in f.sha256
  }

  predicate CleanFiles(files: seq<StarterFile>) {
    forall i :: 0 <= i < |files| ==> CleanFile(files[i])
  }

  lemma FileRowIsClean(f: StarterFile)
    requires CleanFile(f)
    ensures Clean(FileRow(f))
  {
    var row := FileRow(f);
    DecimalRoundTrip(f.size);
    assert row[1..] == [f.sha256, Decimal(f.size)] && row[1..][1..] == [Decimal(f.size)];
  }

  lemma SortedFilesAreClean(files: seq<StarterFile>)
    requires CleanFiles(files)
    ensures CleanFiles(Sort(files, FilePath))
  {
    var sorted := Sort(files, FilePath);
    forall i | 0 <= i < |sorted| ensures CleanFile(sorted[i]) {
      SortHasMember(files, FilePath, sorted[i]);
    }
  }

  lemma TreeTextRead(files: seq<StarterFile>)
    requires CleanFiles(files)
    ensures ReadLines(TreeText(files), 3) == Some(FileRows(Sort(files, FilePath)))
  {
    var rows := FileRows(Sort(files, FilePath));
    SortedFilesAreClean(files);
    forall i | 0 <= i < |rows| ensures |rows[i]| == 3 && Clean(rows[i]) {
      FileRowIsClean(Sort(files, FilePath)[i]);
    }
    LinesRoundTrip(rows, 3);
  }

  lemma {:induction false} RowsAscend(files: seq<StarterFile>)
    requires Ascending(files, FilePath)
    ensures Ascending(FileRows(files), RowKey)
    decreases |files|
  {
    if files != [] {
      RowsAscend(files[1..]);
      var rows := FileRows(files);
      assert rows[1..] == FileRows(files[1..]);
      forall j | 1 <= j < |rows| ensures Less(RowKey(rows[0]), RowKey(rows[j])) {
        assert Less(FilePath(files[0]), FilePath(files[j]));
      }
    }
  }

  lemma SortedRowsHave(files: seq<StarterFile>, row: seq<string>)
    ensures row in FileRows(Sort(files, FilePath)) <==> row in FileRows(files)
  {
    var sorted := Sort(files, FilePath);
    if row in FileRows(sorted) {
      var i :| 0 <= i < |sorted| && FileRows(sorted)[i] == row;
      SortHasMember(files, FilePath, sorted[i]);
      var j :| 0 <= j < |files| && files[j] == sorted[i];
      assert FileRows(files)[j] == row;
    }
    if row in FileRows(files) {
      var i :| 0 <= i < |files| && FileRows(files)[i] == row;
      SortHasMember(files, FilePath, files[i]);
      var j :| 0 <= j < |sorted| && sorted[j] == files[i];
      assert FileRows(sorted)[j] == row;
    }
  }

  lemma TextDecidesRows(a: seq<StarterFile>, b: seq<StarterFile>)
    requires CleanFiles(a) && CleanFiles(b)
    ensures TreeText(a) == TreeText(b) <==> FileRows(Sort(a, FilePath)) == FileRows(Sort(b, FilePath))
  {
    TreeTextRead(a);
    TreeTextRead(b);
  }

  ghost predicate SameRows(a: seq<StarterFile>, b: seq<StarterFile>) {
    forall row :: row in FileRows(a) <==> row in FileRows(b)
  }

  lemma SortedRowsAscend(files: seq<StarterFile>)
    requires DistinctPaths(files)
    ensures Ascending(FileRows(Sort(files, FilePath)), RowKey)
  {
    DistinctPathsAreKeys(files);
    SortAscends(files, FilePath);
    RowsAscend(Sort(files, FilePath));
  }

  lemma SameRowsSorted(a: seq<StarterFile>, b: seq<StarterFile>)
    ensures SameRows(a, b) <==> SameRows(Sort(a, FilePath), Sort(b, FilePath))
  {
    forall row ensures (row in FileRows(Sort(a, FilePath)) <==> row in FileRows(a))
                    && (row in FileRows(Sort(b, FilePath)) <==> row in FileRows(b)) {
      SortedRowsHave(a, row);
      SortedRowsHave(b, row);
    }
  }

  lemma SameRowsAreEqual(a: seq<StarterFile>, b: seq<StarterFile>)
    requires DistinctPaths(a) && DistinctPaths(b)
    ensures SameRows(a, b) <==> FileRows(Sort(a, FilePath)) == FileRows(Sort(b, FilePath))
  {
    SameRowsSorted(a, b);
    if SameRows(Sort(a, FilePath), Sort(b, FilePath)) {
      SortedRowsAscend(a);
      SortedRowsAscend(b);
      AscendingIsUnique(FileRows(Sort(a, FilePath)), FileRows(Sort(b, FilePath)), RowKey);
    }
  }

  /** Two file sets have the same canonical text exactly when they have the same paths, digests and sizes. */
  lemma TreeTextPins(a: seq<StarterFile>, b: seq<StarterFile>)
    requires CleanFiles(a) && CleanFiles(b) && DistinctPaths(a) && DistinctPaths(b)
    ensures TreeText(a) == TreeText(b) <==> SameRows(a, b)
  {
    TextDecidesRows(a, b);
    SameRowsAreEqual(a, b);
  }

  // ------------------------------------------------ the digest and the bytes

  /** The digest is as good as its input. */
  ghost predicate Injective<X(!new), Y>(f: X -> Y) {
    forall x, y :: f(x) == f(y) ==> x == y
  }

  /** Digest and size are those of the content, as the loader records them. */
  predicate Genuine(f: StarterFile, digest: Bytes -> string) {
    f.sha256 == digest(f.content) && f.size == |f.content|
  }

  predicate GenuineFiles(files: seq<StarterFile>, digest: Bytes -> string) {
    forall i :: 0 <= i < |files| ==> Genuine(files[i], digest)
  }

  /** What the files put where. */
  function Contents(files: seq<StarterFile>): set<(string, Bytes)> {
    set i | 0 <= i < |files| :: (files[i].path, files[i].content)
  }

  lemma RowsGiveContents(a: seq<StarterFile>, b: seq<StarterFile>, digest: Bytes -> string)
    requires GenuineFiles(a, digest) && GenuineFiles(b, digest) && Injective(digest) && SameRows(a, b)
    ensures Contents(a) <= Contents(b)
  {
    forall c | c in Contents(a) ensures c in Contents(b) {
      var i :| 0 <= i < |a| && (a[i].path, a[i].content) == c;
      assert FileRows(a)[i] in FileRows(a);
      var j :| 0 <= j < |b| && FileRows(b)[j] == FileRow(a[i]);
      assert FileRow(b[j])[0] == FileRow(a[i])[0] && FileRow(b[j])[1] == FileRow(a[i])[1];
      assert (b[j].path, b[j].content) == c;
    }
  }

  lemma ContentsGiveRows(a: seq<StarterFile>, b: seq<StarterFile>, digest: Bytes -> string)
    requires GenuineFiles(a, digest) && GenuineFiles(b, digest) && Contents(a) <= Contents(b)
    ensures forall row :: row in FileRows(a) ==> row in FileRows(b)
  {
    forall row | row in FileRows(a) ensures row in FileRows(b) {
      var i :| 0 <= i < |a| && FileRows(a)[i] == row;
      assert (a[i].path, a[i].content) in Contents(b);
      var j :| 0 <= j < |b| && (b[j].path, b[j].content) == (a[i].path, a[i].content);
      assert FileRows(b)[j] == row;
    }
  }

  /** Equal tree digests mean the same bytes at the same paths, and the other way round. */
  lemma TreeDigestPinsContents(a: seq<StarterFile>, b: seq<StarterFile>, digest: Bytes -> string, sha: string -> string)
    requires CleanFiles(a) && CleanFiles(b) && DistinctPaths(a) && DistinctPaths(b)
    requires GenuineFiles(a, digest) && GenuineFiles(b, digest) && Injective(digest) && Injective(sha)
    ensures TreeSha(a, sha) == TreeSha(b, sha) <==> Contents(a) == Contents(b)
  {
    TreeTextPins(a, b);
    if SameRows(a, b) {
      RowsGiveContents(a, b, digest);
      RowsGiveContents(b, a, digest);
    }
    if Contents(a) == Contents(b) {
      ContentsGiveRows(a, b, digest);
      ContentsGiveRows(b, a, digest);
    }
  }

  // ------------------------------------------------------ checking a copy

  lemma {:induction false} FindsItself(files: seq<StarterFile>, i: nat)
    requires i < |files| && DistinctPaths(files)
    ensures Find(files, files[i].path) == Some(files[i])
    decreases |files|
  {
    if i > 0 {
      assert files[0].path != files[i].path;
      var rest := files[1..];
      forall j, k | 0 <= j < k < |rest| ensures rest[j].path != rest[k].path {
        assert files[j + 1].path != files[k + 1].path;
      }
      FindsItself(rest, i - 1);
    }
  }

  lemma {:induction false} NoMismatchMeans(files: seq<StarterFile>, i: nat, copied: map<string, Bytes>,
                                           digest: Bytes -> string)
    requires i <= |files| && Paths(files) <= copied.Keys && DistinctPaths(files) && GenuineFiles(files, digest)
             && Injective(digest)
    ensures FirstMismatch(files, i, copied, digest) == None <==>
            forall j :: i <= j < |files| ==> files[j].path in copied && copied[files[j].path] == files[j].content
    decreases |files| - i
  {
    if i < |files| {
      FindsItself(files, i);
      assert files[i].path in Paths(files);
      NoMismatchMeans(files, i + 1, copied, digest);
    }
  }

  lemma {:induction false} RebuiltRows(files: seq<StarterFile>, i: nat, copied: map<string, Bytes>,
                                       digest: Bytes -> string)
    requires i <= |files| && Paths(files) <= copied.Keys && GenuineFiles(files, digest)
    requires forall j :: 0 <= j < |files| ==> files[j].path in copied && copied[files[j].path] == files[j].content
    ensures forall j :: 0 <= j < i ==> Rebuilt(files, i, copied, digest)[j] == files[j]
  {
    if i > 0 {
      RebuiltRows(files, i - 1, copied, digest);
    }
  }

  lemma SameItems(files: seq<StarterFile>, copied: map<string, Bytes>)
    requires DistinctPaths(files)
    ensures copied.Items == Contents(files) <==>
            copied.Keys == Paths(files) && forall j :: 0 <= j < |files| ==>
                files[j].path in copied && copied[files[j].path] == files[j].content
  {
    if copied.Items == Contents(files) {
      forall j | 0 <= j < |files| ensures files[j].path in copied && copied[files[j].path] == files[j].content {
        assert (files[j].path, files[j].content) in copied.Items;
      }
      forall path | path in copied ensures path in Paths(files) {
        assert (path, copied[path]) in Contents(files);
      }
    }
    if copied.Keys == Paths(files) && forall j :: 0 <= j < |files| ==>
        files[j].path in copied && copied[files[j].path] == files[j].content {
      forall c | c in copied.Items ensures c in Contents(files) {
        assert c.0 in Paths(files);
        var j :| 0 <= j < |files| && files[j].path == c.0;
      }
    }
  }

  /** A copy verifies exactly when it holds the manifest's bytes at the manifest's paths, and nothing else. */
  lemma VerifiesExactlyTheTree(m: Manifest, copied: map<string, Bytes>, digest: Bytes -> string, sha: string -> string)
    requires DistinctPaths(m.files) && GenuineFiles(m.files, digest) && Injective(digest)
    requires m.fileTreeSha256 == TreeSha(m.files, sha)
    ensures Verification(m, copied, digest, sha).Ok? <==> copied.Items == Contents(m.files)
  {
    SameItems(m.files, copied);
    if copied.Keys == Paths(m.files) {
      NoMismatchMeans(m.files, 0, copied, digest);
      if FirstMismatch(m.files, 0, copied, digest) == None {
        RebuiltRows(m.files, |m.files|, copied, digest);
        assert Rebuilt(m.files, |m.files|, copied, digest) == m.files;
      }
    }
  }

  // ----------------------------------------------------- the composite digest

  predicate CleanCapability(c: Capability) {
    '\0' !in c.id && '\0' !in c.version && '\n' !in c.treeSha256
  }

  predicate CleanCapabilities(selected: seq<Capability>) {
    forall i :: 0 <= i < |selected| ==> CleanCapability(selected[i])
  }

  lemma CapabilityRowIsClean(first: string, id: string, version: string, treeSha: string)
    requires '\0' !in first && '\0' !in id && '\0' !in version && '\n' !in treeSha
    ensures Clean([first, id, version, treeSha])
  {
    var row := [first, id, version, treeSha];
    assert Clean([treeSha]);
    assert [version, treeSha][1..] == [treeSha];
    assert [id, version, treeSha][1..] == [version, treeSha];
    assert row[1..] == [id, version, treeSha];
  }

  lemma CompositeTextRead(baseSha: string, selected: seq<Capability>)
    requires CleanCapabilities(selected) && '\n' !in baseSha
    ensures ReadLines(CompositeText(baseSha, selected), 4) == Some(CompositeRows(baseSha, selected))
  {
    var rows, sorted := CompositeRows(baseSha, selected), Sort(selected, CapabilityId);
    forall i | 0 <= i < |rows| ensures Clean(rows[i]) {
      if i == 0 {
        CapabilityRowIsClean("base", STARTER_ID, STARTER_VERSION, baseSha);
      } else {
        var c := sorted[i - 1];
        SortHasMember(selected, CapabilityId, c);
        CapabilityRowIsClean("capability", c.id, c.version, c.treeSha256);
      }
    }
    LinesRoundTrip(rows, 4);
  }

  ghost predicate SameCapabilities(a: seq<Capability>, b: seq<Capability>) {
    forall row :: row in CapabilityRows(a) <==> row in CapabilityRows(b)
  }

  lemma {:induction false} CapabilityRowsAscend(selected: seq<Capability>)
    requires Ascending(selected, CapabilityId)
    ensures Ascending(CapabilityRows(selected), CapabilityKey)
    decreases |selected|
  {
    if selected != [] {
      CapabilityRowsAscend(selected[1..]);
      var rows := CapabilityRows(selected);
      assert rows[1..] == CapabilityRows(selected[1..]);
      forall j | 1 <= j < |rows| ensures Less(CapabilityKey(rows[0]), CapabilityKey(rows[j])) {
        assert Less(CapabilityId(selected[0]), CapabilityId(selected[j]));
      }
    }
  }

  /**
   For selections in identifier order, as the resolver makes them: the composite text tells apart base trees and
   capabilities, by identifier, version and tree digest.
   */
  lemma CompositeTextPins(baseA: string, a: seq<Capability>, baseB: string, b: seq<Capability>)
    requires CleanCapabilities(a) && CleanCapabilities(b) && '\n' !in baseA && '\n' !in baseB
    requires Ascending(a, CapabilityId) && Ascending(b, CapabilityId)
    ensures CompositeText(baseA, a) == CompositeText(baseB, b) <==> baseA == baseB && SameCapabilities(a, b)
  {
    CompositeTextRead(baseA, a);
    CompositeTextRead(baseB, b);
    SortOfAscending(a, CapabilityId);
    SortOfAscending(b, CapabilityId);
    CapabilityRowsAscend(a);
    CapabilityRowsAscend(b);
    var x, y := CompositeRows(baseA, a), CompositeRows(baseB, b);
    if x == y {
      assert x[0] == y[0] && x[0][3] == baseA && y[0][3] == baseB;
      assert x[1..] == CapabilityRows(a) && y[1..] == CapabilityRows(b);
    }
    if SameCapabilities(a, b) {
      AscendingIsUnique(CapabilityRows(a), CapabilityRows(b), CapabilityKey);
    }
  }

  lemma SortOfAscending<T>(s: seq<T>, key: T -> string)
    requires Ascending(s, key)
    ensures Sort(s, key) == s
  {
    forall i, j | 0 <= i < j < |s| ensures key(s[i]) != key(s[j]) {
      AscendingKeysDiffer(s, key, i, j);
    }
    SortAscends(s, key);
    forall x ensures x in Sort(s, key) <==> x in s {
      SortHasMember(s, key, x);
    }
    AscendingIsUnique(Sort(s, key), s, key);
  }
}
