/** With which error the starter refuses a selection or a copy, and what the digest of a manifest pins. */
module StarterRefusals {
  import opened Common
  import opened Ordered
  import opened CanonicalText
  import opened Starter
  import opened StarterOverlays
  import opened StarterDigests
  import opened StarterSelection

  // -------------------------------------------------------------- selections

  predicate UniqueCatalog(catalog: seq<Capability>) {
    forall i, j :: 0 <= i < j < |catalog| ==> catalog[i].id != catalog[j].id
  }

  ghost predicate Offered(catalog: seq<Capability>, id: string) {
    exists c :: c in catalog && c.id == id
  }

  /** A requested capability, possibly with itself, rules out a requested one. */
  ghost predicate Clash(requested: seq<string>, catalog: seq<Capability>) {
    exists c, id :: c in catalog && c.id in requested && id in requested && id in c.conflicts
  }

  /** What is wrong with a selection, the first of these. */
  ghost predicate SelectionFault(requested: seq<string>, catalog: seq<Capability>, error: StarterError) {
    if !Distinct(requested) then error == DuplicateSelection
    else if !UniqueCatalog(catalog) then error == DuplicateCatalog
    else if exists id :: id in requested && !Offered(catalog, id) then
      error.UnknownCapabilities?
      && forall id :: id in error.ids <==> id in requested && !Offered(catalog, id)
    else Clash(requested, catalog) && error == ConflictingCapabilities
  }

  lemma UniqueIsKeys(catalog: seq<Capability>)
    ensures UniqueCatalog(catalog) <==> DistinctKeys(catalog, CapabilityId)
  {
    assert forall i :: 0 <= i < |catalog| ==> CapabilityId(catalog[i]) == catalog[i].id;
  }

  lemma {:induction false} LookupIs(catalog: seq<Capability>, c: Capability)
    requires UniqueCatalog(catalog) && c in catalog
    ensures Lookup(catalog, c.id) == Some(c)
    decreases |catalog|
  {
    if catalog[0] != c {
      var i :| 0 <= i < |catalog| && catalog[i] == c;
      assert catalog[0].id != catalog[i].id;
      assert catalog == [catalog[0]] + catalog[1..];
      forall j, k | 0 <= j < k < |catalog[1..]| ensures catalog[1..][j].id != catalog[1..][k].id {
        assert catalog[j + 1].id != catalog[k + 1].id;
      }
      LookupIs(catalog[1..], c);
    }
  }

  lemma OfferedMeans(catalog: seq<Capability>, id: string)
    ensures Offered(catalog, id) <==> Lookup(catalog, id).Some?
  {
    LookupFinds(catalog, id);
  }

  /** The capabilities that are picked are the requested ones. */
  lemma PickedAre(requested: seq<string>, catalog: seq<Capability>)
    requires UniqueCatalog(catalog)
    ensures forall c :: c in Sort(Pick(requested, catalog), CapabilityId) <==> c.id in requested && c in catalog
  {
    forall c ensures c in Sort(Pick(requested, catalog), CapabilityId) <==> c.id in requested && c in catalog {
      SortHasMember(Pick(requested, catalog), CapabilityId, c);
      PickHas(requested, catalog, c);
      LookupFinds(catalog, c.id);
      if c in catalog {
        LookupIs(catalog, c);
      }
    }
  }

  lemma ConflictingIs(selected: seq<Capability>)
    ensures Conflicting(selected) <==> exists c, d :: c in selected && d in selected && d.id in c.conflicts
  {
    if Conflicting(selected) {
      var i, j :| 0 <= i < |selected| && 0 <= j < |selected| && selected[j].id in selected[i].conflicts;
      assert selected[i] in selected && selected[j] in selected;
    }
    if c, d :| c in selected && d in selected && d.id in c.conflicts {
      var i :| 0 <= i < |selected| && selected[i] == c;
      var j :| 0 <= j < |selected| && selected[j] == d;
      assert selected[j].id in selected[i].conflicts;
    }
  }

  lemma ClashMeans(requested: seq<string>, catalog: seq<Capability>)
    requires UniqueCatalog(catalog) && forall id :: id in requested ==> Offered(catalog, id)
    ensures Conflicting(Sort(Pick(requested, catalog), CapabilityId)) <==> Clash(requested, catalog)
  {
    var selected := Sort(Pick(requested, catalog), CapabilityId);
    PickedAre(requested, catalog);
    ConflictingIs(selected);
    if c, id :| c in catalog && c.id in requested && id in requested && id in c.conflicts {
      var d :| d in catalog && d.id == id;
      assert c in selected && d in selected;
    }
  }

  /** A selection is refused exactly with its first fault. */
  lemma SelectionIsRefusedWith(requested: seq<string>, catalog: seq<Capability>, error: StarterError)
    ensures Select(requested, catalog) == Err(error) <==> SelectionFault(requested, catalog, error)
  {
    UniqueIsKeys(catalog);
    var unknown := set id | id in requested && Lookup(catalog, id) == None;
    forall id ensures id in unknown <==> id in requested && !Offered(catalog, id) {
      OfferedMeans(catalog, id);
    }
    if id :| id in unknown {
      assert id in requested && !Offered(catalog, id);
      assert error.UnknownCapabilities? && (forall id :: id in error.ids <==> id in requested && !Offered(catalog, id))
             ==> error.ids == unknown;
    } else if UniqueCatalog(catalog) {
      forall id | id in requested ensures Offered(catalog, id) {
        assert id !in unknown;
      }
      ClashMeans(requested, catalog);
    }
  }

  // ------------------------------------------------------------------ copies

  predicate Differs(f: StarterFile, copied: map<string, Bytes>, digest: Bytes -> string) {
    f.path in copied && (|copied[f.path]| != f.size || digest(copied[f.path]) != f.sha256)
  }

  /** The first file whose copy differs. */
  ghost predicate FirstToDiffer(files: seq<StarterFile>, k: int, copied: map<string, Bytes>, digest: Bytes -> string) {
    && 0 <= k < |files| && Differs(files[k], copied, digest)
    && forall j :: 0 <= j < k ==> !Differs(files[j], copied, digest)
  }

  lemma {:induction false} FirstMismatchIs(files: seq<StarterFile>, i: nat, copied: map<string, Bytes>,
                                           digest: Bytes -> string, k: nat)
    requires i <= k <= |files| && Paths(files) <= copied.Keys && DistinctPaths(files)
    requires forall j :: i <= j < k ==> !Differs(files[j], copied, digest)
    requires k < |files| ==> Differs(files[k], copied, digest)
    ensures FirstMismatch(files, i, copied, digest) == if k < |files| then Some(files[k].path) else None
    decreases k - i
  {
    if i < |files| {
      FindsItself(files, i);
      assert files[i].path in Paths(files);
      if i < k {
        FirstMismatchIs(files, i + 1, copied, digest, k);
      }
    }
  }

  lemma {:induction false} RebuiltIs(files: seq<StarterFile>, i: nat, copied: map<string, Bytes>,
                                     digest: Bytes -> string)
    requires i <= |files| && Paths(files) <= copied.Keys
    requires forall j :: 0 <= j < |files| ==> !Differs(files[j], copied, digest)
    ensures forall j :: 0 <= j < i ==>
              FileRow(Rebuilt(files, i, copied, digest)[j]) == FileRow(files[j])
              && Rebuilt(files, i, copied, digest)[j].path == files[j].path
  {
    if i > 0 {
      assert files[i - 1].path in Paths(files);
      RebuiltIs(files, i - 1, copied, digest);
    }
  }

  /** Files that agree in path, digest and size have the same tree digest. */
  lemma SameTreeSha(a: seq<StarterFile>, b: seq<StarterFile>, sha: string -> string)
    requires |a| == |b| && DistinctPaths(a)
    requires forall j :: 0 <= j < |a| ==> FileRow(a[j]) == FileRow(b[j]) && a[j].path == b[j].path
    ensures TreeSha(a, sha) == TreeSha(b, sha)
  {
    assert FileRows(a) == FileRows(b);
    SameRowsAreEqual(a, b);
  }

  /** The copy has the paths of the files. */
  ghost predicate SamePaths(files: seq<StarterFile>, copied: map<string, Bytes>) {
    forall path :: path in copied <==> exists i :: 0 <= i < |files| && files[i].path == path
  }

  predicate AnyDiffers(files: seq<StarterFile>, copied: map<string, Bytes>, digest: Bytes -> string) {
    exists k :: 0 <= k < |files| && Differs(files[k], copied, digest)
  }

  /** What is wrong with a copy, the first of these. */
  ghost predicate CopyFault(m: Manifest, copied: map<string, Bytes>, digest: Bytes -> string, sha: string -> string,
                            error: StarterError) {
    if !SamePaths(m.files, copied) then error == FileSetMismatch
    else if AnyDiffers(m.files, copied, digest) then
      exists k :: FirstToDiffer(m.files, k, copied, digest) && error == FileMismatch(m.files[k].path)
    else TreeSha(m.files, sha) != m.fileTreeSha256 && error == TreeMismatch
  }

  lemma PathsAre(files: seq<StarterFile>, copied: map<string, Bytes>)
    ensures copied.Keys == Paths(files) <==> SamePaths(files, copied)
  {
    forall path ensures path in Paths(files) <==> exists i :: 0 <= i < |files| && files[i].path == path {
    }
    if copied.Keys == Paths(files) {
      assert forall path :: path in copied <==> path in copied.Keys;
    }
  }

  lemma {:induction false} SomeFirstDiffers(files: seq<StarterFile>, copied: map<string, Bytes>,
                                            digest: Bytes -> string, k: nat) returns (first: nat)
    requires k < |files| && Differs(files[k], copied, digest)
    ensures FirstToDiffer(files, first, copied, digest)
    decreases k
  {
    if j :| 0 <= j < k && Differs(files[j], copied, digest) {
      first := SomeFirstDiffers(files, copied, digest, j);
    } else {
      first := k;
    }
  }

  lemma DifferingCopy(m: Manifest, copied: map<string, Bytes>, digest: Bytes -> string, sha: string -> string, k: nat)
    requires DistinctPaths(m.files) && copied.Keys == Paths(m.files) && FirstToDiffer(m.files, k, copied, digest)
    ensures Verification(m, copied, digest, sha) == Err(FileMismatch(m.files[k].path))
  {
    FirstMismatchIs(m.files, 0, copied, digest, k);
  }

  lemma SameCopy(m: Manifest, copied: map<string, Bytes>, digest: Bytes -> string, sha: string -> string)
    requires DistinctPaths(m.files) && copied.Keys == Paths(m.files) && !AnyDiffers(m.files, copied, digest)
    ensures Verification(m, copied, digest, sha) ==
            if TreeSha(m.files, sha) != m.fileTreeSha256 then Err(TreeMismatch) else Ok(())
  {
    FirstMismatchIs(m.files, 0, copied, digest, |m.files|);
    RebuiltIs(m.files, |m.files|, copied, digest);
    SameTreeSha(m.files, Rebuilt(m.files, |m.files|, copied, digest), sha);
  }

  /**
   A copy is refused exactly with its first fault: other paths than the manifest's; the first file of another size or
   digest; and when every file is as it should be, only a manifest whose own tree digest is wrong.
   */
  lemma CopyIsRefusedWith(m: Manifest, copied: map<string, Bytes>, digest: Bytes -> string, sha: string -> string,
                          error: StarterError)
    requires DistinctPaths(m.files)
    ensures Verification(m, copied, digest, sha) == Err(error) <==> CopyFault(m, copied, digest, sha, error)
  {
    PathsAre(m.files, copied);
    if copied.Keys == Paths(m.files) {
      if k :| 0 <= k < |m.files| && Differs(m.files[k], copied, digest) {
        var first := SomeFirstDiffers(m.files, copied, digest, k);
        DifferingCopy(m, copied, digest, sha, first);
        forall other | FirstToDiffer(m.files, other, copied, digest) ensures other == first {
        }
      } else {
        SameCopy(m, copied, digest, sha);
      }
    }
  }

  // ---------------------------------------------------------- manifest digests

  /** The same capabilities, by identifier, version and tree digest. */
  ghost predicate SamePins(a: seq<Capability>, b: seq<Capability>) {
    forall c :: c in a ==> exists d :: d in b && d.id == c.id && d.version == c.version && d.treeSha256 == c.treeSha256
  }

  lemma RowsGivePins(a: seq<Capability>, b: seq<Capability>)
    requires SameCapabilities(a, b)
    ensures SamePins(a, b)
  {
    forall c | c in a ensures exists d :: d in b && d.id == c.id && d.version == c.version
                                          && d.treeSha256 == c.treeSha256 {
      var i :| 0 <= i < |a| && a[i] == c;
      assert CapabilityRows(a)[i] in CapabilityRows(b);
      var j :| 0 <= j < |b| && CapabilityRows(b)[j] == CapabilityRow(c);
      assert CapabilityRow(b[j])[1] == c.id && CapabilityRow(b[j])[2] == c.version;
      assert CapabilityRow(b[j])[3] == c.treeSha256;
      assert b[j] in b;
    }
  }

  lemma FourFields(a: string, b: string, c: string, d: string)
    ensures Line([a, b, c, d]) == a + ['\0'] + (b + ['\0'] + (c + ['\0'] + (d + ['\n'])))
  {
    var row := [a, b, c, d];
    assert row[1..] == [b, c, d] && [b, c, d][1..] == [c, d] && [c, d][1..] == [d];
    assert Line([d]) == d + ['\n'];
    assert Line([c, d]) == c + ['\0'] + Line([d]);
    assert Line([b, c, d]) == b + ['\0'] + Line([c, d]);
  }

  /** The digest text opens with the starter's name and version and the digest of the base tree. */
  lemma CompositeTextOpens(baseSha: string, selected: seq<Capability>)
    ensures var opening := "base" + ['\0'] + ("fomo-next-radix-v2" + ['\0'] + ("2.0.2" + ['\0'] + (baseSha + ['\n'])));
            opening <= CompositeText(baseSha, selected)
  {
    assert CompositeRows(baseSha, selected)[0] == ["base", STARTER_ID, STARTER_VERSION, baseSha];
    FourFields("base", STARTER_ID, STARTER_VERSION, baseSha);
  }

  /**
   Two resolved manifests with the same digest hold the same base tree and the same capabilities, whatever catalogues
   and bases they were resolved from.
   */
  lemma ManifestDigestPins(a: Manifest, b: Manifest, requestedA: seq<string>, requestedB: seq<string>,
                           catalogA: seq<Capability>, catalogB: seq<Capability>, baseA: Base, baseB: Base,
                           sha: string -> string)
    requires Resolve(requestedA, catalogA, baseA, sha) == Ok(a) && Resolve(requestedB, catalogB, baseB, sha) == Ok(b)
    requires CleanCapabilities(a.selected) && CleanCapabilities(b.selected)
    requires '\n' !in baseA.treeSha256 && '\n' !in baseB.treeSha256 && Injective(sha)
    requires a.treeSha256 == b.treeSha256
    ensures a.baseTreeSha256 == baseA.treeSha256 == baseB.treeSha256 == b.baseTreeSha256
    ensures SamePins(a.selected, b.selected) && SamePins(b.selected, a.selected)
  {
    SelectMeans(requestedA, catalogA);
    SelectMeans(requestedB, catalogB);
    CompositeTextPins(baseA.treeSha256, a.selected, baseB.treeSha256, b.selected);
    RowsGivePins(a.selected, b.selected);
    RowsGivePins(b.selected, a.selected);
  }
}
