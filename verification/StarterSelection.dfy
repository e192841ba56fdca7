/** Which selections the starter resolves, and what their manifests accept. */
module StarterSelection {
  import opened Common
  import opened Ordered
  import opened Starter
  import opened StarterOverlays
  import opened StarterDigests

  lemma {:induction false} LookupFinds(catalog: seq<Capability>, id: string)
    ensures match Lookup(catalog, id)
            case Some(c) => c in catalog && c.id == id
            case None => forall c :: c in catalog ==> c.id != id
    decreases |catalog|
  {
    if catalog != [] {
      LookupFinds(catalog[1..], id);
      assert catalog == [catalog[0]] + catalog[1..];
    }
  }

  lemma {:induction false} PickHas(requested: seq<string>, catalog: seq<Capability>, c: Capability)
    ensures c in Pick(requested, catalog) <==> c.id in requested && Lookup(catalog, c.id) == Some(c)
    decreases |requested|
  {
    if requested != [] {
      PickHas(requested[1..], catalog, c);
      LookupFinds(catalog, requested[0]);
      assert requested == [requested[0]] + requested[1..];
    }
  }

  lemma {:induction false} PickIsDistinct(requested: seq<string>, catalog: seq<Capability>)
    requires Distinct(requested)
    ensures DistinctKeys(Pick(requested, catalog), CapabilityId)
    decreases |requested|
  {
    if requested != [] {
      var id, rest := requested[0], requested[1..];
      DistinctRest(requested);
      PickIsDistinct(rest, catalog);
      LookupFinds(catalog, id);
      var picked := Pick(rest, catalog);
      forall i | 0 <= i < |picked| ensures picked[i].id != id {
        PickHas(rest, catalog, picked[i]);
      }
      match Lookup(catalog, id)
      case None =>
      case Some(c) => ConsIsDistinct(c, picked);
    }
  }

  lemma ConsIsDistinct(c: Capability, picked: seq<Capability>)
    requires DistinctKeys(picked, CapabilityId) && forall i :: 0 <= i < |picked| ==> picked[i].id != c.id
    ensures DistinctKeys([c] + picked, CapabilityId)
  {
    var all := [c] + picked;
    forall i, j | 0 <= i < j < |all| ensures CapabilityId(all[i]) != CapabilityId(all[j]) {
      if i > 0 {
        assert CapabilityId(picked[i - 1]) != CapabilityId(picked[j - 1]);
      }
    }
  }

  lemma NothingUnknown(requested: seq<string>, catalog: seq<Capability>)
    ensures (set id | id in requested && Lookup(catalog, id) == None) == {} <==>
            forall id :: id in requested ==> Lookup(catalog, id).Some?
  {
    var unknown := set id | id in requested && Lookup(catalog, id) == None;
    assert forall id :: id in requested ==> (id in unknown <==> Lookup(catalog, id) == None);
    if unknown != {} {
      var id :| id in unknown;
    }
  }

  /** A selection that is let through holds exactly the requested capabilities, in identifier order. */
  lemma SelectMeans(requested: seq<string>, catalog: seq<Capability>)
    ensures Select(requested, catalog).Ok? <==>
            && Distinct(requested) && DistinctKeys(catalog, CapabilityId)
            && (forall id :: id in requested ==> Lookup(catalog, id).Some?)
            && !Conflicting(Sort(Pick(requested, catalog), CapabilityId))
    ensures Select(requested, catalog).Ok? ==>
              var selected := Select(requested, catalog).value;
              && Ascending(selected, CapabilityId)
              && forall c :: c in selected <==> c.id in requested && Lookup(catalog, c.id) == Some(c)
  {
    NothingUnknown(requested, catalog);
    if Distinct(requested) {
      var picked := Pick(requested, catalog);
      PickIsDistinct(requested, catalog);
      SortAscends(picked, CapabilityId);
      forall c ensures c in Sort(picked, CapabilityId) <==> c.id in requested && Lookup(catalog, c.id) == Some(c) {
        SortHasMember(picked, CapabilityId, c);
        PickHas(requested, catalog, c);
      }
    }
  }

  lemma PickIgnoresOrder(a: seq<string>, b: seq<string>, catalog: seq<Capability>)
    requires multiset(a) == multiset(b) && Distinct(a) && Distinct(b)
    ensures Sort(Pick(a, catalog), CapabilityId) == Sort(Pick(b, catalog), CapabilityId)
  {
    SameElements(a, b);
    PickIsDistinct(a, catalog);
    PickIsDistinct(b, catalog);
    forall c ensures c in Pick(a, catalog) <==> c in Pick(b, catalog) {
      PickHas(a, catalog, c);
      PickHas(b, catalog, c);
    }
    SortIsCanonical(Pick(a, catalog), Pick(b, catalog), CapabilityId);
  }

  lemma SelectIgnoresOrder(a: seq<string>, b: seq<string>, catalog: seq<Capability>)
    requires multiset(a) == multiset(b)
    ensures Select(a, catalog) == Select(b, catalog)
  {
    SameElements(a, b);
    if Distinct(a) {
      PickIgnoresOrder(a, b, catalog);
    }
    assert (set id | id in a && Lookup(catalog, id) == None) == (set id | id in b && Lookup(catalog, id) == None);
  }

  /** The manifest, or the error, does not depend on the order of the selection. */
  lemma ResolveIgnoresOrder(a: seq<string>, b: seq<string>, catalog: seq<Capability>, base: Base, sha: string -> string)
    requires multiset(a) == multiset(b)
    ensures Resolve(a, catalog, base, sha) == Resolve(b, catalog, base, sha)
  {
    SelectIgnoresOrder(a, b, catalog);
  }

  lemma {:induction false} FirstOccurrencesMean(items: seq<string>)
    ensures Distinct(FirstOccurrences(items)) && forall x :: x in FirstOccurrences(items) <==> x in items
  {
    if items != [] {
      FirstOccurrencesMean(items[..|items| - 1]);
      assert items == items[..|items| - 1] + [items[|items| - 1]];
    }
  }

  lemma {:induction false} FirstOccurrencesGoOn(a: seq<string>, b: seq<string>)
    ensures FirstOccurrences(a) <= FirstOccurrences(a + b)
  {
    if b == [] {
      assert a + b == a;
    } else {
      LastOfConcat(a, b);
      FirstOccurrencesGoOn(a, b[..|b| - 1]);
    }
  }

  lemma {:induction false} DistinctStays(items: seq<string>)
    requires Distinct(items)
    ensures FirstOccurrences(items) == items
  {
    if items != [] {
      DistinctStays(items[..|items| - 1]);
    }
  }

  lemma {:induction false} ListsOfCapabilities(selected: seq<Capability>)
    ensures forall x :: x in ImportsOf(selected) <==> exists c :: c in selected && x in c.imports
    ensures forall x :: x in ProtectedOf(selected) <==> exists c :: c in selected && x in c.protectedPaths
  {
    if selected != [] {
      ListsOfCapabilities(selected[1..]);
      assert selected == [selected[0]] + selected[1..];
    }
  }

  /** Imports are those of the base and of the selected capabilities, each once; protected are the paths of either. */
  lemma ManifestLists(requested: seq<string>, catalog: seq<Capability>, base: Base, sha: string -> string)
    requires Resolve(requested, catalog, base, sha).Ok?
    ensures var m := Resolve(requested, catalog, base, sha).value;
            && Distinct(m.availableImports)
            && (forall x :: x in m.availableImports <==>
                x in base.imports || exists c :: c in m.selected && x in c.imports)
            && (forall x :: x in m.protectedPaths <==>
                x in base.protectedPaths || exists c :: c in m.selected && x in c.protectedPaths)
            && (forall c :: c in m.selected ==> c.id in requested && Lookup(catalog, c.id) == Some(c))
            && base.protectedPaths <= m.protectedPaths
            && (Distinct(base.imports) ==> base.imports <= m.availableImports)
  {
    var m := Resolve(requested, catalog, base, sha).value;
    SelectMeans(requested, catalog);
    ListsOfCapabilities(m.selected);
    FirstOccurrencesMean(base.imports + ImportsOf(m.selected));
    FirstOccurrencesGoOn(base.imports, ImportsOf(m.selected));
    if Distinct(base.imports) {
      DistinctStays(base.imports);
    }
  }

  lemma {:induction false} OverlayFilesAreGenuine(selected: seq<Capability>, i: nat, digest: Bytes -> string)
    requires i <= |selected| && forall c :: c in selected ==> GenuineFiles(c.files, digest)
    ensures GenuineFiles(OverlayFiles(selected, i), digest)
    decreases |selected| - i
  {
    if i < |selected| {
      assert selected[i] in selected;
      OverlayFilesAreGenuine(selected, i + 1, digest);
    }
  }

  lemma ResolvedFilesAreGenuine(requested: seq<string>, catalog: seq<Capability>, base: Base,
                                digest: Bytes -> string, sha: string -> string)
    requires GenuineFiles(base.files, digest) && forall c :: c in catalog ==> GenuineFiles(c.files, digest)
    requires Resolve(requested, catalog, base, sha).Ok?
    ensures GenuineFiles(Resolve(requested, catalog, base, sha).value.files, digest)
  {
    var m := Resolve(requested, catalog, base, sha).value;
    SelectMeans(requested, catalog);
    forall c | c in m.selected ensures GenuineFiles(c.files, digest) {
      LookupFinds(catalog, c.id);
    }
    OverlayFilesAreGenuine(m.selected, 0, digest);
    var all := base.files + OverlayFiles(m.selected, 0);
    forall i | 0 <= i < |m.files| ensures Genuine(m.files[i], digest) {
      SortHasMember(all, FilePath, m.files[i]);
    }
  }

  /** A resolved manifest accepts exactly the copies that hold base and overlays, byte for byte. */
  lemma ResolvedManifestVerifiesItsTree(requested: seq<string>, catalog: seq<Capability>, base: Base,
                                        copied: map<string, Bytes>, digest: Bytes -> string, sha: string -> string)
    requires DistinctPaths(base.files) && GenuineFiles(base.files, digest) && Injective(digest)
    requires forall c :: c in catalog ==> GenuineFiles(c.files, digest)
    requires Resolve(requested, catalog, base, sha).Ok?
    ensures var m := Resolve(requested, catalog, base, sha).value;
            Verification(m, copied, digest, sha).Ok? <==>
                copied.Items == Contents(base.files + OverlayFiles(m.selected, 0))
  {
    var m := Resolve(requested, catalog, base, sha).value;
    var all := base.files + OverlayFiles(m.selected, 0);
    CombinedIsDisjointUnion(base.files, m.selected);
    ResolvedFilesAreGenuine(requested, catalog, base, digest, sha);
    VerifiesExactlyTheTree(m, copied, digest, sha);
    SortedContents(all);
  }

  lemma SortedContents(files: seq<StarterFile>)
    ensures Contents(Sort(files, FilePath)) == Contents(files)
  {
    var sorted := Sort(files, FilePath);
    forall c ensures c in Contents(sorted) <==> c in Contents(files) {
      if c in Contents(sorted) {
        var i :| 0 <= i < |sorted| && (sorted[i].path, sorted[i].content) == c;
        SortHasMember(files, FilePath, sorted[i]);
      }
      if c in Contents(files) {
        var i :| 0 <= i < |files| && (files[i].path, files[i].content) == c;
        SortHasMember(files, FilePath, files[i]);
      }
    }
  }
}
