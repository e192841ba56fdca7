/** The digest-pinned starter (starter.py). */
module Starter {
  // Capability overlays on a base tree, the digests that pin them, and the check of a copied tree. SHA-256 is a
  // parameter; where its output has to tell inputs apart, that is a precondition.

  import opened Common
  import opened Ordered
  import opened CanonicalText

  type Byte = n: int | 0 <= n < 256
  type Bytes = seq<Byte>

  datatype StarterFile = StarterFile(path: string, sha256: string, size: nat, ownership: string, content: Bytes)

  datatype Capability = Capability(
    id: string,
    version: string,
    treeSha256: string,
    files: seq<StarterFile>,
    conflicts: seq<string>,
    imports: seq<string>,
    protectedPaths: seq<string>
  )

  /** The loaded base starter; its protected paths are the system's and its own. */
  datatype Base = Base(files: seq<StarterFile>, treeSha256: string, imports: seq<string>, protectedPaths: seq<string>)

  datatype Manifest = Manifest(
    treeSha256: string,
    fileTreeSha256: string,
    files: seq<StarterFile>,
    availableImports: seq<string>,
    protectedPaths: seq<string>,
    baseTreeSha256: string,
    selected: seq<Capability>
  )

  datatype StarterError =
    | DuplicateSelection
    | DuplicateCatalog
    | UnknownCapabilities(ids: set<string>)
    | ConflictingCapabilities
    | OverlayCollision
    | FileSetMismatch
    | FileMismatch(path: string)
    | TreeMismatch

  const STARTER_ID := "fomo-next-radix-v2"
  const STARTER_VERSION := "2.0.2"

  function FilePath(f: StarterFile): string {
    f.path
  }

  function CapabilityId(c: Capability): string {
    c.id
  }

  function Paths(files: seq<StarterFile>): set<string> {
    set i | 0 <= i < |files| :: files[i].path
  }

  // ---------------------------------------------------------------- digests

  function FileRow(f: StarterFile): seq<string> {
    [f.path, f.sha256, Decimal(f.size)]
  }

  function FileRows(files: seq<StarterFile>): (rows: seq<seq<string>>)
    ensures |rows| == |files| && forall i :: 0 <= i < |rows| ==> rows[i] == FileRow(files[i])
  {
    if files == [] then [] else [FileRow(files[0])] + FileRows(files[1..])
  }

  /** The canonical text of a file set. */
  function TreeText(files: seq<StarterFile>): string {
    Lines(FileRows(Sort(files, FilePath)))
  }

  function TreeSha(files: seq<StarterFile>, sha: string -> string): string {
    sha(TreeText(files))
  }

  function CapabilityRow(c: Capability): seq<string> {
    ["capability", c.id, c.version, c.treeSha256]
  }

  function CapabilityRows(selected: seq<Capability>): (rows: seq<seq<string>>)
    ensures |rows| == |selected| && forall i :: 0 <= i < |rows| ==> rows[i] == CapabilityRow(selected[i])
  {
    if selected == [] then [] else [CapabilityRow(selected[0])] + CapabilityRows(selected[1..])
  }

  function CompositeRows(baseSha: string, selected: seq<Capability>): (rows: seq<seq<string>>)
    ensures forall i :: 0 <= i < |rows| ==> |rows[i]| == 4
  {
    [["base", STARTER_ID, STARTER_VERSION, baseSha]] + CapabilityRows(Sort(selected, CapabilityId))
  }

  function CompositeText(baseSha: string, selected: seq<Capability>): string {
    Lines(CompositeRows(baseSha, selected))
  }

  // -------------------------------------------------------------- selection

  function Lookup(catalog: seq<Capability>, id: string): Option<Capability> {
    if catalog == [] then None else if catalog[0].id == id then Some(catalog[0]) else Lookup(catalog[1..], id)
  }

  function Pick(requested: seq<string>, catalog: seq<Capability>): seq<Capability> {
    if requested == [] then []
    else (match Lookup(catalog, requested[0]) case Some(c) => [c] case None => []) + Pick(requested[1..], catalog)
  }

  predicate Conflicting(selected: seq<Capability>) {
    exists i, j :: 0 <= i < |selected| && 0 <= j < |selected| && selected[j].id in selected[i].conflicts
  }

  /** The checked selection, by identifier. */
  function Select(requested: seq<string>, catalog: seq<Capability>): Result<seq<Capability>, StarterError> {
    var unknown := set id | id in requested && Lookup(catalog, id) == None;
    var selected := Sort(Pick(requested, catalog), CapabilityId);
    if !Distinct(requested) then Err(DuplicateSelection)
    else if !DistinctKeys(catalog, CapabilityId) then Err(DuplicateCatalog)
    else if unknown != {} then Err(UnknownCapabilities(unknown))
    else if Conflicting(selected) then Err(ConflictingCapabilities)
    else Ok(selected)
  }

  // ---------------------------------------------------------------- overlay

  predicate DistinctPaths(files: seq<StarterFile>) {
    forall i, j :: 0 <= i < j < |files| ==> files[i].path != files[j].path
  }

  /** All files of the capabilities from the `i`-th on, in order. */
  function OverlayFiles(selected: seq<Capability>, i: nat): seq<StarterFile>
    requires i <= |selected|
    decreases |selected| - i
  {
    if i == |selected| then [] else selected[i].files + OverlayFiles(selected, i + 1)
  }

  /** One overlay after another, each with paths of its own that no earlier file has. */
  predicate OverlaysFit(known: set<string>, selected: seq<Capability>, i: nat)
    requires i <= |selected|
    decreases |selected| - i
  {
    i == |selected| ||
    (DistinctPaths(selected[i].files) && known * Paths(selected[i].files) == {}
     && OverlaysFit(known + Paths(selected[i].files), selected, i + 1))
  }

  function Combined(base: seq<StarterFile>, selected: seq<Capability>): Result<seq<StarterFile>, StarterError> {
    if OverlaysFit(Paths(base), selected, 0) then Ok(Sort(base + OverlayFiles(selected, 0), FilePath))
        else Err(OverlayCollision)
  }

  lemma OnePathMore(files: seq<StarterFile>, i: nat)
    requires i < |files|
    ensures Paths(files[..i + 1]) == Paths(files[..i]) + {files[i].path}
    ensures DistinctPaths(files[..i + 1]) <==> DistinctPaths(files[..i]) && files[i].path !in Paths(files[..i])
  {
    var before, after := files[..i], files[..i + 1];
    assert after == before + [files[i]];
    forall path ensures path in Paths(after) <==> path in Paths(before) + {files[i].path} {
      if path in Paths(before) {
        var j :| 0 <= j < i && before[j].path == path;
        assert after[j].path == path;
      } else if path == files[i].path {
        assert after[i].path == path;
      }
    }
    if files[i].path in Paths(before) {
      var j :| 0 <= j < i && before[j].path == files[i].path;
      assert after[j].path == after[i].path;
    }
    if DistinctPaths(after) {
      forall j, k | 0 <= j < k < i ensures before[j].path != before[k].path {
        assert after[j].path != after[k].path;
      }
    }
  }

  /** The set of a list has the list's length exactly when no path comes twice. */
  method PathSet(files: seq<StarterFile>) returns (paths: set<string>)
    ensures paths == Paths(files)
    ensures |paths| == |files| <==> DistinctPaths(files)
  {
    paths := {};
    for i := 0 to |files|
      invariant paths == Paths(files[..i])
      invariant |paths| <= i
      invariant |paths| == i <==> DistinctPaths(files[..i])
    {
      OnePathMore(files, i);
      paths := paths + {files[i].path};
    }
    assert files[..|files|] == files;
  }

  lemma NextOverlay(known: set<string>, selected: seq<Capability>, i: nat, paths: set<string>)
    requires i < |selected| && paths == Paths(selected[i].files)
    ensures OverlaysFit(known, selected, i) <==>
            DistinctPaths(selected[i].files) && known * paths == {} && OverlaysFit(known + paths, selected, i + 1)
  {
  }

  lemma OverlayJoins(base: seq<StarterFile>, files: seq<StarterFile>, selected: seq<Capability>, i: nat)
    requires i < |selected| && base + OverlayFiles(selected, 0) == files + OverlayFiles(selected, i)
    ensures base + OverlayFiles(selected, 0) == files + selected[i].files + OverlayFiles(selected, i + 1)
  {
    ConcatAssociates(files, selected[i].files, OverlayFiles(selected, i + 1));
  }

  method CombineFiles(base: seq<StarterFile>, selected: seq<Capability>)
    returns (r: Result<seq<StarterFile>, StarterError>)
    ensures r == Combined(base, selected)
  {
    var files := base;
    var knownPaths := PathSet(base);
    for i := 0 to |selected|
      invariant OverlaysFit(Paths(base), selected, 0) <==> OverlaysFit(knownPaths, selected, i)
      invariant base + OverlayFiles(selected, 0) == files + OverlayFiles(selected, i)
    {
      var capabilityPaths := PathSet(selected[i].files);
      NextOverlay(knownPaths, selected, i, capabilityPaths);
      OverlayJoins(base, files, selected, i);
      if |capabilityPaths| != |selected[i].files| || knownPaths * capabilityPaths != {} {
        return Err(OverlayCollision);
      }
      knownPaths := knownPaths + capabilityPaths;
      files := files + selected[i].files;
    }
    assert files + [] == files;
    return Ok(Sort(files, FilePath));
  }

  /** Every item once, where it first occurs, as the keys of a dictionary. */
  function FirstOccurrences(items: seq<string>): seq<string> {
    if items == [] then []
    else
      var earlier, last := FirstOccurrences(items[..|items| - 1]), items[|items| - 1];
      if last in earlier then earlier else earlier + [last]
  }

  function ImportsOf(selected: seq<Capability>): seq<string> {
    if selected == [] then [] else selected[0].imports + ImportsOf(selected[1..])
  }

  function ProtectedOf(selected: seq<Capability>): seq<string> {
    if selected == [] then [] else selected[0].protectedPaths + ProtectedOf(selected[1..])
  }

  /** `resolve_starter_manifest`, with the loaded base as a parameter. */
  function Resolve(requested: seq<string>, catalog: seq<Capability>, base: Base, sha: string -> string)
    : Result<Manifest, StarterError>
  {
    match Select(requested, catalog)
    case Err(e) => Err(e)
    case Ok(selected) =>
      match Combined(base.files, selected)
      case Err(e) => Err(e)
      case Ok(files) =>
        Ok(Manifest(sha(CompositeText(base.treeSha256, selected)), TreeSha(files, sha), files,
                    FirstOccurrences(base.imports + ImportsOf(selected)), base.protectedPaths + ProtectedOf(selected),
                    base.treeSha256, selected))
  }

  // ------------------------------------------------------------ verification

  function Find(files: seq<StarterFile>, path: string): Option<StarterFile> {
    if files == [] then None else if files[0].path == path then Some(files[0]) else Find(files[1..], path)
  }

  /** `verify_file` lets the content through. */
  predicate Verified(files: seq<StarterFile>, path: string, content: Bytes, digest: Bytes -> string) {
    match Find(files, path)
    case None => false
    case Some(expected) => |content| == expected.size && digest(content) == expected.sha256
  }

  /** The first file, from the `i`-th on, whose copy does not verify. */
  function FirstMismatch(files: seq<StarterFile>, i: nat, copied: map<string, Bytes>, digest: Bytes -> string)
    : Option<string>
    requires i <= |files| && Paths(files) <= copied.Keys
    decreases |files| - i
  {
    if i == |files| then None
    else
      assert files[i].path in Paths(files);
      if !Verified(files, files[i].path, copied[files[i].path], digest) then Some(files[i].path)
      else FirstMismatch(files, i + 1, copied, digest)
  }

  /** The entries as the check rebuilds them from what was copied. */
  function Rebuilt(files: seq<StarterFile>, i: nat, copied: map<string, Bytes>, digest: Bytes -> string)
    : (entries: seq<StarterFile>)
    requires i <= |files| && Paths(files) <= copied.Keys
    ensures |entries| == i
  {
    if i == 0 then []
    else
      var f := files[i - 1];
      assert f.path in Paths(files);
      Rebuilt(files, i - 1, copied, digest) +
          [StarterFile(f.path, digest(copied[f.path]), |copied[f.path]|, f.ownership, copied[f.path])]
  }

  /** What `verify_tree` reports. */
  function Verification(m: Manifest, copied: map<string, Bytes>, digest: Bytes -> string, sha: string -> string)
    : Result<(), StarterError>
  {
    if copied.Keys != Paths(m.files) then Err(FileSetMismatch)
    else match FirstMismatch(m.files, 0, copied, digest)
         case Some(path) => Err(FileMismatch(path))
         case None =>
           if TreeSha(Rebuilt(m.files, |m.files|, copied, digest), sha) != m.fileTreeSha256 then Err(TreeMismatch)
               else Ok(())
  }

  method VerifyTree(m: Manifest, copied: map<string, Bytes>, digest: Bytes -> string, sha: string -> string)
    returns (r: Result<(), StarterError>)
    ensures r == Verification(m, copied, digest, sha)
  {
    var paths := PathSet(m.files);
    if copied.Keys != paths {
      return Err(FileSetMismatch);
    }
    var verifiedEntries: seq<StarterFile> := [];
    for i := 0 to |m.files|
      invariant FirstMismatch(m.files, 0, copied, digest) == FirstMismatch(m.files, i, copied, digest)
      invariant verifiedEntries == Rebuilt(m.files, i, copied, digest)
    {
      var entry := m.files[i];
      assert entry.path in paths;
      var content := copied[entry.path];
      if !Verified(m.files, entry.path, content, digest) {
        return Err(FileMismatch(entry.path));
      }
      verifiedEntries := verifiedEntries +
          [StarterFile(entry.path, digest(content), |content|, entry.ownership, content)];
    }
    if TreeSha(verifiedEntries, sha) != m.fileTreeSha256 {
      return Err(TreeMismatch);
    }
    return Ok(());
  }
}
