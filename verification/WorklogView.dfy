/**
 The visual filter over the worklog (apps/web/lib/worklog-view.ts): routine entries are hidden, and adjacent file
 writes are shown as one entry once there are three of them.
 */
module WorklogView {
  import opened Common
  import opened Presentation

  const FILE_GROUP_THRESHOLD := 3

  type Items = seq<WorklogItem>

  predicate IsRoutineNoise(item: WorklogItem) {
    item.status != ItemFailed && item.kind == System
  }

  predicate IsSignal(item: WorklogItem) {
    !IsRoutineNoise(item)
  }

  /** A file write that is over. */
  predicate Collapsible(item: WorklogItem) {
    item.kind == File && item.status != ItemRunning
  }

  function Select(items: Items, keep: WorklogItem -> bool): Items {
    if items == [] then []
    else (if keep(items[0]) then [items[0]] else []) + Select(items[1..], keep)
  }

  // --------------------------------------------------------------- the order

  /** `byOccurrence`, with the locale's comparison of identifiers as a parameter. */
  function ByOccurrence(left: WorklogItem, right: WorklogItem, locale: (string, string) -> int): int {
    if left.seqNo != right.seqNo then left.seqNo - right.seqNo else locale(left.id, right.id)
  }

  function InsertByOccurrence(x: WorklogItem, items: Items, locale: (string, string) -> int): Items {
    if items == [] || ByOccurrence(x, items[0], locale) <= 0 then [x] + items
    else [items[0]] + InsertByOccurrence(x, items[1..], locale)
  }

  /** A stable sort by `byOccurrence`. */
  function Ordered(items: Items, locale: (string, string) -> int): Items {
    if items == [] then [] else InsertByOccurrence(items[0], Ordered(items[1..], locale), locale)
  }

  // --------------------------------------------------------------- the groups

  /** Where the run of file writes that goes on at `i` ends. */
  function RunEnd(items: Items, i: nat): (e: nat)
    requires i <= |items|
    ensures i <= e <= |items|
    decreases |items| - i
  {
    if i < |items| && Collapsible(items[i]) then RunEnd(items, i + 1) else i
  }

  /** Where the run of file writes that ends before `i` starts. */
  function RunStart(items: Items, i: nat): (s: nat)
    requires i <= |items|
    ensures s <= i
  {
    if i > 0 && Collapsible(items[i - 1]) then RunStart(items, i - 1) else i
  }

  function GroupFileRun(run: Items): WorklogItem
    requires run != []
  {
    var last := run[|run| - 1];
    WorklogItem(
      "file-group:" + run[0].id + ":" + last.id,
      File,
      if exists i :: 0 <= i < |run| && run[i].status == ItemFailed then ItemFailed else ItemCompleted,
      last.stage,
      last.seqNo)
  }

  /** The entries for the items from `i` on: a long run becomes one entry, everything else stays. */
  function CollapsedFrom(items: Items, i: nat): Items
    requires i <= |items|
    decreases |items| - i
  {
    if i == |items| then []
    else
      var e := RunEnd(items, i);
      if e - i >= FILE_GROUP_THRESHOLD then [GroupFileRun(items[i..e])] + CollapsedFrom(items, e)
      else [items[i]] + CollapsedFrom(items, i + 1)
  }

  function Collapsed(items: Items): Items {
    CollapsedFrom(items, 0)
  }

  // ---------------------------------------------------------------- the loop

  lemma {:induction false} RunGoesOn(items: Items, start: nat, i: nat)
    requires start <= i <= |items| && forall k :: start <= k < i ==> Collapsible(items[k])
    ensures RunEnd(items, start) == RunEnd(items, i)
    decreases i - start
  {
    if start < i {
      RunGoesOn(items, start + 1, i);
    }
  }

  function Flushed(run: Items): Items {
    if |run| >= FILE_GROUP_THRESHOLD then [GroupFileRun(run)] else run
  }

  /** A run that ends at `i` goes out as the source flushes it. */
  lemma {:induction false} FlushIsCollapse(items: Items, start: nat, i: nat)
    requires start <= i <= |items| && RunEnd(items, start) == i
    ensures CollapsedFrom(items, start) == Flushed(items[start..i]) + CollapsedFrom(items, i)
    decreases i - start
  {
    if start < i && i - start < FILE_GROUP_THRESHOLD {
      FlushIsCollapse(items, start + 1, i);
      assert items[start..i] == [items[start]] + items[start + 1..i];
      ConcatAssociates([items[start]], items[start + 1..i], CollapsedFrom(items, i));
    }
  }

  lemma OtherItemStays(items: Items, i: nat)
    requires i < |items| && !Collapsible(items[i])
    ensures CollapsedFrom(items, i) == [items[i]] + CollapsedFrom(items, i + 1)
  {
  }

  lemma OneMoreInRun(items: Items, start: nat, i: nat)
    requires start <= i < |items|
    ensures items[start..i] + [items[i]] == items[start..i + 1]
  {
  }

  lemma FlushBeforeItem(items: Items, start: nat, i: nat, collapsed: Items)
    requires start <= i < |items| && !Collapsible(items[i]) && forall k :: start <= k < i ==> Collapsible(items[k])
    ensures collapsed + CollapsedFrom(items, start) ==
            collapsed + Flushed(items[start..i]) + [items[i]] + CollapsedFrom(items, i + 1)
  {
    RunGoesOn(items, start, i);
    FlushIsCollapse(items, start, i);
    OtherItemStays(items, i);
    var run, rest := Flushed(items[start..i]), CollapsedFrom(items, i + 1);
    ConcatAssociates(collapsed, run, [items[i]] + rest);
    ConcatAssociates(collapsed + run, [items[i]], rest);
  }

  /** What the loop has when it reaches item `i`: `run` has gone on since `start`, all before it is out. */
  ghost predicate Collapsing(items: Items, start: nat, i: nat, run: Items, collapsed: Items) {
    && start <= i <= |items| && run == items[start..i]
    && (forall k :: start <= k < i ==> Collapsible(items[k]))
    && Collapsed(items) == collapsed + CollapsedFrom(items, start)
  }

  lemma RunGrows(items: Items, start: nat, i: nat, run: Items, collapsed: Items)
    requires Collapsing(items, start, i, run, collapsed) && i < |items| && Collapsible(items[i])
    ensures Collapsing(items, start, i + 1, run + [items[i]], collapsed)
  {
    OneMoreInRun(items, start, i);
  }

  lemma RunFlushed(items: Items, start: nat, i: nat, run: Items, collapsed: Items)
    requires Collapsing(items, start, i, run, collapsed) && i < |items| && !Collapsible(items[i])
    ensures Collapsing(items, i + 1, i + 1, [], collapsed + Flushed(run) + [items[i]])
  {
    FlushBeforeItem(items, start, i, collapsed);
  }

  lemma FlushedAtEnd(items: Items, start: nat, run: Items, collapsed: Items)
    requires Collapsing(items, start, |items|, run, collapsed)
    ensures collapsed + Flushed(run) == Collapsed(items)
  {
    RunGoesOn(items, start, |items|);
    FlushIsCollapse(items, start, |items|);
  }

  /** The source's loop: a run under construction, flushed by whatever is not a finished file write. */
  method CollapseFileRuns(items: Items) returns (collapsed: Items)
    ensures collapsed == Collapsed(items)
  {
    collapsed := [];
    var run: Items := [];
    ghost var start := 0;
    for i := 0 to |items|
      invariant Collapsing(items, start, i, run, collapsed)
    {
      var item := items[i];
      if item.kind == File && item.status != ItemRunning {
        RunGrows(items, start, i, run, collapsed);
        run := run + [item];
      } else {
        RunFlushed(items, start, i, run, collapsed);
        collapsed := collapsed + Flushed(run);
        run := [];
        collapsed := collapsed + [item];
        start := i + 1;
      }
    }
    FlushedAtEnd(items, start, run, collapsed);
    collapsed := collapsed + Flushed(run);
  }
}
