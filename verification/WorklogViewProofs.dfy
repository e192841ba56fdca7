/**
 What collapsing does to a list of items: it groups exactly the maximal runs of three or more finished file writes,
 loses and reorders nothing, and collapsing twice is collapsing once.
 */
module WorklogViewProofs {
  import opened Common
  import opened Presentation
  import opened PresentationProofs
  import opened WorklogView

  // ------------------------------------------- which items an entry stands for

  /** The items `items[start..end]`. */
  datatype Span = Span(start: nat, end: nat)

  function SpansFrom(items: Items, i: nat): seq<Span>
    requires i <= |items|
    decreases |items| - i
  {
    if i == |items| then []
    else
      var e := RunEnd(items, i);
      if e - i >= FILE_GROUP_THRESHOLD then [Span(i, e)] + SpansFrom(items, e)
      else [Span(i, i + 1)] + SpansFrom(items, i + 1)
  }

  /** The entry that shows a span. */
  function Shown(items: Items, s: Span): WorklogItem
    requires s.start < s.end <= |items|
  {
    if s.end == s.start + 1 then items[s.start] else GroupFileRun(items[s.start..s.end])
  }

  lemma {:induction false} RunEndMeans(items: Items, i: nat, k: nat)
    requires i <= |items| && i <= k <= RunEnd(items, i)
    ensures k < RunEnd(items, i) ==> Collapsible(items[k])
    ensures RunEnd(items, k) == RunEnd(items, i)
    ensures k == RunEnd(items, i) < |items| ==> !Collapsible(items[k])
    decreases k - i
  {
    if i < k {
      RunEndMeans(items, i + 1, k);
    }
  }

  lemma {:induction false} RunStartMeans(items: Items, i: nat, k: nat)
    requires i <= |items| && RunStart(items, i) <= k <= i
    ensures RunStart(items, i) < k ==> Collapsible(items[k - 1])
    ensures RunStart(items, k) == RunStart(items, i)
    decreases i - k
  {
    if k < i {
      RunStartMeans(items, i - 1, k);
    }
  }

  lemma {:induction false} RunStartOverRun(items: Items, i: nat, k: nat)
    requires i <= |items| && i <= k <= RunEnd(items, i)
    ensures RunStart(items, k) == RunStart(items, i)
    decreases k - i
  {
    if i < k {
      RunEndMeans(items, i, k - 1);
      RunStartOverRun(items, i, k - 1);
    }
  }

  /** The spans lie one behind the other, from `i` to the end of the items. */
  ghost predicate Tiles(spans: seq<Span>, items: Items, i: nat) {
    && (if spans == [] then i == |items| else spans[0].start == i && spans[|spans| - 1].end == |items|)
    && (forall k :: 0 <= k < |spans| ==> spans[k].start < spans[k].end <= |items|)
    && (forall k :: 0 <= k < |spans| - 1 ==> spans[k].end == spans[k + 1].start)
  }

  lemma TilesCons(first: Span, rest: seq<Span>, items: Items)
    requires first.start < first.end <= |items| && Tiles(rest, items, first.end)
    ensures Tiles([first] + rest, items, first.start)
  {
    var all := [first] + rest;
    forall k | 0 <= k < |all| - 1 ensures all[k].end == all[k + 1].start {
      if k > 0 {
        assert rest[k - 1].end == rest[k].start;
      }
    }
  }

  ghost predicate EntriesShow(entries: Items, spans: seq<Span>, items: Items) {
    && |entries| == |spans| && (forall k :: 0 <= k < |spans| ==> spans[k].start < spans[k].end <= |items|)
    && forall k :: 0 <= k < |spans| ==> entries[k] == Shown(items, spans[k])
  }

  lemma EntriesCons(entry: WorklogItem, entries: Items, first: Span, spans: seq<Span>, items: Items)
    requires first.start < first.end <= |items| && entry == Shown(items, first) && EntriesShow(entries, spans, items)
    ensures EntriesShow([entry] + entries, [first] + spans, items)
  {
  }

  /** Where the span that starts at `i` ends. */
  function SpanEnd(items: Items, i: nat): (next: nat)
    requires i < |items|
    ensures i < next <= |items|
  {
    var e := RunEnd(items, i);
    if e - i >= FILE_GROUP_THRESHOLD then e else i + 1
  }

  lemma OneSpan(items: Items, i: nat)
    requires i < |items|
    ensures var next := SpanEnd(items, i);
            && SpansFrom(items, i) == [Span(i, next)] + SpansFrom(items, next)
            && CollapsedFrom(items, i) == [Shown(items, Span(i, next))] + CollapsedFrom(items, next)
  {
  }

  /** Entries and spans go together, and the spans cover every item once, in order. */
  lemma {:induction false} EntriesShowSpans(items: Items, i: nat)
    requires i <= |items|
    ensures Tiles(SpansFrom(items, i), items, i) && EntriesShow(CollapsedFrom(items, i), SpansFrom(items, i), items)
    decreases |items| - i
  {
    if i < |items| {
      var next := SpanEnd(items, i);
      OneSpan(items, i);
      EntriesShowSpans(items, next);
      TilesCons(Span(i, next), SpansFrom(items, next), items);
      EntriesCons(Shown(items, Span(i, next)), CollapsedFrom(items, next), Span(i, next), SpansFrom(items, next),
                  items);
    }
  }

  /** A span is a whole maximal run of three or more, or a single item outside of any such run. */
  ghost predicate Maximal(items: Items, s: Span)
    requires s.start < s.end <= |items|
  {
    if s.end == s.start + 1 then
      Collapsible(items[s.start]) ==> RunEnd(items, s.start) - RunStart(items, s.start) < FILE_GROUP_THRESHOLD
    else
      && s.end - s.start >= FILE_GROUP_THRESHOLD
      && RunStart(items, s.start) == s.start && RunEnd(items, s.start) == s.end
  }

  lemma {:induction false} SpansAreMaximal(items: Items, i: nat)
    requires i <= |items|
    requires i < |items| && Collapsible(items[i]) ==>
               RunStart(items, i) == i || RunEnd(items, i) - RunStart(items, i) < FILE_GROUP_THRESHOLD
    ensures forall k :: 0 <= k < |SpansFrom(items, i)| ==>
              var s := SpansFrom(items, i)[k]; s.start < s.end <= |items| && Maximal(items, s)
    decreases |items| - i
  {
    if i < |items| {
      var e := RunEnd(items, i);
      RunEndMeans(items, i, e);
      if e - i >= FILE_GROUP_THRESHOLD {
        BoundaryAfterRun(items, i);
        SpansAreMaximal(items, e);
      } else {
        if Collapsible(items[i]) {
          RunStartOverRun(items, i, i + 1);
          RunEndMeans(items, i, i + 1);
        }
        SpansAreMaximal(items, i + 1);
      }
    }
  }

  /** Behind a run lies nothing of it. */
  lemma BoundaryAfterRun(items: Items, i: nat)
    requires i <= |items|
    ensures RunEnd(items, RunEnd(items, i)) == RunEnd(items, i)
  {
    RunEndMeans(items, i, RunEnd(items, i));
  }

  /** The entries stand for the whole runs of three or more and for every other item, each once and in order. */
  lemma CollapseGroupsMaximalRuns(items: Items)
    ensures var spans := SpansFrom(items, 0);
            && Tiles(spans, items, 0) && |Collapsed(items)| == |spans|
            && forall k :: 0 <= k < |spans| ==>
                 Maximal(items, spans[k]) && Collapsed(items)[k] == Shown(items, spans[k])
  {
    EntriesShowSpans(items, 0);
    SpansAreMaximal(items, 0);
  }

  /** A file write that is over, however it ended. */
  predicate FinishedWrite(x: WorklogItem) {
    x.kind == File && x.status in {ItemCompleted, ItemFailed, ItemInfo}
  }

  /** `items[a..b]` are finished file writes, and no neighbour is another one. */
  ghost predicate IsRun(items: Items, a: nat, b: nat) {
    && a < b <= |items| && (forall k :: a <= k < b ==> FinishedWrite(items[k]))
    && (a > 0 ==> !FinishedWrite(items[a - 1])) && (b < |items| ==> !FinishedWrite(items[b]))
  }

  /** One entry for a run: named after its ends, failed if any of its writes failed, standing where the last stood. */
  ghost predicate GroupTells(entry: WorklogItem, run: Items)
    requires run != []
  {
    var first, last := run[0], run[|run| - 1];
    && entry.kind == File && entry.id == "file-group:" + first.id + ":" + last.id
    && entry.seqNo == last.seqNo && entry.stage == last.stage
    && (entry.status == ItemFailed <==> exists x :: x in run && x.status == ItemFailed)
    && (entry.status == ItemCompleted <==> forall x :: x in run ==> x.status != ItemFailed)
  }

  /** The entry stands for a whole run of three or more, or for one item that is in no such run. */
  ghost predicate EntryTells(entry: WorklogItem, items: Items, s: Span)
    requires s.start < s.end <= |items|
  {
    if s.end - s.start >= 3 then IsRun(items, s.start, s.end) && GroupTells(entry, items[s.start..s.end])
    else
      && s.end == s.start + 1 && entry == items[s.start]
      && forall a: nat, b: nat :: IsRun(items, a, b) && a <= s.start < b ==> b - a < 3
  }

  lemma RunAround(items: Items, i: nat)
    requires i < |items| && Collapsible(items[i])
    ensures IsRun(items, RunStart(items, i), RunEnd(items, i)) && RunStart(items, i) <= i < RunEnd(items, i)
  {
    var a, b := RunStart(items, i), RunEnd(items, i);
    forall k | a <= k < b ensures FinishedWrite(items[k]) {
      if k < i {
        RunStartMeans(items, i, k + 1);
      } else {
        RunEndMeans(items, i, k);
      }
    }
    RunStartMeans(items, i, a);
    RunEndMeans(items, i, b);
    RunEndMeans(items, i, i + 1);
  }

  lemma OnlyRunAround(items: Items, i: nat, a: nat, b: nat, c: nat, d: nat)
    requires IsRun(items, a, b) && IsRun(items, c, d) && a <= i < b && c <= i < d
    ensures a == c && b == d
  {
    assert a < c ==> a <= c - 1 < b;
    assert c < a ==> c <= a - 1 < d;
    assert b < d ==> c <= b < d;
    assert d < b ==> a <= d < b;
  }

  lemma GroupIs(run: Items)
    requires run != []
    ensures GroupTells(GroupFileRun(run), run)
  {
    if x :| x in run && x.status == ItemFailed {
      var i :| 0 <= i < |run| && run[i] == x;
    }
  }

  lemma SpanTells(items: Items, s: Span)
    requires s.start < s.end <= |items| && Maximal(items, s)
    ensures EntryTells(Shown(items, s), items, s)
  {
    var i := s.start;
    if s.end == i + 1 {
      forall a: nat, b: nat | IsRun(items, a, b) && a <= i < b ensures b - a < 3 {
        assert FinishedWrite(items[i]);
        RunAround(items, i);
        OnlyRunAround(items, i, a, b, RunStart(items, i), RunEnd(items, i));
      }
    } else {
      RunEndMeans(items, i, i);
      RunAround(items, i);
      GroupIs(items[i..s.end]);
    }
  }

  /** Over any list: what each entry tells, and that together they stand for every item once, in order. */
  lemma EntriesTell(items: Items)
    ensures var spans := SpansFrom(items, 0);
            && Tiles(spans, items, 0) && |Collapsed(items)| == |spans|
            && forall k :: 0 <= k < |spans| ==> EntryTells(Collapsed(items)[k], items, spans[k])
  {
    CollapseGroupsMaximalRuns(items);
    var spans := SpansFrom(items, 0);
    forall k | 0 <= k < |spans| ensures EntryTells(Collapsed(items)[k], items, spans[k]) {
      SpanTells(items, spans[k]);
    }
  }

  function Sizes(spans: seq<Span>): int {
    if spans == [] then 0 else spans[0].end - spans[0].start + Sizes(spans[1..])
  }

  lemma {:induction false} TilesAddUp(spans: seq<Span>, items: Items, i: nat)
    requires i <= |items| && Tiles(spans, items, i)
    ensures Sizes(spans) == |items| - i
    decreases |spans|
  {
    if |spans| == 1 {
      assert spans[1..] == [];
    } else if |spans| > 1 {
      TilesTail(spans, items);
      TilesAddUp(spans[1..], items, spans[0].end);
    }
  }

  lemma TilesTail(spans: seq<Span>, items: Items)
    requires |spans| > 1 && Tiles(spans, items, spans[0].start)
    ensures Tiles(spans[1..], items, spans[0].end)
  {
    var rest := spans[1..];
    forall k | 0 <= k < |rest| - 1 ensures rest[k].end == rest[k + 1].start {
      assert spans[k + 1].end == spans[k + 2].start;
    }
  }

  /** No item is lost: the sizes of what the entries stand for add up to the number of items. */
  lemma CollapseConserves(items: Items)
    ensures Sizes(SpansFrom(items, 0)) == |items|
  {
    EntriesShowSpans(items, 0);
    TilesAddUp(SpansFrom(items, 0), items, 0);
  }

  // ------------------------------------------------------------ what is kept

  predicate IsOther(item: WorklogItem) {
    !Collapsible(item)
  }

  lemma {:induction false} SelectSplits(a: Items, b: Items, keep: WorklogItem -> bool)
    ensures Select(a + b, keep) == Select(a, keep) + Select(b, keep)
    decreases |a|
  {
    if a == [] {
      assert a + b == b;
    } else {
      assert (a + b)[1..] == a[1..] + b;
      SelectSplits(a[1..], b, keep);
      ConcatAssociates(if keep(a[0]) then [a[0]] else [], Select(a[1..], keep), Select(b, keep));
    }
  }

  lemma {:induction false} RunHasNoOthers(items: Items, i: nat, e: nat)
    requires i <= e <= |items| && forall k :: i <= k < e ==> Collapsible(items[k])
    ensures Select(items[i..e], IsOther) == []
    decreases e - i
  {
    if i < e {
      RunHasNoOthers(items, i + 1, e);
      assert items[i..e][1..] == items[i + 1..e];
    }
  }

  lemma GroupHasNoOthers(items: Items, i: nat)
    requires i <= |items|
    ensures Select(items[i..RunEnd(items, i)], IsOther) == []
  {
    var e := RunEnd(items, i);
    forall k | i <= k < e ensures Collapsible(items[k]) {
      RunEndMeans(items, i, k);
    }
    RunHasNoOthers(items, i, e);
  }

  lemma OthersOfParts(front: Items, rest: Items, shown: Items, shownRest: Items)
    requires Select(front, IsOther) == Select(shown, IsOther) && Select(rest, IsOther) == Select(shownRest, IsOther)
    ensures Select(front + rest, IsOther) == Select(shown + shownRest, IsOther)
  {
    SelectSplits(front, rest, IsOther);
    SelectSplits(shown, shownRest, IsOther);
  }

  lemma FrontAndRest(items: Items, i: nat, next: nat)
    requires i <= next <= |items|
    ensures items[i..next] + items[next..] == items[i..]
  {
  }

  /** Everything but finished file writes stays as it was, in the order it had. */
  lemma {:induction false} OthersAreKept(items: Items, i: nat)
    requires i <= |items|
    ensures Select(CollapsedFrom(items, i), IsOther) == Select(items[i..], IsOther)
    decreases |items| - i
  {
    if i < |items| {
      var e := RunEnd(items, i);
      if e - i >= FILE_GROUP_THRESHOLD {
        OthersAreKept(items, e);
        GroupHasNoOthers(items, i);
        OthersOfParts(items[i..e], items[e..], [GroupFileRun(items[i..e])], CollapsedFrom(items, e));
        FrontAndRest(items, i, e);
      } else {
        OthersAreKept(items, i + 1);
        OthersOfParts([items[i]], items[i + 1..], [items[i]], CollapsedFrom(items, i + 1));
        assert [items[i]] + items[i + 1..] == items[i..];
      }
    }
  }

  lemma ShownSeq(items: Items, s: Span)
    requires s.start < s.end <= |items|
    ensures Shown(items, s).seqNo == items[s.end - 1].seqNo
  {
  }

  lemma {:induction false} LaterSpan(spans: seq<Span>, items: Items, i: nat, a: nat, b: nat)
    requires i <= |items| && Tiles(spans, items, i) && a < b < |spans|
    ensures spans[a].end <= spans[b].start
    decreases b
  {
    if a < b - 1 {
      LaterSpan(spans, items, i, a, b - 1);
    }
    assert spans[b - 1].end == spans[b].start;
  }

  /** The entries keep the order of the event numbers. */
  lemma CollapseKeepsSeqOrder(items: Items)
    requires SeqIncreasing(items)
    ensures SeqIncreasing(Collapsed(items))
  {
    var spans, out := SpansFrom(items, 0), Collapsed(items);
    EntriesShowSpans(items, 0);
    forall a, b | 0 <= a < b < |out| ensures out[a].seqNo < out[b].seqNo {
      LaterSpan(spans, items, 0, a, b);
      ShownSeq(items, spans[a]);
      ShownSeq(items, spans[b]);
      assert items[spans[a].end - 1].seqNo < items[spans[b].end - 1].seqNo;
    }
  }

  /** Event numbers never go down. */
  predicate SeqAscends(items: Items) {
    forall i, j :: 0 <= i < j < |items| ==> items[i].seqNo <= items[j].seqNo
  }

  lemma CollapseKeepsAscent(items: Items)
    requires SeqAscends(items)
    ensures SeqAscends(Collapsed(items))
  {
    var spans, out := SpansFrom(items, 0), Collapsed(items);
    EntriesShowSpans(items, 0);
    forall a, b | 0 <= a < b < |out| ensures out[a].seqNo <= out[b].seqNo {
      LaterSpan(spans, items, 0, a, b);
      ShownSeq(items, spans[a]);
      ShownSeq(items, spans[b]);
      assert items[spans[a].end - 1].seqNo <= items[spans[b].end - 1].seqNo;
    }
  }

  // ------------------------------------------------------------- looking twice

  lemma SpanIsCollapsible(items: Items, s: Span)
    requires s.start < s.end <= |items| && Maximal(items, s) && Collapsible(Shown(items, s))
    ensures s.end <= RunEnd(items, s.start)
    ensures s.end - s.start > 1 ==> s.end == RunEnd(items, s.start)
    ensures s.end - s.start == 1 ==> RunEnd(items, s.start) - s.start < FILE_GROUP_THRESHOLD
  {
    assert RunEnd(items, s.start) == if Collapsible(items[s.start]) then RunEnd(items, s.start + 1) else s.start;
  }

  /** Two neighbouring finished file writes among the entries are a short run of items. */
  lemma NeighboursAreShort(items: Items, a: Span, b: Span)
    requires a.start < a.end == b.start < b.end <= |items| && Maximal(items, a) && Maximal(items, b)
    requires Collapsible(Shown(items, a)) && Collapsible(Shown(items, b))
    ensures RunEnd(items, a.start) == RunEnd(items, b.start) < a.start + FILE_GROUP_THRESHOLD
    ensures b.end <= RunEnd(items, b.start)
  {
    SpanIsCollapsible(items, a);
    SpanIsCollapsible(items, b);
    RunEndMeans(items, a.start, a.end);
  }

  /** Three neighbouring entries are never all finished file writes. */
  lemma NoLongRunLeft(items: Items, k: nat)
    requires k + 2 < |Collapsed(items)|
    ensures !(Collapsible(Collapsed(items)[k]) && Collapsible(Collapsed(items)[k + 1])
              && Collapsible(Collapsed(items)[k + 2]))
  {
    CollapseGroupsMaximalRuns(items);
    var spans := SpansFrom(items, 0);
    var a, b, c := spans[k], spans[k + 1], spans[k + 2];
    assert a.end == b.start && b.end == c.start;
    if Collapsible(Shown(items, a)) && Collapsible(Shown(items, b)) && Collapsible(Shown(items, c)) {
      NeighboursAreShort(items, a, b);
      NeighboursAreShort(items, b, c);
    }
  }

  lemma {:induction false} ShortRunsStay(items: Items, i: nat)
    requires i <= |items|
    requires forall k :: i <= k < |items| - 2 ==>
             !(Collapsible(items[k]) && Collapsible(items[k + 1]) && Collapsible(items[k + 2]))
    ensures CollapsedFrom(items, i) == items[i..]
    decreases |items| - i
  {
    if i < |items| {
      var e := RunEnd(items, i);
      if e - i >= FILE_GROUP_THRESHOLD {
        RunEndMeans(items, i, i);
        RunEndMeans(items, i, i + 1);
        RunEndMeans(items, i, i + 2);
      } else {
        ShortRunsStay(items, i + 1);
      }
    }
  }

  /** Looking at the entries again shows the same entries. */
  lemma CollapseIsIdempotent(items: Items)
    ensures Collapsed(Collapsed(items)) == Collapsed(items)
  {
    var out := Collapsed(items);
    forall k | 0 <= k < |out| - 2
      ensures !(Collapsible(out[k]) && Collapsible(out[k + 1]) && Collapsible(out[k + 2])) {
      NoLongRunLeft(items, k);
    }
    ShortRunsStay(out, 0);
  }
}
