/** The whole worklog view: order the items, hide routine entries, group file writes and count what is hidden. */
module WorklogProjection {
  import opened Presentation
  import opened PresentationProofs
  import opened WorklogView
  import opened WorklogViewProofs

  datatype View = View(entries: Items, routineHidden: nat)

  function ViewOf(items: Items, includeRoutine: bool, locale: (string, string) -> int): View {
    var ordered := Ordered(items, locale);
    if includeRoutine then View(Collapsed(ordered), 0)
    else
      var signal := Select(ordered, IsSignal);
      SelectIsShorter(ordered, IsSignal);
      View(Collapsed(signal), |ordered| - |signal|)
  }

  lemma {:induction false} SelectIsShorter(items: Items, keep: WorklogItem -> bool)
    ensures |Select(items, keep)| <= |items|
    decreases |items|
  {
    if items != [] {
      SelectIsShorter(items[1..], keep);
    }
  }

  // --------------------------------------------------------- any worklog

  /** The items a view is about: the signal ones, or all of them. */
  function Wanted(items: Items, includeRoutine: bool): Items {
    if includeRoutine then items else Select(items, IsSignal)
  }

  lemma {:induction false} InsertKeeps(x: WorklogItem, items: Items, locale: (string, string) -> int)
    ensures multiset(InsertByOccurrence(x, items, locale)) == multiset{x} + multiset(items)
    decreases |items|
  {
    if items != [] && ByOccurrence(x, items[0], locale) > 0 {
      InsertKeeps(x, items[1..], locale);
      assert items == [items[0]] + items[1..];
    }
  }

  lemma AscendsTail(items: Items)
    requires items != [] && SeqAscends(items)
    ensures SeqAscends(items[1..]) && (|items| > 1 ==> items[0].seqNo <= items[1..][0].seqNo)
  {
    forall i, j | 0 <= i < j < |items[1..]| ensures items[1..][i].seqNo <= items[1..][j].seqNo {
      assert items[i + 1].seqNo <= items[j + 1].seqNo;
    }
  }

  lemma {:induction false} InsertAscends(x: WorklogItem, items: Items, locale: (string, string) -> int, bound: int)
    requires SeqAscends(items) && bound <= x.seqNo && (items != [] ==> bound <= items[0].seqNo)
    ensures var r := InsertByOccurrence(x, items, locale); SeqAscends(r) && r != [] && bound <= r[0].seqNo
    decreases |items|
  {
    if items != [] && ByOccurrence(x, items[0], locale) > 0 {
      AscendsTail(items);
      InsertAscends(x, items[1..], locale, items[0].seqNo);
      HeadFirst(items[0], InsertByOccurrence(x, items[1..], locale));
    } else if items != [] {
      HeadFirst(x, items);
    }
  }

  lemma HeadFirst(x: WorklogItem, items: Items)
    requires SeqAscends(items) && items != [] && x.seqNo <= items[0].seqNo
    ensures SeqAscends([x] + items)
  {
    var all := [x] + items;
    forall i, j | 0 <= i < j < |all| ensures all[i].seqNo <= all[j].seqNo {
      assert items[0].seqNo <= items[j - 1].seqNo;
    }
  }

  /** The sort keeps every item and puts them in event order, whatever the locale. */
  lemma {:induction false} OrderedMeans(items: Items, locale: (string, string) -> int)
    ensures multiset(Ordered(items, locale)) == multiset(items) && SeqAscends(Ordered(items, locale))
    decreases |items|
  {
    if items != [] {
      var rest := Ordered(items[1..], locale);
      OrderedMeans(items[1..], locale);
      InsertKeeps(items[0], rest, locale);
      InsertAscends(items[0], rest, locale, if rest == []
                    || items[0].seqNo < rest[0].seqNo then items[0].seqNo else rest[0].seqNo);
      assert items == [items[0]] + items[1..];
    }
  }

  lemma {:induction false} SelectCounts(items: Items, keep: WorklogItem -> bool, x: WorklogItem)
    ensures multiset(Select(items, keep))[x] == if keep(x) then multiset(items)[x] else 0
    decreases |items|
  {
    if items != [] {
      SelectCounts(items[1..], keep, x);
      assert items == [items[0]] + items[1..];
    }
  }

  lemma SelectReordered(a: Items, b: Items, keep: WorklogItem -> bool)
    requires multiset(a) == multiset(b)
    ensures multiset(Select(a, keep)) == multiset(Select(b, keep))
  {
    forall x ensures multiset(Select(a, keep))[x] == multiset(Select(b, keep))[x] {
      SelectCounts(a, keep, x);
      SelectCounts(b, keep, x);
    }
  }

  lemma {:induction false} SelectAscends(items: Items, keep: WorklogItem -> bool, bound: int)
    requires SeqAscends(items) && (items != [] ==> bound <= items[0].seqNo)
    ensures SeqAscends(Select(items, keep)) && (Select(items, keep) != [] ==> bound <= Select(items, keep)[0].seqNo)
    decreases |items|
  {
    if items != [] {
      AscendsTail(items);
      SelectAscends(items[1..], keep, items[0].seqNo);
      if keep(items[0]) && Select(items[1..], keep) != [] {
        HeadFirst(items[0], Select(items[1..], keep));
      }
    }
  }

  /**
   In event order and each kept once: all items, or without routine all but the system's that did not fail. Their runs
   of file writes are grouped, entries stay in event order, and what they stand for and what is hidden make up the
   worklog.
   */
  ghost predicate Shows(view: View, items: Items, includeRoutine: bool) {
    && SeqAscends(view.entries)
    && exists shown: Items ::
        && (forall x :: multiset(shown)[x] ==
              if includeRoutine || x.kind != System || x.status == ItemFailed then multiset(items)[x] else 0)
        && SeqAscends(shown) && view.entries == Collapsed(shown)
        && Sizes(SpansFrom(shown, 0)) + view.routineHidden == |items|
  }

  /** The wanted items of the sorted list are those of the list, in event order. */
  lemma WantedInOrder(items: Items, includeRoutine: bool, locale: (string, string) -> int)
    ensures var shown := Wanted(Ordered(items, locale), includeRoutine);
            multiset(shown) == multiset(Wanted(items, includeRoutine)) && SeqAscends(shown)
    ensures |Ordered(items, locale)| == |items|
  {
    var ordered := Ordered(items, locale);
    OrderedMeans(items, locale);
    assert |ordered| == |multiset(ordered)| == |multiset(items)| == |items|;
    if !includeRoutine {
      SelectReordered(ordered, items, IsSignal);
      SelectAscends(ordered, IsSignal, if ordered == [] then 0 else ordered[0].seqNo);
    }
  }

  lemma ViewShows(items: Items, includeRoutine: bool, locale: (string, string) -> int)
    ensures Shows(ViewOf(items, includeRoutine, locale), items, includeRoutine)
  {
    var ordered := Ordered(items, locale);
    var shown := Wanted(ordered, includeRoutine);
    WantedInOrder(items, includeRoutine, locale);
    if !includeRoutine {
      forall x: WorklogItem ensures multiset(shown)[x] ==
                       if x.kind != System || x.status == ItemFailed then multiset(items)[x] else 0 {
        SelectCounts(items, IsSignal, x);
      }
    }
    SelectIsShorter(ordered, IsSignal);
    CollapseKeepsAscent(shown);
    CollapseConserves(shown);
  }

  method ProjectWorklogView(items: Items, includeRoutine: bool, locale: (string, string) -> int) returns (view: View)
    ensures Shows(view, items, includeRoutine)
    ensures view == ViewOf(items, includeRoutine, locale)
  {
    ViewShows(items, includeRoutine, locale);
    var ordered := Ordered(items, locale);
    if includeRoutine {
      var all := CollapseFileRuns(ordered);
      return View(all, 0);
    }
    var signal := Select(ordered, IsSignal);
    var entries := CollapseFileRuns(signal);
    SelectIsShorter(ordered, IsSignal);
    return View(entries, |ordered| - |signal|);
  }

  // -------------------------------------------------------------- the locale

  /** The locale compares any two identifiers, consistently. */
  ghost predicate Compares(locale: (string, string) -> int) {
    && (forall a, b :: locale(a, b) <= 0 || locale(b, a) <= 0)
    && (forall a, b, c :: locale(a, b) <= 0 && locale(b, c) <= 0 ==> locale(a, c) <= 0)
  }

  ghost predicate Before(a: WorklogItem, b: WorklogItem, locale: (string, string) -> int) {
    a.seqNo < b.seqNo || (a.seqNo == b.seqNo && locale(a.id, b.id) <= 0)
  }

  ghost predicate InOrder(items: Items, locale: (string, string) -> int) {
    forall i, j :: 0 <= i < j < |items| ==> Before(items[i], items[j], locale)
  }

  lemma ConsInOrder(x: WorklogItem, items: Items, locale: (string, string) -> int)
    requires InOrder(items, locale) && forall y :: y in items ==> Before(x, y, locale)
    ensures InOrder([x] + items, locale)
  {
    forall i, j | 0 <= i < j < |[x] + items| ensures Before(([x] + items)[i], ([x] + items)[j], locale) {
      if i == 0 {
        assert items[j - 1] in items;
      } else {
        assert Before(items[i - 1], items[j - 1], locale);
      }
    }
  }

  lemma InOrderTail(items: Items, locale: (string, string) -> int)
    requires items != [] && InOrder(items, locale)
    ensures InOrder(items[1..], locale) && forall y :: y in items[1..] ==> Before(items[0], y, locale)
  {
    forall i, j | 0 <= i < j < |items[1..]| ensures Before(items[1..][i], items[1..][j], locale) {
      assert Before(items[i + 1], items[j + 1], locale);
    }
    forall y | y in items[1..] ensures Before(items[0], y, locale) {
      var j :| 0 <= j < |items[1..]| && items[1..][j] == y;
      assert Before(items[0], items[j + 1], locale);
    }
  }

  lemma {:induction false} InsertInOrder(x: WorklogItem, items: Items, locale: (string, string) -> int)
    requires Compares(locale) && InOrder(items, locale)
    ensures InOrder(InsertByOccurrence(x, items, locale), locale)
    decreases |items|
  {
    if items != [] {
      InOrderTail(items, locale);
      var rest := InsertByOccurrence(x, items[1..], locale);
      if ByOccurrence(x, items[0], locale) <= 0 {
        forall y | y in items ensures Before(x, y, locale) {
          assert items == [items[0]] + items[1..];
        }
        ConsInOrder(x, items, locale);
      } else {
        InsertInOrder(x, items[1..], locale);
        InsertKeeps(x, items[1..], locale);
        forall y | y in rest ensures Before(items[0], y, locale) {
          assert y in multiset(rest);
        }
        ConsInOrder(items[0], rest, locale);
      }
    }
  }

  /** Items with the same event number stand in the order of the locale. */
  lemma {:induction false} TiesGoByLocale(items: Items, locale: (string, string) -> int)
    requires Compares(locale)
    ensures InOrder(Ordered(items, locale), locale)
    decreases |items|
  {
    if items != [] {
      TiesGoByLocale(items[1..], locale);
      InsertInOrder(items[0], Ordered(items[1..], locale), locale);
    }
  }

  // ------------------------------------------------- the reducer's worklog

  lemma {:induction false} OrderedIsIdentity(items: Items, locale: (string, string) -> int)
    requires SeqIncreasing(items)
    ensures Ordered(items, locale) == items
    decreases |items|
  {
    if items != [] {
      SeqIncreasingTail(items);
      OrderedIsIdentity(items[1..], locale);
      assert items == [items[0]] + items[1..];
    }
  }

  lemma SeqIncreasingTail(items: Items)
    requires items != [] && SeqIncreasing(items)
    ensures SeqIncreasing(items[1..])
  {
    forall i, j | 0 <= i < j < |items[1..]| ensures items[1..][i].seqNo < items[1..][j].seqNo {
      assert items[i + 1].seqNo < items[j + 1].seqNo;
    }
  }

  lemma {:induction false} SelectKeepsSeqOrder(items: Items, keep: WorklogItem -> bool, bound: int)
    requires SeqIncreasing(items) && (items != [] ==> bound < items[0].seqNo)
    ensures SeqIncreasing(Select(items, keep))
    ensures forall i :: 0 <= i < |Select(items, keep)| ==> bound < Select(items, keep)[i].seqNo
    decreases |items|
  {
    if items != [] {
      SeqIncreasingTail(items);
      SelectKeepsSeqOrder(items[1..], keep, items[0].seqNo);
    }
  }

  /**
   On the worklog of any replay the sort changes nothing: the view is the collapsed worklog without its routine
   entries, in event order, and what it hides and what it shows make up the whole worklog.
   */
  lemma ViewOfReplay(state: RunPresentation, events: seq<DomainEvent>, locale: (string, string) -> int)
    requires state.worklog == []
    ensures var worklog := ReduceAll(state, events).worklog;
            var signal := Select(worklog, IsSignal);
            var view := ViewOf(worklog, false, locale);
            && view.entries == Collapsed(signal) && SeqIncreasing(view.entries)
            && Sizes(SpansFrom(signal, 0)) + view.routineHidden == |worklog|
  {
    var worklog := ReduceAll(state, events).worklog;
    WorklogInvariant(state, events);
    OrderedIsIdentity(worklog, locale);
    var signal := Select(worklog, IsSignal);
    SelectKeepsSeqOrder(worklog, IsSignal, if worklog == [] then 0 else worklog[0].seqNo - 1);
    CollapseKeepsSeqOrder(signal);
    CollapseConserves(signal);
  }
}
