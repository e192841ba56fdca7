/** The server side of event delivery: one polling stream over an append-only, per-run log. */
module EventStream {
  import opened Common
  import opened Presentation

  /** `Repository.list_events` returns at most this many events a call. */
  const LIST_LIMIT: nat := 500

  /** Appends number a run's events 1, 2, 3, ... under the run's row lock. */
  ghost predicate ValidLog(log: seq<DomainEvent>, runId: string) {
    forall i :: 0 <= i < |log| ==> log[i].seqNo == i + 1 && log[i].runId == runId
  }

  function EventsAfter(log: seq<DomainEvent>, after: int): seq<DomainEvent> {
    if log == [] then []
    else
      var last := log[|log| - 1];
      EventsAfter(log[..|log| - 1], after) + if last.seqNo > after then [last] else []
  }

  function ListEvents(log: seq<DomainEvent>, after: int): seq<DomainEvent> {
    var found := EventsAfter(log, after);
    if |found| <= LIST_LIMIT then found else found[..LIST_LIMIT]
  }

  lemma {:induction false} EventsAfterIsSuffix(log: seq<DomainEvent>, runId: string, after: nat)
    requires ValidLog(log, runId)
    ensures EventsAfter(log, after) == if after <= |log| then log[after..] else []
  {
    if log != [] {
      EventsAfterIsSuffix(log[..|log| - 1], runId, after);
      if after < |log| {
        assert log[after..] == log[..|log| - 1][after..] + [log[|log| - 1]];
      }
    }
  }

  /** A listing is the next slice of the log: no gap before it, none inside it. */
  lemma ListIsNextSlice(log: seq<DomainEvent>, runId: string, after: nat)
    requires ValidLog(log, runId)
    ensures ListEvents(log, after) == if after <= |log| then log[after..Min(|log|, after + LIST_LIMIT)] else []
  {
    EventsAfterIsSuffix(log, runId, after);
  }

  /** The `Last-Event-ID` header after `int(...)`. */
  datatype LastEventId = Missing | Number(n: int) | NotANumber

  /** Where a stream starts; an unreadable header is answered 422. */
  function StartCursor(after: nat, header: LastEventId): (r: Result<nat, int>)
    ensures r.Err? <==> header.NotANumber?
    ensures r.Ok? ==> r.value >= after && (header.Number? ==> r.value >= header.n)
    ensures r.Ok? ==> r.value == after || (header.Number? && r.value == header.n)
  {
    match header
    case NotANumber => Err(422)
    case Missing => Ok(Max(after, 0))
    case Number(n) => Ok(Max(after, n))
  }

  /** What one turn of the polling loop observes: how much of the log existed at each read. */
  datatype Poll = Disconnected | AccessLost | Visible(terminal: bool, statusAt: nat, listedAt: nat)

  datatype End =
    | StillOpen
    | ClientGone
    | Revoked
    | Finished(before: nat, statusAt: nat, listedAt: nat)

  /** A stream started at `start` that has reached `cursor` has yielded exactly the events between them. */
  ghost predicate Yielded(log: seq<DomainEvent>, start: nat, cursor: nat, yielded: seq<DomainEvent>) {
    if start <= |log| then start <= cursor <= |log| && yielded == log[start..cursor]
    else cursor == start && yielded == []
  }

  /** Where a listing of the first `listedAt` events takes a cursor. */
  function NextCursor(cursor: nat, listedAt: nat): nat {
    Max(cursor, Min(listedAt, cursor + LIST_LIMIT))
  }

  /** One pass over a listing: yield each event and move the cursor to its number. */
  method YieldBatch(log: seq<DomainEvent>, runId: string, listedAt: nat, cursor0: nat, yielded0: seq<DomainEvent>,
                    ghost start: nat)
    returns (yielded: seq<DomainEvent>, cursor: nat)
    requires ValidLog(log, runId) && listedAt <= |log|
    requires Yielded(log, start, cursor0, yielded0)
    ensures Yielded(log, start, cursor, yielded)
    ensures cursor == NextCursor(cursor0, listedAt)
  {
    yielded, cursor := yielded0, cursor0;
    var events := ListEvents(log[..listedAt], cursor);
    ListIsNextSlice(log[..listedAt], runId, cursor0);
    for j := 0 to |events|
      invariant cursor == cursor0 + j
      invariant Yielded(log, start, cursor, yielded)
    {
      assert events[j] == log[cursor];
      yielded := yielded + [events[j]];
      cursor := events[j].seqNo;
    }
  }

  // ------------------------------------------------------------ whole streams

  /** The polls that list: those before the first that ends the stream, and that one if its status is terminal. */
  ghost predicate Lists(polls: seq<Poll>, n: nat) {
    && n <= |polls|
    && (forall k :: 0 <= k < n ==> polls[k].Visible?)
    && (forall k :: 0 <= k < n && polls[k].terminal ==> k + 1 == n)
    && (n < |polls| ==> (n > 0 && polls[n - 1].terminal) || !polls[n].Visible?)
  }

  /** Where these polls, all of which list, take the cursor. */
  function CursorAfter(start: nat, polls: seq<Poll>): (cursor: nat)
    requires forall k :: 0 <= k < |polls| ==> polls[k].Visible?
    ensures cursor >= start
  {
    if polls == [] then start
    else NextCursor(CursorAfter(start, polls[..|polls| - 1]), polls[|polls| - 1].listedAt)
  }

  /** How a stream ends after `n` polls that list. */
  ghost predicate EndsAs(end: End, polls: seq<Poll>, n: nat, start: nat)
    requires Lists(polls, n)
  {
    if n > 0 && polls[n - 1].terminal then
      end == Finished(CursorAfter(start, polls[..n - 1]), polls[n - 1].statusAt, polls[n - 1].listedAt)
    else if n == |polls| then end == StillOpen
    else end == if polls[n].Disconnected? then ClientGone else Revoked
  }

  lemma OneMorePoll(start: nat, polls: seq<Poll>, k: nat)
    requires k < |polls| && forall j :: 0 <= j <= k ==> polls[j].Visible?
    ensures CursorAfter(start, polls[..k + 1]) == NextCursor(CursorAfter(start, polls[..k]), polls[k].listedAt)
  {
    assert polls[..k + 1][..k] == polls[..k];
  }

  /**
   The polling generator. Every poll up to the one that ends the stream lists and yields: together they yield the
   contiguous run of the log from the cursor the stream was given to the one its listings lead to. When it ends because
   the run's status was terminal, it has yielded everything that existed at that status read exactly when no more than
   one listing's worth was outstanding.
   */
  method StreamRunEvents(log: seq<DomainEvent>, runId: string, polls: seq<Poll>, start: nat)
    returns (yielded: seq<DomainEvent>, cursor: nat, end: End)
    requires ValidLog(log, runId)
    requires forall k :: 0 <= k < |polls| && polls[k].Visible? ==> polls[k].statusAt <= polls[k].listedAt <= |log|
    ensures Yielded(log, start, cursor, yielded)
    ensures exists n: nat ::
              Lists(polls, n) && cursor == CursorAfter(start, polls[..n]) && EndsAs(end, polls, n, start)
    ensures end.Finished? ==> (end.statusAt <= cursor <==> end.statusAt <= end.before + LIST_LIMIT)
  {
    yielded, cursor := [], start;
    for k := 0 to |polls|
      invariant forall j :: 0 <= j < k ==> polls[j].Visible? && !polls[j].terminal
      invariant Yielded(log, start, cursor, yielded) && cursor == CursorAfter(start, polls[..k])
    {
      match polls[k] {
        case Disconnected =>
          assert Lists(polls, k);
          return yielded, cursor, ClientGone;
        case AccessLost =>
          assert Lists(polls, k);
          return yielded, cursor, Revoked;
        case Visible(terminal, statusAt, listedAt) =>
          var before := cursor;
          yielded, cursor := YieldBatch(log, runId, listedAt, cursor, yielded, start);
          OneMorePoll(start, polls, k);
          if terminal {
            assert Lists(polls, k + 1);
            return yielded, cursor, Finished(before, statusAt, listedAt);
          }
      }
    }
    assert Lists(polls, |polls|);
    end := StillOpen;
  }

  /** There is one answer to which polls list: what the generator promises determines what it yields. */
  lemma ListsIsUnique(polls: seq<Poll>, m: nat, n: nat)
    requires Lists(polls, m) && Lists(polls, n)
    ensures m == n
  {
  }

  /** Each listing yields all it can, up to 500 events; the cursor never goes back and never past what was listed. */
  lemma {:induction false} EachPollYields(start: nat, polls: seq<Poll>, k: nat)
    requires k < |polls| && forall j :: 0 <= j < |polls| ==> polls[j].Visible?
    ensures CursorAfter(start, polls[..k]) <= CursorAfter(start, polls)
    ensures Min(polls[k].listedAt, CursorAfter(start, polls[..k]) + 500) <= CursorAfter(start, polls)
    ensures CursorAfter(start, polls) == start
            || exists j :: 0 <= j < |polls| && CursorAfter(start, polls) <= polls[j].listedAt
  {
    var earlier := polls[..|polls| - 1];
    if k < |earlier| {
      assert earlier[..k] == polls[..k];
      EachPollYields(start, earlier, k);
    }
    if |polls| == 1 {
      assert CursorAfter(start, earlier) == start;
    } else if k == |earlier| {
      EachPollYields(start, earlier, 0);
    }
    if j :| 0 <= j < |earlier| && CursorAfter(start, earlier) <= earlier[j].listedAt {
      assert CursorAfter(start, earlier) <= polls[j].listedAt;
    }
  }

  /** A stream is at most one poll behind for every 500 events: `n` polls reach `500 * n` events or all there were. */
  lemma {:induction false} PollsCatchUp(start: nat, polls: seq<Poll>, existed: nat)
    requires forall k :: 0 <= k < |polls| ==> polls[k].Visible? && existed <= polls[k].listedAt
    ensures CursorAfter(start, polls) >= Min(existed, start + 500 * |polls|)
  {
    if polls != [] {
      PollsCatchUp(start, polls[..|polls| - 1], existed);
    }
  }

  /** With 501 unread events a stream that reads a terminal status stops one event short. */
  lemma TerminalStreamMayStopShort(log: seq<DomainEvent>, runId: string)
    requires ValidLog(log, runId) && |log| == 501
    ensures |ListEvents(log, 0)| == 500 && log[500] !in ListEvents(log, 0)
  {
    ListIsNextSlice(log, runId, 0);
  }
}
