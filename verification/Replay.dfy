/**
 The whole resume protocol as a step system: one writer appending to the run's log, any
 number of event streams opened, polled, cut and overlapping, and one browser folding
 whatever arrives, while answer responses, project snapshots and stops change the same state.
 */
module Replay {
  import opened Common
  import opened Presentation
  import opened EventStream

  /** `inFlight` has been yielded by the server and not yet reached the reducer. */
  datatype Stream = Stream(cursor: nat, inFlight: seq<DomainEvent>, polling: bool, connected: bool)

  /** `reconciled` records whether anything but streamed events has touched the client. */
  datatype State = State(runId: string, log: seq<DomainEvent>, streams: seq<Stream>, client: RunPresentation,
                         reconciled: bool)

  datatype Step =
    | Append(event: DomainEvent)
    | Open(after: nat)
    | PollLog(i: nat)
    | StopPolling(i: nat)
    | Deliver(i: nat)
    | Drop(i: nat)
    | PostAnswer(response: AnswerResponse)
    | CancelRun
    | ReadSnapshot(visible: nat, snapshotSeq: nat, pending: Option<InputRequest>)

  /**
   Appends are numbered consecutively. A stream is opened from the browser's own cursor,
   for this run, which may be a stale read of it. The API client passes on only answered requests. A
   snapshot lists the first `visible` events and reports a last number it read before
   listing them.
   */
  predicate Enabled(s: State, step: Step) {
    match step
    case Append(e) => e.runId == s.runId && e.seqNo == |s.log| + 1
    case Open(after) => after <= s.client.lastSeq
    case PollLog(i) => i < |s.streams| && s.streams[i].connected && s.streams[i].polling
    case StopPolling(i) => i < |s.streams|
    case Deliver(i) => i < |s.streams| && s.streams[i].connected && s.streams[i].inFlight != []
    case Drop(i) => i < |s.streams|
    case PostAnswer(response) => response.request.status == Answered
    case CancelRun => true
    case ReadSnapshot(visible, snapshotSeq, _) => snapshotSeq <= visible <= |s.log|
  }

  function Polled(stream: Stream, log: seq<DomainEvent>): Stream {
    var batch := ListEvents(log, stream.cursor);
    if batch == [] then stream
    else stream.(cursor := Max(0, batch[|batch| - 1].seqNo), inFlight := stream.inFlight + batch)
  }

  /** A snapshot of the same run is replayed, reconciled, and its number taken if it is ahead. */
  function AfterSnapshot(client: RunPresentation, listed: seq<DomainEvent>, snapshotSeq: nat,
                         pending: Option<InputRequest>)
    : RunPresentation
  {
    var next := ReconcileInputRequestSnapshot(ReduceAll(client, listed), pending);
    next.(lastSeq := Max(next.lastSeq, snapshotSeq))
  }

  /** A stream opened behind event number `after`. */
  function Opened(s: State, after: nat): State {
    s.(streams := s.streams + [Stream(after, [], true, true)])
  }

  function Do(s: State, step: Step): State
    requires Enabled(s, step)
  {
    match step
    case Append(e) => s.(log := s.log + [e])
    case Open(after) => Opened(s, after)
    case PollLog(i) => s.(streams := s.streams[i := Polled(s.streams[i], s.log)])
    case StopPolling(i) => s.(streams := s.streams[i := s.streams[i].(polling := false)])
    case Deliver(i) =>
      var stream := s.streams[i];
      s.(streams := s.streams[i := stream.(inFlight := stream.inFlight[1..])],
         client := Reduce(s.client, stream.inFlight[0]))
    case Drop(i) => s.(streams := s.streams[i := s.streams[i].(inFlight := [], connected := false)])
    case PostAnswer(response) => s.(client := ReconcileInputAnswer(s.client, response), reconciled := true)
    case CancelRun => s.(client := StopRun(s.client), reconciled := true)
    case ReadSnapshot(visible, snapshotSeq, pending) =>
      s.(client := AfterSnapshot(s.client, s.log[..visible], snapshotSeq, pending), reconciled := true)
  }

  predicate Runs(s: State, steps: seq<Step>)
    decreases |steps|
  {
    steps != [] ==> Enabled(s, steps[0]) && Runs(Do(s, steps[0]), steps[1..])
  }

  function Final(s: State, steps: seq<Step>): State
    requires Runs(s, steps)
    decreases |steps|
  {
    if steps == [] then s else Final(Do(s, steps[0]), steps[1..])
  }

  ghost predicate Initial(s: State) {
    && s.runId != "" && s.log == [] && s.streams == [] && !s.reconciled
    && s.client.lastSeq == 0 && (s.client.runId == "" || s.client.runId == s.runId)
  }

  // ------------------------------------------------------------- invariant

  /** Equal in everything that answers, snapshots and stops never touch. */
  ghost predicate SameReplay(p: RunPresentation, q: RunPresentation) {
    p.(status := q.status, inputRequests := q.inputRequests) == q
  }

  /** How far a stream has got in delivering, as opposed to listing. */
  function Delivered(stream: Stream): int {
    stream.cursor - |stream.inFlight|
  }

  ghost predicate StreamOk(stream: Stream, s: State) {
    stream.connected ==>
      && 0 <= Delivered(stream) <= s.client.lastSeq
      && stream.cursor <= |s.log|
      && stream.inFlight == s.log[Delivered(stream)..stream.cursor]
  }

  ghost predicate Consistent(s: State, start: RunPresentation) {
    && s.runId != "" && ValidLog(s.log, s.runId)
    && start.lastSeq == 0 && (start.runId == "" || start.runId == s.runId)
    && 0 <= s.client.lastSeq <= |s.log|
    && SameReplay(s.client, ReduceAll(start, s.log[..s.client.lastSeq]))
    && (!s.reconciled ==> s.client == ReduceAll(start, s.log[..s.client.lastSeq]))
    && forall i :: 0 <= i < |s.streams| ==> StreamOk(s.streams[i], s)
  }

  lemma ReduceRespectsReplay(p: RunPresentation, q: RunPresentation, e: DomainEvent)
    requires SameReplay(p, q)
    ensures SameReplay(Reduce(p, e), Reduce(q, e))
  {
    assert AddedItem(p, e) == AddedItem(q, e);
  }

  /** Folding a log prefix moves the cursor to its end. */
  lemma {:induction false} FoldReachesPrefix(start: RunPresentation, log: seq<DomainEvent>, runId: string, n: nat)
    requires ValidLog(log, runId) && n <= |log| && runId != ""
    requires start.lastSeq == 0 && (start.runId == "" || start.runId == runId)
    ensures var r := ReduceAll(start, log[..n]); r.lastSeq == n && (r.runId == runId || (n == 0 && r == start))
  {
    if n > 0 {
      FoldReachesPrefix(start, log, runId, n - 1);
      assert log[..n][..n - 1] == log[..n - 1];
    }
  }

  /** One event with the next number extends the fold; any earlier one changes nothing. */
  lemma AcceptExtendsFold(s: State, start: RunPresentation, at: nat)
    requires Consistent(s, start) && at < |s.log| && at <= s.client.lastSeq
    ensures var r := Reduce(s.client, s.log[at]);
            && r.lastSeq == Max(s.client.lastSeq, at + 1)
            && SameReplay(r, ReduceAll(start, s.log[..r.lastSeq]))
            && (!s.reconciled ==> r == ReduceAll(start, s.log[..r.lastSeq]))
  {
    var n := s.client.lastSeq;
    FoldReachesPrefix(start, s.log, s.runId, n);
    if at == n {
      ReduceRespectsReplay(s.client, ReduceAll(start, s.log[..n]), s.log[n]);
      assert s.log[..n + 1][..n] == s.log[..n];
    }
  }

  lemma ReplayOneMore(s: State, start: RunPresentation, client: RunPresentation, at: nat)
    requires Consistent(s, start) && at < |s.log| && at <= client.lastSeq <= |s.log|
    requires SameReplay(client, ReduceAll(start, s.log[..client.lastSeq]))
    ensures var r := Reduce(client, s.log[at]);
            && r.lastSeq == Max(client.lastSeq, at + 1)
            && SameReplay(r, ReduceAll(start, s.log[..r.lastSeq]))
  {
    AcceptExtendsFold(s.(client := client, streams := [], reconciled := true), start, at);
  }

  /** Replaying a prefix onto a client at `n` brings it to the larger of the two. */
  lemma {:induction false} ReplayPrefix(s: State, start: RunPresentation, visible: nat)
    requires Consistent(s, start) && visible <= |s.log|
    ensures var r := ReduceAll(s.client, s.log[..visible]);
            && r.lastSeq == Max(s.client.lastSeq, visible)
            && SameReplay(r, ReduceAll(start, s.log[..r.lastSeq]))
  {
    if visible > 0 {
      ReplayPrefix(s, start, visible - 1);
      assert s.log[..visible][..visible - 1] == s.log[..visible - 1];
      ReplayOneMore(s, start, ReduceAll(s.client, s.log[..visible - 1]), visible - 1);
    }
  }

  lemma PollKeepsStream(s: State, start: RunPresentation, i: nat)
    requires Consistent(s, start) && i < |s.streams| && s.streams[i].connected
    ensures StreamOk(Polled(s.streams[i], s.log), s)
    ensures Polled(s.streams[i], s.log).cursor == Min(|s.log|, s.streams[i].cursor + LIST_LIMIT)
  {
    var stream := s.streams[i];
    assert StreamOk(stream, s);
    ListIsNextSlice(s.log, s.runId, stream.cursor);
    var batch := ListEvents(s.log, stream.cursor);
    assert batch == s.log[stream.cursor..Min(|s.log|, stream.cursor + LIST_LIMIT)];
    assert batch != [] ==> batch[|batch| - 1] == s.log[Min(|s.log|, stream.cursor + LIST_LIMIT) - 1];
    SlicesJoin(s.log, Delivered(stream), stream.cursor, Min(|s.log|, stream.cursor + LIST_LIMIT));
  }

  // ------------------------------------------------- streams of the server

  /** A stream after polls that list, each of as much of the log as there was. */
  function PolledAll(stream: Stream, log: seq<DomainEvent>, polls: seq<Poll>): Stream
    requires forall k :: 0 <= k < |polls| ==> polls[k].Visible? && polls[k].listedAt <= |log|
  {
    if polls == [] then stream
    else Polled(PolledAll(stream, log, polls[..|polls| - 1]), log[..polls[|polls| - 1].listedAt])
  }

  /** A stream of the step system is the server's generator: polls put in flight exactly what the generator yields. */
  lemma {:induction false} PollsAreTheGenerator(log: seq<DomainEvent>, runId: string, start: nat, polls: seq<Poll>)
    requires ValidLog(log, runId) && start <= |log|
    requires forall k :: 0 <= k < |polls| ==> polls[k].Visible? && polls[k].listedAt <= |log|
    ensures CursorAfter(start, polls) <= |log|
    ensures PolledAll(Stream(start, [], true, true), log, polls) ==
            Stream(CursorAfter(start, polls), log[start..CursorAfter(start, polls)], true, true)
  {
    if polls != [] {
      var earlier, listedAt := polls[..|polls| - 1], polls[|polls| - 1].listedAt;
      PollsAreTheGenerator(log, runId, start, earlier);
      var cursor := CursorAfter(start, earlier);
      PollIsOneListing(log, runId, Stream(cursor, log[start..cursor], true, true), listedAt);
      SlicesJoin(log, start, cursor, NextCursor(cursor, listedAt));
    }
  }

  lemma PollIsOneListing(log: seq<DomainEvent>, runId: string, stream: Stream, listedAt: nat)
    requires ValidLog(log, runId) && listedAt <= |log| && stream.cursor <= |log|
    ensures var next := NextCursor(stream.cursor, listedAt);
            && next <= |log|
            && Polled(stream, log[..listedAt]) ==
                 stream.(cursor := next, inFlight := stream.inFlight + log[stream.cursor..next])
  {
    var visible := log[..listedAt];
    var next := NextCursor(stream.cursor, listedAt);
    ListIsNextSlice(visible, runId, stream.cursor);
    var batch := ListEvents(visible, stream.cursor);
    if stream.cursor < next {
      assert batch == visible[stream.cursor..next] == log[stream.cursor..next];
      assert batch[|batch| - 1] == log[next - 1];
    } else {
      assert batch == [] && log[stream.cursor..next] == [];
      assert stream.inFlight + [] == stream.inFlight;
    }
  }

  lemma AppendKeepsConsistent(s: State, start: RunPresentation, e: DomainEvent)
    requires Consistent(s, start) && Enabled(s, Append(e))
    ensures Consistent(Do(s, Append(e)), start)
  {
    var t := Do(s, Append(e));
    assert t.log[..s.client.lastSeq] == s.log[..s.client.lastSeq];
    forall i | 0 <= i < |t.streams| && t.streams[i].connected ensures StreamOk(t.streams[i], t) {
      var stream := s.streams[i];
      assert StreamOk(stream, s);
      assert t.log[Delivered(stream)..stream.cursor] == s.log[Delivered(stream)..stream.cursor];
    }
  }

  /** A client that only moved forward along the fold leaves every stream behind it. */
  lemma ClientMoved(s: State, t: State, start: RunPresentation)
    requires Consistent(s, start) && t == s.(client := t.client, reconciled := t.reconciled)
    requires s.client.lastSeq <= t.client.lastSeq <= |s.log|
    requires SameReplay(t.client, ReduceAll(start, s.log[..t.client.lastSeq]))
    requires !t.reconciled ==> t.client == ReduceAll(start, s.log[..t.client.lastSeq])
    ensures Consistent(t, start)
  {
    forall j | 0 <= j < |t.streams| ensures StreamOk(t.streams[j], t) {
      assert StreamOk(s.streams[j], s);
    }
  }

  lemma StreamChanged(s: State, start: RunPresentation, i: nat, stream: Stream)
    requires Consistent(s, start) && i < |s.streams| && StreamOk(stream, s)
    ensures Consistent(s.(streams := s.streams[i := stream]), start)
  {
    var t := s.(streams := s.streams[i := stream]);
    forall j | 0 <= j < |t.streams| ensures StreamOk(t.streams[j], t) {
      if j != i {
        assert StreamOk(s.streams[j], s);
      }
    }
  }

  lemma DeliverKeepsConsistent(s: State, start: RunPresentation, i: nat)
    requires Consistent(s, start) && Enabled(s, Deliver(i))
    ensures Consistent(Do(s, Deliver(i)), start)
  {
    var stream := s.streams[i];
    assert StreamOk(stream, s);
    AcceptExtendsFold(s, start, Delivered(stream));
    var moved := s.(client := Reduce(s.client, stream.inFlight[0]));
    ClientMoved(s, moved, start);
    StreamChanged(moved, start, i, stream.(inFlight := stream.inFlight[1..]));
  }

  lemma OpenKeepsConsistent(s: State, start: RunPresentation, after: nat)
    requires Consistent(s, start) && Enabled(s, Open(after))
    ensures Consistent(Do(s, Open(after)), start)
  {
    var t := Do(s, Open(after));
    forall j | 0 <= j < |t.streams| ensures StreamOk(t.streams[j], t) {
      if j < |s.streams| {
        assert StreamOk(s.streams[j], s);
      }
    }
  }

  lemma SnapshotKeepsConsistent(s: State, start: RunPresentation, visible: nat, snapshotSeq: nat,
                                pending: Option<InputRequest>)
    requires Consistent(s, start) && Enabled(s, ReadSnapshot(visible, snapshotSeq, pending))
    ensures Consistent(Do(s, ReadSnapshot(visible, snapshotSeq, pending)), start)
  {
    ReplayPrefix(s, start, visible);
    var t := Do(s, ReadSnapshot(visible, snapshotSeq, pending));
    assert t.client.lastSeq == Max(s.client.lastSeq, visible);
    assert SameReplay(t.client, ReduceAll(s.client, s.log[..visible]));
    ClientMoved(s, t, start);
  }

  lemma StepKeepsConsistent(s: State, start: RunPresentation, step: Step)
    requires Consistent(s, start) && Enabled(s, step)
    ensures Consistent(Do(s, step), start)
  {
    match step {
      case Append(e) => AppendKeepsConsistent(s, start, e);
      case Open(after) => OpenKeepsConsistent(s, start, after);
      case PollLog(i) =>
        PollKeepsStream(s, start, i);
        StreamChanged(s, start, i, Polled(s.streams[i], s.log));
      case StopPolling(i) =>
        assert StreamOk(s.streams[i], s);
        StreamChanged(s, start, i, s.streams[i].(polling := false));
      case Deliver(i) => DeliverKeepsConsistent(s, start, i);
      case Drop(i) => StreamChanged(s, start, i, s.streams[i].(inFlight := [], connected := false));
      case PostAnswer(response) => ClientMoved(s, Do(s, step), start);
      case CancelRun => ClientMoved(s, Do(s, step), start);
      case ReadSnapshot(visible, snapshotSeq, pending) =>
          SnapshotKeepsConsistent(s, start, visible, snapshotSeq, pending);
    }
  }

  lemma {:induction false} RunKeepsConsistent(s: State, start: RunPresentation, steps: seq<Step>)
    requires Consistent(s, start) && Runs(s, steps)
    ensures Consistent(Final(s, steps), start)
    decreases |steps|
  {
    if steps != [] {
      StepKeepsConsistent(s, start, steps[0]);
      RunKeepsConsistent(Do(s, steps[0]), start, steps[1..]);
    }
  }
}
