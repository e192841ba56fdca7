/** What every run of the resume protocol guarantees. */
module ReplayProofs {
  import opened Common
  import opened Presentation
  import opened PresentationProofs
  import opened EventStream
  import opened Replay
  import opened ReplayHistory

  /**
   Exactly once: under any interleaving the browser's presentation is what the log's first `lastSeq` events, each
   applied once and in order, and the run's answers, snapshots and stops among them make of the initial one. On
   everything those never touch it is the plain fold over these events. No live stream has delivered beyond that cursor,
   and one that has listed and delivered the whole log leaves nothing behind it.
   */
  lemma ExactlyOnceReplay(s: State, steps: seq<Step>) returns (actions: seq<Action>)
    requires Initial(s) && Runs(s, steps)
    ensures var t := Final(s, steps);
            && 0 <= t.client.lastSeq <= |t.log|
            && t.client == ApplyAll(s.client, actions)
            && EventsOf(actions) == t.log[..t.client.lastSeq] && OthersOf(actions) == Interventions(steps)
            && SameReplay(t.client, ReduceAll(s.client, t.log[..t.client.lastSeq]))
            && (forall i :: 0 <= i < |t.streams| && t.streams[i].connected ==>
                Delivered(t.streams[i]) <= t.client.lastSeq)
            && (forall i :: 0 <= i < |t.streams| && t.streams[i].connected && Delivered(t.streams[i]) == |t.log| ==>
                              t.client.lastSeq == |t.log|)
  {
    assert s.log[..0] == [];
    RunKeepsConsistent(s, s.client, steps);
    actions := RunExplained(s, s.client, [], steps);
    assert [] + Interventions(steps) == Interventions(steps);
    var t := Final(s, steps);
    forall i | 0 <= i < |t.streams| && t.streams[i].connected ensures Delivered(t.streams[i]) <= t.client.lastSeq {
      assert StreamOk(t.streams[i], t);
    }
  }

  /** Hence what runs of the reducer keep holds of every reachable browser that started from a created presentation. */
  lemma ReachableClientIsOk(s: State, steps: seq<Step>)
    requires Initial(s) && Runs(s, steps)
    requires RequestsOk(s.client.inputRequests) && AtMostOneWorking(s.client.stages) && s.client.worklog == []
    ensures var c := Final(s, steps).client;
            && RequestsOk(c.inputRequests) && AtMostOneWorking(c.stages)
            && |c.worklog| <= 80 && DistinctIds(c.worklog) && SeqIncreasing(c.worklog)
                 && SeqAtMost(c.worklog, c.lastSeq)
  {
    var actions := ExactlyOnceReplay(s, steps);
    var t := Final(s, steps);
    InterventionsAreValid(s, steps);
    forall a | a in actions ensures ValidAction(a) {
      OthersAreIn(actions, a);
    }
    AtMostOneOpenQuestion(s.client, actions);
    WorklogInvariant(s.client, t.log[..t.client.lastSeq]);
    AtMostOneStageWorks(s.client, t.log[..t.client.lastSeq]);
  }

  /** While only streams touch the client, the whole presentation is that fold. */
  lemma StreamedClientIsTheFold(s: State, steps: seq<Step>)
    requires Initial(s) && Runs(s, steps)
    requires forall k :: 0 <= k < |steps| ==> !Intervenes(steps[k])
    ensures var t := Final(s, steps);
            0 <= t.client.lastSeq <= |t.log| && t.client == ReduceAll(s.client, t.log[..t.client.lastSeq])
  {
    assert s.log[..0] == [];
    RunKeepsConsistent(s, s.client, steps);
    NeverReconciled(s, steps);
  }

  lemma {:induction false} NeverReconciled(s: State, steps: seq<Step>)
    requires Runs(s, steps) && !s.reconciled
    requires forall k :: 0 <= k < |steps| ==> !Intervenes(steps[k])
    ensures !Final(s, steps).reconciled
    decreases |steps|
  {
    if steps != [] {
      NeverReconciled(Do(s, steps[0]), steps[1..]);
    }
  }

  // ------------------------------------------------------- foreign cursors

  /** Opening a stream keeps the replay free of gaps exactly when it is opened at or below the browser's cursor. */
  lemma OpenIsSafeExactlyWhen(s: State, start: RunPresentation, after: nat)
    requires Consistent(s, start)
    ensures Consistent(Opened(s, after), start) <==> after <= s.client.lastSeq
  {
    if after <= s.client.lastSeq {
      OpenKeepsConsistent(s, start, after);
    } else {
      assert !StreamOk(Opened(s, after).streams[|s.streams|], Opened(s, after));
    }
  }

  /** Opened above it, as at another run's cursor, its first delivery skips the events between for good. */
  lemma ForeignCursorSkips(s: State, start: RunPresentation, after: nat)
    requires Consistent(s, start) && s.client.lastSeq < after < |s.log|
    ensures var t, i := Opened(s, after), |s.streams|;
            && Enabled(t, PollLog(i)) && Enabled(Do(t, PollLog(i)), Deliver(i))
            && var u := Do(Do(t, PollLog(i)), Deliver(i));
            && u.client == Reduce(s.client, s.log[after]) && u.client.lastSeq == after + 1
            && forall k :: s.client.lastSeq <= k < after ==> !Accepts(u.client, s.log[k])
  {
    ListIsNextSlice(s.log, s.runId, after);
    FoldReachesPrefix(start, s.log, s.runId, s.client.lastSeq);
    assert s.log[after..Min(|s.log|, after + LIST_LIMIT)][0] == s.log[after];
  }

  /** The cursor never goes back, whatever the step. */
  lemma CursorIsMonotone(s: State, start: RunPresentation, step: Step)
    requires Consistent(s, start) && Enabled(s, step)
    ensures s.client.lastSeq <= Do(s, step).client.lastSeq
  {
    if step.ReadSnapshot? {
      ReplayPrefix(s, start, step.visible);
    }
  }

  /** A stream that stopped polling lists nothing more, and one that was cut never delivers again. */
  lemma {:induction false} EndedStreamsStayEnded(s: State, steps: seq<Step>, i: nat)
    requires Runs(s, steps) && i < |s.streams|
    ensures i < |Final(s, steps).streams|
    ensures !s.streams[i].polling || !s.streams[i].connected ==>
              Final(s, steps).streams[i].cursor == s.streams[i].cursor
    ensures !s.streams[i].polling ==> !Final(s, steps).streams[i].polling
    ensures !s.streams[i].connected ==>
              !Final(s, steps).streams[i].connected
              && forall k :: 0 <= k < |steps| ==> steps[k] != Deliver(i) && steps[k] != PollLog(i)
    decreases |steps|
  {
    if steps != [] {
      var rest := steps[1..];
      EndedStreamsStayEnded(Do(s, steps[0]), rest, i);
      assert forall k :: 0 < k < |steps| ==> steps[k] == rest[k - 1];
    }
  }

  /** These are what stopping and cutting do. */
  lemma StopAndCut(s: State, i: nat)
    requires i < |s.streams|
    ensures Do(s, StopPolling(i)) == s.(streams := s.streams[i := s.streams[i].(polling := false)])
    ensures var t := Do(s, Drop(i));
            && |t.streams| == |s.streams| && !t.streams[i].connected && t.streams[i].inFlight == []
            && t.client == s.client && t.log == s.log && forall j :: 0 <= j < |s.streams| && j != i ==>
                                                                     t.streams[j] == s.streams[j]
  {
  }

  lemma RunStartsWith(s: State, step: Step, rest: seq<Step>)
    requires Enabled(s, step) && Runs(Do(s, step), rest)
    ensures Runs(s, [step] + rest) && Final(s, [step] + rest) == Final(Do(s, step), rest)
  {
    assert ([step] + rest)[1..] == rest;
  }

  // --------------------------------------------------------- every schedule

  /** What stream `i` still has to list and deliver; listing counts for the delivery that follows. */
  function Outstanding(s: State, i: nat): int
    requires i < |s.streams|
  {
    2 * (|s.log| - s.streams[i].cursor) + |s.streams[i].inFlight|
  }

  /** The step lists something new on stream `i`, or delivers from it. */
  predicate Advances(s: State, step: Step, i: nat) {
    i < |s.streams| && (step == Deliver(i) || (step == PollLog(i) && s.streams[i].cursor < |s.log|))
  }

  function Advancing(s: State, steps: seq<Step>, i: nat): nat
    requires Runs(s, steps)
    decreases |steps|
  {
    if steps == [] then 0 else (if Advances(s, steps[0], i) then 1 else 0) + Advancing(Do(s, steps[0]), steps[1..], i)
  }

  function Appended(steps: seq<Step>): nat {
    if steps == [] then 0 else (if steps[0].Append? then 1 else 0) + Appended(steps[1..])
  }

  lemma PollOutstanding(s: State, start: RunPresentation, i: nat)
    requires Consistent(s, start) && i < |s.streams| && s.streams[i].connected
    ensures var polled := Polled(s.streams[i], s.log);
            && |polled.inFlight| == |s.streams[i].inFlight| + (polled.cursor - s.streams[i].cursor)
            && s.streams[i].cursor <= polled.cursor
            && (s.streams[i].cursor < |s.log| ==> s.streams[i].cursor < polled.cursor)
  {
    assert StreamOk(s.streams[i], s);
    PollKeepsStream(s, start, i);
    ListIsNextSlice(s.log, s.runId, s.streams[i].cursor);
  }

  lemma StepOutstanding(s: State, start: RunPresentation, step: Step, i: nat)
    requires Consistent(s, start) && Enabled(s, step) && i < |s.streams|
    ensures var t := Do(s, step);
            && i < |t.streams| && (t.streams[i].connected ==> s.streams[i].connected)
            && (t.streams[i].connected ==>
                  Outstanding(t, i) <= Outstanding(s, i) +
                      (if step.Append? then 2 else 0) - (if Advances(s, step, i) then 1 else 0))
  {
    if step == PollLog(i) {
      PollOutstanding(s, start, i);
    }
  }

  /** What a stream does next while it has anything outstanding. */
  function NextOf(s: State, i: nat): Step
    requires i < |s.streams|
  {
    if s.streams[i].inFlight == [] then PollLog(i) else Deliver(i)
  }

  lemma DrainsOne(s: State, start: RunPresentation, i: nat)
    requires Consistent(s, start) && i < |s.streams| && s.streams[i].connected && s.streams[i].polling
    requires Outstanding(s, i) > 0
    ensures Enabled(s, NextOf(s, i)) && Advances(s, NextOf(s, i), i)
    ensures var t := Do(s, NextOf(s, i));
            && Consistent(t, start) && t.log == s.log && i < |t.streams| && t.streams[i].connected
                 && t.streams[i].polling
            && 0 <= Outstanding(t, i) < Outstanding(s, i)
  {
    var next := NextOf(s, i);
    assert StreamOk(s.streams[i], s);
    StepKeepsConsistent(s, start, next);
    StepOutstanding(s, start, next, i);
    assert StreamOk(Do(s, next).streams[i], Do(s, next));
  }

  /** A schedule of this stream alone that brings the browser to the end of the log. */
  ghost predicate Drains(s: State, steps: seq<Step>, i: nat) {
    && Runs(s, steps) && (forall k :: 0 <= k < |steps| ==> steps[k] == PollLog(i) || steps[k] == Deliver(i))
    && Final(s, steps).log == s.log && Final(s, steps).client.lastSeq == |s.log|
  }

  lemma DrainsThen(s: State, step: Step, rest: seq<Step>, i: nat)
    requires (step == PollLog(i) || step == Deliver(i)) && Enabled(s, step)
    requires Do(s, step).log == s.log && Drains(Do(s, step), rest, i)
    ensures Drains(s, [step] + rest, i)
  {
    RunStartsWith(s, step, rest);
  }

  /** Deliveries and polls of one stream that bring the browser to the end of the log. */
  lemma {:induction false} Drain(s: State, start: RunPresentation, i: nat) returns (steps: seq<Step>)
    requires Consistent(s, start)
    requires i < |s.streams| && s.streams[i].connected && s.streams[i].polling
    ensures Drains(s, steps, i)
    decreases Outstanding(s, i)
  {
    assert StreamOk(s.streams[i], s);
    if Outstanding(s, i) == 0 {
      steps := [];
    } else {
      DrainsOne(s, start, i);
      var rest := Drain(Do(s, NextOf(s, i)), start, i);
      steps := [NextOf(s, i)] + rest;
      DrainsThen(s, NextOf(s, i), rest, i);
    }
  }

  lemma {:induction false} EverySchedule(s: State, start: RunPresentation, steps: seq<Step>, i: nat)
    requires Consistent(s, start) && Runs(s, steps) && i < |s.streams|
    ensures var t := Final(s, steps);
            && i < |t.streams| && (t.streams[i].connected ==> s.streams[i].connected)
            && (t.streams[i].connected ==>
                  Outstanding(t, i) + Advancing(s, steps, i) <= Outstanding(s, i) + 2 * Appended(steps))
    decreases |steps|
  {
    if steps != [] {
      StepKeepsConsistent(s, start, steps[0]);
      StepOutstanding(s, start, steps[0], i);
      EverySchedule(Do(s, steps[0]), start, steps[1..], i);
    }
  }

  /**
   Every schedule of everything that goes on, however unfair otherwise: a stream that stays connected brings the browser
   to the end of the log once it has had as many advancing turns as there were events to list and deliver, two for
   each; and while it polls and has not, such a turn is possible.
   */
  lemma EveryFairScheduleCatchesUp(s: State, start: RunPresentation, steps: seq<Step>, i: nat)
    requires Consistent(s, start) && Runs(s, steps) && i < |s.streams|
    ensures var t := Final(s, steps);
            && i < |t.streams|
            && (t.streams[i].connected && Advancing(s, steps, i) >= Outstanding(s, i) + 2 * Appended(steps) ==>
                  t.client.lastSeq == |t.log|)
            && (t.streams[i].connected && t.streams[i].polling && Outstanding(t, i) > 0 ==>
                  exists step :: Enabled(t, step) && Advances(t, step, i))
  {
    EverySchedule(s, start, steps, i);
    RunKeepsConsistent(s, start, steps);
    var t := Final(s, steps);
    assert StreamOk(t.streams[i], t);
    if t.streams[i].connected && t.streams[i].polling && Outstanding(t, i) > 0 {
      DrainsOne(t, start, i);
    }
  }

  /** After a reconnect at the browser's cursor two advancing turns for each missing event recover everything. */
  lemma EveryReconnectCatchesUp(s: State, history: seq<Step>, steps: seq<Step>)
    requires Initial(s) && Runs(s, history)
    requires var t := Final(s, history); 0 <= t.client.lastSeq && Runs(t, [Open(t.client.lastSeq)] + steps)
    ensures var t := Final(s, history);
            var opened_ := Do(t, Open(t.client.lastSeq));
            var u, i := Final(t, [Open(t.client.lastSeq)] + steps), |t.streams|;
            && Runs(opened_, steps) && i < |u.streams|
            && (u.streams[i].connected
                && Advancing(opened_, steps, i) >= 2 * (|t.log| - t.client.lastSeq) + 2 * Appended(steps) ==>
                  u.client.lastSeq == |u.log|)
  {
    assert s.log[..0] == [];
    RunKeepsConsistent(s, s.client, history);
    var t := Final(s, history);
    var open := Open(t.client.lastSeq);
    StepKeepsConsistent(t, s.client, open);
    assert ([open] + steps)[0] == open && ([open] + steps)[1..] == steps;
    EveryFairScheduleCatchesUp(Do(t, open), s.client, steps, |t.streams|);
  }

  /** From any reachable state, reconnecting at the browser's cursor recovers every missing event. */
  lemma ReconnectCatchesUp(s: State, history: seq<Step>) returns (steps: seq<Step>)
    requires Initial(s) && Runs(s, history)
    ensures var t := Final(s, history);
            && 0 <= t.client.lastSeq && steps != [] && steps[0] == Open(t.client.lastSeq) && Runs(t, steps)
            && Final(t, steps).log == t.log && Final(t, steps).client.lastSeq == |t.log|
            && SameReplay(Final(t, steps).client, ReduceAll(s.client, t.log))
  {
    assert s.log[..0] == [];
    RunKeepsConsistent(s, s.client, history);
    var t := Final(s, history);
    var open := Open(t.client.lastSeq);
    StepKeepsConsistent(t, s.client, open);
    var rest := Drain(Do(t, open), s.client, |t.streams|);
    steps := [open] + rest;
    RunStartsWith(t, open, rest);
    RunKeepsConsistent(t, s.client, steps);
    assert t.log[..|t.log|] == t.log;
  }
}
