/**
 What the browser's presentation is made of. Whatever the steps of a run and however its streams overlap, there is one
 list of actions that explains the presentation: the log's events up to its cursor, each once and in order, and between
 them the answers, snapshots and stops of the run, in the order in which they happened.
 */
module ReplayHistory {
  import opened Common
  import opened Presentation
  import opened EventStream
  import opened Replay

  function EventsOf(actions: seq<Action>): seq<DomainEvent> {
    if actions == [] then []
    else
      var last := actions[|actions| - 1];
      EventsOf(actions[..|actions| - 1]) + if last.Event? then [last.event] else []
  }

  function OthersOf(actions: seq<Action>): seq<Action> {
    if actions == [] then []
    else
      var last := actions[|actions| - 1];
      OthersOf(actions[..|actions| - 1]) + if last.Event? then [] else [last]
  }

  predicate Intervenes(step: Step) {
    step.PostAnswer? || step.ReadSnapshot? || step.CancelRun?
  }

  /** What a step does to the presentation besides folding events. */
  function InterventionOf(step: Step): seq<Action> {
    match step
    case PostAnswer(response) => [AnswerPosted(response)]
    case ReadSnapshot(_, _, pending) => [SnapshotRead(pending)]
    case CancelRun => [Stopped]
    case _ => []
  }

  function Interventions(steps: seq<Step>): seq<Action> {
    if steps == [] then [] else InterventionOf(steps[0]) + Interventions(steps[1..])
  }

  /**
   The presentation is what these actions make of the initial one, and their events are the log's up to its cursor.
   */
  ghost predicate Explains(start: RunPresentation, actions: seq<Action>, client: RunPresentation, log: seq<DomainEvent>,
                           runId: string) {
    && 0 <= client.lastSeq <= |log| && (client.runId == "" || client.runId == runId)
    && client == ApplyAll(start, actions)
    && EventsOf(actions) == log[..client.lastSeq]
  }

  lemma OneMoreAction(start: RunPresentation, actions: seq<Action>, a: Action)
    ensures ApplyAll(start, actions + [a]) == Apply(ApplyAll(start, actions), a)
    ensures EventsOf(actions + [a]) == EventsOf(actions) + if a.Event? then [a.event] else []
    ensures OthersOf(actions + [a]) == OthersOf(actions) + if a.Event? then [] else [a]
  {
    assert (actions + [a])[..|actions + [a]| - 1] == actions;
  }

  /** The next event is one more action; an older one is none. */
  lemma EventExplained(start: RunPresentation, actions: seq<Action>, client: RunPresentation, log: seq<DomainEvent>,
                       runId: string, at: nat) returns (after: seq<Action>)
    requires Explains(start, actions, client, log, runId) && ValidLog(log, runId) && at < |log| && at <= client.lastSeq
    ensures Explains(start, after, Reduce(client, log[at]), log, runId) && OthersOf(after) == OthersOf(actions)
    ensures Reduce(client, log[at]).lastSeq == Max(client.lastSeq, at + 1)
  {
    if at == client.lastSeq {
      after := actions + [Event(log[at])];
      OneMoreAction(start, actions, Event(log[at]));
      assert OthersOf(actions) + [] == OthersOf(actions);
      assert log[..at] + [log[at]] == log[..at + 1];
    } else {
      after := actions;
    }
  }

  lemma {:induction false} ListingExplained(start: RunPresentation, actions: seq<Action>, client: RunPresentation,
                                            log: seq<DomainEvent>, runId: string, visible: nat)
    returns (after: seq<Action>)
    requires Explains(start, actions, client, log, runId) && ValidLog(log, runId) && visible <= |log|
    ensures Explains(start, after, ReduceAll(client, log[..visible]), log, runId)
            && OthersOf(after) == OthersOf(actions)
    ensures ReduceAll(client, log[..visible]).lastSeq == Max(client.lastSeq, visible)
    decreases visible
  {
    if visible == 0 {
      after := actions;
    } else {
      after := ListingExplained(start, actions, client, log, runId, visible - 1);
      assert log[..visible][..visible - 1] == log[..visible - 1];
      after := EventExplained(start, after, ReduceAll(client, log[..visible - 1]), log, runId, visible - 1);
    }
  }

  lemma OtherExplained(start: RunPresentation, actions: seq<Action>, client: RunPresentation, log: seq<DomainEvent>,
                       runId: string, a: Action)
    requires Explains(start, actions, client, log, runId) && !a.Event?
    ensures Explains(start, actions + [a], Apply(client, a), log, runId)
    ensures OthersOf(actions + [a]) == OthersOf(actions) + [a]
  {
    OneMoreAction(start, actions, a);
    assert EventsOf(actions) + [] == EventsOf(actions);
  }

  lemma DeliveryExplained(s: State, start: RunPresentation, actions: seq<Action>, i: nat) returns (after: seq<Action>)
    requires Consistent(s, start) && Explains(start, actions, s.client, s.log, s.runId) && Enabled(s, Deliver(i))
    ensures Explains(start, after, Reduce(s.client, s.streams[i].inFlight[0]), s.log, s.runId)
    ensures OthersOf(after) == OthersOf(actions)
  {
    assert StreamOk(s.streams[i], s);
    after := EventExplained(start, actions, s.client, s.log, s.runId, Delivered(s.streams[i]));
  }

  lemma SnapshotExplained(s: State, start: RunPresentation, actions: seq<Action>, visible: nat, snapshotSeq: nat,
                          pending: Option<InputRequest>) returns (after: seq<Action>)
    requires Explains(start, actions, s.client, s.log, s.runId) && ValidLog(s.log, s.runId)
    requires snapshotSeq <= visible <= |s.log|
    ensures Explains(start, after, AfterSnapshot(s.client, s.log[..visible], snapshotSeq, pending), s.log, s.runId)
    ensures OthersOf(after) == OthersOf(actions) + [SnapshotRead(pending)]
  {
    var replayed := ListingExplained(start, actions, s.client, s.log, s.runId, visible);
    OtherExplained(start, replayed, ReduceAll(s.client, s.log[..visible]), s.log, s.runId, SnapshotRead(pending));
    after := replayed + [SnapshotRead(pending)];
  }

  /** What a step does to the presentation is one more action of its history, or none. */
  lemma StepExplained(s: State, start: RunPresentation, actions: seq<Action>, step: Step) returns (after: seq<Action>)
    requires Consistent(s, start) && Explains(start, actions, s.client, s.log, s.runId) && Enabled(s, step)
    ensures Explains(start, after, Do(s, step).client, Do(s, step).log, s.runId)
    ensures OthersOf(after) == OthersOf(actions) + InterventionOf(step)
  {
    after := actions;
    match step {
      case Append(e) => assert (s.log + [e])[..s.client.lastSeq] == s.log[..s.client.lastSeq];
      case Deliver(i) => after := DeliveryExplained(s, start, actions, i);
      case PostAnswer(response) =>
        OtherExplained(start, actions, s.client, s.log, s.runId, AnswerPosted(response));
        after := actions + [AnswerPosted(response)];
      case CancelRun =>
        OtherExplained(start, actions, s.client, s.log, s.runId, Stopped);
        after := actions + [Stopped];
      case ReadSnapshot(visible, snapshotSeq, pending) =>
        after := SnapshotExplained(s, start, actions, visible, snapshotSeq, pending);
      case _ =>
    }
  }

  lemma {:induction false} RunExplained(s: State, start: RunPresentation, actions: seq<Action>, steps: seq<Step>)
    returns (after: seq<Action>)
    requires Consistent(s, start) && Explains(start, actions, s.client, s.log, s.runId) && Runs(s, steps)
    ensures Explains(start, after, Final(s, steps).client, Final(s, steps).log, s.runId)
    ensures OthersOf(after) == OthersOf(actions) + Interventions(steps)
    decreases |steps|
  {
    if steps == [] {
      after := actions;
    } else {
      after := StepExplained(s, start, actions, steps[0]);
      ConcatAssociates(OthersOf(actions), InterventionOf(steps[0]), Interventions(steps[1..]));
      StepKeepsConsistent(s, start, steps[0]);
      after := RunExplained(Do(s, steps[0]), start, after, steps[1..]);
    }
  }

  /** The answers of a run are answered. */
  lemma {:induction false} InterventionsAreValid(s: State, steps: seq<Step>)
    requires Runs(s, steps)
    ensures forall a :: a in Interventions(steps) ==> ValidAction(a)
    decreases |steps|
  {
    if steps != [] {
      InterventionsAreValid(Do(s, steps[0]), steps[1..]);
    }
  }

  lemma {:induction false} OthersAreIn(actions: seq<Action>, a: Action)
    requires a in actions
    ensures a.Event? || a in OthersOf(actions)
  {
    var earlier, last := actions[..|actions| - 1], actions[|actions| - 1];
    if a != last {
      assert actions == earlier + [last];
      OthersAreIn(earlier, a);
    }
  }
}
