/** What the events of a run make of its presentation: of single events, and over whole replays. */
module PresentationMeaning {
  // Everything here is said in terms of the events alone. Which event counts, which one decides the run status or the
  // working stage, which question is open and what a worklog item shows are read off the list of events.

  import opened Common
  import opened Presentation
  import opened PresentationProofs
  import opened EventStream

  // --------------------------------------------------- the events that count

  /** An event is refused exactly when it belongs to another run or is not past the cursor. */
  lemma RefusedExactlyWhen(state: RunPresentation, e: DomainEvent)
    ensures Reduce(state, e) == state <==> (state.runId != "" && e.runId != state.runId) || e.seqNo <= state.lastSeq
    ensures Reduce(state, e) != state ==>
              var r := Reduce(state, e);
              && r.runId == e.runId && r.lastSeq == e.seqNo && !r.disconnected
              && r.graphId == if e.body.GoalUpdated? && e.body.suppliedGraphId.Some? then e.body.suppliedGraphId
                 else state.graphId
  {
    if Accepts(state, e) {
      assert Reduce(state, e).lastSeq == e.seqNo;
    }
  }

  /** The events that are not refused, in order. */
  ghost function Taken(state: RunPresentation, events: seq<DomainEvent>): seq<DomainEvent> {
    if events == [] then []
    else
      var earlier, e := events[..|events| - 1], events[|events| - 1];
      if Accepts(ReduceAll(state, earlier), e) then Taken(state, earlier) + [e] else Taken(state, earlier)
  }

  /** Of a run's own log every event counts. */
  lemma {:induction false} LogIsTaken(start: RunPresentation, log: seq<DomainEvent>, runId: string, n: nat)
    requires ValidLog(log, runId) && n <= |log| && runId != ""
    requires start.lastSeq == 0 && (start.runId == "" || start.runId == runId)
    ensures Taken(start, log[..n]) == log[..n]
    ensures var r := ReduceAll(start, log[..n]); r.lastSeq == n && (n > 0 ==> r.runId == runId)
  {
    if n > 0 {
      LogIsTaken(start, log, runId, n - 1);
      assert log[..n][..n - 1] == log[..n - 1];
    }
  }

  ghost predicate LastWhere(events: seq<DomainEvent>, p: DomainEvent -> bool, i: int) {
    0 <= i < |events| && p(events[i]) && forall j :: i < j < |events| ==> !p(events[j])
  }

  ghost predicate Nowhere(events: seq<DomainEvent>, p: DomainEvent -> bool) {
    forall i :: 0 <= i < |events| ==> !p(events[i])
  }

  lemma LastNext(events: seq<DomainEvent>, e: DomainEvent, p: DomainEvent -> bool)
    ensures forall i :: LastWhere(events + [e], p, i) <==> if p(e) then i == |events| else LastWhere(events, p, i)
    ensures Nowhere(events + [e], p) <==> Nowhere(events, p) && !p(e)
  {
    var all := events + [e];
    assert all[|events|] == e;
    assert forall j :: 0 <= j < |events| ==> all[j] == events[j];
  }

  // ------------------------------------------------------------------ status

  const STATUS_WORDS: map<string, RunStatus> := map[
    "queued" := Queued, "running" := Running, "waiting_for_user" := WaitingForUser,
    "needs_attention" := NeedsAttention, "completed" := Completed, "succeeded" := Completed,
    "failed" := RunStatus.Failed, "cancelled" := Cancelled]

  predicate Readable(e: DomainEvent) {
    e.status.Some? && e.status.value in STATUS_WORDS
  }

  predicate SaysStatus(e: DomainEvent) {
    || e.body.RunCompleted? || e.body.RunCancelled? || e.body.RunFailed?
    || e.body.RunWaitingForUser? || e.body.InputRequested?
    || (e.body.RunCreatedOrChanged? && Readable(e))
  }

  /** The status a presentation shows after this event. */
  ghost predicate Decides(e: DomainEvent, status: RunStatus) {
    && (e.body.RunCompleted? ==> status == Completed)
    && (e.body.RunCancelled? ==> status == Cancelled)
    && (e.body.RunWaitingForUser? || e.body.InputRequested? ==> status == WaitingForUser)
    && (e.body.RunFailed? && !Readable(e) ==> status == RunStatus.Failed)
    && ((e.body.RunFailed? || e.body.RunCreatedOrChanged?) && Readable(e) ==> status == STATUS_WORDS[e.status.value])
  }

  lemma EventDecidesStatus(state: RunPresentation, e: DomainEvent)
    requires Accepts(state, e)
    ensures if SaysStatus(e) then Decides(e, Reduce(state, e).status) else Reduce(state, e).status == state.status
  {
  }

  ghost predicate StatusFits(taken: seq<DomainEvent>, initial: RunStatus, status: RunStatus) {
    && (forall i :: LastWhere(taken, SaysStatus, i) ==> Decides(taken[i], status))
    && (Nowhere(taken, SaysStatus) ==> status == initial)
  }

  lemma StatusFitsNext(taken: seq<DomainEvent>, initial: RunStatus, status: RunStatus, e: DomainEvent, next: RunStatus)
    requires StatusFits(taken, initial, status) && if SaysStatus(e) then Decides(e, next) else next == status
    ensures StatusFits(taken + [e], initial, next)
  {
    LastNext(taken, e, SaysStatus);
  }

  /** The status of a replay is what its last event says that says anything of it. */
  lemma {:induction false} StatusOfReplay(state: RunPresentation, events: seq<DomainEvent>)
    ensures StatusFits(Taken(state, events), state.status, ReduceAll(state, events).status)
  {
    if events != [] {
      var earlier, e := events[..|events| - 1], events[|events| - 1];
      StatusOfReplay(state, earlier);
      var before := ReduceAll(state, earlier);
      if Accepts(before, e) {
        EventDecidesStatus(before, e);
        StatusFitsNext(Taken(state, earlier), state.status, before.status, e, Reduce(before, e).status);
      }
    }
  }

  // ------------------------------------------------------------------ stages

  const STAGES: seq<Stage> := [Planning, Building, Verifying, Repairing]

  const PHASES: map<string, Stage> := map[
    "preparing" := Planning, "planning" := Planning, "product_analysis" := Planning, "architecture" := Planning,
    "building" := Building, "implementation" := Building,
    "verifying" := Verifying, "verification" := Verifying, "publishing" := Verifying,
    "repairing" := Repairing, "repair" := Repairing]

  predicate ReadyChange(e: DomainEvent) {
    e.body.RunCreatedOrChanged? && e.body.phase == "ready"
  }

  /** The event starts work on stage `i`. */
  predicate StartsStage(e: DomainEvent, i: nat) {
    i < 4 && e.body.RunCreatedOrChanged? && e.body.phase in PHASES && PHASES[e.body.phase] == STAGES[i]
  }

  predicate MovesStages(e: DomainEvent) {
    || e.body.RunCompleted? || e.body.RunFailed?
    || (e.body.RunCreatedOrChanged? && (e.body.phase == "ready" || e.body.phase in PHASES))
  }

  function Done(at: string): StageActivity {
    StageActivity(StageCompleted, Some(at))
  }

  lemma PhaseStageIs(phase: string)
    ensures PhaseStage(phase) == if phase in PHASES then Some(PHASES[phase]) else None
  {
  }

  /**
   Completion completes all but an idle repair stage, and failure fails exactly what was working. A change of phase
   starts its stage and completes every stage before it and any that was working. Nothing else moves a stage.
   */
  lemma EventMovesStages(state: RunPresentation, e: DomainEvent, i: nat)
    requires Accepts(state, e) && i < 4
    ensures var was, now := state.stages[i], Reduce(state, e).stages[i];
            && (e.body.RunCompleted? || ReadyChange(e) ==>
                  now == if i == 3 && was.status == StageIdle then was else Done(e.occurredAt))
            && (e.body.RunFailed? ==>
                  now == if was.status == StageWorking then StageActivity(StageFailed, Some(e.occurredAt)) else was)
            && (StartsStage(e, i) ==> now == StageActivity(StageWorking, Some(e.occurredAt)))
            && (forall j :: 0 <= j < 4 && j != i && StartsStage(e, j) ==>
                  now == if i < j || was.status == StageWorking then Done(e.occurredAt) else was)
            && (!MovesStages(e) ==> now == was)
  {
    if e.body.RunCreatedOrChanged? {
      PhaseStageIs(e.body.phase);
    }
  }

  /** A stage is at work exactly when the last event that moved the stages started it. */
  ghost predicate StageFits(taken: seq<DomainEvent>, initial: StageActivity, now: StageActivity, i: nat) {
    && (forall k :: LastWhere(taken, MovesStages, k) ==>
          && (now.status == StageWorking <==> StartsStage(taken[k], i))
          && (StartsStage(taken[k], i) ==> now.updatedAt == Some(taken[k].occurredAt))
          && (taken[k].body.RunCompleted? && i < 3 ==> now == Done(taken[k].occurredAt)))
    && (Nowhere(taken, MovesStages) ==> now == initial)
  }

  lemma StageFitsNext(taken: seq<DomainEvent>, initial: StageActivity, now: StageActivity, i: nat, e: DomainEvent,
                      next: StageActivity)
    requires StageFits(taken, initial, now, i)
    requires if MovesStages(e) then StageFits([e], initial, next, i) else next == now
    ensures StageFits(taken + [e], initial, next, i)
  {
    LastNext(taken, e, MovesStages);
    if MovesStages(e) {
      assert LastWhere([e], MovesStages, 0);
    }
  }

  lemma StageFitsOne(state: RunPresentation, e: DomainEvent, i: nat, initial: StageActivity)
    requires Accepts(state, e) && i < 4 && MovesStages(e)
    ensures StageFits([e], initial, Reduce(state, e).stages[i], i)
  {
    EventMovesStages(state, e, i);
    if e.body.RunCreatedOrChanged? && e.body.phase in PHASES {
      var j := match PHASES[e.body.phase] case Planning => 0 case Building => 1 case Verifying => 2 case Repairing => 3;
      assert StartsStage(e, j);
    }
    assert MovesStages([e][0]);
  }

  /** Over every replay, each stage fits the events that count. */
  lemma {:induction false} StagesOfReplay(state: RunPresentation, events: seq<DomainEvent>, i: nat)
    requires i < 4
    ensures StageFits(Taken(state, events), state.stages[i], ReduceAll(state, events).stages[i], i)
  {
    if events != [] {
      var earlier, e := events[..|events| - 1], events[|events| - 1];
      StagesOfReplay(state, earlier, i);
      var before := ReduceAll(state, earlier);
      if Accepts(before, e) {
        EventMovesStages(before, e, i);
        if MovesStages(e) {
          StageFitsOne(before, e, i, state.stages[i]);
        }
        StageFitsNext(Taken(state, earlier), state.stages[i], before.stages[i], i, e, Reduce(before, e).stages[i]);
      }
    }
  }

  // ---------------------------------------------------------------- questions

  predicate Known(items: seq<InputRequest>, id: string) {
    exists i :: 0 <= i < |items| && items[i].id == id
  }

  ghost predicate IsOpen(items: seq<InputRequest>, id: string) {
    exists q :: q in items && q.id == id && q.status == Pending
  }

  /** The request of `later` named like the incoming one: that one, less what it does not carry of an earlier one. */
  ghost predicate Holds(items: seq<InputRequest>, later: seq<InputRequest>, incoming: InputRequest, kept: Kept) {
    exists x :: x in later && x.id == incoming.id
      && if Known(items, incoming.id)
         then exists q :: q in items && q.id == incoming.id && x == Merged(q, incoming, kept)
         else x == incoming
  }

  /** All other requests stay as they are; only a full list loses its first to a new one. */
  ghost predicate OthersStay(items: seq<InputRequest>, later: seq<InputRequest>, id: string) {
    && (forall x :: x in later && x.id != id ==> x in items)
    && (forall i :: 0 <= i < |items| && items[i].id != id && (i > 0 || |items| < 80 || Known(items, id)) ==>
          items[i] in later)
  }

  lemma ReplacedIsThere(items: seq<InputRequest>, incoming: InputRequest, kept: Kept)
    requires RequestsOk(items)
    ensures Holds(items, ReplaceById(items, incoming, kept), incoming, kept)
    ensures OthersStay(items, ReplaceById(items, incoming, kept), incoming.id)
  {
    var index, later := IndexOf(items, incoming.id), ReplaceById(items, incoming, kept);
    if index == |items| {
      assert later[|later| - 1] == incoming;
      var all := items + [incoming];
      forall i | 0 <= i < |items| && (i > 0 || |items| < 80) ensures items[i] in later {
        assert later[i - (|all| - |later|)] == all[i];
      }
    } else {
      assert later[index] == Merged(items[index], incoming, kept);
      forall i | 0 <= i < |items| && i != index ensures items[i] in later {
        assert later[i] == items[i];
      }
    }
  }

  /** A question that nobody answered is over; one that is over stays as it was. */
  function Lapsed(q: InputRequest, seqNo: int, keepEarlier: bool): InputRequest {
    if q.status != Pending then q
    else q.(status := Expired, resolvedSeq := if keepEarlier && q.resolvedSeq.Some? then q.resolvedSeq else Some(seqNo))
  }

  /** All questions but the one named `id` have lapsed; only a full list loses its first to a new one. */
  ghost predicate OthersLapse(was: seq<InputRequest>, now: seq<InputRequest>, id: string, seqNo: int,
                              keepEarlier: bool) {
    && (forall x :: x in now && x.id != id ==> exists q :: q in was && x == Lapsed(q, seqNo, keepEarlier))
    && (forall i :: 0 <= i < |was| && was[i].id != id && (i > 0 || |was| < 80 || Known(was, id)) ==>
          Lapsed(was[i], seqNo, keepEarlier) in now)
  }

  lemma AskedAmongOthers(was: seq<InputRequest>, incoming: InputRequest, kept: Kept, seqNo: int, keepEarlier: bool)
    requires RequestsOk(was)
    ensures var id := incoming.id;
            var now := ReplaceById(ResolvePending(was, Some(id), Expired, seqNo, keepEarlier), incoming, kept);
            Holds(was, now, incoming, kept) && OthersLapse(was, now, id, seqNo, keepEarlier)
  {
    var id := incoming.id;
    var others := ResolvePending(was, Some(id), Expired, seqNo, keepEarlier);
    var now := ReplaceById(others, incoming, kept);
    ResolveKeepsRequests(was, Some(id), Expired, seqNo, keepEarlier);
    ReplacedIsThere(others, incoming, kept);
    forall i | 0 <= i < |was|
      ensures others[i] == if was[i].id == id then was[i] else Lapsed(was[i], seqNo, keepEarlier) {
    }
    KnownAmong(was, others, id);
    forall x | x in now && x.id != id ensures exists q :: q in was && x == Lapsed(q, seqNo, keepEarlier) {
      var i :| 0 <= i < |others| && others[i] == x;
      assert was[i] in was;
    }
    forall i | 0 <= i < |was| && was[i].id != id && (i > 0 || |was| < 80 || Known(was, id))
      ensures Lapsed(was[i], seqNo, keepEarlier) in now {
      assert others[i] in now;
    }
    HeldAmong(was, others, now, incoming, kept);
  }

  lemma KnownAmong(was: seq<InputRequest>, others: seq<InputRequest>, id: string)
    requires |others| == |was| && forall i :: 0 <= i < |was| ==> others[i].id == was[i].id
    ensures Known(others, id) <==> Known(was, id)
  {
    if i :| 0 <= i < |was| && was[i].id == id {
      assert others[i].id == id;
    }
  }

  lemma HeldAmong(was: seq<InputRequest>, others: seq<InputRequest>, now: seq<InputRequest>, incoming: InputRequest,
                  kept: Kept)
    requires |others| == |was| && forall i :: 0 <= i < |was| ==> others[i].id == was[i].id
    requires forall i :: 0 <= i < |was| && was[i].id == incoming.id ==> others[i] == was[i]
    requires Holds(others, now, incoming, kept)
    ensures Holds(was, now, incoming, kept)
  {
    KnownAmong(was, others, incoming.id);
    var x :| x in now && x.id == incoming.id
             && if Known(others, incoming.id)
                then exists q :: q in others && q.id == incoming.id && x == Merged(q, incoming, kept)
                else x == incoming;
    if Known(others, incoming.id) {
      var q :| q in others && q.id == incoming.id && x == Merged(q, incoming, kept);
      var i :| 0 <= i < |others| && others[i] == q;
      assert was[i] in was;
    }
  }

  /** The request of that name, of which there is one. */
  ghost predicate Only(items: seq<InputRequest>, id: string, x: InputRequest) {
    x in items && x.id == id && forall y :: y in items && y.id == id ==> y == x
  }

  lemma OneOfEach(items: seq<InputRequest>, x: InputRequest)
    requires RequestsOk(items) && x in items
    ensures Only(items, x.id, x)
  {
  }

  /** A question is asked: it is open, at the event's number, and every other one that was open lapses. */
  lemma QuestionIsAsked(state: RunPresentation, e: DomainEvent) returns (x: InputRequest)
    requires Accepts(state, e) && e.body.InputRequested? && RequestsOk(state.inputRequests)
    ensures var now := Reduce(state, e).inputRequests;
            && Only(now, e.body.requestId, x)
            && x.runId == e.runId && x.body == e.body.requestBody && x.status == Pending
            && x.requestedSeq == Some(e.seqNo)
            && OthersLapse(state.inputRequests, now, e.body.requestId, e.seqNo, false)
  {
    var was, now, incoming := state.inputRequests, Reduce(state, e).inputRequests, RequestFromEvent(e);
    AskedAmongOthers(was, incoming, Kept(true, true), e.seqNo, false);
    x :| x in now && x.id == incoming.id
         && if Known(was, incoming.id)
            then exists q :: q in was && q.id == incoming.id && x == Merged(q, incoming, Kept(true, true))
            else x == incoming;
    EventKeepsRequests(state, e);
    OneOfEach(now, x);
  }

  /** A cancellation cancels exactly the open questions; an answer settles exactly the one it names. */
  lemma QuestionIsSettled(state: RunPresentation, e: DomainEvent, i: nat)
    requires Accepts(state, e) && !e.body.InputRequested? && i < |state.inputRequests|
    ensures var was, now := state.inputRequests, Reduce(state, e).inputRequests;
            && |now| == |was|
            && now[i] ==
               if e.body.RunCancelled? && was[i].status == Pending then
                 was[i].(status := RequestCancelled, resolvedSeq := Some(e.seqNo))
               else if e.body.InputAnswered? && was[i].id == e.body.answeredId then
                 was[i].(status := Answered, answeredAt := Some(e.occurredAt), resolvedSeq := Some(e.seqNo),
                         answerMessageId := if e.body.messageId == "" then was[i].answerMessageId
                         else Some(e.body.messageId))
               else was[i]
  {
  }

  predicate Concerns(e: DomainEvent, id: string) {
    e.body.RunCancelled? || e.body.InputRequested? || (e.body.InputAnswered? && e.body.answeredId == id)
  }

  function Concerning(id: string): DomainEvent -> bool {
    e => Concerns(e, id)
  }

  predicate Asks(e: DomainEvent, id: string) {
    e.body.InputRequested? && e.body.requestId == id
  }

  /** A question is open exactly when the last event that concerns it asks it. */
  ghost predicate OpenFits(taken: seq<DomainEvent>, initially: bool, open: bool, id: string) {
    && (forall k :: LastWhere(taken, Concerning(id), k) ==> (open <==> Asks(taken[k], id)))
    && (Nowhere(taken, Concerning(id)) ==> (open <==> initially))
  }

  lemma OpenFitsNext(taken: seq<DomainEvent>, initially: bool, open: bool, id: string, e: DomainEvent, next: bool)
    requires OpenFits(taken, initially, open, id) && (next <==> if Concerns(e, id) then Asks(e, id) else open)
    ensures OpenFits(taken + [e], initially, next, id)
  {
    LastNext(taken, e, Concerning(id));
  }

  lemma EventOpens(state: RunPresentation, e: DomainEvent, id: string)
    requires Accepts(state, e) && RequestsOk(state.inputRequests)
    ensures IsOpen(Reduce(state, e).inputRequests, id) <==>
            if Concerns(e, id) then Asks(e, id) else IsOpen(state.inputRequests, id)
  {
    var was, now := state.inputRequests, Reduce(state, e).inputRequests;
    if e.body.InputRequested? {
      var x := QuestionIsAsked(state, e);
    } else {
      forall i | 0 <= i < |was|
        ensures now[i].id == was[i].id
        ensures now[i].status == Pending <==> was[i].status == Pending && !Concerns(e, was[i].id) {
        QuestionIsSettled(state, e, i);
      }
      SameOpen(was, now, e, id);
    }
  }

  lemma SameOpen(was: seq<InputRequest>, now: seq<InputRequest>, e: DomainEvent, id: string)
    requires |now| == |was| && forall i :: 0 <= i < |was| ==> now[i].id == was[i].id
    requires forall i :: 0 <= i < |was| ==>
               (now[i].status == Pending <==> was[i].status == Pending && !Concerns(e, was[i].id))
    ensures IsOpen(now, id) <==> IsOpen(was, id) && !Concerns(e, id)
  {
    if IsOpen(was, id) && !Concerns(e, id) {
      var i :| 0 <= i < |was| && was[i].id == id && was[i].status == Pending;
      assert now[i] in now;
    }
    if IsOpen(now, id) {
      var i :| 0 <= i < |now| && now[i].id == id && now[i].status == Pending;
      assert was[i] in was;
    }
  }

  /** Over every replay, each question is open exactly when the last event that concerns it asks it. */
  lemma {:induction false} OpenQuestionOfReplay(state: RunPresentation, events: seq<DomainEvent>, id: string)
    requires RequestsOk(state.inputRequests)
    ensures OpenFits(Taken(state, events), IsOpen(state.inputRequests, id),
                     IsOpen(ReduceAll(state, events).inputRequests, id), id)
    ensures RequestsOk(ReduceAll(state, events).inputRequests)
  {
    if events != [] {
      var earlier, e := events[..|events| - 1], events[|events| - 1];
      OpenQuestionOfReplay(state, earlier, id);
      var before := ReduceAll(state, earlier);
      if Accepts(before, e) {
        EventOpens(before, e, id);
        EventKeepsRequests(before, e);
        OpenFitsNext(Taken(state, earlier), IsOpen(state.inputRequests, id), IsOpen(before.inputRequests, id), id, e,
                     IsOpen(Reduce(before, e).inputRequests, id));
      }
    }
  }

  // ---------------------------------------------------------- reconciliations

  /** A snapshot names the one open question, if any; whatever else was open lapses. Nothing else changes. */
  lemma SnapshotNamesTheOpenQuestion(state: RunPresentation, pending: InputRequest) returns (x: InputRequest)
    requires RequestsOk(state.inputRequests) && pending.runId == state.runId
    ensures var was, r := state.inputRequests, ReconcileInputRequestSnapshot(state, Some(pending));
            && r.(inputRequests := was) == state && Only(r.inputRequests, pending.id, x)
            && x.(requestedSeq := None, resolvedSeq := None, answerMessageId := None) ==
               pending.(requestedSeq := None, resolvedSeq := None, answerMessageId := None)
            && (Known(was, pending.id) ==>
                  exists q :: q in was && q.id == pending.id && x.requestedSeq == q.requestedSeq)
            && (!Known(was, pending.id) ==> x.requestedSeq == None)
            && OthersLapse(was, r.inputRequests, pending.id, state.lastSeq, true)
  {
    var was := state.inputRequests;
    var now := ReconcileInputRequestSnapshot(state, Some(pending)).inputRequests;
    var previous := Find(was, pending.id);
    var incoming := pending.(requestedSeq := if previous.Some? then previous.value.requestedSeq else None);
    AskedAmongOthers(was, incoming, Kept(false, true), state.lastSeq, true);
    x :| x in now && x.id == incoming.id
         && if Known(was, incoming.id)
            then exists q :: q in was && q.id == incoming.id && x == Merged(q, incoming, Kept(false, true))
            else x == incoming;
    SnapshotKeepsRequests(state, Some(pending));
    OneOfEach(now, x);
    if previous.Some? {
      assert previous.value in was;
    }
  }

  lemma SnapshotWithoutQuestion(state: RunPresentation, pending: Option<InputRequest>, i: nat)
    requires (pending.Some? ==> pending.value.runId != state.runId) && i < |state.inputRequests|
    ensures var was, r := state.inputRequests, ReconcileInputRequestSnapshot(state, pending);
            && r.(inputRequests := was) == state && |r.inputRequests| == |was|
            && r.inputRequests[i] == Lapsed(was[i], state.lastSeq, true)
  {
  }

  /** The response to an answer settles its question, known or not; the run status follows while it was open. */
  lemma AnswerIsRecorded(state: RunPresentation, response: AnswerResponse) returns (x: InputRequest)
    requires RequestsOk(state.inputRequests) && response.request.status == Answered
    requires response.runId == state.runId == response.request.runId
    ensures var was, r, id := state.inputRequests, ReconcileInputAnswer(state, response), response.request.id;
            && Only(r.inputRequests, id, x) && OthersStay(was, r.inputRequests, id)
            && x.(requestedSeq := None, resolvedSeq := None) ==
               response.request.(requestedSeq := None, resolvedSeq := None,
               answerMessageId := Some(response.messageId))
            && (!Known(was, id) ==> x.requestedSeq == None && x.resolvedSeq == Some(state.lastSeq))
            && (forall q :: q in was && q.id == id ==>
                  && x.requestedSeq == q.requestedSeq
                  && x.resolvedSeq == if q.resolvedSeq.Some? then q.resolvedSeq else Some(state.lastSeq))
            && r.status == if IsOpen(was, id) then response.runStatus else state.status
  {
    var was, id := state.inputRequests, response.request.id;
    var previous := Find(was, id);
    var answered := response.request.(
      requestedSeq := if previous.Some? then previous.value.requestedSeq else None,
      resolvedSeq := Or(if previous.Some? then previous.value.resolvedSeq else None, Some(state.lastSeq)),
      answerMessageId := Some(response.messageId));
    var now := ReconcileInputAnswer(state, response).inputRequests;
    ReplacedIsThere(was, answered, Kept(false, false));
    x :| x in now && x.id == id
         && if Known(was, id)
            then exists q :: q in was && q.id == id && x == Merged(q, answered, Kept(false, false))
            else x == answered;
    AnswerKeepsRequests(state, response);
    OneOfEach(now, x);
    if previous.Some? {
      OneOfEach(was, previous.value);
    }
  }

  /** Stopping the run cancels it and exactly its open questions. */
  lemma StopCancels(state: RunPresentation, i: nat)
    requires i < |state.inputRequests|
    ensures var was, r := state.inputRequests, StopRun(state);
            && r == state.(status := Cancelled, inputRequests := r.inputRequests) && |r.inputRequests| == |was|
            && r.inputRequests[i] ==
               if was[i].status == Pending then
                 was[i].(status := RequestCancelled, resolvedSeq := Some(state.lastSeq))
               else was[i]
  {
  }
}
