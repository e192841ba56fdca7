/** What every run of the reducer keeps, and how it races with the answer POST. */
module PresentationProofs {
  import opened Common
  import opened Presentation

  // ------------------------------------------------ the worklog is an LRU list

  ghost predicate DistinctIds(items: seq<WorklogItem>) {
    forall i, j :: 0 <= i < j < |items| ==> items[i].id != items[j].id
  }

  ghost predicate SeqIncreasing(items: seq<WorklogItem>) {
    forall i, j :: 0 <= i < j < |items| ==> items[i].seqNo < items[j].seqNo
  }

  ghost predicate SeqAtMost(items: seq<WorklogItem>, bound: int) {
    forall i :: 0 <= i < |items| ==> items[i].seqNo <= bound
  }

  /** The unbounded reference: every item ever added, the most recently touched last. */
  ghost function Touched(state: RunPresentation, events: seq<DomainEvent>): seq<WorklogItem> {
    if events == [] then []
    else
      var earlier, e := events[..|events| - 1], events[|events| - 1];
      var before := ReduceAll(state, earlier);
      if Accepts(before, e) && AddedItem(before, e).Some?
      then MoveToEnd(Touched(state, earlier), AddedItem(before, e).value)
      else Touched(state, earlier)
  }

  lemma {:induction false} WithoutMembers(items: seq<WorklogItem>, id: string)
    ensures forall x :: x in Without(items, id) <==> x in items && x.id != id
  {
    if items != [] {
      WithoutMembers(items[1..], id);
      assert items == [items[0]] + items[1..];
    }
  }

  lemma ConsShape(first: WorklogItem, kept: seq<WorklogItem>)
    requires DistinctIds(kept) && forall x :: x in kept ==> x.id != first.id
    ensures DistinctIds([first] + kept)
    ensures SeqIncreasing(kept) && (forall x :: x in kept ==> first.seqNo < x.seqNo) ==> SeqIncreasing([first] + kept)
  {
    forall k | 0 <= k < |kept| ensures kept[k].id != first.id {
      assert kept[k] in kept;
    }
  }

  lemma TailShape(items: seq<WorklogItem>)
    requires items != [] && DistinctIds(items)
    ensures DistinctIds(items[1..]) && forall x :: x in items[1..] ==> x.id != items[0].id
    ensures SeqIncreasing(items) ==> SeqIncreasing(items[1..]) && forall x :: x in items[1..] ==>
            items[0].seqNo < x.seqNo
  {
  }

  lemma {:induction false} WithoutShape(items: seq<WorklogItem>, id: string)
    requires DistinctIds(items)
    ensures DistinctIds(Without(items, id)) && |items| - 1 <= |Without(items, id)| <= |items|
    ensures SeqIncreasing(items) ==> SeqIncreasing(Without(items, id))
  {
    if items != [] {
      var rest := items[1..];
      TailShape(items);
      WithoutShape(rest, id);
      WithoutMembers(rest, id);
      if items[0].id == id {
        WithoutAbsent(rest, id);
      } else {
        ConsShape(items[0], Without(rest, id));
      }
    }
  }

  lemma {:induction false} WithoutAbsent(items: seq<WorklogItem>, id: string)
    requires forall x :: x in items ==> x.id != id
    ensures Without(items, id) == items
  {
    if items != [] {
      WithoutAbsent(items[1..], id);
    }
  }

  lemma MoveToEndKeepsShape(items: seq<WorklogItem>, x: WorklogItem)
    requires DistinctIds(items) && SeqIncreasing(items) && SeqAtMost(items, x.seqNo - 1)
    ensures var r := MoveToEnd(items, x); DistinctIds(r) && SeqIncreasing(r) && SeqAtMost(r, x.seqNo)
  {
    WithoutShape(items, x.id);
    WithoutMembers(items, x.id);
    var kept := Without(items, x.id);
    forall k | 0 <= k < |kept| ensures kept[k] in items && kept[k].id != x.id {
      assert kept[k] in kept;
    }
  }

  /** Truncating before or after an upsert makes no difference to the truncated result. */
  lemma {:induction false} UpsertCommutesWithTruncation(items: seq<WorklogItem>, x: WorklogItem, n: nat)
    requires n > 0 && DistinctIds(items)
    ensures LastN(MoveToEnd(LastN(items, n), x), n) == LastN(MoveToEnd(items, x), n)
  {
    if |items| > n {
      var rest := items[1..];
      assert LastN(items, n) == LastN(rest, n);
      UpsertCommutesWithTruncation(rest, x, n);
      WithoutShape(rest, x.id);
      if items[0].id != x.id {
        ConcatAssociates([items[0]], Without(rest, x.id), [x]);
        LastOfLonger(items[0], MoveToEnd(rest, x), n);
      }
    }
  }

  lemma LastOfLonger(first: WorklogItem, items: seq<WorklogItem>, n: nat)
    requires |items| >= n
    ensures LastN([first] + items, n) == LastN(items, n)
  {
  }

  lemma {:induction false} TouchedShape(state: RunPresentation, events: seq<DomainEvent>)
    ensures DistinctIds(Touched(state, events))
    ensures SeqIncreasing(Touched(state, events))
    ensures SeqAtMost(Touched(state, events), ReduceAll(state, events).lastSeq)
  {
    if events != [] {
      var earlier, e := events[..|events| - 1], events[|events| - 1];
      TouchedShape(state, earlier);
      var before := ReduceAll(state, earlier);
      if Accepts(before, e) && AddedItem(before, e).Some? {
        AddedItemCarriesSeq(before, e);
        MoveToEndKeepsShape(Touched(state, earlier), AddedItem(before, e).value);
      }
    }
  }

  lemma AddedItemCarriesSeq(state: RunPresentation, e: DomainEvent)
    requires AddedItem(state, e).Some?
    ensures AddedItem(state, e).value.seqNo == e.seqNo
  {
  }

  /** The bounded worklog is exactly the 80 most recently touched items, in touch order. */
  lemma {:induction false} WorklogIsMostRecentlyTouched(state: RunPresentation, events: seq<DomainEvent>)
    requires state.worklog == []
    ensures ReduceAll(state, events).worklog == LastN(Touched(state, events), MAX_ACTIVITY_ITEMS)
  {
    if events != [] {
      var earlier, e := events[..|events| - 1], events[|events| - 1];
      WorklogIsMostRecentlyTouched(state, earlier);
      var before := ReduceAll(state, earlier);
      if Accepts(before, e) && AddedItem(before, e).Some? {
        TouchedShape(state, earlier);
        UpsertCommutesWithTruncation(Touched(state, earlier), AddedItem(before, e).value, MAX_ACTIVITY_ITEMS);
      }
    }
  }

  /** Hence it is bounded, free of repeated ids and ordered by event number below the cursor. */
  lemma WorklogInvariant(state: RunPresentation, events: seq<DomainEvent>)
    requires state.worklog == []
    ensures var r := ReduceAll(state, events);
            |r.worklog| <= 80 && DistinctIds(r.worklog) && SeqIncreasing(r.worklog) && SeqAtMost(r.worklog, r.lastSeq)
  {
    WorklogIsMostRecentlyTouched(state, events);
    TouchedShape(state, events);
  }

  // ------------------------------------------------------------------ stages

  /** At most one stage is ever working, whatever the phases and in whatever order. */
  lemma {:induction false} AtMostOneStageWorks(state: RunPresentation, events: seq<DomainEvent>)
    requires AtMostOneWorking(state.stages)
    ensures AtMostOneWorking(ReduceAll(state, events).stages)
  {
    if events != [] {
      AtMostOneStageWorks(state, events[..|events| - 1]);
    }
  }

  // -------------------------------------------------- clarification requests

  ghost predicate RequestsOk(items: seq<InputRequest>) {
    && |items| <= 80
    && (forall i, j :: 0 <= i < j < |items| ==> items[i].id != items[j].id)
    && (forall i, j :: 0 <= i < j < |items| ==> !(items[i].status == Pending && items[j].status == Pending))
  }

  /** Replacing keeps the list well formed when nothing else is pending, or the newcomer is not. */
  lemma ReplaceKeepsRequests(items: seq<InputRequest>, incoming: InputRequest, kept: Kept)
    requires RequestsOk(items)
    requires incoming.status == Pending ==> forall r :: r in items && r.id != incoming.id ==> r.status != Pending
    ensures RequestsOk(ReplaceById(items, incoming, kept))
  {
    var index := IndexOf(items, incoming.id);
    if index == |items| {
      AppendKeepsRequests(items, incoming);
    } else {
      UpdateKeepsRequests(items, index, Merged(items[index], incoming, kept));
    }
  }

  lemma AppendKeepsRequests(items: seq<InputRequest>, incoming: InputRequest)
    requires RequestsOk(items)
    requires forall i :: 0 <= i < |items| ==> items[i].id != incoming.id
    requires incoming.status == Pending ==> forall r :: r in items && r.id != incoming.id ==> r.status != Pending
    ensures RequestsOk(LastN(items + [incoming], 80))
  {
  }

  lemma UpdateKeepsRequests(items: seq<InputRequest>, index: nat, incoming: InputRequest)
    requires RequestsOk(items) && index < |items| && items[index].id == incoming.id
    requires incoming.status == Pending ==> forall r :: r in items && r.id != incoming.id ==> r.status != Pending
    ensures RequestsOk(items[index := incoming])
  {
  }

  lemma ResolveKeepsRequests(items: seq<InputRequest>, exceptId: Option<string>, status: RequestStatus, at: int,
                             keepEarlier: bool)
    requires RequestsOk(items) && status != Pending
    ensures var r := ResolvePending(items, exceptId, status, at, keepEarlier);
            RequestsOk(r) && forall x :: x in r && Some(x.id) != exceptId ==> x.status != Pending
  {
  }

  lemma EventKeepsRequests(state: RunPresentation, e: DomainEvent)
    requires RequestsOk(state.inputRequests)
    ensures RequestsOk(NextRequests(state, e))
  {
    var items := state.inputRequests;
    match e.body {
      case InputRequested(id, _) =>
        ResolveKeepsRequests(items, Some(id), Expired, e.seqNo, false);
        ReplaceKeepsRequests(ResolvePending(items, Some(id), Expired, e.seqNo, false), RequestFromEvent(e),
                             Kept(true, true));
      case RunCancelled => ResolveKeepsRequests(items, None, RequestCancelled, e.seqNo, false);
      case _ =>
    }
  }

  lemma SnapshotKeepsRequests(state: RunPresentation, pending: Option<InputRequest>)
    requires RequestsOk(state.inputRequests)
    ensures RequestsOk(ReconcileInputRequestSnapshot(state, pending).inputRequests)
  {
    var items := state.inputRequests;
    if pending.Some? && pending.value.runId == state.runId {
      var others := ResolvePending(items, Some(pending.value.id), Expired, state.lastSeq, true);
      ResolveKeepsRequests(items, Some(pending.value.id), Expired, state.lastSeq, true);
      var previous := Find(items, pending.value.id);
      var incoming := pending.value.(requestedSeq := if previous.Some? then previous.value.requestedSeq else None);
      ReplaceKeepsRequests(others, incoming, Kept(false, true));
    } else {
      ResolveKeepsRequests(items, None, Expired, state.lastSeq, true);
    }
  }

  lemma AnswerKeepsRequests(state: RunPresentation, response: AnswerResponse)
    requires RequestsOk(state.inputRequests) && response.request.status == Answered
    ensures RequestsOk(ReconcileInputAnswer(state, response).inputRequests)
  {
    var r := ReconcileInputAnswer(state, response);
    if r.inputRequests != state.inputRequests {
      var previous := Find(state.inputRequests, response.request.id);
      var answered := response.request.(
        requestedSeq := if previous.Some? then previous.value.requestedSeq else None,
        resolvedSeq := Or(if previous.Some? then previous.value.resolvedSeq else None, Some(state.lastSeq)),
        answerMessageId := Some(response.messageId));
      ReplaceKeepsRequests(state.inputRequests, answered, Kept(false, false));
    }
  }

  lemma ActionKeepsRequests(state: RunPresentation, a: Action)
    requires RequestsOk(state.inputRequests) && ValidAction(a)
    ensures RequestsOk(Apply(state, a).inputRequests)
  {
    match a {
      case Event(e) => EventKeepsRequests(state, e);
      case AnswerPosted(response) => AnswerKeepsRequests(state, response);
      case SnapshotRead(pending) => SnapshotKeepsRequests(state, pending);
      case Stopped => ResolveKeepsRequests(state.inputRequests, None, RequestCancelled, state.lastSeq, false);
    }
  }

  /** A created presentation is where all the properties of runs start from. */
  lemma CreatedIsOk(runId: string, status: RunStatus, lastSeq: nat, phase: string, updatedAt: Option<string>,
                    pending: Option<InputRequest>)
    ensures var r := CreateRunPresentation(runId, status, lastSeq, phase, updatedAt, pending);
            && RequestsOk(r.inputRequests) && AtMostOneWorking(r.stages) && r.worklog == [] && r.activeMessage == None
            && r.runId == runId && r.status == status && r.lastSeq == lastSeq
            && (forall q :: q in r.inputRequests <==> pending == Some(q))
            && forall i :: 0 <= i < 4 ==>
                 r.stages[i] == match PhaseStage(phase)
                                case None => if phase == "ready" && i < 3 then StageActivity(StageCompleted, updatedAt)
                                             else IDLE
                                case Some(stage) =>
                                  if i < StageIndex(stage) then StageActivity(StageCompleted, updatedAt)
                                  else if i == StageIndex(stage) then StageActivity(StageWorking, updatedAt)
                                  else IDLE
  {
  }

  /** Under any interleaving of events, answer responses, snapshots and stops there is at most one open question. */
  lemma {:induction false} AtMostOneOpenQuestion(state: RunPresentation, actions: seq<Action>)
    requires RequestsOk(state.inputRequests)
    requires forall a :: a in actions ==> ValidAction(a)
    ensures RequestsOk(ApplyAll(state, actions).inputRequests)
  {
    if actions != [] {
      var last := actions[|actions| - 1];
      assert last in actions;
      AtMostOneOpenQuestion(state, actions[..|actions| - 1]);
      ActionKeepsRequests(ApplyAll(state, actions[..|actions| - 1]), last);
    }
  }

  // -------------------------------------------------------- the answer race

  /** What an answer response may touch: one request and, while it is still open, the run status. */
  lemma AnswerPostIsLocal(state: RunPresentation, response: AnswerResponse)
    requires RequestsOk(state.inputRequests)
    ensures var r := ReconcileInputAnswer(state, response);
            && r.(status := state.status, inputRequests := state.inputRequests) == state
            && (r.status != state.status ==>
                exists q :: q in state.inputRequests && q.id == response.request.id && q.status == Pending)
            && (forall q :: q in state.inputRequests && q.id != response.request.id && |state.inputRequests| < 80 ==>
                q in r.inputRequests)
  {
    var r := ReconcileInputAnswer(state, response);
    forall q | q in state.inputRequests && q.id != response.request.id && |state.inputRequests| < 80
      ensures q in r.inputRequests
    {
      var k :| 0 <= k < |state.inputRequests| && state.inputRequests[k] == q;
      if response.runId == state.runId == response.request.runId {
        assert r.inputRequests[k] == q;
      }
    }
  }

  /**
   The POST response and the `run.input_answered` event may arrive in either order.
   Both orders resolve the request in place, at the event's number; the two results
   differ at most in the run status, the answer time and the message id, and agree
   completely exactly when the three sources of those agree.
   */
  lemma AnswerRaceConfluence(state: RunPresentation, response: AnswerResponse, e: DomainEvent, i: nat)
    requires RequestsOk(state.inputRequests)
    requires i < |state.inputRequests| && state.inputRequests[i].status == Pending
    requires response.runId == state.runId == response.request.runId && response.request.status == Answered
    requires response.request.id == state.inputRequests[i].id
    requires Accepts(state, e) && e.runId == state.runId
    requires e.body.InputAnswered? && e.body.answeredId == response.request.id
    ensures var postFirst := Reduce(ReconcileInputAnswer(state, response), e);
            var eventFirst := ReconcileInputAnswer(Reduce(state, e), response);
            && |postFirst.inputRequests| == |eventFirst.inputRequests| == |state.inputRequests|
            && (forall j :: 0 <= j < |state.inputRequests| && j != i ==>
                              postFirst.inputRequests[j] == eventFirst.inputRequests[j] == state.inputRequests[j])
            && var p, q := postFirst.inputRequests[i], eventFirst.inputRequests[i];
            && p.id == q.id == response.request.id && p.body == q.body == response.request.body
            && p.status == q.status == Answered
            && p.requestedSeq == q.requestedSeq == state.inputRequests[i].requestedSeq
            && p.resolvedSeq == q.resolvedSeq == Some(e.seqNo)
            && postFirst.lastSeq == eventFirst.lastSeq == e.seqNo
            && postFirst.status == response.runStatus && eventFirst.status == state.status
            && (p.answerMessageId == q.answerMessageId <==>
                e.body.messageId == "" || e.body.messageId == response.messageId)
            && (postFirst == eventFirst <==>
                && response.runStatus == state.status
                && response.request.answeredAt == Some(e.occurredAt)
                && (e.body.messageId == "" || e.body.messageId == response.messageId))
  {
    PostThenEvent(state, response, e, i);
    EventThenPost(state, response, e, i);
    var postFirst := Reduce(ReconcileInputAnswer(state, response), e);
    var eventFirst := ReconcileInputAnswer(Reduce(state, e), response);
    if postFirst.inputRequests[i] == eventFirst.inputRequests[i] {
      assert postFirst.inputRequests == eventFirst.inputRequests;
    }
  }

  lemma PostThenEvent(state: RunPresentation, response: AnswerResponse, e: DomainEvent, i: nat)
    requires RequestsOk(state.inputRequests)
    requires i < |state.inputRequests| && state.inputRequests[i].status == Pending
    requires response.runId == state.runId == response.request.runId
    requires response.request.id == state.inputRequests[i].id
    requires Accepts(state, e) && e.runId == state.runId
    requires e.body.InputAnswered? && e.body.answeredId == response.request.id
    ensures var r := Reduce(ReconcileInputAnswer(state, response), e);
            r == state.(status := response.runStatus, lastSeq := e.seqNo, disconnected := false,
            inputRequests := state.inputRequests[i := response.request.(
              status := Answered, answeredAt := Some(e.occurredAt),
              requestedSeq := state.inputRequests[i].requestedSeq, resolvedSeq := Some(e.seqNo),
              answerMessageId := Some(if e.body.messageId != "" then e.body.messageId else response.messageId))])
  {
    IndexIsUnique(state.inputRequests, i);
    var posted := ReconcileInputAnswer(state, response);
    assert posted.inputRequests == state.inputRequests[i := posted.inputRequests[i]];
    OnlyOneMatches(posted.inputRequests, i, e);
  }

  lemma EventThenPost(state: RunPresentation, response: AnswerResponse, e: DomainEvent, i: nat)
    requires RequestsOk(state.inputRequests)
    requires i < |state.inputRequests|
    requires response.runId == state.runId == response.request.runId
    requires response.request.id == state.inputRequests[i].id
    requires Accepts(state, e) && e.runId == state.runId
    requires e.body.InputAnswered? && e.body.answeredId == response.request.id
    ensures var r := ReconcileInputAnswer(Reduce(state, e), response);
            r == state.(lastSeq := e.seqNo, disconnected := false,
            inputRequests := state.inputRequests[i := response.request.(
              requestedSeq := state.inputRequests[i].requestedSeq, resolvedSeq := Some(e.seqNo),
              answerMessageId := Some(response.messageId))])
  {
    OnlyOneMatches(state.inputRequests, i, e);
    var evented := Reduce(state, e);
    IndexIsUnique(evented.inputRequests, i);
  }

  /** With distinct ids an answer event rewrites the one request it names. */
  lemma OnlyOneMatches(items: seq<InputRequest>, i: nat, e: DomainEvent)
    requires i < |items| && e.body.InputAnswered? && e.body.answeredId == items[i].id
    requires forall j, k :: 0 <= j < k < |items| ==> items[j].id != items[k].id
    ensures AnswerMatching(items, e.body.answeredId, e.body.messageId, e.occurredAt, e.seqNo) ==
            items[i := items[i].(status := Answered, answeredAt := Some(e.occurredAt), resolvedSeq := Some(e.seqNo),
                       answerMessageId := if e.body.messageId != "" then Some(e.body.messageId)
                           else items[i].answerMessageId)]
  {
  }

  lemma IndexIsUnique(items: seq<InputRequest>, i: nat)
    requires i < |items|
    requires forall j, k :: 0 <= j < k < |items| ==> items[j].id != items[k].id
    ensures IndexOf(items, items[i].id) == i
  {
  }
}
