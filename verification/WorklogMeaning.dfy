/** What the worklog of a replay shows of its events, and which message its deltas belong to. */
module WorklogMeaning {
  import opened Common
  import opened Presentation
  import opened PresentationProofs
  import opened PresentationMeaning

  const GOAL_STATUS: map<GoalEvent, WorklogStatus> := map[
    GraphCreated := ItemCompleted, GoalActivated := ItemRunning, GoalClaimed := ItemCompleted,
    GoalVerificationFailed := ItemFailed, GoalResumeScheduled := ItemInfo, GoalResumed := ItemRunning,
    GoalVerified := ItemCompleted, GoalEvent.GoalFailed := ItemFailed, GraphCompleted := ItemCompleted,
    GraphVerified := ItemCompleted, GraphFailed := ItemFailed, GraphCancelled := ItemInfo,
    GraphSuperseded := ItemInfo]

  predicate Named(x: WorklogItem, prefix: string, name: Option<string>, e: DomainEvent) {
    x.id == prefix + if name.Some? then name.value else e.eventId
  }

  function StageLabel(stage: Option<Stage>): string {
    if stage == None then "turn"
    else ["planning", "building", "verifying", "repairing"][StageIndex(stage.value)]
  }

  /** A system item: the failure of the run, the agent's life, or one of its activities. */
  predicate TellsSystem(x: WorklogItem, e: DomainEvent) {
    || (e.body.RunFailed? && x.id == "system:run:failure" && x.status == ItemFailed)
    || (e.body == PiLifecycle(Broken) && x.id == "system:pi:failure" && x.status == ItemFailed)
    || (e.body == PiLifecycle(Started) && x.id == "system:pi:" + StageLabel(e.stage) && x.status == ItemRunning)
    || (e.body == PiLifecycle(Ended) && x.id == "system:pi:" + StageLabel(e.stage) && x.status == ItemCompleted)
    || (e.body.PiActivity? && TellsActivity(x, e))
  }

  predicate TellsActivity(x: WorklogItem, e: DomainEvent)
    requires e.body.PiActivity?
  {
    var front, a := "system:" + StageLabel(e.stage) + ":", e.body.activity;
    || (a.CompactionStart? && x.id == front + "compaction" && x.status == ItemRunning)
    || (a.CompactionEnd? && x.id == front + "compaction" && x.status == ItemCompleted)
    || (a.RetryStart? && x.status == ItemRunning && x.id == front + ("retry:" + TextOr(e.body.attempt, "current")))
    || (a.RetryEnd? && x.status == (if a.success then ItemCompleted else ItemFailed)
        && x.id == front + ("retry:" + TextOr(e.body.attempt, "current")))
    || (a.ExtensionError? && x.id == front + "extension_error" && x.status == ItemFailed)
  }

  /** The item shows this event: what kind of thing happened, to what, and how it stands. */
  predicate Tells(x: WorklogItem, e: DomainEvent) {
    x.seqNo == e.seqNo &&
    match x.kind
    case Progress =>
      || (e.body.MessageDelta? && x.status == ItemRunning)
      || (e.body.MessageCompleted? && e.body.fromAssistant && x.status == ItemCompleted)
    case Tool =>
      || (e.body.ToolStarted? && Named(x, "tool:", e.body.callId, e) && x.status == ItemRunning)
      || (e.body.ToolCompleted? && Named(x, "tool:", e.body.endedCallId, e)
          && (x.status == ItemFailed <==> e.body.isError) && (x.status == ItemCompleted <==> !e.body.isError))
    case File => e.body.FileChanged? && Named(x, "file:", e.body.fileId, e) && x.status == ItemCompleted
    case Verification =>
      && e.body.VerificationUpdated? && e.body.projectScope && Named(x, "verification:", e.body.verificationId, e)
      && (x.status == ItemRunning <==> e.body.verdict == VerificationRunning)
      && (x.status == ItemFailed <==> e.body.verdict == VerificationStatus.VerificationFailed)
      && (x.status == ItemCompleted <==> e.body.verdict in {Passed, Skipped})
    case Goal =>
      && e.body.GoalUpdated? && e.body.change in GOAL_STATUS && x.status == GOAL_STATUS[e.body.change]
      && (e.body.goalId != "" ==> x.id == "goal:" + e.body.goalId)
    case System => TellsSystem(x, e)
  }

  /** The event has something to show. */
  predicate Speaks(state: RunPresentation, e: DomainEvent) {
    || e.body.MessageDelta? || e.body.ToolStarted? || e.body.ToolCompleted? || e.body.FileChanged?
    || e.body.GoalUpdated? || e.body.RunFailed? || e.body.PiLifecycle?
    || (e.body.MessageCompleted? && e.body.fromAssistant && (state.activeMessage.Some? || e.body.hasText))
    || (e.body.VerificationUpdated? && e.body.projectScope)
    || (e.body.PiActivity? && !e.body.activity.UnknownActivity?)
  }

  lemma GoalStatusIs(change: GoalEvent)
    ensures change in GOAL_STATUS && GoalItemStatus(change) == GOAL_STATUS[change]
  {
  }

  lemma StageLabelIs(stage: Option<Stage>)
    ensures StageLabel(stage) == StageName(stage)
  {
  }

  lemma SystemItemTells(state: RunPresentation, e: DomainEvent)
    requires e.body.RunFailed? || e.body.PiLifecycle? || e.body.PiActivity?
    ensures AddedItem(state, e).Some? <==> Speaks(state, e)
    ensures AddedItem(state, e).Some? ==>
              AddedItem(state, e).value.kind == System && Tells(AddedItem(state, e).value, e)
  {
    StageLabelIs(e.stage);
  }

  lemma AddedItemTells(state: RunPresentation, e: DomainEvent)
    ensures AddedItem(state, e).Some? <==> Speaks(state, e)
    ensures AddedItem(state, e).Some? ==> Tells(AddedItem(state, e).value, e)
  {
    match e.body {
      case GoalUpdated(change, _, _) => GoalStatusIs(change);
      case RunFailed | PiLifecycle(_) | PiActivity(_, _) => SystemItemTells(state, e);
      case _ =>
    }
  }

  lemma LastOfUpsert(items: seq<WorklogItem>, x: WorklogItem)
    ensures var r := UpsertWorklog(items, x); r != [] && r[|r| - 1] == x
    ensures forall y :: y in UpsertWorklog(items, x) ==> y == x || y in items
  {
    WithoutMembers(items, x.id);
    var all := MoveToEnd(items, x);
    forall y | y in UpsertWorklog(items, x) ensures y == x || y in items {
      assert y in all;
    }
  }

  /** An accepted event with something to show is the newest item of the worklog; any other changes nothing there. */
  lemma EventShows(state: RunPresentation, e: DomainEvent)
    requires Accepts(state, e)
    ensures var r := Reduce(state, e);
            if Speaks(state, e) then
              && r.worklog != [] && Tells(r.worklog[|r.worklog| - 1], e)
              && (e.body.GoalUpdated? && e.body.goalId == "" ==>
                    r.worklog[|r.worklog| - 1].id == "goal:" + TextOr(r.graphId, "graph"))
            else r.worklog == state.worklog
  {
    AddedItemTells(state, e);
    if Speaks(state, e) {
      LastOfUpsert(state.worklog, AddedItem(state, e).value);
    }
  }

  /** The stage an item was first filed under, or else the event's. */
  predicate FiledUnder(was: seq<WorklogItem>, x: WorklogItem, e: DomainEvent) {
    && (forall y :: y in was && y.id == x.id ==> x.stage == if y.stage.Some? then y.stage else e.stage)
    && ((forall y :: y in was ==> y.id != x.id) ==> x.stage == e.stage)
  }

  lemma {:induction false} FoundStage(items: seq<WorklogItem>, id: string)
    requires DistinctIds(items)
    ensures forall y :: y in items && y.id == id ==> FindStage(items, id) == y.stage
    ensures (forall y :: y in items ==> y.id != id) ==> FindStage(items, id) == None
  {
    if items != [] {
      TailShape(items);
      FoundStage(items[1..], id);
      assert items == [items[0]] + items[1..];
    }
  }

  /** Messages and tool calls keep the stage they began in; everything else has that of its event. */
  lemma EventFiles(state: RunPresentation, e: DomainEvent)
    requires Accepts(state, e) && Speaks(state, e) && DistinctIds(state.worklog)
    ensures var r := Reduce(state, e).worklog;
            && r != []
            && var x := r[|r| - 1];
            && if x.kind == Tool || e.body.MessageDelta? || (e.body.MessageCompleted? && state.activeMessage.Some?)
               then FiledUnder(state.worklog, x, e)
               else x.stage == e.stage
  {
    AddedItemTells(state, e);
    var x := AddedItem(state, e).value;
    LastOfUpsert(state.worklog, x);
    FoundStage(state.worklog, x.id);
  }

  /** Every item of a replay's worklog shows the event of its number, which is one of those that count. */
  ghost predicate ShowsTaken(worklog: seq<WorklogItem>, taken: seq<DomainEvent>) {
    forall x :: x in worklog ==> exists k :: 0 <= k < |taken| && Tells(x, taken[k])
  }

  lemma ShowsTakenNext(was: seq<WorklogItem>, now: seq<WorklogItem>, taken: seq<DomainEvent>, e: DomainEvent)
    requires ShowsTaken(was, taken) && forall x :: x in now ==> x in was || Tells(x, e)
    ensures ShowsTaken(now, taken + [e])
  {
    forall x | x in now ensures exists k :: 0 <= k < |taken + [e]| && Tells(x, (taken + [e])[k]) {
      if x in was {
        var k :| 0 <= k < |taken| && Tells(x, taken[k]);
        assert Tells(x, (taken + [e])[k]);
      } else {
        assert Tells(x, (taken + [e])[|taken|]);
      }
    }
  }

  lemma {:induction false} WorklogOfReplay(state: RunPresentation, events: seq<DomainEvent>)
    requires state.worklog == []
    ensures ShowsTaken(ReduceAll(state, events).worklog, Taken(state, events))
  {
    if events != [] {
      var earlier, e := events[..|events| - 1], events[|events| - 1];
      WorklogOfReplay(state, earlier);
      var before := ReduceAll(state, earlier);
      if Accepts(before, e) {
        AddedItemTells(before, e);
        if Speaks(before, e) {
          LastOfUpsert(before.worklog, AddedItem(before, e).value);
        }
        ShowsTakenNext(before.worklog, Reduce(before, e).worklog, Taken(state, earlier), e);
      }
    }
  }

  // ---------------------------------------------------------------- messages

  predicate IsDelta(e: DomainEvent) {
    e.body.MessageDelta?
  }

  /** The event ends the message that deltas were adding to. */
  predicate Closes(e: DomainEvent) {
    || (e.body.MessageCompleted? && e.body.fromAssistant)
    || e.body.RunFailed? || e.body == PiLifecycle(Broken)
  }

  /** The event is the first delta since a message was last closed. */
  ghost predicate OpensMessage(taken: seq<DomainEvent>, f: int) {
    && 0 <= f < |taken| && IsDelta(taken[f])
    && forall j :: 0 <= j < f && IsDelta(taken[j]) ==> exists c :: j < c < f && Closes(taken[c])
  }

  /** The message that is open: named after the delta that opened it, which nothing has closed since. */
  ghost predicate MessageFits(taken: seq<DomainEvent>, active: Option<string>) {
    if active.Some? then
      exists f :: OpensMessage(taken, f) && (forall c :: f < c < |taken| ==> !Closes(taken[c]))
                  && active.value == "progress:" + taken[f].eventId
    else forall j :: 0 <= j < |taken| && IsDelta(taken[j]) ==> exists c :: j < c < |taken| && Closes(taken[c])
  }

  lemma EventMovesMessage(state: RunPresentation, e: DomainEvent)
    requires Accepts(state, e)
    ensures var next := Reduce(state, e).activeMessage;
            && (Closes(e) ==> next == None)
            && (IsDelta(e) ==>
                  next == if state.activeMessage.Some? then state.activeMessage else Some("progress:" + e.eventId))
            && (!Closes(e) && !IsDelta(e) ==> next == state.activeMessage)
  {
  }

  lemma MessageFitsNext(taken: seq<DomainEvent>, active: Option<string>, e: DomainEvent, next: Option<string>)
    requires MessageFits(taken, active)
    requires Closes(e) ==> next == None
    requires IsDelta(e) ==> next == if active.Some? then active else Some("progress:" + e.eventId)
    requires !Closes(e) && !IsDelta(e) ==> next == active
    ensures MessageFits(taken + [e], next)
  {
    var all := taken + [e];
    assert all[|taken|] == e;
    assert forall j :: 0 <= j < |taken| ==> all[j] == taken[j];
    if active.Some? && next.Some? {
      var f :| OpensMessage(taken, f) && (forall c :: f < c < |taken| ==> !Closes(taken[c]))
               && active.value == "progress:" + taken[f].eventId;
      StillOpens(taken, e, f);
    } else if next.Some? {
      forall j | 0 <= j < |taken| && IsDelta(all[j]) ensures exists c :: j < c < |taken| && Closes(all[c]) {
        assert IsDelta(taken[j]);
        var c :| j < c < |taken| && Closes(taken[c]);
        assert Closes(all[c]);
      }
      assert OpensMessage(all, |taken|);
    } else {
      forall j | 0 <= j < |all| && IsDelta(all[j]) ensures exists c :: j < c < |all| && Closes(all[c]) {
        if Closes(e) {
          assert Closes(all[|taken|]);
        } else {
          assert IsDelta(taken[j]);
          var c :| j < c < |taken| && Closes(taken[c]);
          assert Closes(all[c]);
        }
      }
    }
  }

  lemma StillOpens(taken: seq<DomainEvent>, e: DomainEvent, f: int)
    requires OpensMessage(taken, f)
    ensures OpensMessage(taken + [e], f)
  {
    var all := taken + [e];
    forall j | 0 <= j < f && IsDelta(all[j]) ensures exists c :: j < c < f && Closes(all[c]) {
      assert IsDelta(taken[j]);
      var c :| j < c < f && Closes(taken[c]);
      assert Closes(all[c]);
    }
  }

  /** Over every replay, all deltas between two closings add to one message, named after the first of them. */
  lemma {:induction false} MessageOfReplay(state: RunPresentation, events: seq<DomainEvent>)
    requires state.activeMessage == None
    ensures MessageFits(Taken(state, events), ReduceAll(state, events).activeMessage)
  {
    if events != [] {
      var earlier, e := events[..|events| - 1], events[|events| - 1];
      MessageOfReplay(state, earlier);
      var before := ReduceAll(state, earlier);
      if Accepts(before, e) {
        EventMovesMessage(before, e);
        MessageFitsNext(Taken(state, earlier), before.activeMessage, e, Reduce(before, e).activeMessage);
      }
    }
  }

  /** A delta shows as the open message; its completion, as the message that was open or as one of its own. */
  lemma MessageShows(state: RunPresentation, e: DomainEvent)
    requires Accepts(state, e) && Speaks(state, e) && (IsDelta(e) || e.body.MessageCompleted?)
    ensures var r := Reduce(state, e);
            && r.worklog != []
            && var x := r.worklog[|r.worklog| - 1];
            && x.kind == Progress && (IsDelta(e) ==> r.activeMessage == Some(x.id))
            && (!IsDelta(e) ==> x.id == TextOr(state.activeMessage, "progress:" + e.eventId))
  {
    LastOfUpsert(state.worklog, AddedItem(state, e).value);
  }
}
