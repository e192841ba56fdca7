/** What a browser shows of its run's log, in every reachable state. */
module ReplayMeaning {
  import opened Common
  import opened Presentation
  import opened PresentationProofs
  import opened PresentationMeaning
  import opened WorklogMeaning
  import opened EventStream
  import opened Replay
  import opened ReplayHistory
  import opened ReplayProofs

  lemma TellsItsNumber(log: seq<DomainEvent>, runId: string, n: nat, x: WorklogItem)
    requires ValidLog(log, runId) && n <= |log| && exists k :: 0 <= k < n && Tells(x, log[k])
    ensures 1 <= x.seqNo <= n && Tells(x, log[x.seqNo - 1])
  {
    var k :| 0 <= k < n && Tells(x, log[k]);
    assert log[k].seqNo == k + 1;
  }

  /**
   Whatever the steps of a run, and whatever answers, snapshots and stops came between: a stage is at work in the
   browser exactly when the last event up to its cursor that moved the stages started it; every worklog item shows the
   event of its number; and deltas add to the message that the log leaves open.
   */
  lemma ClientShowsTheLog(s: State, steps: seq<Step>, i: nat)
    requires Initial(s) && Runs(s, steps) && s.client.worklog == [] && s.client.activeMessage == None && i < 4
    ensures var t := Final(s, steps);
            && 0 <= t.client.lastSeq <= |t.log|
            && var shown := t.log[..t.client.lastSeq];
            && StageFits(shown, s.client.stages[i], t.client.stages[i], i)
            && (forall x :: x in t.client.worklog ==> 1 <= x.seqNo <= |shown| && Tells(x, shown[x.seqNo - 1]))
            && MessageFits(shown, t.client.activeMessage)
  {
    assert s.log[..0] == [];
    RunKeepsConsistent(s, s.client, steps);
    var t := Final(s, steps);
    var shown := t.log[..t.client.lastSeq];
    assert SameReplay(t.client, ReduceAll(s.client, shown));
    LogIsTaken(s.client, t.log, t.runId, t.client.lastSeq);
    StagesOfReplay(s.client, shown, i);
    WorklogOfReplay(s.client, shown);
    MessageOfReplay(s.client, shown);
    assert ValidLog(shown, t.runId);
    forall x | x in t.client.worklog ensures 1 <= x.seqNo <= |shown| && Tells(x, shown[x.seqNo - 1]) {
      assert exists k :: 0 <= k < |shown| && Tells(x, shown[k]);
      TellsItsNumber(shown, t.runId, |shown|, x);
    }
  }

  /** While only streams touch the browser, so are its run status and its open question. */
  lemma StreamedClientShowsTheLog(s: State, steps: seq<Step>, id: string)
    requires Initial(s) && Runs(s, steps) && RequestsOk(s.client.inputRequests)
    requires forall k :: 0 <= k < |steps| ==> !Intervenes(steps[k])
    ensures var t := Final(s, steps);
            && 0 <= t.client.lastSeq <= |t.log|
            && var shown := t.log[..t.client.lastSeq];
            && StatusFits(shown, s.client.status, t.client.status)
            && OpenFits(shown, IsOpen(s.client.inputRequests, id), IsOpen(t.client.inputRequests, id), id)
  {
    assert s.log[..0] == [];
    RunKeepsConsistent(s, s.client, steps);
    StreamedClientIsTheFold(s, steps);
    var t := Final(s, steps);
    var shown := t.log[..t.client.lastSeq];
    LogIsTaken(s.client, t.log, t.runId, t.client.lastSeq);
    StatusOfReplay(s.client, shown);
    OpenQuestionOfReplay(s.client, shown, id);
  }

  /** A browser that has the whole log of a completed run shows it completed. */
  lemma CompletedRunShowsCompleted(s: State, steps: seq<Step>, k: nat)
    requires Initial(s) && Runs(s, steps) && RequestsOk(s.client.inputRequests)
    requires forall j :: 0 <= j < |steps| ==> !Intervenes(steps[j])
    requires var t := Final(s, steps);
             t.client.lastSeq == |t.log| && LastWhere(t.log, SaysStatus, k) && t.log[k].body.RunCompleted?
    ensures Final(s, steps).client.status == Completed
  {
    StreamedClientShowsTheLog(s, steps, "");
    var t := Final(s, steps);
    assert t.log[..|t.log|] == t.log;
  }

  /** Right after a snapshot the browser's open question is the server's, in every reachable state. */
  lemma SnapshotSettlesQuestions(s: State, steps: seq<Step>, visible: nat, snapshotSeq: nat,
                                 pending: Option<InputRequest>, id: string)
    requires Initial(s) && Runs(s, steps)
    requires RequestsOk(s.client.inputRequests) && AtMostOneWorking(s.client.stages) && s.client.worklog == []
    requires Enabled(Final(s, steps), ReadSnapshot(visible, snapshotSeq, pending)) && visible > 0
    ensures var t := Final(s, steps);
            var u := Do(t, ReadSnapshot(visible, snapshotSeq, pending));
            && u.client.lastSeq == Max(t.client.lastSeq, visible)
            && (IsOpen(u.client.inputRequests, id) <==>
                  pending.Some? && pending.value.runId == s.runId && pending.value.id == id
                  && pending.value.status == Pending)
  {
    assert s.log[..0] == [];
    RunKeepsConsistent(s, s.client, steps);
    SameRun(s, steps);
    ReachableClientIsOk(s, steps);
    var t := Final(s, steps);
    ReplayPrefix(t, s.client, visible);
    var replayed := ReduceAll(t.client, t.log[..visible]);
    OpenQuestionOfReplay(t.client, t.log[..visible], id);
    FoldReachesPrefix(s.client, t.log, t.runId, replayed.lastSeq);
    SnapshotOpens(replayed, pending, id);
  }

  lemma {:induction false} SameRun(s: State, steps: seq<Step>)
    requires Runs(s, steps)
    ensures Final(s, steps).runId == s.runId
    decreases |steps|
  {
    if steps != [] {
      SameRun(Do(s, steps[0]), steps[1..]);
    }
  }

  lemma SnapshotOpens(state: RunPresentation, pending: Option<InputRequest>, id: string)
    requires RequestsOk(state.inputRequests)
    ensures IsOpen(ReconcileInputRequestSnapshot(state, pending).inputRequests, id) <==>
            pending.Some? && pending.value.runId == state.runId && pending.value.id == id
            && pending.value.status == Pending
  {
    var now := ReconcileInputRequestSnapshot(state, pending).inputRequests;
    if pending.Some? && pending.value.runId == state.runId {
      var x := SnapshotNamesTheOpenQuestion(state, pending.value);
    } else {
      forall q | q in now ensures q.status != Pending {
        var i :| 0 <= i < |now| && now[i] == q;
        SnapshotWithoutQuestion(state, pending, i);
      }
    }
  }
}
