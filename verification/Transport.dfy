/** The browser's transport object: which run to resume, and when resuming is refused. */
module Transport {
  import opened Common
  import opened Presentation

  predicate HasTerminalStatus(e: DomainEvent) {
    e.status.Some? && e.status.value in ["succeeded", "completed", "failed", "cancelled", "needs_attention"]
  }

  /** The client's test for an event after which it will not reopen the stream. */
  predicate LooksTerminal(e: DomainEvent) {
    || e.body.RunCompleted? || e.body.RunFailed? || e.body.RunCancelled?
    || HasTerminalStatus(e)
  }

  /** An event that does report the end of its run. */
  predicate EndsRun(e: DomainEvent) {
    || e.body.RunCompleted? || e.body.RunFailed? || e.body.RunCancelled?
    || (e.body.RunCreatedOrChanged? && HasTerminalStatus(e))
  }

  datatype TransportState = TransportState(active: Option<string>, terminal: set<string>)

  /** What happens to the object. A sent message starts a run, at cursor zero. */
  datatype Happening = Hydrated(run: Option<string>) | Sent(runId: string) | Received(event: DomainEvent)

  function After(s: TransportState, h: Happening): TransportState {
    match h
    case Hydrated(run) => s.(active := run)
    case Sent(runId) => TransportState(Some(runId), s.terminal - {runId})
    case Received(e) => if LooksTerminal(e) then s.(terminal := s.terminal + {e.runId}) else s
  }

  function AfterAll(hs: seq<Happening>): TransportState {
    if hs == [] then TransportState(None, {}) else After(AfterAll(hs[..|hs| - 1]), hs[|hs| - 1])
  }

  function Receipts(events: seq<DomainEvent>): (hs: seq<Happening>)
    ensures |hs| == |events|
  {
    seq(|events|, i requires 0 <= i < |events| => Received(events[i]))
  }

  class AgentEventTransport {
    var activeRunId: Option<string>
    var terminalRunIds: set<string>
    /** Everything that happened to this object so far. */
    ghost var history: seq<Happening>

    ghost predicate Valid()
      reads this
    {
      TransportState(activeRunId, terminalRunIds) == AfterAll(history)
    }

    constructor ()
      ensures Valid() && history == [] && activeRunId == None && terminalRunIds == {}
    {
      activeRunId, terminalRunIds, history := None, {}, [];
    }

    method Hydrate(run: Option<string>)
      requires Valid()
      modifies this
      ensures Valid() && history == old(history) + [Hydrated(run)]
      ensures activeRunId == run && terminalRunIds == old(terminalRunIds)
    {
      activeRunId := run;
      history := history + [Hydrated(run)];
    }

    /** Returns the cursor the new run's stream is opened from. */
    method SendMessages(startedRun: string) returns (after: int)
      requires Valid()
      modifies this
      ensures Valid() && history == old(history) + [Sent(startedRun)] && after == 0
      ensures activeRunId == Some(startedRun) && terminalRunIds == old(terminalRunIds) - {startedRun}
    {
      activeRunId := Some(startedRun);
      terminalRunIds := terminalRunIds - {startedRun};
      history := history + [Sent(startedRun)];
      after := 0;
    }

    /** The run and cursor to reopen, or nothing when there is no run or it looked finished. */
    method ReconnectToStream(lastSeq: int) returns (target: Option<(string, int)>)
      requires Valid()
      ensures target.Some? <==>
              activeRunId.Some? && activeRunId.value != "" && activeRunId.value !in AfterAll(history).terminal
      ensures target.Some? ==> target.value == (activeRunId.value, lastSeq)
    {
      if activeRunId.None? || activeRunId.value == "" || activeRunId.value in terminalRunIds {
        return None;
      }
      target := Some((activeRunId.value, lastSeq));
    }

    /** The callback loop of `open`: hand every parsed event on, in order, and remember terminal ones. */
    method Consume(events: seq<DomainEvent>) returns (handed: seq<DomainEvent>, reachedTerminalState: bool)
      requires Valid()
      modifies this
      ensures Valid() && history == old(history) + Receipts(events) && activeRunId == old(activeRunId)
      ensures handed == events
      ensures reachedTerminalState <==> exists i :: 0 <= i < |events| && LooksTerminal(events[i])
      ensures forall r :: r in terminalRunIds <==>
                            r in old(terminalRunIds) || exists i ::
                                0 <= i < |events| && LooksTerminal(events[i]) && events[i].runId == r
    {
      handed, reachedTerminalState := [], false;
      for k := 0 to |events|
        invariant Valid() && history == old(history) + Receipts(events[..k]) && activeRunId == old(activeRunId)
        invariant handed == events[..k]
        invariant reachedTerminalState <==> exists i :: 0 <= i < k && LooksTerminal(events[i])
        invariant forall r :: r in terminalRunIds <==>
                                r in old(terminalRunIds) || exists i ::
                                    0 <= i < k && LooksTerminal(events[i]) && events[i].runId == r
      {
        var e := events[k];
        ghost var before := history;
        if LooksTerminal(e) {
          reachedTerminalState := true;
          terminalRunIds := terminalRunIds + {e.runId};
        }
        handed := handed + [e];
        history := history + [Received(e)];
        assert history[..|history| - 1] == before;
        assert Receipts(events[..k + 1]) == Receipts(events[..k]) + [Received(e)];
      }
      assert events[..|events|] == events;
    }
  }

  /** The i-th happening is an event of the run, received after the run was last started. */
  ghost predicate SinceStart(hs: seq<Happening>, runId: string, i: nat)
    requires i < |hs|
  {
    hs[i].Received? && hs[i].event.runId == runId && forall j :: i < j < |hs| ==> hs[j] != Sent(runId)
  }

  /** Reconnecting is refused on exactly this evidence: a terminal-looking event since the last start. */
  lemma {:induction false} RefusedExactlyWhenLookedTerminal(hs: seq<Happening>, runId: string)
    ensures runId in AfterAll(hs).terminal <==>
            exists i :: 0 <= i < |hs| && SinceStart(hs, runId, i) && LooksTerminal(hs[i].event)
  {
    if hs != [] {
      var earlier, last := hs[..|hs| - 1], hs[|hs| - 1];
      RefusedExactlyWhenLookedTerminal(earlier, runId);
      forall i | 0 <= i < |earlier|
        ensures SinceStart(hs, runId, i) <==> SinceStart(earlier, runId, i) && last != Sent(runId)
      {
        assert hs[i] == earlier[i];
        assert forall j :: i < j < |earlier| ==> earlier[j] == hs[j];
      }
      assert SinceStart(hs, runId, |hs| - 1) <==> last.Received? && last.event.runId == runId;
    }
  }

  /** So a run that is still going can become impossible to resume: one failed check is enough. */
  lemma FailedCheckBlocksReconnect(runId: string, eventId: string)
    ensures var e := DomainEvent(eventId, runId, 1, "", None, Some("failed"),
                                 VerificationUpdated(true, None, VerificationFailed));
            !EndsRun(e) && runId in AfterAll([Sent(runId), Received(e)]).terminal
  {
    var e := DomainEvent(eventId, runId, 1, "", None, Some("failed"),
                         VerificationUpdated(true, None, VerificationFailed));
    var hs := [Sent(runId), Received(e)];
    assert hs[1].event == e && SinceStart(hs, runId, 1);
    RefusedExactlyWhenLookedTerminal(hs, runId);
  }

  /** The words for the end of a run, in whatever event they stand. */
  predicate SaysTheEnd(e: DomainEvent) {
    e.status in {Some("succeeded"), Some("completed"), Some("failed"), Some("cancelled"), Some("needs_attention")}
  }

  /** A run that has not ended stays resumable if and only if none of its events carried a terminal status. */
  lemma ReconnectWhileLive(hs: seq<Happening>, runId: string)
    requires forall i :: 0 <= i < |hs| && SinceStart(hs, runId, i) ==> !EndsRun(hs[i].event)
    ensures runId !in AfterAll(hs).terminal <==>
            forall i :: 0 <= i < |hs| && SinceStart(hs, runId, i) ==> !SaysTheEnd(hs[i].event)
  {
    RefusedExactlyWhenLookedTerminal(hs, runId);
  }

  /** A run whose end has been received, with a status or without, is not resumed until it starts anew. */
  lemma EndedRunIsRefused(hs: seq<Happening>, runId: string, i: nat)
    requires i < |hs| && SinceStart(hs, runId, i)
    requires var e := hs[i].event;
             e.body in {RunCompleted, RunFailed, RunCancelled} || (e.body.RunCreatedOrChanged? && SaysTheEnd(e))
    ensures runId in AfterAll(hs).terminal
  {
    RefusedExactlyWhenLookedTerminal(hs, runId);
    assert LooksTerminal(hs[i].event);
  }
}
