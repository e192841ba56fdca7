/** Which error a refused trace is refused with: that of its first event which does not go on from the grammar. */
module StructuredFaults {
  import opened Common
  import opened StructuredOutput

  function ToolOf(e: BridgeEvent): Option<string>
    requires !e.Other?
  {
    match e case ToolStart(tool, _, _) => tool case ToolOutput(tool, _) => tool case ToolEnd(tool, _, _) => tool
  }

  function IdOf(e: BridgeEvent): Option<string>
    requires !e.Other?
  {
    match e case ToolStart(_, id, _) => id case ToolOutput(_, id) => id case ToolEnd(_, id, _) => id
  }

  /** After a trace of this shape a start can not follow, for this reason. */
  ghost predicate BadStart(shape: Shape, id: Option<string>, args: Option<Arguments>, error: SessionError) {
    if shape.Succeeded? then error == ContinuedAfterSuccess
    else if id == None || id == Some("") || (exists a :: a in AttemptsOf(shape) && id == Some(a.id)) then
      error == InvalidStart
    else if shape.Open? then error == ConcurrentAttempt
    else args == None && error == InvalidArguments
  }

  /** After a trace of this shape the event can not follow, for this reason. */
  ghost predicate Fault(shape: Shape, e: BridgeEvent, error: SessionError) {
    !e.Other? &&
    if ToolOf(e) != Some("submit_structured_output") then error == NativeToolUsed
    else if e.ToolStart? then BadStart(shape, e.startId, e.args, error)
    else if !shape.Open? || IdOf(e) != Some(shape.current.id) then error == UnmatchedProgress
    else e.ToolEnd? && e.isError == None && error == MissingErrorStatus
  }

  /** A trace of this shape is no answer, for this reason. */
  ghost predicate NoAnswer(shape: Shape, error: SessionError) {
    match shape
    case Open(_, _) => error == SessionError.Incomplete
    case Between(_) => error == NeverSucceeded
    case Succeeded(_, last) => last.args.json == None && error == NotJson
  }

  lemma IdsAre(attempts: seq<Attempt>, id: string)
    ensures id in SetOf(IdsOf(attempts)) <==> exists a :: a in attempts && a.id == id
  {
    if a :| a in attempts && a.id == id {
      var i :| 0 <= i < |attempts| && attempts[i] == a;
      assert IdsOf(attempts)[i] == id;
    }
    if id in IdsOf(attempts) {
      var i :| 0 <= i < |attempts| && IdsOf(attempts)[i] == id;
      assert attempts[i] in attempts;
    }
  }

  /** A scan that stands where the shape does refuses an event exactly for its fault. */
  lemma StepRefuses(s: Scan, shape: Shape, e: BridgeEvent, error: SessionError)
    requires Matches(s, shape)
    ensures Step(s, e) == Err(error) <==> Fault(shape, e, error)
  {
    match e {
      case ToolStart(tool, id, args) =>
        if id.Some? {
          IdsAre(AttemptsOf(shape), id.value);
        }
        if shape.Open? {
          assert shape.current.id in s.active;
        }
      case ToolOutput(_, id) => ActiveIs(s, shape, id);
      case ToolEnd(_, id, _) => ActiveIs(s, shape, id);
      case Other =>
    }
  }

  lemma ActiveIs(s: Scan, shape: Shape, id: Option<string>)
    requires Matches(s, shape)
    ensures (id.Some? && id.value in s.active) <==> shape.Open? && id == Some(shape.current.id)
    ensures shape.Open? ==> s.successful == None
  {
  }

  lemma ScanOpen(failed: seq<Attempt>, current: Attempt)
    requires FreshIds(failed + [current])
    ensures ScanFrom(NOTHING_SEEN, FailedEvents(failed) + OpenEvents(current)) ==
            Ok(Scan(map[current.id := current.args], SetOf(IdsOf(failed)) + {current.id}, None))
  {
    AddAttempt(failed, current);
    ScanFailed(failed);
    var between := Scan(map[], SetOf(IdsOf(failed)), None);
    ScanFromAppend(NOTHING_SEEN, FailedEvents(failed), OpenEvents(current));
    var start := [ToolStart(Some(TOOL_NAME), Some(current.id), Some(current.args))];
    assert ScanFrom(between, start[..0]) == Ok(between);
    var begun := Scan(map[current.id := current.args], SetOf(IdsOf(failed)) + {current.id}, None);
    assert ScanFrom(between, start) == Ok(begun);
    ScanFromAppend(between, start, Outputs(current.id, current.outputs));
    ScanOutputs(begun, current.id, current.outputs);
  }

  /** Every trace that fits is scanned to where its shape stands. */
  lemma FittingIsScanned(events: seq<BridgeEvent>, shape: Shape)
    requires Fits(shape, events)
    ensures ScanAll(events).Ok? && Matches(ScanAll(events).value, shape)
  {
    ScanIgnoresOthers(events);
    match shape {
      case Between(failed) => ScanFailed(failed);
      case Open(failed, current) =>
        AddAttempt(failed, current);
        ScanOpen(failed, current);
      case Succeeded(failed, last) =>
        AddAttempt(failed, last);
        ScanFailed(failed);
        ScanFromAppend(NOTHING_SEEN, FailedEvents(failed), AttemptEvents(last, false));
        ScanAttempt(Scan(map[], SetOf(IdsOf(failed)), None), last, false);
    }
  }

  /** The first `n` events fit the grammar, and the next one is a fault. */
  ghost predicate FaultAt(events: seq<BridgeEvent>, n: nat, shape: Shape, error: SessionError) {
    n < |events| && Fits(shape, events[..n]) && Fault(shape, events[n], error)
  }

  lemma FaultIsRaised(events: seq<BridgeEvent>, n: nat, shape: Shape, error: SessionError)
    requires FaultAt(events, n, shape, error)
    ensures Verdict(events) == Err(error)
  {
    FittingIsScanned(events[..n], shape);
    StepRefuses(ScanAll(events[..n]).value, shape, events[n], error);
    RaisesAt(events, n, ScanAll(events[..n]).value, error);
  }

  lemma NoAnswerIsRaised(events: seq<BridgeEvent>, shape: Shape, error: SessionError)
    requires Fits(shape, events) && NoAnswer(shape, error)
    ensures Verdict(events) == Err(error)
  {
    FittingIsScanned(events, shape);
    if shape.Open? {
      assert shape.current.id in ScanAll(events).value.active;
    }
  }

  lemma {:induction false} FirstFault(events: seq<BridgeEvent>, error: SessionError) returns (n: nat, shape: Shape)
    requires ScanAll(events) == Err(error)
    ensures FaultAt(events, n, shape, error)
  {
    var earlier, last := events[..|events| - 1], |events| - 1;
    if ScanAll(earlier).Err? {
      n, shape := FirstFault(earlier, error);
      assert earlier[..n] == events[..n];
    } else {
      n := last;
      shape := ScannedShape(earlier);
      StepRefuses(ScanAll(earlier).value, shape, events[last], error);
    }
  }

  /**
   A trace is refused with an error if and only if, up to some event, it fits the grammar and that event is this fault,
   or it fits as a whole and is this kind of no answer.
   */
  lemma ErrorIsTheFirstFault(events: seq<BridgeEvent>, error: SessionError)
    ensures Verdict(events) == Err(error) <==>
            || (exists n, shape :: FaultAt(events, n, shape, error))
            || (exists shape :: Fits(shape, events) && NoAnswer(shape, error))
  {
    if Verdict(events) == Err(error) {
      if ScanAll(events).Err? {
        var n, shape := FirstFault(events, error);
      } else {
        var shape := ScannedShape(events);
        if shape.Open? {
          assert shape.current.id in ScanAll(events).value.active;
        }
        assert NoAnswer(shape, error);
      }
    }
    if n, shape :| FaultAt(events, n, shape, error) {
      FaultIsRaised(events, n, shape, error);
    }
    if shape :| Fits(shape, events) && NoAnswer(shape, error) {
      NoAnswerIsRaised(events, shape, error);
    }
  }

  /** The check for a second success can never fail: no event that could succeed is let through after one. */
  lemma NothingSucceedsTwice(events: seq<BridgeEvent>)
    ensures Verdict(events) != Err(SucceededTwice)
  {
    ErrorIsTheFirstFault(events, SucceededTwice);
  }
}
