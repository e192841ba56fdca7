/** The fail-closed recogniser of a structured-planning turn (`_structured_output_text` in session.py). */
module StructuredOutput {
  import opened Common

  const TOOL_NAME := "submit_structured_output"

  /** Tool-call arguments; only whether they serialise as JSON matters here. */
  datatype Arguments = Arguments(json: Option<string>)

  /**
   A bridge event. A field that is absent or of the wrong type is `None`; `Other` is any event
   that is not a tool event of the agent.
   */
  datatype BridgeEvent =
    | Other
    | ToolStart(toolName: Option<string>, startId: Option<string>, args: Option<Arguments>)
    | ToolOutput(outputTool: Option<string>, outputId: Option<string>)
    | ToolEnd(endTool: Option<string>, endId: Option<string>, isError: Option<bool>)

  datatype SessionError =
    | NativeToolUsed | ContinuedAfterSuccess | InvalidStart | ConcurrentAttempt | InvalidArguments
    | UnmatchedProgress | MissingErrorStatus | SucceededTwice | Incomplete | NeverSucceeded | NotJson

  // --------------------------------------------------------------- the grammar

  /** One call of the tool: a start, some progress, an end. */
  datatype Attempt = Attempt(id: string, args: Arguments, outputs: nat)

  function Outputs(id: string, n: nat): seq<BridgeEvent> {
    if n == 0 then [] else Outputs(id, n - 1) + [ToolOutput(Some(TOOL_NAME), Some(id))]
  }

  /** The events of an attempt that has started and not ended. */
  function OpenEvents(a: Attempt): seq<BridgeEvent> {
    [ToolStart(Some(TOOL_NAME), Some(a.id), Some(a.args))] + Outputs(a.id, a.outputs)
  }

  function AttemptEvents(a: Attempt, failed: bool): seq<BridgeEvent> {
    OpenEvents(a) + [ToolEnd(Some(TOOL_NAME), Some(a.id), Some(failed))]
  }

  function FailedEvents(attempts: seq<Attempt>): seq<BridgeEvent> {
    if attempts == [] then []
    else FailedEvents(attempts[..|attempts| - 1]) + AttemptEvents(attempts[|attempts| - 1], true)
  }

  function IdsOf(attempts: seq<Attempt>): (ids: seq<string>)
    ensures |ids| == |attempts|
  {
    seq(|attempts|, i requires 0 <= i < |attempts| => attempts[i].id)
  }

  predicate FreshIds(attempts: seq<Attempt>) {
    "" !in IdsOf(attempts) && Distinct(IdsOf(attempts))
  }

  function ToolEvents(events: seq<BridgeEvent>): seq<BridgeEvent> {
    if events == [] then []
    else
      var last := events[|events| - 1];
      ToolEvents(events[..|events| - 1]) + if last.Other? then [] else [last]
  }

  /** What a prefix of a well-formed trace can look like. */
  datatype Shape = Between(failed: seq<Attempt>) | Open(failed: seq<Attempt>,
                                                        current: Attempt) | Succeeded(failed: seq<Attempt>,
                                                                                      last: Attempt)

  function AttemptsOf(s: Shape): seq<Attempt> {
    match s
    case Between(failed) => failed
    case Open(failed, current) => failed + [current]
    case Succeeded(failed, last) => failed + [last]
  }

  function Print(s: Shape): seq<BridgeEvent> {
    match s
    case Between(failed) => FailedEvents(failed)
    case Open(failed, current) => FailedEvents(failed) + OpenEvents(current)
    case Succeeded(failed, last) => FailedEvents(failed) + AttemptEvents(last, false)
  }

  ghost predicate Fits(s: Shape, events: seq<BridgeEvent>) {
    FreshIds(AttemptsOf(s)) && Print(s) == ToolEvents(events)
  }

  /** The accepted traces: failed attempts, then one successful attempt, then no tool event at all. */
  ghost predicate Accepted(events: seq<BridgeEvent>) {
    exists failed, last :: Fits(Succeeded(failed, last), events)
  }

  // ------------------------------------------------------------ the automaton

  /** `active`, `seen_ids` and `successful_arguments` of the loop. */
  datatype Scan = Scan(active: map<string, Arguments>, seen: set<string>, successful: Option<Arguments>)

  const NOTHING_SEEN := Scan(map[], {}, None)

  function OnProgress(tool: Option<string>, id: Option<string>, s: Scan): Result<string, SessionError> {
    if tool != Some(TOOL_NAME) then Err(NativeToolUsed)
    else if id.None? || id.value !in s.active then Err(UnmatchedProgress)
    else Ok(id.value)
  }

  function Step(s: Scan, e: BridgeEvent): Result<Scan, SessionError> {
    match e
    case Other => Ok(s)
    case ToolStart(tool, id, args) =>
      if tool != Some(TOOL_NAME) then Err(NativeToolUsed)
      else if s.successful.Some? then Err(ContinuedAfterSuccess)
      else if id.None? || id.value == "" || id.value in s.seen then Err(InvalidStart)
      else if s.active != map[] then Err(ConcurrentAttempt)
      else if args.None? then Err(InvalidArguments)
      else Ok(Scan(s.active[id.value := args.value], s.seen + {id.value}, s.successful))
    case ToolOutput(tool, id) =>
      (match OnProgress(tool, id, s) case Err(x) => Err(x) case Ok(_) => Ok(s))
    case ToolEnd(tool, id, isError) =>
      match OnProgress(tool, id, s)
      case Err(x) => Err(x)
      case Ok(callId) =>
        if isError.None? then Err(MissingErrorStatus)
        else if isError.value then Ok(s.(active := s.active - {callId}))
        else if s.successful.Some? then Err(SucceededTwice)
        else Ok(s.(active := s.active - {callId}, successful := Some(s.active[callId])))
  }

  function ScanAll(events: seq<BridgeEvent>): Result<Scan, SessionError> {
    if events == [] then Ok(NOTHING_SEEN)
    else match ScanAll(events[..|events| - 1])
      case Err(x) => Err(x)
      case Ok(s) => Step(s, events[|events| - 1])
  }

  function Verdict(events: seq<BridgeEvent>): Result<string, SessionError> {
    match ScanAll(events)
    case Err(x) => Err(x)
    case Ok(s) =>
      if s.active != map[] then Err(Incomplete)
      else if s.successful.None? then Err(NeverSucceeded)
      else match s.successful.value.json
        case None => Err(NotJson)
        case Some(text) => Ok(text)
  }

  lemma {:induction false} ErrorsStick(events: seq<BridgeEvent>, n: nat)
    requires n <= |events| && ScanAll(events[..n]).Err?
    ensures ScanAll(events) == ScanAll(events[..n])
    decreases |events|
  {
    if n == |events| {
      assert events[..n] == events;
    } else {
      assert events[..|events| - 1][..n] == events[..n];
      ErrorsStick(events[..|events| - 1], n);
    }
  }

  /** What is raised at one event is the verdict. */
  lemma RaisesAt(events: seq<BridgeEvent>, i: nat, s: Scan, error: SessionError)
    requires i < |events| && ScanAll(events[..i]) == Ok(s) && Step(s, events[i]) == Err(error)
    ensures Verdict(events) == Err(error)
  {
    assert events[..i + 1][..i] == events[..i];
    assert ScanAll(events[..i + 1]) == Err(error);
    ErrorsStick(events, i + 1);
  }

  /** The source's loop, raising at the first event that does not fit. */
  method StructuredOutputText(events: seq<BridgeEvent>) returns (r: Result<string, SessionError>)
    ensures r == Verdict(events)
    ensures r.Ok? ==> Accepted(events)
  {
    var active: map<string, Arguments> := map[];
    var seenIds: set<string> := {};
    var successfulArguments: Option<Arguments> := None;
    for i := 0 to |events|
      invariant ScanAll(events[..i]) == Ok(Scan(active, seenIds, successfulArguments))
    {
      ghost var s := Scan(active, seenIds, successfulArguments);
      assert events[..i + 1][..i] == events[..i];
      match events[i] {
        case Other =>
        case ToolStart(toolName, id, arguments) =>
          if toolName != Some(TOOL_NAME) {
            RaisesAt(events, i, s, NativeToolUsed);
            return Err(NativeToolUsed);
          }
          if successfulArguments.Some? {
            RaisesAt(events, i, s, ContinuedAfterSuccess);
            return Err(ContinuedAfterSuccess);
          }
          if id.None? || id.value == "" || id.value in seenIds {
            RaisesAt(events, i, s, InvalidStart);
            return Err(InvalidStart);
          }
          if active != map[] {
            RaisesAt(events, i, s, ConcurrentAttempt);
            return Err(ConcurrentAttempt);
          }
          if arguments.None? {
            RaisesAt(events, i, s, InvalidArguments);
            return Err(InvalidArguments);
          }
          seenIds := seenIds + {id.value};
          active := active[id.value := arguments.value];
        case ToolOutput(toolName, id) =>
          if toolName != Some(TOOL_NAME) {
            RaisesAt(events, i, s, NativeToolUsed);
            return Err(NativeToolUsed);
          }
          if id.None? || id.value !in active {
            RaisesAt(events, i, s, UnmatchedProgress);
            return Err(UnmatchedProgress);
          }
        case ToolEnd(toolName, id, isError) =>
          if toolName != Some(TOOL_NAME) {
            RaisesAt(events, i, s, NativeToolUsed);
            return Err(NativeToolUsed);
          }
          if id.None? || id.value !in active {
            RaisesAt(events, i, s, UnmatchedProgress);
            return Err(UnmatchedProgress);
          }
          if isError.None? {
            RaisesAt(events, i, s, MissingErrorStatus);
            return Err(MissingErrorStatus);
          }
          var arguments := active[id.value];
          active := active - {id.value};
          if !isError.value {
            if successfulArguments.Some? {
              RaisesAt(events, i, s, SucceededTwice);
              return Err(SucceededTwice);
            }
            successfulArguments := Some(arguments);
          }
      }
    }
    assert events[..|events|] == events;
    if active != map[] {
      return Err(Incomplete);
    }
    if successfulArguments.None? {
      return Err(NeverSucceeded);
    }
    match successfulArguments.value.json {
      case None => r := Err(NotJson);
      case Some(text) =>
        r := Ok(text);
        var shape := ScannedShape(events);
    }
  }

  // --------------------------------------------------------------- exactness

  ghost predicate Matches(s: Scan, shape: Shape) {
    && s.seen == SetOf(IdsOf(AttemptsOf(shape)))
    && match shape
       case Between(_) => s.active == map[] && s.successful == None
       case Open(_, current) => s.active == map[current.id := current.args] && s.successful == None
       case Succeeded(_, last) => s.active == map[] && s.successful == Some(last.args)
  }

  /** The shape a fitting event leads to. */
  function Extend(shape: Shape, e: BridgeEvent): Shape {
    match (shape, e)
    case (Between(failed), ToolStart(_, Some(id), Some(args))) => Open(failed, Attempt(id, args, 0))
    case (Open(failed, a), ToolOutput(_, _)) => Open(failed, a.(outputs := a.outputs + 1))
    case (Open(failed, a), ToolEnd(_, _, Some(true))) => Between(failed + [a])
    case (Open(failed, a), ToolEnd(_, _, Some(false))) => Succeeded(failed, a)
    case _ => shape
  }

  function SetOf(ids: seq<string>): set<string> {
    set id | id in ids
  }

  lemma AddAttempt(attempts: seq<Attempt>, a: Attempt)
    ensures IdsOf(attempts + [a]) == IdsOf(attempts) + [a.id]
    ensures SetOf(IdsOf(attempts + [a])) == SetOf(IdsOf(attempts)) + {a.id}
    ensures FreshIds(attempts + [a]) <==> FreshIds(attempts) && a.id != "" && a.id !in IdsOf(attempts)
  {
    assert IdsOf(attempts + [a]) == IdsOf(attempts) + [a.id];
    var ids := IdsOf(attempts);
    if Distinct(ids + [a.id]) {
      assert forall i :: 0 <= i < |ids| ==> (ids + [a.id])[i] == ids[i] && (ids + [a.id])[|ids|] == a.id;
    }
  }

  lemma StartExtends(s: Scan, failed: seq<Attempt>, id: string, args: Arguments)
    requires FreshIds(failed) && Matches(s, Between(failed)) && id != "" && id !in s.seen
    ensures var longer := Open(failed, Attempt(id, args, 0));
            && FreshIds(AttemptsOf(longer)) && Matches(Scan(map[id := args], s.seen + {id}, None), longer)
            && Print(longer) == FailedEvents(failed) + [ToolStart(Some(TOOL_NAME), Some(id), Some(args))]
  {
    AddAttempt(failed, Attempt(id, args, 0));
    assert Outputs(id, 0) == [];
  }

  lemma OutputExtends(s: Scan, failed: seq<Attempt>, a: Attempt)
    requires FreshIds(failed + [a]) && Matches(s, Open(failed, a))
    ensures var longer := Open(failed, a.(outputs := a.outputs + 1));
            && FreshIds(AttemptsOf(longer)) && Matches(s, longer)
            && Print(longer) == Print(Open(failed, a)) + [ToolOutput(Some(TOOL_NAME), Some(a.id))]
  {
    var e := [ToolOutput(Some(TOOL_NAME), Some(a.id))];
    ConcatAssociates(FailedEvents(failed), OpenEvents(a), e);
    ConcatAssociates([ToolStart(Some(TOOL_NAME), Some(a.id), Some(a.args))], Outputs(a.id, a.outputs), e);
    AddAttempt(failed, a);
    AddAttempt(failed, a.(outputs := a.outputs + 1));
  }

  lemma EndExtends(s: Scan, failed: seq<Attempt>, a: Attempt, isError: bool)
    requires FreshIds(failed + [a]) && Matches(s, Open(failed, a))
    ensures var longer := if isError then Between(failed + [a]) else Succeeded(failed, a);
            && Matches(Scan(map[], s.seen, if isError then None else Some(a.args)), longer)
                 && AttemptsOf(longer) == failed + [a]
            && Print(longer) == Print(Open(failed, a)) + [ToolEnd(Some(TOOL_NAME), Some(a.id), Some(isError))]
  {
    ConcatAssociates(FailedEvents(failed), OpenEvents(a), [ToolEnd(Some(TOOL_NAME), Some(a.id), Some(isError))]);
    assert (failed + [a])[..|failed|] == failed;
  }

  /** What `Step` accepts in each shape. */
  lemma AcceptedEvents(s: Scan, shape: Shape, e: BridgeEvent)
    requires Matches(s, shape) && Step(s, e).Ok? && !e.Other?
    ensures e.ToolStart? <==> shape.Between?
    ensures !e.ToolStart? ==> shape.Open?
    ensures e.ToolStart? ==> e.startId.Some? && e.args.Some? && e.startId.value != "" && e.startId.value !in s.seen
                             && e == ToolStart(Some(TOOL_NAME), e.startId, e.args)
    ensures e.ToolOutput? ==> e == ToolOutput(Some(TOOL_NAME), Some(shape.current.id))
    ensures e.ToolEnd? ==> e.isError.Some? && e == ToolEnd(Some(TOOL_NAME), Some(shape.current.id), e.isError)
  {
    if shape.Open? {
      assert shape.current.id in s.active;
    }
  }

  /** The scan and the shape go on together past the event. */
  ghost predicate Extended(s: Scan, shape: Shape, e: BridgeEvent)
    requires Step(s, e).Ok?
  {
    var longer := Extend(shape, e);
    FreshIds(AttemptsOf(longer)) && Matches(Step(s, e).value, longer) && Print(longer) == Print(shape) + [e]
  }

  lemma StartStep(s: Scan, failed: seq<Attempt>, e: BridgeEvent)
    requires FreshIds(failed) && Matches(s, Between(failed)) && e.ToolStart? && Step(s, e).Ok?
    ensures Extended(s, Between(failed), e)
  {
    StartExtends(s, failed, e.startId.value, e.args.value);
    assert Step(s, e).value == Scan(map[e.startId.value := e.args.value], s.seen + {e.startId.value}, None);
  }

  lemma EndStep(s: Scan, failed: seq<Attempt>, current: Attempt, e: BridgeEvent)
    requires FreshIds(failed + [current]) && Matches(s, Open(failed, current))
    requires e.ToolEnd? && e == ToolEnd(Some(TOOL_NAME), Some(current.id), e.isError) && Step(s, e).Ok?
    ensures Extended(s, Open(failed, current), e)
  {
    assert s.active - {current.id} == map[];
    EndExtends(s, failed, current, e.isError.value);
  }

  lemma OutputStep(s: Scan, failed: seq<Attempt>, current: Attempt, e: BridgeEvent)
    requires FreshIds(failed + [current]) && Matches(s, Open(failed, current))
    requires e == ToolOutput(Some(TOOL_NAME), Some(current.id)) && Step(s, e).Ok?
    ensures Extended(s, Open(failed, current), e)
  {
    OutputExtends(s, failed, current);
  }

  /** One accepted tool event extends the shape by exactly that event. */
  lemma StepExtends(s: Scan, shape: Shape, e: BridgeEvent)
    requires FreshIds(AttemptsOf(shape)) && Matches(s, shape) && Step(s, e).Ok? && !e.Other?
    ensures Extended(s, shape, e)
  {
    AcceptedEvents(s, shape, e);
    match shape {
      case Between(failed) => StartStep(s, failed, e);
      case Open(failed, current) =>
        if e.ToolOutput? {
          OutputStep(s, failed, current, e);
        } else {
          EndStep(s, failed, current, e);
        }
      case Succeeded(_, _) =>
    }
  }

  /** A trace the scan survives has a shape. */
  lemma {:induction false} ScannedShape(events: seq<BridgeEvent>) returns (shape: Shape)
    requires ScanAll(events).Ok?
    ensures Fits(shape, events) && Matches(ScanAll(events).value, shape)
  {
    if events == [] {
      shape := Between([]);
    } else {
      var earlier, e := events[..|events| - 1], events[|events| - 1];
      shape := ScannedShape(earlier);
      if !e.Other? {
        StepExtends(ScanAll(earlier).value, shape, e);
        shape := Extend(shape, e);
      }
    }
  }

  // The converse: every printed shape is scanned.

  function ScanFrom(s: Scan, events: seq<BridgeEvent>): Result<Scan, SessionError> {
    if events == [] then Ok(s)
    else match ScanFrom(s, events[..|events| - 1])
      case Err(x) => Err(x)
      case Ok(t) => Step(t, events[|events| - 1])
  }

  lemma {:induction false} ScanFromAppend(s: Scan, a: seq<BridgeEvent>, b: seq<BridgeEvent>)
    requires ScanFrom(s, a).Ok?
    ensures ScanFrom(s, a + b) == ScanFrom(ScanFrom(s, a).value, b)
  {
    if b == [] {
      assert a + b == a;
    } else {
      assert (a + b)[..|a + b| - 1] == a + b[..|b| - 1];
      ScanFromAppend(s, a, b[..|b| - 1]);
    }
  }

  lemma {:induction false} ScanIgnoresOthers(events: seq<BridgeEvent>)
    ensures ScanAll(events) == ScanFrom(NOTHING_SEEN, ToolEvents(events))
  {
    if events != [] {
      var earlier, e := events[..|events| - 1], events[|events| - 1];
      ScanIgnoresOthers(earlier);
      if !e.Other? {
        assert ToolEvents(events)[..|ToolEvents(earlier)|] == ToolEvents(earlier);
      } else {
        assert ToolEvents(events) == ToolEvents(earlier);
      }
    }
  }

  lemma {:induction false} ScanOutputs(s: Scan, id: string, n: nat)
    requires id in s.active
    ensures ScanFrom(s, Outputs(id, n)) == Ok(s)
  {
    if n > 0 {
      ScanOutputs(s, id, n - 1);
      assert Outputs(id, n)[..|Outputs(id, n)| - 1] == Outputs(id, n - 1);
    }
  }

  lemma ScanAttempt(s: Scan, a: Attempt, failed: bool)
    requires s.active == map[] && s.successful == None && a.id != "" && a.id !in s.seen
    ensures ScanFrom(s, AttemptEvents(a, failed)) ==
            Ok(Scan(map[], s.seen + {a.id}, if failed then None else Some(a.args)))
  {
    var begun := Scan(map[a.id := a.args], s.seen + {a.id}, None);
    var start := [ToolStart(Some(TOOL_NAME), Some(a.id), Some(a.args))];
    assert ScanFrom(s, start[..0]) == Ok(s);
    assert ScanFrom(s, start) == Ok(begun);
    ScanFromAppend(s, start, Outputs(a.id, a.outputs));
    ScanOutputs(begun, a.id, a.outputs);
    var end := [ToolEnd(Some(TOOL_NAME), Some(a.id), Some(failed))];
    ScanFromAppend(s, OpenEvents(a), end);
    assert ScanFrom(begun, end[..0]) == Ok(begun);
    assert begun.active - {a.id} == map[];
  }

  lemma {:induction false} ScanFailed(attempts: seq<Attempt>)
    requires FreshIds(attempts)
    ensures ScanFrom(NOTHING_SEEN, FailedEvents(attempts)) ==
            Ok(Scan(map[], SetOf(IdsOf(attempts)), None))
  {
    if attempts == [] {
      assert SetOf(IdsOf(attempts)) == {};
    } else {
      var earlier, a := attempts[..|attempts| - 1], attempts[|attempts| - 1];
      assert earlier + [a] == attempts;
      AddAttempt(earlier, a);
      ScanFailed(earlier);
      ScanFromAppend(NOTHING_SEEN, FailedEvents(earlier), AttemptEvents(a, true));
      ScanAttempt(Scan(map[], SetOf(IdsOf(earlier)), None), a, true);
    }
  }

  /** Every trace of the grammar is scanned to its successful attempt's arguments. */
  lemma FittingTraceIsScanned(events: seq<BridgeEvent>, failed: seq<Attempt>, last: Attempt)
    requires Fits(Succeeded(failed, last), events)
    ensures ScanAll(events).Ok? && ScanAll(events).value.active == map[]
            && ScanAll(events).value.successful == Some(last.args)
  {
    ScanIgnoresOthers(events);
    AddAttempt(failed, last);
    ScanFailed(failed);
    ScanFromAppend(NOTHING_SEEN, FailedEvents(failed), AttemptEvents(last, false));
    ScanAttempt(Scan(map[], SetOf(IdsOf(failed)), None), last, false);
  }

  /**
   The recogniser is exact: it returns a text if and only if the tool events are failed attempts followed by
   one successful attempt and nothing more, that attempt's arguments serialise, and the text is theirs.
   */
  lemma RecogniserIsExact(events: seq<BridgeEvent>, text: string)
    ensures Verdict(events) == Ok(text) <==>
            exists failed, last :: Fits(Succeeded(failed, last), events) && last.args.json == Some(text)
  {
    if Verdict(events) == Ok(text) {
      var shape := ScannedShape(events);
      assert shape.Succeeded?;
      assert Fits(Succeeded(shape.failed, shape.last), events);
    }
    if failed, last :| Fits(Succeeded(failed, last), events) && last.args.json == Some(text) {
      FittingTraceIsScanned(events, failed, last);
    }
  }

  /** And it is unambiguous: a trace fits at most one successful attempt's arguments. */
  lemma SuccessIsUnique(events: seq<BridgeEvent>, failed: seq<Attempt>, last: Attempt, failed': seq<Attempt>,
                        last': Attempt)
    requires Fits(Succeeded(failed, last), events) && Fits(Succeeded(failed', last'), events)
    ensures last.args == last'.args
  {
    FittingTraceIsScanned(events, failed, last);
    FittingTraceIsScanned(events, failed', last');
  }
}
