/** Usage accounting of one run (session.py): deltas of cumulative counters, a two-phase ledger, a spend limit. */
module UsageLedger {
  import opened Common

  // ------------------------------------------------------------------ values

  /** A reported statistic; anything that is not a finite number is `Unusable`. */
  datatype Stat = Unusable | Number(x: real)

  datatype Tokens = Tokens(input: Stat, output: Stat, cacheRead: Stat, cacheWrite: Stat)

  /** Cumulative statistics of the agent session. */
  datatype Stats = Stats(tokens: Option<Tokens>, toolCalls: Stat, cost: Stat)

  /** What one finished turn reports; `None` where the report is not an object. */
  datatype Turn = Turn(initial: Option<Stats>, final: Option<Stats>)

  datatype Usage = Usage(input: int, output: int, cacheRead: int, cacheWrite: int, toolCalls: int, costMicros: int)

  const NO_USAGE := Usage(0, 0, 0, 0, 0, 0)

  datatype SessionError =
    | NoFinalUsage | InvalidCounter | InvalidTokens | InvalidCost | MovedBackwards
    | Cancelled | OverBudget | TransportFailed | SettledDifferently | UnknownReservation

  // ------------------------------------------------------------------ deltas

  /** Python's `round`: to the nearest integer, ties to the even one. */
  function Round(x: real): (r: int)
    ensures -0.5 <= r as real - x <= 0.5
    ensures r as real - x in {-0.5, 0.5} ==> r % 2 == 0
  {
    var f := x.Floor;
    var d := x - f as real;
    if d < 0.5 then f else if d > 0.5 then f + 1 else if f % 2 == 0 then f else f + 1
  }

  function Counter(s: Stat): (r: Result<int, SessionError>)
    ensures r.Err? ==> r.error == InvalidCounter
  {
    match s
    case Unusable => Err(InvalidCounter)
    case Number(x) => if x < 0.0 || x.Floor as real != x then Err(InvalidCounter) else Ok(x.Floor)
  }

  function Cost(s: Stats): (r: Result<real, SessionError>)
    ensures r.Err? ==> r.error == InvalidCost
  {
    match s.cost
    case Unusable => Err(InvalidCost)
    case Number(x) => if x < 0.0 then Err(InvalidCost) else Ok(x)
  }

  /** The five counters of a cumulative report and its cost. */
  datatype Reading = Reading(input: int, output: int, cacheRead: int, cacheWrite: int, toolCalls: int, cost: real)

  function Read(s: Stats): (r: Result<Reading, SessionError>)
    ensures r.Err? ==> r.error in {InvalidTokens, InvalidCounter, InvalidCost}
  {
    if s.tokens.None? then Err(InvalidTokens)
    else
      var t := s.tokens.value;
      match (Counter(t.input), Counter(t.output), Counter(t.cacheRead), Counter(t.cacheWrite), Counter(s.toolCalls))
      case (Ok(i), Ok(o), Ok(cr), Ok(cw), Ok(tc)) =>
        (match Cost(s) case Ok(c) => Ok(Reading(i, o, cr, cw, tc, c)) case Err(e) => Err(e))
      case _ => Err(InvalidCounter)
  }

  const ZERO_STATS := Stats(Some(Tokens(Number(0.0), Number(0.0), Number(0.0), Number(0.0))), Number(0.0), Number(0.0))

  /** Older transports report no initial statistics; they count from zero. */
  function InitialOf(t: Turn): Stats {
    if t.initial.Some? then t.initial.value else ZERO_STATS
  }

  function Micros(cost: real): real {
    cost * 1000000.0
  }

  function UsageDelta(t: Turn): (r: Result<Usage, SessionError>)
    ensures r.Err? ==> r.error in {NoFinalUsage, InvalidCounter, InvalidTokens, InvalidCost, MovedBackwards}
  {
    if t.final.None? then Err(NoFinalUsage)
    else match (Read(t.final.value), Read(InitialOf(t)))
      case (Ok(after), Ok(before)) =>
        var u := Usage(after.input - before.input, after.output - before.output, after.cacheRead - before.cacheRead,
                       after.cacheWrite - before.cacheWrite, after.toolCalls - before.toolCalls,
                           Round(Micros(after.cost - before.cost)));
        if u.input < 0 || u.output < 0 || u.cacheRead < 0 || u.cacheWrite < 0 || u.toolCalls < 0 || u.costMicros < 0
        then Err(MovedBackwards) else Ok(u)
      case (Err(e), _) => Err(e)
      case (_, Err(e)) => Err(e)
  }

  predicate NonNegative(u: Usage) {
    u.input >= 0 && u.output >= 0 && u.cacheRead >= 0 && u.cacheWrite >= 0 && u.toolCalls >= 0 && u.costMicros >= 0
  }

  function Plus(a: Usage, b: Usage): Usage {
    Usage(a.input + b.input, a.output + b.output, a.cacheRead + b.cacheRead, a.cacheWrite + b.cacheWrite,
          a.toolCalls + b.toolCalls, a.costMicros + b.costMicros)
  }

  function Summed(turns: seq<Turn>): Usage {
    if turns == [] then NO_USAGE
    else Plus(Summed(turns[..|turns| - 1]),
              match UsageDelta(turns[|turns| - 1]) case Ok(u) => u case Err(_) => NO_USAGE)
  }

  /** Each turn starts from the statistics the previous one ended with. */
  ghost predicate Chained(turns: seq<Turn>) {
    forall i :: 0 <= i < |turns| - 1 ==> turns[i].final.Some? && InitialOf(turns[i + 1]) == turns[i].final.value
  }

  /**
   Conservation: over a chained run the recorded counters telescope exactly to last minus first, and the
   recorded cost differs from the true difference by at most half a micro-unit a turn.
   */
  lemma {:induction false} UsageTelescopes(turns: seq<Turn>)
    requires turns != [] && Chained(turns)
    requires forall i :: 0 <= i < |turns| ==> UsageDelta(turns[i]).Ok?
    ensures Read(InitialOf(turns[0])).Ok? && turns[|turns| - 1].final.Some? && Read(turns[|turns| - 1].final.value).Ok?
    ensures var first, last, u := Read(InitialOf(turns[0])).value, Read(turns[|turns| - 1].final.value).value,
            Summed(turns);
            && NonNegative(u)
            && u.input == last.input - first.input && u.output == last.output - first.output
            && u.cacheRead == last.cacheRead - first.cacheRead && u.cacheWrite == last.cacheWrite - first.cacheWrite
            && u.toolCalls == last.toolCalls - first.toolCalls
            && (var off := u.costMicros as real - Micros(last.cost - first.cost);
                -(|turns| as real) * 0.5 <= off <= |turns| as real * 0.5)
  {
    var earlier, turn := turns[..|turns| - 1], turns[|turns| - 1];
    assert UsageDelta(turn).Ok?;
    if |turns| == 1 {
      assert Summed(earlier) == NO_USAGE;
    } else {
      UsageTelescopes(earlier);
      assert InitialOf(turn) == earlier[|earlier| - 1].final.value;
    }
  }

  // -------------------------------------------------------- what is accepted

  /** The report says exactly this: counters are natural numbers, and the cost is not negative. */
  ghost predicate Reports(s: Stats, r: Reading) {
    && r.input >= 0 && r.output >= 0 && r.cacheRead >= 0 && r.cacheWrite >= 0 && r.toolCalls >= 0 && r.cost >= 0.0
    && s.cost == Number(r.cost) && s.toolCalls == Number(r.toolCalls as real)
    && s.tokens == Some(Tokens(Number(r.input as real), Number(r.output as real), Number(r.cacheRead as real),
                               Number(r.cacheWrite as real)))
  }

  lemma CounterMeans(s: Stat, n: int)
    ensures Counter(s) == Ok(n) <==> n >= 0 && s == Number(n as real)
  {
    if s.Number? && s.x.Floor as real == s.x {
      assert (n as real).Floor == n;
    }
  }

  lemma ReadMeans(s: Stats, r: Reading)
    ensures Read(s) == Ok(r) <==> Reports(s, r)
  {
    if s.tokens.Some? {
      var t := s.tokens.value;
      CounterMeans(t.input, r.input);
      CounterMeans(t.output, r.output);
      CounterMeans(t.cacheRead, r.cacheRead);
      CounterMeans(t.cacheWrite, r.cacheWrite);
      CounterMeans(s.toolCalls, r.toolCalls);
    }
  }

  const NOTHING := Reading(0, 0, 0, 0, 0, 0.0)

  /** Before a turn without initial statistics nothing had been used. */
  ghost predicate ReportsInitially(initial: Option<Stats>, r: Reading) {
    if initial.Some? then Reports(initial.value, r) else r == NOTHING
  }

  lemma InitialMeans(t: Turn, r: Reading)
    ensures Read(InitialOf(t)) == Ok(r) <==> ReportsInitially(t.initial, r)
  {
    ReadMeans(InitialOf(t), r);
    ReadMeans(ZERO_STATS, NOTHING);
  }

  /** The usage between two readings; the cost is rounded to micro-units. */
  function Between(before: Reading, after: Reading): Usage {
    Usage(after.input - before.input, after.output - before.output, after.cacheRead - before.cacheRead,
          after.cacheWrite - before.cacheWrite, after.toolCalls - before.toolCalls,
          Round((after.cost - before.cost) * 1000000.0))
  }

  /** The two reports of a turn, when both are well formed. */
  ghost predicate TurnReports(t: Turn, before: Reading, after: Reading) {
    t.final.Some? && ReportsInitially(t.initial, before) && Reports(t.final.value, after)
  }

  lemma TurnReportsMean(t: Turn, before: Reading, after: Reading)
    requires t.final.Some?
    ensures TurnReports(t, before, after) <==> Read(InitialOf(t)) == Ok(before) && Read(t.final.value) == Ok(after)
  {
    InitialMeans(t, before);
    ReadMeans(t.final.value, after);
  }

  lemma DeltaOfReadings(t: Turn, before: Reading, after: Reading)
    requires t.final.Some? && Read(InitialOf(t)) == Ok(before) && Read(t.final.value) == Ok(after)
    ensures UsageDelta(t) == if NonNegative(Between(before, after)) then Ok(Between(before, after))
                             else Err(MovedBackwards)
  {
  }

  lemma NoDelta(t: Turn)
    requires t.final.Some? && (Read(InitialOf(t)).Err? || Read(t.final.value).Err?)
    ensures UsageDelta(t).Err? && UsageDelta(t).error in {InvalidTokens, InvalidCounter, InvalidCost}
  {
  }

  /** A turn is charged exactly what lies between two well-formed reports, if no counter and no cost went back. */
  lemma UsageDeltaMeans(t: Turn, u: Usage)
    ensures UsageDelta(t) == Ok(u) <==>
            exists before, after :: TurnReports(t, before, after) && u == Between(before, after) && NonNegative(u)
    ensures UsageDelta(t) == Err(NoFinalUsage) <==> t.final.None?
    ensures UsageDelta(t) == Err(MovedBackwards) <==>
            exists before, after :: TurnReports(t, before, after) && !NonNegative(Between(before, after))
  {
    if t.final.Some? {
      forall before, after
        ensures TurnReports(t, before, after) <==>
                Read(InitialOf(t)) == Ok(before) && Read(t.final.value) == Ok(after) {
        TurnReportsMean(t, before, after);
      }
      if Read(InitialOf(t)).Ok? && Read(t.final.value).Ok? {
        var before, after := Read(InitialOf(t)).value, Read(t.final.value).value;
        assert TurnReports(t, before, after);
        DeltaOfReadings(t, before, after);
      } else {
        NoDelta(t);
      }
    }
  }

  // ------------------------------------------------------------------ ledger

  /** A reservation, or a settled record of one provider request. */
  datatype Entry = Entry(requestId: string, token: string, settled: bool, usage: Usage)

  function TotalCost(ledger: seq<Entry>): int {
    if ledger == [] then 0 else TotalCost(ledger[..|ledger| - 1]) + ledger[|ledger| - 1].usage.costMicros
  }

  /** Every reservation of the run has been settled. */
  predicate Complete(ledger: seq<Entry>) {
    forall i :: 0 <= i < |ledger| ==> ledger[i].settled
  }

  /** `get_usage_totals`: no totals at all are read of a run while any reservation of it is unsettled. */
  function ReadCost(ledger: seq<Entry>): int {
    if Complete(ledger) then TotalCost(ledger) else 0
  }

  function EntryIndex(ledger: seq<Entry>, requestId: string): (i: nat)
    ensures i <= |ledger|
    ensures i < |ledger| ==> ledger[i].requestId == requestId
    ensures i == |ledger| ==> forall j :: 0 <= j < |ledger| ==> ledger[j].requestId != requestId
  {
    if ledger == [] || ledger[0].requestId == requestId then 0 else 1 + EntryIndex(ledger[1..], requestId)
  }

  /** A first settlement writes the counters; repeating it changes nothing, and a different one is refused. */
  function Settle(ledger: seq<Entry>, requestId: string, token: string, usage: Usage)
    : Result<seq<Entry>, SessionError>
  {
    var i := EntryIndex(ledger, requestId);
    if i == |ledger| then Err(UnknownReservation)
    else if ledger[i].token != token then Err(SettledDifferently)
    else if ledger[i].settled then (if ledger[i].usage == usage then Ok(ledger) else Err(SettledDifferently))
    else Ok(ledger[i := ledger[i].(settled := true, usage := usage)])
  }

  /** The reservation of this request, the first of its id. */
  ghost predicate Reserves(ledger: seq<Entry>, i: nat, requestId: string) {
    i < |ledger| && ledger[i].requestId == requestId && forall j :: 0 <= j < i ==> ledger[j].requestId != requestId
  }

  /** Only the holder of the token settles, once; nothing but the one entry changes. */
  lemma SettleMeans(ledger: seq<Entry>, requestId: string, token: string, usage: Usage, i: nat)
    requires Reserves(ledger, i, requestId)
    ensures var r, e := Settle(ledger, requestId, token, usage), ledger[i];
            && (r.Ok? <==> e.token == token && (e.settled ==> e.usage == usage))
            && (r.Ok? ==> r.value == ledger[i := Entry(requestId, token, true, usage)])
            && (r.Err? ==> r.error == SettledDifferently)
  {
    IndexOfReservation(ledger, requestId, i);
  }

  lemma {:induction false} IndexOfReservation(ledger: seq<Entry>, requestId: string, i: nat)
    requires Reserves(ledger, i, requestId)
    ensures EntryIndex(ledger, requestId) == i
  {
    if i > 0 {
      assert ledger[0].requestId != requestId;
      assert Reserves(ledger[1..], i - 1, requestId);
      IndexOfReservation(ledger[1..], requestId, i - 1);
    }
  }

  lemma UnknownIsNotSettled(ledger: seq<Entry>, requestId: string, token: string, usage: Usage)
    ensures Settle(ledger, requestId, token, usage) == Err(UnknownReservation) <==>
            forall i :: 0 <= i < |ledger| ==> ledger[i].requestId != requestId
  {
  }

  lemma SettleIsIdempotent(ledger: seq<Entry>, requestId: string, token: string, usage: Usage, other: Usage)
    requires Settle(ledger, requestId, token, usage).Ok?
    ensures var once := Settle(ledger, requestId, token, usage).value;
            Settle(once, requestId, token, other) == if other == usage then Ok(once) else Err(SettledDifferently)
  {
    var i := EntryIndex(ledger, requestId);
    SameIndex(ledger, i, ledger[i].(settled := true, usage := usage));
  }

  lemma {:induction false} SameIndex(ledger: seq<Entry>, i: nat, e: Entry)
    requires i < |ledger| && EntryIndex(ledger, e.requestId) == i
    ensures EntryIndex(ledger[i := e], e.requestId) == i
  {
    if i > 0 {
      SameIndex(ledger[1..], i - 1, e);
      assert ledger[i := e][1..] == ledger[1..][i - 1 := e];
    }
  }

  /**
   What the outside world does during one invocation. There is no `turn` when the transport fails, the lease is lost or
   the worker dies before the turn is over.
   */
  datatype Call = Call(
    requestId: string,
    token: string,
    activeAtStart: bool,
    activeBeforeTransport: bool,
    turn: Option<Turn>,
    activeAfterwards: bool)

  /** The run is active at both checks before the transport. */
  predicate Active(c: Call) {
    c.activeAtStart && c.activeBeforeTransport
  }

  /** The invocation reaches the paid transport. */
  predicate Starts(ledger: seq<Entry>, c: Call, limit: int) {
    c.activeAtStart && ReadCost(ledger) < limit && c.activeBeforeTransport
  }

  function Charged(ledger: seq<Entry>, c: Call, limit: int): Result<Usage, SessionError> {
    if !c.activeAtStart then Err(Cancelled)
    else if ReadCost(ledger) >= limit then Err(OverBudget)
    else if !c.activeBeforeTransport then Err(Cancelled)
    else if c.turn.None? then Err(TransportFailed)
    else UsageDelta(c.turn.value)
  }

  /** The ledger after an invocation: checked, reserved at zero, run, settled. */
  function LedgerAfter(ledger: seq<Entry>, c: Call, limit: int): seq<Entry> {
    if !c.activeAtStart || ReadCost(ledger) >= limit then ledger
    else match Charged(ledger, c, limit)
      case Ok(u) => ledger + [Entry(c.requestId, c.token, true, u)]
      case Err(_) => ledger + [Entry(c.requestId, c.token, false, NO_USAGE)]
  }

  /** The spend that a new session's provider key is issued for. */
  function RemainingSpendBudget(ledger: seq<Entry>, limit: int): (r: Result<int, SessionError>)
    ensures r.Ok? ==> r.value > 0 && (Complete(ledger) ==> TotalCost(ledger) + r.value == limit)
    ensures r.Err? <==> limit <= if Complete(ledger) then TotalCost(ledger) else 0
    ensures !Complete(ledger) && limit > 0 ==> r == Ok(limit)
  {
    var remaining := limit - ReadCost(ledger);
    if remaining <= 0 then Err(OverBudget) else Ok(remaining)
  }

  /** A session spends on the durable ledger of its run, which an earlier session may have left. */
  class DirectPiSession {
    var ledger: seq<Entry>
    const maxSpendMicros: int

    constructor (durable: seq<Entry>, limit: int)
      ensures ledger == durable && maxSpendMicros == limit
    {
      ledger, maxSpendMicros := durable, limit;
    }

    method CheckDurableBudget(forNewTurn: bool) returns (withinBudget: bool)
      ensures withinBudget <==> if forNewTurn then ReadCost(ledger) < maxSpendMicros
              else ReadCost(ledger) <= maxSpendMicros
    {
      var costMicros := ReadCost(ledger);
      var exhausted := if forNewTurn then costMicros >= maxSpendMicros else costMicros > maxSpendMicros;
      withinBudget := !exhausted;
    }

    method ReserveUsage(requestId: string, token: string)
      modifies this
      ensures ledger == old(ledger) + [Entry(requestId, token, false, NO_USAGE)]
    {
      ledger := ledger + [Entry(requestId, token, false, NO_USAGE)];
    }

    /** One turn with a request id not used before: check, reserve, re-check, run, settle, check again. */
    method Invoke(c: Call) returns (r: Result<Usage, SessionError>)
      requires EntryIndex(ledger, c.requestId) == |ledger|
      modifies this
      ensures ledger == LedgerAfter(old(ledger), c, maxSpendMicros)
      ensures r.Ok? <==>
              && Charged(old(ledger), c, maxSpendMicros).Ok?
              && c.activeAfterwards && ReadCost(ledger) <= maxSpendMicros
      ensures r.Ok? ==> Charged(old(ledger), c, maxSpendMicros) == r
      ensures r.Ok? ==> ledger == old(ledger) + [Entry(c.requestId, c.token, true, r.value)]
      ensures r == Err(Cancelled) <==>
              || !c.activeAtStart
              || (ReadCost(old(ledger)) < maxSpendMicros && !c.activeBeforeTransport)
              || (Charged(old(ledger), c, maxSpendMicros).Ok? && !c.activeAfterwards)
      ensures r == Err(OverBudget) <==>
              || (c.activeAtStart && ReadCost(old(ledger)) >= maxSpendMicros)
              || (Charged(old(ledger), c, maxSpendMicros).Ok?
                  && c.activeAfterwards && ReadCost(ledger) > maxSpendMicros)
      ensures r == Err(TransportFailed) <==> Starts(old(ledger), c, maxSpendMicros) && c.turn.None?
      ensures r.Err? && r.error !in {Cancelled, OverBudget, TransportFailed} <==>
              Starts(old(ledger), c, maxSpendMicros) && c.turn.Some? && UsageDelta(c.turn.value).Err?
    {
      if !c.activeAtStart {
        return Err(Cancelled);
      }
      var withinBudget := CheckDurableBudget(true);
      if !withinBudget {
        return Err(OverBudget);
      }
      ReserveUsage(c.requestId, c.token);
      if !c.activeBeforeTransport {
        return Err(Cancelled);
      }
      if c.turn.None? {
        return Err(TransportFailed);
      }
      var usage := UsageDelta(c.turn.value);
      if usage.Err? {
        return Err(usage.error);
      }
      ReservedLast(old(ledger), Entry(c.requestId, c.token, false, NO_USAGE));
      var settled := Settle(ledger, c.requestId, c.token, usage.value);
      ledger := settled.value;
      assert ledger == old(ledger) + [Entry(c.requestId, c.token, true, usage.value)];
      if !c.activeAfterwards {
        return Err(Cancelled);
      }
      withinBudget := CheckDurableBudget(false);
      if !withinBudget {
        return Err(OverBudget);
      }
      r := usage;
    }
  }

  lemma {:induction false} ReservedLast(ledger: seq<Entry>, e: Entry)
    requires EntryIndex(ledger, e.requestId) == |ledger|
    ensures EntryIndex(ledger + [e], e.requestId) == |ledger|
  {
    if ledger != [] {
      ReservedLast(ledger[1..], e);
      assert (ledger + [e])[1..] == ledger[1..] + [e];
    }
  }
}
