/** What the spend limit of a run guarantees, and when. */
module SpendLimit {
  // The budget checks read no spend at all while a reservation of the run is unsettled, and nothing ever settles one
  // whose turn was cancelled, whose worker died or whose statistics were refused. So the limit bounds the overspend to
  // one turn as long as every turn that was reserved has been settled, and not any longer.

  import opened Common
  import opened UsageLedger

  /** The run's ledger after these calls of all its sessions, from what was durable before. */
  function LedgerAfterAll(durable: seq<Entry>, calls: seq<Call>, limit: int): seq<Entry> {
    if calls == [] then durable
    else LedgerAfter(LedgerAfterAll(durable, calls[..|calls| - 1], limit), calls[|calls| - 1], limit)
  }

  /** The ledger that the `k`-th call finds. */
  function LedgerBefore(durable: seq<Entry>, calls: seq<Call>, limit: int, k: nat): seq<Entry>
    requires k <= |calls|
  {
    LedgerAfterAll(durable, calls[..k], limit)
  }

  function Spent(durable: seq<Entry>, calls: seq<Call>, limit: int): int {
    TotalCost(LedgerAfterAll(durable, calls, limit))
  }

  /** The spend that the `k`-th call finds. */
  function SpentBefore(durable: seq<Entry>, calls: seq<Call>, limit: int, k: nat): int
    requires k <= |calls|
  {
    TotalCost(LedgerBefore(durable, calls, limit, k))
  }

  /** What the `k`-th call adds to the spend. */
  function Charge(durable: seq<Entry>, calls: seq<Call>, limit: int, k: nat): int
    requires k < |calls|
  {
    match Charged(LedgerBefore(durable, calls, limit, k), calls[k], limit) case Ok(u) => u.costMicros case Err(_) => 0
  }

  /** The `k`-th call reserves a turn and never settles it. */
  predicate Abandons(durable: seq<Entry>, calls: seq<Call>, limit: int, k: nat)
    requires k < |calls|
  {
    var before := LedgerBefore(durable, calls, limit, k);
    calls[k].activeAtStart && ReadCost(before) < limit && Charged(before, calls[k], limit).Err?
  }

  /** Something was left unsettled before the `n`-th call. */
  predicate LeftUnsettled(durable: seq<Entry>, calls: seq<Call>, limit: int, n: nat)
    requires n <= |calls|
  {
    !Complete(durable) || exists k :: 0 <= k < n && Abandons(durable, calls, limit, k)
  }

  // -------------------------------------------------------------- one call

  lemma ChargeAddsItsCost(ledger: seq<Entry>, c: Call, limit: int)
    ensures TotalCost(LedgerAfter(ledger, c, limit)) ==
            TotalCost(ledger) + (match Charged(ledger, c, limit) case Ok(u) => u.costMicros case Err(_) => 0)
    ensures TotalCost(LedgerAfter(ledger, c, limit)) >= TotalCost(ledger)
    ensures TotalCost(LedgerAfter(ledger, c, limit)) > TotalCost(ledger) ==> Starts(ledger, c, limit)
  {
    var after := LedgerAfter(ledger, c, limit);
    if after != ledger {
      assert after[..|after| - 1] == ledger;
    }
  }

  lemma CallKeepsUnsettled(ledger: seq<Entry>, c: Call, limit: int)
    ensures Complete(LedgerAfter(ledger, c, limit)) <==>
            Complete(ledger) && !(c.activeAtStart && ReadCost(ledger) < limit && Charged(ledger, c, limit).Err?)
  {
    var after := LedgerAfter(ledger, c, limit);
    if after != ledger {
      assert after[..|ledger|] == ledger;
      if Complete(after) {
        assert forall i :: 0 <= i < |ledger| ==> after[i] == ledger[i];
        assert after[|ledger|].settled;
      } else if Complete(ledger) {
        var i :| 0 <= i < |after| && !after[i].settled;
        assert i == |ledger|;
      }
    }
  }

  // ------------------------------------------------------------- whole runs

  lemma NextLedger(durable: seq<Entry>, calls: seq<Call>, limit: int, k: nat)
    requires k < |calls|
    ensures LedgerBefore(durable, calls, limit, k + 1) ==
            LedgerAfter(LedgerBefore(durable, calls, limit, k), calls[k], limit)
  {
    assert calls[..k + 1][..k] == calls[..k];
  }

  lemma NextSpent(durable: seq<Entry>, calls: seq<Call>, limit: int, k: nat)
    requires k < |calls|
    ensures SpentBefore(durable, calls, limit, k + 1) ==
            SpentBefore(durable, calls, limit, k) + Charge(durable, calls, limit, k)
    ensures Charge(durable, calls, limit, k) >= 0
    ensures Charge(durable, calls, limit, k) > 0 ==> Starts(LedgerBefore(durable, calls, limit, k), calls[k], limit)
  {
    NextLedger(durable, calls, limit, k);
    ChargeAddsItsCost(LedgerBefore(durable, calls, limit, k), calls[k], limit);
  }

  /** Settled spend never goes down. */
  lemma {:induction false} SpendIsMonotone(durable: seq<Entry>, calls: seq<Call>, limit: int, m: nat, n: nat)
    requires m <= n <= |calls|
    ensures SpentBefore(durable, calls, limit, m) <= SpentBefore(durable, calls, limit, n)
    decreases n
  {
    if m < n {
      SpendIsMonotone(durable, calls, limit, m, n - 1);
      NextSpent(durable, calls, limit, n - 1);
    }
  }

  /** The ledger of a run is complete exactly as long as nothing was left unsettled. */
  lemma {:induction false} UnsettledExactlyWhen(durable: seq<Entry>, calls: seq<Call>, limit: int, n: nat)
    requires n <= |calls|
    ensures Complete(LedgerBefore(durable, calls, limit, n)) <==> !LeftUnsettled(durable, calls, limit, n)
    decreases n
  {
    if n > 0 {
      UnsettledExactlyWhen(durable, calls, limit, n - 1);
      NextLedger(durable, calls, limit, n - 1);
      CallKeepsUnsettled(LedgerBefore(durable, calls, limit, n - 1), calls[n - 1], limit);
      if Abandons(durable, calls, limit, n - 1) {
        assert LeftUnsettled(durable, calls, limit, n);
      }
    }
  }

  /** Over every run: a turn starts with the spend at or over the limit if and only if something was left unsettled. */
  lemma StartsOverLimitExactlyWhen(durable: seq<Entry>, calls: seq<Call>, limit: int, j: nat)
    requires j < |calls| && SpentBefore(durable, calls, limit, j) >= limit
    ensures Starts(LedgerBefore(durable, calls, limit, j), calls[j], limit) <==>
            limit > 0 && Active(calls[j]) && LeftUnsettled(durable, calls, limit, j)
  {
    UnsettledExactlyWhen(durable, calls, limit, j);
  }

  /** The i-th call of the run takes the settled spend from below the limit to it or past it. */
  predicate Crosses(durable: seq<Entry>, calls: seq<Call>, limit: int, i: nat)
    requires i < |calls|
  {
    SpentBefore(durable, calls, limit, i) < limit <= SpentBefore(durable, calls, limit, i + 1)
  }

  /** At most one turn of a run crosses the limit; after it one starts if and only if something was left unsettled. */
  lemma AtMostOneTurnCrosses(durable: seq<Entry>, calls: seq<Call>, limit: int, i: nat, j: nat)
    requires i < j < |calls| && Crosses(durable, calls, limit, i)
    ensures !Crosses(durable, calls, limit, j)
    ensures Starts(LedgerBefore(durable, calls, limit, j), calls[j], limit) <==>
            limit > 0 && Active(calls[j]) && LeftUnsettled(durable, calls, limit, j)
  {
    SpendIsMonotone(durable, calls, limit, i + 1, j);
    StartsOverLimitExactlyWhen(durable, calls, limit, j);
  }

  /** A run that ends at or over the limit, and was below it before, crosses it with a turn that started. */
  lemma {:induction false} SomeTurnCrosses(durable: seq<Entry>, calls: seq<Call>, limit: int, n: nat) returns (i: nat)
    requires n <= |calls| && TotalCost(durable) < limit <= SpentBefore(durable, calls, limit, n)
    ensures i < n && Crosses(durable, calls, limit, i)
    ensures Starts(LedgerBefore(durable, calls, limit, i), calls[i], limit)
    decreases n
  {
    assert n > 0;
    NextSpent(durable, calls, limit, n - 1);
    if SpentBefore(durable, calls, limit, n - 1) >= limit {
      i := SomeTurnCrosses(durable, calls, limit, n - 1);
    } else {
      i := n - 1;
    }
  }

  /** The turn the `k`-th call would have settled costs something. */
  predicate Costs(c: Call) {
    c.turn.Some? && UsageDelta(c.turn.value).Ok? && UsageDelta(c.turn.value).value.costMicros > 0
  }

  /** Over the limit a call adds to the spend exactly when it is active, costs something and follows a lost turn. */
  lemma ChargesOverLimitExactlyWhen(durable: seq<Entry>, calls: seq<Call>, limit: int, k: nat)
    requires limit > 0 && k < |calls| && SpentBefore(durable, calls, limit, k) >= limit
    ensures Charge(durable, calls, limit, k) > 0 <==>
            Active(calls[k]) && Costs(calls[k]) && LeftUnsettled(durable, calls, limit, k)
  {
    UnsettledExactlyWhen(durable, calls, limit, k);
  }

  /** A call that spends more behind the turn that crossed. */
  predicate SpendsMore(durable: seq<Entry>, calls: seq<Call>, limit: int, i: nat, n: nat)
    requires i <= n <= |calls|
  {
    exists k :: i < k < n && Active(calls[k]) && Costs(calls[k]) && LeftUnsettled(durable, calls, limit, k)
  }

  lemma SpendsMoreNext(durable: seq<Entry>, calls: seq<Call>, limit: int, i: nat, n: nat)
    requires i < n < |calls|
    ensures SpendsMore(durable, calls, limit, i, n + 1) <==>
            SpendsMore(durable, calls, limit, i, n)
            || (Active(calls[n]) && Costs(calls[n]) && LeftUnsettled(durable, calls, limit, n))
  {
  }

  lemma AddsUp(first: int, middle: int, charge: int, before: bool, now: bool)
    requires first <= middle && 0 <= charge && (first < middle <==> before) && (0 < charge <==> now)
    ensures first <= middle + charge && (first < middle + charge <==> before || now)
  {
  }

  lemma {:induction false} SpendBehind(durable: seq<Entry>, calls: seq<Call>, limit: int, i: nat, n: nat)
    requires limit > 0 && i < n <= |calls| && Crosses(durable, calls, limit, i)
    ensures SpentBefore(durable, calls, limit, i + 1) <= SpentBefore(durable, calls, limit, n)
    ensures SpentBefore(durable, calls, limit, i + 1) < SpentBefore(durable, calls, limit, n) <==>
            SpendsMore(durable, calls, limit, i, n)
    decreases n
  {
    if i + 1 < n {
      SpendBehind(durable, calls, limit, i, n - 1);
      NextSpent(durable, calls, limit, n - 1);
      ChargesOverLimitExactlyWhen(durable, calls, limit, n - 1);
      SpendsMoreNext(durable, calls, limit, i, n - 1);
      AddsUp(SpentBefore(durable, calls, limit, i + 1), SpentBefore(durable, calls, limit, n - 1),
             Charge(durable, calls, limit, n - 1), SpendsMore(durable, calls, limit, i, n - 1),
             Active(calls[n - 1]) && Costs(calls[n - 1]) && LeftUnsettled(durable, calls, limit, n - 1));
    }
  }

  /**
   A run over the limit got past it in one turn: its final spend is what was below the limit plus that turn, if and only
   if no later call was active, cost something and came after a turn that was left unsettled.
   */
  lemma OverspendIsOneTurn(durable: seq<Entry>, calls: seq<Call>, limit: int) returns (i: nat)
    requires TotalCost(durable) < limit <= Spent(durable, calls, limit) && limit > 0
    ensures i < |calls| && Crosses(durable, calls, limit, i)
    ensures Starts(LedgerBefore(durable, calls, limit, i), calls[i], limit)
    ensures Spent(durable, calls, limit) ==
            SpentBefore(durable, calls, limit, i) + Charge(durable, calls, limit, i) <==>
            !SpendsMore(durable, calls, limit, i, |calls|)
  {
    assert calls[..|calls|] == calls;
    i := SomeTurnCrosses(durable, calls, limit, |calls|);
    NextSpent(durable, calls, limit, i);
    SpendBehind(durable, calls, limit, i, |calls|);
  }

  /** While every reserved turn was settled the overspend is one turn, and no later turn starts. */
  lemma SettledRunOverspendsOneTurn(durable: seq<Entry>, calls: seq<Call>, limit: int) returns (i: nat)
    requires limit > 0 && TotalCost(durable) < limit <= Spent(durable, calls, limit)
    requires !LeftUnsettled(durable, calls, limit, |calls|)
    ensures i < |calls| && Crosses(durable, calls, limit, i)
    ensures Spent(durable, calls, limit) ==
            SpentBefore(durable, calls, limit, i) + Charge(durable, calls, limit, i)
    ensures forall j :: i < j < |calls| ==> !Starts(LedgerBefore(durable, calls, limit, j), calls[j], limit)
  {
    i := OverspendIsOneTurn(durable, calls, limit);
    forall j | i < j < |calls| ensures !Starts(LedgerBefore(durable, calls, limit, j), calls[j], limit) {
      AtMostOneTurnCrosses(durable, calls, limit, i, j);
    }
  }

  // ------------------------------------------------------ the limit does fail

  /** A turn that is reserved and then lost with its worker. */
  const LOST := Call("lost", "token", true, true, None, true)

  /** A turn that costs the whole limit. */
  function Whole(limit: nat, k: nat): Call {
    var cost := limit as real / 1000000.0;
    Call(seq(k, _ => 'r'), "token", true, true,
         Some(Turn(None, Some(Stats(ZERO_STATS.tokens, Number(0.0), Number(cost))))), true)
  }

  function WholeTurns(limit: nat, n: nat): seq<Call> {
    if n == 0 then [LOST] else WholeTurns(limit, n - 1) + [Whole(limit, n)]
  }

  lemma WholeCosts(limit: nat, k: nat)
    ensures UsageDelta(Whole(limit, k).turn.value) == Ok(Usage(0, 0, 0, 0, 0, limit))
  {
    var cost := limit as real / 1000000.0;
    assert Micros(cost - 0.0) == limit as real;
  }

  /** All of `n` whole turns after a lost one have started and spent the limit, and the next key has the full budget. */
  ghost predicate Overspent(limit: nat, n: nat) {
    var calls := WholeTurns(limit, n);
    && |calls| == n + 1 && Spent([], calls, limit) == n * limit && !Complete(LedgerAfterAll([], calls, limit))
    && RemainingSpendBudget(LedgerAfterAll([], calls, limit), limit) == Ok(limit)
    && forall k :: 0 <= k <= n ==> Starts(LedgerBefore([], calls, limit, k), calls[k], limit)
  }

  lemma LostTurnStarts(limit: nat)
    requires limit > 0
    ensures Overspent(limit, 0)
  {
    assert [LOST][..0] == [];
    var ledger := LedgerAfter([], LOST, limit);
    assert LedgerAfterAll([], [LOST], limit) == ledger;
    assert ledger == [Entry("lost", "token", false, NO_USAGE)];
    assert ledger[..0] == [];
    assert !ledger[0].settled;
  }

  /** On an incomplete ledger a whole turn starts, adds the limit, and leaves the ledger incomplete. */
  lemma WholeTurnStarts(ledger: seq<Entry>, limit: nat, k: nat)
    requires limit > 0 && !Complete(ledger)
    ensures Starts(ledger, Whole(limit, k), limit)
    ensures TotalCost(LedgerAfter(ledger, Whole(limit, k), limit)) == TotalCost(ledger) + limit
    ensures !Complete(LedgerAfter(ledger, Whole(limit, k), limit))
  {
    WholeCosts(limit, k);
    ChargeAddsItsCost(ledger, Whole(limit, k), limit);
    CallKeepsUnsettled(ledger, Whole(limit, k), limit);
  }

  lemma OneMore(limit: nat, n: nat)
    ensures (n + 1) * limit == n * limit + limit
  {
  }

  lemma OneMoreTurn(limit: nat, n: nat)
    requires limit > 0 && Overspent(limit, n)
    ensures Overspent(limit, n + 1)
  {
    var earlier, last, calls := WholeTurns(limit, n), Whole(limit, n + 1), WholeTurns(limit, n + 1);
    assert calls[..|calls| - 1] == earlier;
    WholeTurnStarts(LedgerAfterAll([], earlier, limit), limit, n + 1);
    OneMore(limit, n);
    forall k | 0 <= k <= n + 1 ensures Starts(LedgerBefore([], calls, limit, k), calls[k], limit) {
      if k <= n {
        assert calls[..k] == earlier[..k] && calls[k] == earlier[k];
      }
    }
  }

  /** The overspend is unbounded: after one lost turn any number of turns start, each of the whole limit. */
  lemma {:induction false} OverspendIsUnbounded(limit: nat, n: nat)
    requires limit > 0
    ensures Overspent(limit, n)
  {
    if n == 0 {
      LostTurnStarts(limit);
    } else {
      OverspendIsUnbounded(limit, n - 1);
      OneMoreTurn(limit, n - 1);
    }
  }
}
