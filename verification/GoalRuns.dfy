/** What holds over whole runs of the goal machine. */
module GoalRuns {
  import opened Common
  import opened GoalManager

  // ------------------------------------------------------- canonical states

  predicate RunPhase(phase: GoalStatus) {
    phase == Pending || phase == Active || phase == Claimed
  }

  function StatusAt(k: nat, phase: GoalStatus, i: nat): GoalStatus {
    if i < k then Verified else if i == k then phase else Pending
  }

  /** The graph with its first `k` goals verified, goal `k` in `phase` and the rest pending. */
  function StateAt(start: GoalGraph, k: nat, phase: GoalStatus): (g: GoalGraph)
    ensures |g.goals| == |start.goals|
  {
    start.(goals := seq(|start.goals|,
                        i requires 0 <= i < |start.goals| => start.goals[i].(status := StatusAt(k, phase, i))),
           status := if k < |start.goals| then GraphActive else GraphVerified)
  }

  /** A materialised graph: topologically ordered, at least one goal, everything pending. */
  ghost predicate Initial(g: GoalGraph) {
    && Topological(g.goals) && |g.goals| > 0 && g.status == GraphActive
    && forall i :: 0 <= i < |g.goals| ==> g.goals[i].status == Pending
  }

  lemma InitialIsCanonical(start: GoalGraph)
    requires Initial(start)
    ensures StateAt(start, 0, Pending) == start
  {
  }

  lemma {:induction false} NoCurrent(goals: seq<Goal>)
    requires forall i :: 0 <= i < |goals| ==> goals[i].status !in {Active, Claimed}
    ensures CurrentGoals(goals) == []
  {
    if goals != [] {
      NoCurrent(goals[..|goals| - 1]);
    }
  }

  lemma {:induction false} OneCurrent(goals: seq<Goal>, k: nat)
    requires k < |goals| && goals[k].status in {Active, Claimed}
    requires forall i :: 0 <= i < |goals| && i != k ==> goals[i].status !in {Active, Claimed}
    ensures CurrentGoals(goals) == [goals[k]]
  {
    if k == |goals| - 1 {
      NoCurrent(goals[..k]);
    } else {
      OneCurrent(goals[..|goals| - 1], k);
    }
  }

  lemma {:induction false} NoMatch(goals: seq<Goal>, id: string)
    requires forall i :: 0 <= i < |goals| ==> goals[i].id != id
    ensures Matching(goals, id) == []
  {
    if goals != [] {
      NoMatch(goals[..|goals| - 1], id);
    }
  }

  lemma {:induction false} OneMatch(goals: seq<Goal>, k: nat)
    requires UniqueIds(goals) && k < |goals|
    ensures Matching(goals, goals[k].id) == [goals[k]]
  {
    if k == |goals| - 1 {
      NoMatch(goals[..k], goals[k].id);
    } else {
      OneMatch(goals[..|goals| - 1], k);
    }
  }

  lemma {:induction false} WithStatusAt(goals: seq<Goal>, k: nat, target: GoalStatus)
    requires UniqueIds(goals) && k < |goals|
    ensures WithStatus(goals, goals[k].id, target) == goals[k := goals[k].(status := target)]
  {
    var changed := goals[k].(status := target);
    if k == 0 {
      UpdateHead(goals, changed);
    } else {
      assert goals[0].id != goals[k].id;
      WithStatusAt(goals[1..], k - 1, target);
      UpdateTail(goals, k, changed);
    }
  }

  lemma UpdateHead(goals: seq<Goal>, x: Goal)
    requires goals != []
    ensures [x] + goals[1..] == goals[0 := x]
  {
  }

  lemma UpdateTail(goals: seq<Goal>, k: nat, x: Goal)
    requires 0 < k < |goals|
    ensures [goals[0]] + goals[1..][k - 1 := x] == goals[k := x]
  {
  }

  lemma CurrentAt(start: GoalGraph, k: nat, phase: GoalStatus)
    requires k <= |start.goals| && RunPhase(phase) && (k == |start.goals| ==> phase == Pending)
    ensures var g := StateAt(start, k, phase);
            SingleCurrentGoal(g) == Ok(if phase == Pending then None else Some(g.goals[k]))
  {
    var g := StateAt(start, k, phase);
    if phase == Pending {
      NoCurrent(g.goals);
    } else {
      OneCurrent(g.goals, k);
    }
  }

  lemma VerifiedAt(start: GoalGraph, k: nat, phase: GoalStatus)
    requires Topological(start.goals) && k <= |start.goals| && RunPhase(phase)
    ensures VerifiedIds(StateAt(start, k, phase).goals) == set i | 0 <= i < k :: start.goals[i].id
    ensures forall i :: 0 <= i <= k && i < |start.goals| ==>
            DependenciesIn(start.goals[i], VerifiedIds(StateAt(start, k, phase).goals))
  {
    var g := StateAt(start, k, phase);
    forall id ensures id in VerifiedIds(g.goals) <==> id in set i | 0 <= i < k :: start.goals[i].id {
      if id in (set i | 0 <= i < k :: start.goals[i].id) {
        var i :| 0 <= i < k && start.goals[i].id == id;
        assert g.goals[i].status == Verified;
      }
    }
    forall i | 0 <= i <= k && i < |start.goals| ensures DependenciesIn(start.goals[i], VerifiedIds(g.goals)) {
      assert DependsEarlier(start.goals, i);
    }
  }

  lemma TopologyIgnoresStatus(start: GoalGraph, k: nat, phase: GoalStatus)
    requires Topological(start.goals)
    ensures Topological(StateAt(start, k, phase).goals)
  {
    var goals := StateAt(start, k, phase).goals;
    forall i | 0 <= i < |goals| ensures DependsEarlier(goals, i) {
      assert DependsEarlier(start.goals, i);
      forall d | d in goals[i].dependsOn ensures exists j :: 0 <= j < i && goals[j].id == d {
        var j :| 0 <= j < i && start.goals[j].id == d;
        assert goals[j].id == d;
      }
    }
  }

  /** Changing goal `k` from one phase to the next reaches the canonical state it should. */
  lemma ReplaceAt(start: GoalGraph, k: nat, phase: GoalStatus, target: GoalStatus)
    requires Initial(start) && k < |start.goals| && RunPhase(phase)
    requires CanTransitionGoal(phase, target) && (RunPhase(target) || target == Verified)
    ensures var g := StateAt(start, k, phase);
            ReplaceGoalStatus(g, start.goals[k].id, target,
                              if target == Verified && k + 1 == |start.goals| then Some(GraphVerified) else None)
            == Ok(if target == Verified then StateAt(start, k + 1, Pending) else StateAt(start, k, target))
  {
    var g := StateAt(start, k, phase);
    TopologyIgnoresStatus(start, k, phase);
    OneMatch(g.goals, k);
    WithStatusAt(g.goals, k, target);
    var t := if target == Verified then StateAt(start, k + 1, Pending) else StateAt(start, k, target);
    assert WithStatus(g.goals, start.goals[k].id, target) == t.goals;
    if target == Verified {
      TopologyIgnoresStatus(start, k + 1, Pending);
      CurrentAt(start, k + 1, Pending);
    } else {
      TopologyIgnoresStatus(start, k, target);
      CurrentAt(start, k, target);
    }
  }

  lemma SelectAt(start: GoalGraph, k: nat)
    requires Initial(start) && k < |start.goals|
    ensures SelectExecutableGoal(StateAt(start, k, Pending)) == Ok(Some(StateAt(start, k, Pending).goals[k]))
  {
    var g := StateAt(start, k, Pending);
    CurrentAt(start, k, Pending);
    VerifiedAt(start, k, Pending);
    var verified := VerifiedIds(g.goals);
    assert DependenciesIn(start.goals[k], verified);
    assert Runnable(g.goals[k], verified);
    var first := FirstRunnable(g.goals, verified);
    var i :| 0 <= i < |g.goals| && g.goals[i] == first.value && Runnable(g.goals[i], verified)
             && forall j :: 0 <= j < i ==> !Runnable(g.goals[j], verified);
    assert i <= k;
    assert i >= k;
  }

  lemma LastAt(start: GoalGraph, k: nat)
    requires Initial(start) && k < |start.goals|
    ensures IsLast(StateAt(start, k, Claimed), start.goals[k].id) <==> k + 1 == |start.goals|
  {
    var g := StateAt(start, k, Claimed);
    if k + 1 < |start.goals| {
      assert g.goals[k + 1].status == Pending && g.goals[k + 1].id != g.goals[k].id;
    }
  }

  // ------------------------------------------------------------------- runs

  datatype Op = Activate | Claim | Retry | Verify

  function Apply(g: GoalGraph, op: Op): Result<GoalGraph, GoalError> {
    match op
    case Activate => ActivateNextGoal(g)
    case Claim => ClaimActiveGoal(g)
    case Retry => RetryClaimedGoal(g)
    case Verify => VerifyClaimedGoal(g)
  }

  /** A raised error leaves the caller's graph as it was. */
  function After(g: GoalGraph, op: Op): GoalGraph {
    match Apply(g, op) case Ok(next) => next case Err(_) => g
  }

  function Run(g: GoalGraph, ops: seq<Op>): GoalGraph {
    if ops == [] then g else After(Run(g, ops[..|ops| - 1]), ops[|ops| - 1])
  }

  /** How many operations of the run changed the graph, and how many of those were retries. */
  function Changes(g: GoalGraph, ops: seq<Op>): nat {
    if ops == [] then 0
    else
      var before := Run(g, ops[..|ops| - 1]);
      Changes(g, ops[..|ops| - 1]) + if After(before, ops[|ops| - 1]) != before then 1 else 0
  }

  function Retries(g: GoalGraph, ops: seq<Op>): nat {
    if ops == [] then 0
    else
      var before := Run(g, ops[..|ops| - 1]);
      Retries(g, ops[..|ops| - 1]) + if ops[|ops| - 1] == Retry && After(before, Retry) != before then 1 else 0
  }

  /** The counter the machine refines: how many goals are verified, and what the next one is doing. */
  datatype Position = Position(k: nat, phase: GoalStatus)

  function Move(n: nat, p: Position, op: Op): Position {
    match op
    case Activate => if p.k < n && p.phase == Pending then p.(phase := Active) else p
    case Claim => if p.phase == Active then p.(phase := Claimed) else p
    case Retry => if p.phase == Claimed then p.(phase := Active) else p
    case Verify => if p.phase == Claimed then Position(p.k + 1, Pending) else p
  }

  predicate OnTrack(n: nat, p: Position) {
    p.k <= n && RunPhase(p.phase) && (p.k == n ==> p.phase == Pending)
  }

  function PositionAfter(n: nat, ops: seq<Op>): Position {
    if ops == [] then Position(0, Pending) else Move(n, PositionAfter(n, ops[..|ops| - 1]), ops[|ops| - 1])
  }

  /** One operation of the machine is one move of the counter; it raises exactly when there is no such move. */
  lemma OpRefinesMove(start: GoalGraph, p: Position, op: Op)
    requires Initial(start) && OnTrack(|start.goals|, p)
    ensures var n, g, q := |start.goals|, StateAt(start, p.k, p.phase), Move(|start.goals|, p, op);
            && OnTrack(n, q) && After(g, op) == StateAt(start, q.k, q.phase)
            && (Apply(g, op).Err? <==> q == p && !(op == Activate && p.phase != Pending))
            && (After(g, op) != g <==> q != p)
  {
    var n, g := |start.goals|, StateAt(start, p.k, p.phase);
    var q := Move(n, p, op);
    CurrentAt(start, p.k, p.phase);
    VerifiedAt(start, p.k, p.phase);
    if p.k < n {
      assert g.goals[p.k].id == start.goals[p.k].id && g.goals[p.k].dependsOn == start.goals[p.k].dependsOn;
      match op {
        case Activate =>
          if p.phase == Pending {
            SelectAt(start, p.k);
            ReplaceAt(start, p.k, Pending, Active);
          } else {
            assert DependenciesIn(start.goals[p.k], VerifiedIds(g.goals));
          }
        case Claim => if p.phase == Active { ReplaceAt(start, p.k, Active, Claimed); }
        case Retry => if p.phase == Claimed { ReplaceAt(start, p.k, Claimed, Active); }
        case Verify => if p.phase == Claimed { LastAt(start, p.k); ReplaceAt(start, p.k, Claimed, Verified); }
      }
      assert q != p ==> StateAt(start, q.k, q.phase).goals[p.k].status != g.goals[p.k].status;
    }
  }

  lemma {:induction false} RunRefinesCounter(start: GoalGraph, ops: seq<Op>)
    requires Initial(start)
    ensures var n, p := |start.goals|, PositionAfter(|start.goals|, ops);
            && OnTrack(n, p) && Run(start, ops) == StateAt(start, p.k, p.phase)
            && Changes(start, ops) == 3 * p.k + (if p.phase == Active then 1 else if p.phase == Claimed then 2 else 0) +
                 2 * Retries(start, ops)
  {
    if ops == [] {
      InitialIsCanonical(start);
    } else {
      var earlier := ops[..|ops| - 1];
      RunRefinesCounter(start, earlier);
      OpRefinesMove(start, PositionAfter(|start.goals|, earlier), ops[|ops| - 1]);
    }
  }

  // ---------------------------------------------------------------- theorems

  /** Safety of every reachable graph. */
  lemma GoalMachineSafety(start: GoalGraph, ops: seq<Op>)
    requires Initial(start)
    ensures var g := Run(start, ops);
            && |g.goals| == |start.goals|
            && |CurrentGoals(g.goals)| <= 1
            && (forall i :: 0 <= i < |g.goals| && g.goals[i].status in {Active, Claimed, Verified} ==>
                              DependenciesIn(g.goals[i], VerifiedIds(g.goals)))
            && (forall i, j :: 0 <= i < j < |g.goals| && g.goals[j].status == Verified ==>
                g.goals[i].status == Verified)
            && (g.status == GraphVerified <==> forall i :: 0 <= i < |g.goals| ==> g.goals[i].status == Verified)
            && g.status in {GraphActive, GraphVerified}
  {
    RunRefinesCounter(start, ops);
    var p := PositionAfter(|start.goals|, ops);
    var g := Run(start, ops);
    CurrentAt(start, p.k, p.phase);
    VerifiedAt(start, p.k, p.phase);
    if p.k < |start.goals| {
      assert g.goals[p.k].status != Verified;
    }
    forall i | 0 <= i < |g.goals| && g.goals[i].status in {Active, Claimed, Verified}
      ensures DependenciesIn(g.goals[i], VerifiedIds(g.goals))
    {
      assert i <= p.k && DependenciesIn(start.goals[i], VerifiedIds(g.goals));
    }
  }

  /** A verified goal stays verified for the rest of the run. */
  lemma {:induction false} VerifiedNeverRegresses(start: GoalGraph, ops: seq<Op>, m: nat, i: nat)
    requires Initial(start) && m <= |ops| && i < |start.goals|
    requires i < |Run(start, ops[..m]).goals| && Run(start, ops[..m]).goals[i].status == Verified
    ensures i < |Run(start, ops).goals| && Run(start, ops).goals[i].status == Verified
    decreases |ops|
  {
    if m == |ops| {
      assert ops[..m] == ops;
    } else {
      var earlier := ops[..|ops| - 1];
      assert earlier[..m] == ops[..m];
      VerifiedNeverRegresses(start, earlier, m, i);
      RunRefinesCounter(start, earlier);
      RunRefinesCounter(start, ops);
    }
  }

  /** A goal is only ever promoted when everything it depends on was promoted before it. */
  lemma VerificationOrderExtendsDependencies(start: GoalGraph, ops: seq<Op>, op: Op, i: nat)
    requires Initial(start) && i < |start.goals|
    requires i < |Run(start, ops).goals| && Run(start, ops).goals[i].status != Verified
    requires i < |After(Run(start, ops), op).goals| && After(Run(start, ops), op).goals[i].status == Verified
    ensures op == Verify && DependenciesIn(start.goals[i], VerifiedIds(Run(start, ops).goals))
  {
    RunRefinesCounter(start, ops);
    var p := PositionAfter(|start.goals|, ops);
    OpRefinesMove(start, p, op);
    VerifiedAt(start, p.k, p.phase);
  }

  /** While anything is unverified the next activation succeeds. */
  lemma NeverBlocked(start: GoalGraph, ops: seq<Op>)
    requires Initial(start)
    ensures var g := Run(start, ops);
            ActivateNextGoal(g).Ok? <==> exists i :: 0 <= i < |g.goals| && g.goals[i].status != Verified
  {
    RunRefinesCounter(start, ops);
    var p := PositionAfter(|start.goals|, ops);
    OpRefinesMove(start, p, Activate);
    var g := Run(start, ops);
    if p.k < |start.goals| {
      assert g.goals[p.k].status != Verified;
    }
  }

  /** A run is verified after exactly three changes a goal plus two a retry, and never makes more. */
  lemma ExactStepCount(start: GoalGraph, ops: seq<Op>)
    requires Initial(start)
    ensures Run(start, ops).status == GraphVerified <==>
            Changes(start, ops) == 3 * |start.goals| + 2 * Retries(start, ops)
    ensures Changes(start, ops) <= 3 * |start.goals| + 2 * Retries(start, ops)
  {
    RunRefinesCounter(start, ops);
  }

  // ------------------------------------------- selection on any acyclic graph

  /** Every dependency names a goal of strictly smaller rank. */
  ghost predicate Ranked(goals: seq<Goal>, rank: string -> nat) {
    forall i, d :: 0 <= i < |goals| && d in goals[i].dependsOn ==>
                     rank(d) < rank(goals[i].id) && exists j :: 0 <= j < |goals| && goals[j].id == d
  }

  /** Whatever its order, an acyclic graph with a pending goal always has a runnable one. */
  lemma {:induction false} AcyclicHasRunnable(goals: seq<Goal>, rank: string -> nat, i: nat) returns (r: nat)
    requires Ranked(goals, rank) && i < |goals| && goals[i].status == Pending
    requires forall k :: 0 <= k < |goals| ==> goals[k].status in {Pending, Verified}
    ensures r < |goals| && Runnable(goals[r], VerifiedIds(goals))
    decreases rank(goals[i].id)
  {
    if DependenciesIn(goals[i], VerifiedIds(goals)) {
      r := i;
    } else {
      var d :| d in goals[i].dependsOn && d !in VerifiedIds(goals);
      var j :| 0 <= j < |goals| && goals[j].id == d;
      r := AcyclicHasRunnable(goals, rank, j);
    }
  }

  lemma SelectionNeverBlocksWhenAcyclic(g: GoalGraph, rank: string -> nat)
    requires g.status == GraphActive && Ranked(g.goals, rank) && CurrentGoals(g.goals) == []
    requires forall k :: 0 <= k < |g.goals| ==> g.goals[k].status in {Pending, Verified}
    ensures match SelectExecutableGoal(g)
            case Ok(Some(goal)) => goal in g.goals && Runnable(goal, VerifiedIds(g.goals))
            case Ok(None) => forall k :: 0 <= k < |g.goals| ==> g.goals[k].status == Verified
            case Err(_) => false
  {
    if i :| 0 <= i < |g.goals| && g.goals[i].status == Pending {
      var r := AcyclicHasRunnable(g.goals, rank, i);
    }
  }
}
