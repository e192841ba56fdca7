/** What the operations of the goal machine do to any graph at all, reachable or not. */
module GoalGraphs {
  import opened Common
  import opened GoalManager
  import opened GoalRuns

  // ------------------------------------------------------- status histories

  ghost predicate GoalHistory(path: seq<GoalStatus>) {
    path != [] && path[0] == Pending && forall k :: 0 < k < |path| ==> CanTransitionGoal(path[k - 1], path[k])
  }

  /**
   Along every path through the transition table a goal is verified only straight after a claim and claimed only
   straight after it was active; it is never pending again; and verified, failed and superseded are where a path ends.
   */
  lemma GoalHistoriesAreOrderly(path: seq<GoalStatus>, k: nat)
    requires GoalHistory(path) && k < |path|
    ensures path[k] == Pending <==> k == 0
    ensures path[k] == Verified ==> k >= 3 && path[k - 1] == Claimed
    ensures path[k] == Claimed ==> k >= 2 && path[k - 1] == Active
    ensures path[k] == Active ==> k == 1 || path[k - 1] == Claimed
    ensures path[k] == GoalStatus.Failed ==> k >= 2 && path[k - 1] in {Active, Claimed}
    ensures path[k] in {Verified, GoalStatus.Failed, Superseded} ==> k + 1 == |path|
  {
    if k > 0 {
      assert CanTransitionGoal(path[k - 1], path[k]);
    }
    if k > 1 {
      assert CanTransitionGoal(path[k - 2], path[k - 1]);
    }
    if k > 2 {
      assert CanTransitionGoal(path[k - 3], path[k - 2]);
    }
    if k + 1 < |path| {
      assert CanTransitionGoal(path[k], path[k + 1]);
    }
  }

  /** A graph changes its status once, from active to something else. */
  lemma GraphHistoriesEndAtOnce(path: seq<GraphStatus>)
    requires path != [] && forall k :: 0 < k < |path| ==> CanTransitionGraph(path[k - 1], path[k])
    ensures |path| <= 2 && (|path| == 2 ==> path[0] == GraphActive != path[1])
  {
    if |path| > 1 {
      assert CanTransitionGraph(path[0], path[1]);
      assert |path| > 2 ==> CanTransitionGraph(path[1], path[2]);
    }
  }

  // ---------------------------------------------------------------- refusals

  ghost predicate IsCurrent(g: GoalGraph, i: nat) {
    i < |g.goals| && g.goals[i].status in {Active, Claimed}
  }

  lemma {:induction false} CurrentGoalsAre(goals: seq<Goal>)
    ensures forall x :: x in CurrentGoals(goals) <==> x in goals && x.status in {Active, Claimed}
  {
    if goals != [] {
      CurrentGoalsAre(goals[..|goals| - 1]);
      assert goals == goals[..|goals| - 1] + [goals[|goals| - 1]];
    }
  }

  lemma {:induction false} TwoCurrent(goals: seq<Goal>, i: nat, j: nat)
    requires i < j < |goals| && goals[i].status in {Active, Claimed} && goals[j].status in {Active, Claimed}
    ensures |CurrentGoals(goals)| > 1
  {
    var earlier := goals[..|goals| - 1];
    if j < |earlier| {
      TwoCurrent(earlier, i, j);
    } else {
      CurrentGoalsAre(earlier);
      assert earlier[i] in earlier;
      assert earlier[i] in CurrentGoals(earlier);
    }
  }

  /** A graph that is not active can not be moved, and no suite is built for it. */
  lemma InactiveGraphIsRefused(g: GoalGraph, op: Op, fullReason: Option<ValidationReason>)
    requires g.status != GraphActive
    ensures GoalRuns.Apply(g, op) == Err(if op == Activate then GoalGraphBlocked else GoalManagerError)
    ensures BuildRegressionSuite(g, fullReason) == Err(GoalManagerError)
  {
  }

  /** Nor can an active one with two current goals. */
  lemma ConflictingGraphIsRefused(g: GoalGraph, i: nat, j: nat, op: Op, fullReason: Option<ValidationReason>)
    requires g.status == GraphActive && i < j && IsCurrent(g, i) && IsCurrent(g, j)
    ensures GoalRuns.Apply(g, op) == Err(GoalStateConflict)
    ensures BuildRegressionSuite(g, fullReason) == Err(GoalStateConflict)
  {
    TwoCurrent(g.goals, i, j);
  }

  ghost predicate OnlyCurrent(g: GoalGraph, i: nat) {
    g.status == GraphActive && IsCurrent(g, i) && forall j :: 0 <= j < |g.goals| && j != i ==> !IsCurrent(g, j)
  }

  /** With one current goal the wrong operation is refused, and so is going on without its dependencies. */
  lemma WrongOperationIsRefused(g: GoalGraph, i: nat, op: Op, fullReason: Option<ValidationReason>)
    requires OnlyCurrent(g, i)
    ensures op == Activate ==>
              GoalRuns.Apply(g, op) ==
              if g.goals[i].status == Active && !DependenciesIn(g.goals[i], VerifiedIds(g.goals))
              then Err(GoalStateConflict) else Ok(g)
    ensures op == Claim && g.goals[i].status == Claimed ==> GoalRuns.Apply(g, op) == Err(GoalManagerError)
    ensures op in {Retry, Op.Verify} && g.goals[i].status == Active ==> GoalRuns.Apply(g, op) == Err(GoalManagerError)
    ensures g.goals[i].status == Active ==> BuildRegressionSuite(g, fullReason) == Err(GoalManagerError)
  {
    forall j | 0 <= j < |g.goals| && j != i ensures g.goals[j].status !in {Active, Claimed} {
      assert !IsCurrent(g, j);
    }
    OneCurrent(g.goals, i);
  }

  /** With none, only an activation can succeed; it is blocked exactly when no goal is runnable. */
  lemma IdleGraphOnlyActivates(g: GoalGraph, op: Op, fullReason: Option<ValidationReason>)
    requires g.status == GraphActive && forall i :: 0 <= i < |g.goals| ==> !IsCurrent(g, i)
    ensures op != Activate ==> GoalRuns.Apply(g, op) == Err(GoalManagerError)
    ensures BuildRegressionSuite(g, fullReason) == Err(GoalManagerError)
    ensures GoalRuns.Apply(g, Activate) == Err(GoalGraphBlocked) <==>
            forall i :: 0 <= i < |g.goals| ==> !Runnable(g.goals[i], VerifiedIds(g.goals))
  {
    forall i | 0 <= i < |g.goals| ensures g.goals[i].status !in {Active, Claimed} {
      assert !IsCurrent(g, i);
    }
    NoCurrent(g.goals);
    var verified := VerifiedIds(g.goals);
    var first := FirstRunnable(g.goals, verified);
  }

  // ------------------------------------------------------------- what changes

  /** One goal moved along the transition table; its graph is well ordered and has one current goal at most. */
  ghost predicate OneGoalMoved(g: GoalGraph, h: GoalGraph) {
    && |h.goals| == |g.goals| && h.routes == g.routes && h.schemaVersion == g.schemaVersion
    && Topological(h.goals)
    && (forall i, j :: i < j && IsCurrent(h, i) ==> !IsCurrent(h, j))
    && exists i :: 0 <= i < |g.goals| && CanTransitionGoal(g.goals[i].status, h.goals[i].status)
         && h.goals == g.goals[i := g.goals[i].(status := h.goals[i].status)]
  }

  lemma {:induction false} WithStatusOfFirst(goals: seq<Goal>, id: string, target: GoalStatus, i: nat)
    requires i < |goals| && goals[i].id == id && forall j :: 0 <= j < i ==> goals[j].id != id
    ensures WithStatus(goals, id, target) == goals[i := goals[i].(status := target)]
  {
    if i > 0 {
      WithStatusOfFirst(goals[1..], id, target, i - 1);
      UpdateTail(goals, i, goals[i].(status := target));
    } else {
      UpdateHead(goals, goals[0].(status := target));
    }
  }

  lemma {:induction false} SoleMatch(goals: seq<Goal>, id: string) returns (i: nat)
    requires |Matching(goals, id)| == 1
    ensures i < |goals| && goals[i].id == id && Matching(goals, id) == [goals[i]]
    ensures forall j :: 0 <= j < |goals| && j != i ==> goals[j].id != id
  {
    var earlier := goals[..|goals| - 1];
    if goals[|earlier|].id == id {
      i := |earlier|;
      NoneMatches(earlier, id);
    } else {
      i := SoleMatch(earlier, id);
    }
  }

  lemma {:induction false} NoneMatches(goals: seq<Goal>, id: string)
    requires Matching(goals, id) == []
    ensures forall j :: 0 <= j < |goals| ==> goals[j].id != id
  {
    if goals != [] {
      NoneMatches(goals[..|goals| - 1], id);
    }
  }

  lemma AtMostOneCurrent(g: GoalGraph)
    requires SingleCurrentGoal(g).Ok?
    ensures forall i, j :: i < j && IsCurrent(g, i) ==> !IsCurrent(g, j)
  {
    forall i, j | i < j && IsCurrent(g, i) ensures !IsCurrent(g, j) {
      if IsCurrent(g, j) {
        TwoCurrent(g.goals, i, j);
      }
    }
  }

  lemma ReplacementMovesOne(g: GoalGraph, id: string, target: GoalStatus, graphStatus: Option<GraphStatus>)
    requires ReplaceGoalStatus(g, id, target, graphStatus).Ok?
    ensures var h := ReplaceGoalStatus(g, id, target, graphStatus).value;
            OneGoalMoved(g, h) && h.status == if graphStatus.Some? then graphStatus.value else g.status
  {
    var h := ReplaceGoalStatus(g, id, target, graphStatus).value;
    var i := SoleMatch(g.goals, id);
    WithStatusOfFirst(g.goals, id, target, i);
    AtMostOneCurrent(h);
    assert h.goals[i].status == target;
  }

  /**
   Whatever graph an operation is given, what it returns is that graph, or one in which one goal moved along the
   transition table and which is topologically ordered with at most one current goal. The graph's own status changes
   only with a verification, and then all goals are verified.
   */
  lemma OperationsReturnValidGraphs(g: GoalGraph, op: Op)
    requires GoalRuns.Apply(g, op).Ok?
    ensures var h := GoalRuns.Apply(g, op).value;
            && g.status == GraphActive
            && ((op == Activate && h == g) || OneGoalMoved(g, h))
            && (h.status != g.status ==>
                  op == Op.Verify && h.status == GraphVerified
                  && forall i :: 0 <= i < |h.goals| ==> h.goals[i].status == Verified)
  {
    match op {
      case Activate =>
        if GoalRuns.Apply(g, op).value != g {
          ReplacementMovesOne(g, SelectExecutableGoal(g).value.value.id, Active, None);
        }
      case Claim => ReplacementMovesOne(g, CurrentWith(g, Active).value.id, Claimed, None);
      case Retry => ReplacementMovesOne(g, CurrentWith(g, Claimed).value.id, Active, None);
      case Verify =>
        var id := CurrentWith(g, Claimed).value.id;
        ReplacementMovesOne(g, id, Verified, if IsLast(g, id) then Some(GraphVerified) else None);
        if IsLast(g, id) {
          LastVerified(g, id);
        }
    }
  }

  lemma LastVerified(g: GoalGraph, id: string)
    requires IsLast(g, id) && ReplaceGoalStatus(g, id, Verified, Some(GraphVerified)).Ok?
    ensures var h := ReplaceGoalStatus(g, id, Verified, Some(GraphVerified)).value;
            forall i :: 0 <= i < |h.goals| ==> h.goals[i].status == Verified
  {
    var i := SoleMatch(g.goals, id);
    WithStatusOfFirst(g.goals, id, Verified, i);
  }

  /** The status of a goal does not matter to the order of its graph. */
  lemma OrderIgnoresStatus(goals: seq<Goal>, i: nat, status: GoalStatus)
    requires i < |goals| && Topological(goals[i := goals[i].(status := status)])
    ensures Topological(goals)
  {
    var moved := goals[i := goals[i].(status := status)];
    assert forall k :: 0 <= k < |goals| ==> moved[k].id == goals[k].id && moved[k].dependsOn == goals[k].dependsOn;
    assert UniqueIds(goals) by {
      forall j, k | 0 <= j < k < |goals| ensures goals[j].id != goals[k].id {
        assert moved[j].id != moved[k].id;
      }
    }
    forall k | 0 <= k < |goals| ensures DependsEarlier(goals, k) {
      assert DependsEarlier(moved, k);
      forall d | d in goals[k].dependsOn ensures exists j :: 0 <= j < k && goals[j].id == d {
        var j :| 0 <= j < k && moved[j].id == d;
        assert goals[j].id == d;
      }
    }
  }

  ghost predicate Sole(goals: seq<Goal>, i: nat)
    requires i < |goals|
  {
    forall j :: 0 <= j < |goals| && j != i ==> goals[j].id != goals[i].id
  }

  lemma {:induction false} MatchingSole(goals: seq<Goal>, i: nat)
    requires i < |goals|
    ensures Sole(goals, i) <==> |Matching(goals, goals[i].id)| == 1
  {
    if Sole(goals, i) {
      SoleMatches(goals, i);
    } else if |Matching(goals, goals[i].id)| == 1 {
      var k := SoleMatch(goals, goals[i].id);
    }
  }

  lemma {:induction false} SoleMatches(goals: seq<Goal>, i: nat)
    requires i < |goals| && Sole(goals, i)
    ensures Matching(goals, goals[i].id) == [goals[i]]
  {
    if i == |goals| - 1 {
      NoMatch(goals[..i], goals[i].id);
    } else {
      SoleMatches(goals[..|goals| - 1], i);
    }
  }

  /** The right operation for the current goal is refused when its id is not its own, or its graph not well ordered. */
  lemma UnorderedGraphIsRefused(g: GoalGraph, i: nat, op: Op)
    requires OnlyCurrent(g, i) && !Topological(g.goals)
    requires op == Claim <==> g.goals[i].status == Active
    requires op != Activate
    ensures GoalRuns.Apply(g, op) == Err(if Sole(g.goals, i) then InvalidGoalGraph else GoalManagerError)
  {
    var goals, id := g.goals, g.goals[i].id;
    var target := match op case Claim => Claimed case Retry => Active case _ => Verified;
    forall j | 0 <= j < |goals| && j != i ensures goals[j].status !in {Active, Claimed} {
      assert !IsCurrent(g, j);
    }
    OneCurrent(goals, i);
    MatchingSole(goals, i);
    if Sole(goals, i) {
      SoleMatches(goals, i);
      WithStatusOfFirst(goals, id, target, i);
      if Topological(goals[i := goals[i].(status := target)]) {
        OrderIgnoresStatus(goals, i, target);
      }
    }
  }
}
