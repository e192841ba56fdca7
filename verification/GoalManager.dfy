/**
 Execution of a frozen goal graph (goal_manager.py over goalgraph.py): choosing, claiming,
 retrying and verifying goals, and selecting what each verification has to run.
 */
module GoalManager {
  import opened Common

  // ------------------------------------------------------------------ values

  datatype GoalStatus = Pending | Active | Claimed | Verified | Failed | Superseded

  datatype GraphStatus = GraphActive | GraphVerified | GraphFailed | GraphCancelled | GraphSuperseded

  datatype Goal = Goal(id: string, dependsOn: seq<string>, status: GoalStatus)

  datatype Route = Route(path: string, owner: string)

  datatype GoalGraph = GoalGraph(goals: seq<Goal>, routes: seq<Route>, schemaVersion: nat, status: GraphStatus)

  const SCHEMA_VERSION: nat := 3

  datatype GoalError =
    | GoalStateConflict
    | GoalGraphBlocked
    | GoalManagerError
    | InvalidStatusTransition
    | InvalidGoalGraph
    | InvalidSuite

  datatype ValidationMode = Focused | Full

  datatype ValidationReason =
    | P0Release | GoalFocused | FinalGoal | ProjectConfigChanged | PriorGoalFileChanged
    | LegacyCheckpointUnknownPaths | VerifiedGraphRecovery

  datatype NavigationMode = FocusedNavigation | ReadyFull | FinalFull

  datatype NavigationSuite = NavigationSuite(routes: seq<Route>, mode: NavigationMode)

  datatype RegressionSuite = RegressionSuite(
    claimedGoalId: string,
    goalIds: seq<string>,
    contractGoalIds: seq<string>,
    mode: ValidationMode,
    reason: ValidationReason,
    navigation: Option<NavigationSuite>)

  // ------------------------------------------------------- transition tables

  predicate CanTransitionGoal(from: GoalStatus, to: GoalStatus) {
    match from
    case Pending => to in {Active, Superseded}
    case Active => to in {Claimed, Failed, Superseded}
    case Claimed => to in {Active, Verified, Failed, Superseded}
    case _ => false
  }

  predicate CanTransitionGraph(from: GraphStatus, to: GraphStatus) {
    from == GraphActive && to != GraphActive
  }

  // ---------------------------------------------------------------- topology

  predicate UniqueIds(goals: seq<Goal>) {
    forall i, j :: 0 <= i < j < |goals| ==> goals[i].id != goals[j].id
  }

  predicate DependsEarlier(goals: seq<Goal>, i: nat)
    requires i < |goals|
  {
    forall d :: d in goals[i].dependsOn ==> exists j :: 0 <= j < i && goals[j].id == d
  }

  predicate Topological(goals: seq<Goal>) {
    UniqueIds(goals) && forall i :: 0 <= i < |goals| ==> DependsEarlier(goals, i)
  }

  /** The validator every graph projection passes through: one pass with a growing set of seen ids. */
  method ValidateGoalTopology(goals: seq<Goal>) returns (valid: bool)
    ensures valid <==> Topological(goals)
  {
    var ids: set<string> := {};
    for i := 0 to |goals|
      invariant ids == set k | 0 <= k < i :: goals[k].id
      invariant UniqueIds(goals[..i])
    {
      if goals[i].id in ids {
        var k :| 0 <= k < i && goals[k].id == goals[i].id;
        return false;
      }
      ids := ids + {goals[i].id};
    }
    assert goals[..|goals|] == goals;
    var seen: set<string> := {};
    for i := 0 to |goals|
      invariant seen == set k | 0 <= k < i :: goals[k].id
      invariant forall k :: 0 <= k < i ==> DependsEarlier(goals, k)
    {
      if exists d :: d in goals[i].dependsOn && d !in seen {
        assert !DependsEarlier(goals, i);
        return false;
      }
      seen := seen + {goals[i].id};
    }
    valid := true;
  }

  // ----------------------------------------------------------------- queries

  function CurrentGoals(goals: seq<Goal>): seq<Goal> {
    if goals == [] then []
    else
      var last := goals[|goals| - 1];
      CurrentGoals(goals[..|goals| - 1]) + if last.status in {Active, Claimed} then [last] else []
  }

  /** The sole current goal, nothing, or a conflict when there are several. */
  function SingleCurrentGoal(g: GoalGraph): Result<Option<Goal>, GoalError> {
    var current := CurrentGoals(g.goals);
    if |current| > 1 then Err(GoalStateConflict)
    else if current == [] then Ok(None)
    else Ok(Some(current[0]))
  }

  function VerifiedIds(goals: seq<Goal>): set<string> {
    set i | 0 <= i < |goals| && goals[i].status == Verified :: goals[i].id
  }

  predicate DependenciesIn(goal: Goal, ids: set<string>) {
    forall d :: d in goal.dependsOn ==> d in ids
  }

  predicate Runnable(goal: Goal, verified: set<string>) {
    goal.status == Pending && DependenciesIn(goal, verified)
  }

  function FirstRunnable(goals: seq<Goal>, verified: set<string>): (r: Option<Goal>)
    ensures r.None? ==> forall i :: 0 <= i < |goals| ==> !Runnable(goals[i], verified)
    ensures r.Some? ==> exists i :: 0 <= i < |goals| && goals[i] == r.value && Runnable(goals[i], verified)
                                    && forall j :: 0 <= j < i ==> !Runnable(goals[j], verified)
  {
    if goals == [] then None
    else
      var earlier := FirstRunnable(goals[..|goals| - 1], verified);
      var last := goals[|goals| - 1];
      if earlier.Some? then earlier else if Runnable(last, verified) then Some(last) else None
  }

  /** The current goal if there is one, otherwise the first pending goal whose dependencies are verified. */
  function SelectExecutableGoal(g: GoalGraph): Result<Option<Goal>, GoalError> {
    if g.status != GraphActive then Ok(None)
    else match SingleCurrentGoal(g)
      case Err(e) => Err(e)
      case Ok(Some(current)) =>
        if current.status == Active && !DependenciesIn(current, VerifiedIds(g.goals)) then Err(GoalStateConflict)
        else Ok(Some(current))
      case Ok(None) => Ok(FirstRunnable(g.goals, VerifiedIds(g.goals)))
  }

  function Matching(goals: seq<Goal>, id: string): seq<Goal> {
    if goals == [] then []
    else
      var last := goals[|goals| - 1];
      Matching(goals[..|goals| - 1], id) + if last.id == id then [last] else []
  }

  /** The goals with the first one of this id given a new status. */
  function WithStatus(goals: seq<Goal>, id: string, target: GoalStatus): (r: seq<Goal>)
    ensures |r| == |goals|
  {
    if goals == [] then []
    else if goals[0].id == id then [goals[0].(status := target)] + goals[1..]
    else [goals[0]] + WithStatus(goals[1..], id, target)
  }

  // -------------------------------------------------------------- operations

  /** One goal's status change, checked against the tables and re-validated as a whole graph. */
  function ReplaceGoalStatus(g: GoalGraph, id: string, target: GoalStatus, graphStatus: Option<GraphStatus>)
    : Result<GoalGraph, GoalError>
  {
    var matches := Matching(g.goals, id);
    if |matches| != 1 then Err(GoalManagerError)
    else if !CanTransitionGoal(matches[0].status, target) then Err(InvalidStatusTransition)
    else
      var updated := g.(goals := WithStatus(g.goals, id, target),
                        status := if graphStatus.Some? then graphStatus.value else g.status);
      if !Topological(updated.goals) then Err(InvalidGoalGraph)
      else if SingleCurrentGoal(updated).Err? then Err(GoalStateConflict)
      else Ok(updated)
  }

  /** The source's loop: walk the copied goals, change the first match, stop. */
  method SetGoalStatus(goals: seq<Goal>, id: string, target: GoalStatus) returns (items: seq<Goal>)
    ensures items == WithStatus(goals, id, target)
  {
    items := goals;
    for i := 0 to |goals|
      invariant items == goals
      invariant WithStatus(goals, id, target) == goals[..i] + WithStatus(goals[i..], id, target)
    {
      if items[i].id == id {
        items := items[i := items[i].(status := target)];
        assert goals[i..][0] == goals[i];
        assert items == goals[..i] + ([goals[i].(status := target)] + goals[i..][1..]);
        return;
      }
      assert goals[..i] + ([goals[i]] + WithStatus(goals[i + 1..], id, target)) ==
          goals[..i + 1] + WithStatus(goals[i + 1..], id, target);
    }
  }

  function ActivateNextGoal(g: GoalGraph): Result<GoalGraph, GoalError> {
    match SelectExecutableGoal(g)
    case Err(e) => Err(e)
    case Ok(None) => Err(GoalGraphBlocked)
    case Ok(Some(selected)) =>
      if selected.status in {Active, Claimed} then Ok(g)
      else ReplaceGoalStatus(g, selected.id, Active, None)
  }

  /** The current goal of an active graph, when it has the wanted status. */
  function CurrentWith(g: GoalGraph, status: GoalStatus): Result<Goal, GoalError> {
    if g.status != GraphActive then Err(GoalManagerError)
    else match SingleCurrentGoal(g)
      case Err(e) => Err(e)
      case Ok(None) => Err(GoalManagerError)
      case Ok(Some(current)) => if current.status == status then Ok(current) else Err(GoalManagerError)
  }

  function ClaimActiveGoal(g: GoalGraph): Result<GoalGraph, GoalError> {
    match CurrentWith(g, Active)
    case Err(e) => Err(e)
    case Ok(current) => ReplaceGoalStatus(g, current.id, Claimed, None)
  }

  function RetryClaimedGoal(g: GoalGraph): Result<GoalGraph, GoalError> {
    match CurrentWith(g, Claimed)
    case Err(e) => Err(e)
    case Ok(current) => ReplaceGoalStatus(g, current.id, Active, None)
  }

  predicate IsLast(g: GoalGraph, id: string) {
    forall i :: 0 <= i < |g.goals| ==> g.goals[i].id == id || g.goals[i].status == Verified
  }

  function VerifyClaimedGoal(g: GoalGraph): Result<GoalGraph, GoalError> {
    match CurrentWith(g, Claimed)
    case Err(e) => Err(e)
    case Ok(current) =>
      if IsLast(g, current.id) && !CanTransitionGraph(g.status, GraphVerified) then Err(InvalidStatusTransition)
      else ReplaceGoalStatus(g, current.id, Verified, if IsLast(g, current.id) then Some(GraphVerified) else None)
  }

  // ------------------------------------------------------- regression suites

  function SelectedIds(goals: seq<Goal>, id: string): seq<string> {
    if goals == [] then []
    else
      var last := goals[|goals| - 1];
      SelectedIds(goals[..|goals| - 1], id) + if last.status == Verified || last.id == id then [last.id] else []
  }

  function RoutesOwnedBy(routes: seq<Route>, ids: seq<string>): seq<Route> {
    if routes == [] then []
    else
      var last := routes[|routes| - 1];
      RoutesOwnedBy(routes[..|routes| - 1], ids) + if last.owner in ids then [last] else []
  }

  function GoalIds(goals: seq<Goal>): (ids: seq<string>)
    ensures |ids| == |goals|
  {
    seq(|goals|, i requires 0 <= i < |goals| => goals[i].id)
  }

  predicate HasRoot(routes: seq<Route>) {
    exists i :: 0 <= i < |routes| && routes[i].path == "/"
  }

  /** The routes a suite must exercise, or an error when the scope does not fit the mode. */
  function DeriveNavigationSuite(g: GoalGraph, goalIds: seq<string>, mode: NavigationMode)
    : Result<Option<NavigationSuite>, GoalError>
  {
    if g.schemaVersion != SCHEMA_VERSION then Ok(None)
    else if goalIds == [] || !(forall id :: id in goalIds ==> id in GoalIds(g.goals)) then Err(InvalidSuite)
    else
      var routes := RoutesOwnedBy(g.routes, goalIds);
      if routes == [] then Ok(None)
      else if mode == FinalFull && (!(forall id :: id in GoalIds(g.goals) ==> id in goalIds)
                                    || |routes| != |g.routes|) then Err(InvalidSuite)
      else if mode == ReadyFull && !HasRoot(routes) then Err(InvalidSuite)
      else if exists i, j :: 0 <= i < j < |routes| && routes[i].path == routes[j].path then Err(InvalidSuite)
      else Ok(Some(NavigationSuite(routes, mode)))
  }

  /** The checks of the suite's constructor. */
  predicate SuiteAccepted(s: RegressionSuite) {
    && s.goalIds != [] && s.goalIds[|s.goalIds| - 1] == s.claimedGoalId
    && s.goalIds == s.contractGoalIds
    && Distinct(s.goalIds)
    && (s.mode == Focused ==> s.goalIds == [s.claimedGoalId] && s.reason == GoalFocused)
    && (s.mode == Full ==> s.reason != GoalFocused)
  }

  function BuildRegressionSuite(g: GoalGraph, fullReason: Option<ValidationReason>)
    : Result<RegressionSuite, GoalError>
  {
    match CurrentWith(g, Claimed)
    case Err(e) => Err(e)
    case Ok(current) =>
      var isFinal := IsLast(g, current.id);
      if !isFinal && fullReason.Some? &&
         fullReason.value !in {ProjectConfigChanged, PriorGoalFileChanged, LegacyCheckpointUnknownPaths} then
             Err(GoalManagerError)
      else
        var mode := if isFinal || fullReason.Some? then Full else Focused;
        var reason := if isFinal then FinalGoal else if fullReason.Some? then fullReason.value else GoalFocused;
        var goalIds := if mode == Full then SelectedIds(g.goals, current.id) else [current.id];
        match DeriveNavigationSuite(g, goalIds,
                                    if isFinal then FinalFull
                                    else if mode == Full then ReadyFull
                                    else FocusedNavigation)
        case Err(e) => Err(e)
        case Ok(navigation) =>
          var suite := RegressionSuite(current.id, goalIds, goalIds, mode, reason, navigation);
          if SuiteAccepted(suite) then Ok(suite) else Err(InvalidSuite)
  }

  const PROJECT_CONFIG_PATHS: set<string> := {
    "components.json", "eslint.config.js", "eslint.config.mjs", "eslint.config.ts",
    "next.config.js", "next.config.mjs", "next.config.ts", "package.json", "pnpm-lock.yaml", "pnpm-workspace.yaml",
    "postcss.config.js", "postcss.config.mjs", "postcss.config.ts",
    "tailwind.config.js", "tailwind.config.mjs", "tailwind.config.ts", "tsconfig.json"
  }

  predicate IsProjectConfig(path: string) {
    || path in PROJECT_CONFIG_PATHS
    || ('/' !in path && "tsconfig" <= path && |path| >= 5 && path[|path| - 5..] == ".json")
  }

  function EarlyFullValidationReason(changed: set<string>, priorChanged: set<string>): Option<ValidationReason> {
    if exists path :: path in changed && IsProjectConfig(path) then Some(ProjectConfigChanged)
    else if changed * priorChanged != {} then Some(PriorGoalFileChanged)
    else None
  }
}
