/** The browser's presentation of one run (apps/web/lib/events/reducer.ts). */
module Presentation {
  // A fold of numbered domain events plus what arrives outside the event stream: answer responses, project snapshots
  // and the stop of the run. Display text (titles, details, command output) is not modelled; identities, sequence
  // numbers, kinds, statuses and stages are.

  import opened Common

  const MAX_ACTIVITY_ITEMS := 80
  const MAX_INPUT_REQUESTS := MAX_ACTIVITY_ITEMS

  // ---------------------------------------------------------------- values

  datatype RunStatus = Queued | Running | WaitingForUser | NeedsAttention | Completed | Failed | Cancelled

  datatype Stage = Planning | Building | Verifying | Repairing

  datatype StageStatus = StageIdle | StageWorking | StageCompleted | StageFailed

  datatype StageActivity = StageActivity(status: StageStatus, updatedAt: Option<string>)

  const IDLE := StageActivity(StageIdle, None)

  /** One activity per stage, in the order of `agentStages`. */
  type StageTable = s: seq<StageActivity> | |s| == 4 witness [IDLE, IDLE, IDLE, IDLE]

  datatype WorklogKind = Progress | Tool | File | Verification | Goal | System

  datatype WorklogStatus = ItemRunning | ItemCompleted | ItemFailed | ItemInfo

  datatype WorklogItem = WorklogItem(id: string, kind: WorklogKind, status: WorklogStatus, stage: Option<Stage>,
                                     seqNo: int)

  datatype RequestStatus = Pending | Answered | RequestCancelled | Expired

  /** `body` stands for the question, its choices, stage, goal and creation time. */
  datatype InputRequest = InputRequest(
    id: string,
    runId: string,
    body: string,
    status: RequestStatus,
    answeredAt: Option<string>,
    requestedSeq: Option<int>,
    resolvedSeq: Option<int>,
    answerMessageId: Option<string>)

  datatype VerificationStatus = Passed | VerificationFailed | VerificationRunning | Skipped

  datatype GoalEvent =
    | GraphCreated | GoalActivated | GoalClaimed | GoalVerificationFailed | GoalResumeScheduled | GoalResumed
    | GoalVerified | GoalFailed | GraphCompleted | GraphVerified | GraphFailed | GraphCancelled | GraphSuperseded

  datatype Lifecycle = Started | Ended | Broken

  datatype Activity =
    | CompactionStart
    | CompactionEnd
    | RetryStart
    | RetryEnd(success: bool)
    | ExtensionError
    | UnknownActivity

  /** What the reducer reads of an event's kind and payload. */
  datatype EventBody =
    | RunCreatedOrChanged(phase: string)
    | RunCompleted
    | RunFailed
    | RunCancelled
    | RunWaitingForUser
    | InputRequested(requestId: string, requestBody: string)
    | MalformedInputRequest
    | InputAnswered(answeredId: string, messageId: string)
    | MessageDelta
    | MessageCompleted(fromAssistant: bool, hasText: bool)
    | ToolStarted(callId: Option<string>)
    | ToolCompleted(endedCallId: Option<string>, isError: bool)
    | FileChanged(fileId: Option<string>)
    | VerificationUpdated(projectScope: bool, verificationId: Option<string>, verdict: VerificationStatus)
    | GoalUpdated(change: GoalEvent, goalId: string, suppliedGraphId: Option<string>)
    | PiLifecycle(lifecycle: Lifecycle)
    | PiActivity(activity: Activity, attempt: Option<string>)
    | OtherEvent

  /** `status` is `payload.status` when that is a string. */
  datatype DomainEvent = DomainEvent(
    eventId: string,
    runId: string,
    seqNo: int,
    occurredAt: string,
    stage: Option<Stage>,
    status: Option<string>,
    body: EventBody)

  datatype RunPresentation = RunPresentation(
    runId: string,
    status: RunStatus,
    lastSeq: int,
    stages: StageTable,
    worklog: seq<WorklogItem>,
    activeMessage: Option<string>,
    inputRequests: seq<InputRequest>,
    graphId: Option<string>,
    disconnected: bool)

  datatype AnswerResponse = AnswerResponse(runId: string, runStatus: RunStatus, request: InputRequest,
                                           messageId: string)

  // ------------------------------------------------------- small projections

  function ToRunStatus(value: Option<string>, fallback: RunStatus): RunStatus {
    match value
    case None => fallback
    case Some(text) =>
      if text == "cancelled" then Cancelled
      else if text == "completed" || text == "succeeded" then Completed
      else if text == "failed" then Failed
      else if text == "needs_attention" then NeedsAttention
      else if text == "queued" then Queued
      else if text == "running" then Running
      else if text == "waiting_for_user" then WaitingForUser
      else fallback
  }

  function StageIndex(stage: Stage): (i: nat)
    ensures i < 4
  {
    match stage case Planning => 0 case Building => 1 case Verifying => 2 case Repairing => 3
  }

  function StageName(stage: Option<Stage>): string {
    match stage
    case None => "turn"
    case Some(Planning) => "planning"
    case Some(Building) => "building"
    case Some(Verifying) => "verifying"
    case Some(Repairing) => "repairing"
  }

  function PhaseStage(phase: string): Option<Stage> {
    if phase in ["preparing", "planning", "product_analysis", "architecture"] then Some(Planning)
    else if phase in ["building", "implementation"] then Some(Building)
    else if phase in ["verifying", "verification", "publishing"] then Some(Verifying)
    else if phase in ["repairing", "repair"] then Some(Repairing)
    else None
  }

  function GoalItemStatus(change: GoalEvent): WorklogStatus {
    match change
    case GraphCreated | GoalClaimed | GoalVerified | GraphCompleted | GraphVerified => ItemCompleted
    case GoalActivated | GoalResumed => ItemRunning
    case GoalVerificationFailed | GoalFailed | GraphFailed => ItemFailed
    case GoalResumeScheduled | GraphCancelled | GraphSuperseded => ItemInfo
  }

  // ----------------------------------------------------------------- stages

  /** What one phase change does to the stage at index `i`. */
  function StageAfter(was: StageActivity, i: nat, phase: string, at: Option<string>): StageActivity {
    if phase == "ready" then
      if i != 3 || was.status != StageIdle then StageActivity(StageCompleted, at) else was
    else match PhaseStage(phase)
      case None => was
      case Some(target) =>
        if i == StageIndex(target) then StageActivity(StageWorking, at)
        else if i < StageIndex(target) || was.status == StageWorking then StageActivity(StageCompleted, at)
        else was
  }

  function StagesAfter(current: StageTable, phase: string, at: Option<string>): StageTable {
    seq(4, i requires 0 <= i < 4 => StageAfter(current[i], i, phase, at))
  }

  method AdvanceStages(current: StageTable, phase: string, at: Option<string>) returns (next: seq<StageActivity>)
    ensures |next| == 4 && next == StagesAfter(current, phase, at)
  {
    next := current;
    if phase == "ready" {
      for i := 0 to 4
        invariant |next| == 4
        invariant forall j :: 0 <= j < 4 ==>
                  next[j] == if j < i then StageAfter(current[j], j, phase, at) else current[j]
      {
        if i != 3 || next[i].status != StageIdle {
          next := next[i := StageActivity(StageCompleted, at)];
        }
      }
      return;
    }
    var target := PhaseStage(phase);
    if target.None? {
      return;
    }
    for i := 0 to 4
      invariant |next| == 4
      invariant forall j :: 0 <= j < 4 ==>
                              next[j] == if j < i && current[j].status == StageWorking then
                                  StageActivity(StageCompleted, at) else current[j]
    {
      if next[i].status == StageWorking {
        next := next[i := StageActivity(StageCompleted, at)];
      }
    }
    var targetIndex := StageIndex(target.value);
    ghost var closed := next;
    for i := 0 to targetIndex
      invariant |next| == 4
      invariant forall j :: 0 <= j < 4 ==> next[j] == if j < i then StageActivity(StageCompleted, at) else closed[j]
    {
      if i != 3 {
        next := next[i := StageActivity(StageCompleted, at)];
      }
    }
    next := next[targetIndex := StageActivity(StageWorking, at)];
  }

  ghost predicate AtMostOneWorking(stages: StageTable) {
    forall i, j :: 0 <= i < j < 4 ==> !(stages[i].status == StageWorking && stages[j].status == StageWorking)
  }

  // ---------------------------------------------------------------- worklog

  function Without(items: seq<WorklogItem>, id: string): seq<WorklogItem> {
    if items == [] then []
    else if items[0].id == id then Without(items[1..], id)
    else [items[0]] + Without(items[1..], id)
  }

  function MoveToEnd(items: seq<WorklogItem>, incoming: WorklogItem): seq<WorklogItem> {
    Without(items, incoming.id) + [incoming]
  }

  function UpsertWorklog(items: seq<WorklogItem>, incoming: WorklogItem): seq<WorklogItem> {
    LastN(MoveToEnd(items, incoming), MAX_ACTIVITY_ITEMS)
  }

  /** The stage of the first item with this id, `items.find(...)?.stage`. */
  function FindStage(items: seq<WorklogItem>, id: string): Option<Stage> {
    if items == [] then None
    else if items[0].id == id then items[0].stage
    else FindStage(items[1..], id)
  }

  function Or<T>(first: Option<T>, second: Option<T>): Option<T> {
    if first.Some? then first else second
  }

  function TextOr(text: Option<string>, fallback: string): string {
    if text.Some? then text.value else fallback
  }

  /** The worklog item an accepted event adds, if it adds one. */
  function AddedItem(state: RunPresentation, e: DomainEvent): Option<WorklogItem> {
    match e.body
    case MessageDelta =>
      var id := TextOr(state.activeMessage, "progress:" + e.eventId);
      Some(WorklogItem(id, Progress, ItemRunning, Or(FindStage(state.worklog, id), e.stage), e.seqNo))
    case MessageCompleted(fromAssistant, hasText) =>
      if !fromAssistant then None
      else if state.activeMessage.Some? then
        var id := state.activeMessage.value;
        Some(WorklogItem(id, Progress, ItemCompleted, Or(FindStage(state.worklog, id), e.stage), e.seqNo))
      else if hasText then Some(WorklogItem("progress:" + e.eventId, Progress, ItemCompleted, e.stage, e.seqNo))
      else None
    case ToolStarted(callId) =>
      var id := "tool:" + TextOr(callId, e.eventId);
      Some(WorklogItem(id, Tool, ItemRunning, Or(FindStage(state.worklog, id), e.stage), e.seqNo))
    case ToolCompleted(callId, isError) =>
      var id := "tool:" + TextOr(callId, e.eventId);
      Some(WorklogItem(id, Tool, if isError then ItemFailed else ItemCompleted,
                       Or(FindStage(state.worklog, id), e.stage), e.seqNo))
    case FileChanged(fileId) =>
      Some(WorklogItem("file:" + TextOr(fileId, e.eventId), File, ItemCompleted, e.stage, e.seqNo))
    case VerificationUpdated(projectScope, id, verdict) =>
      if !projectScope then None
      else Some(WorklogItem("verification:" + TextOr(id, e.eventId), Verification,
                            match verdict
                            case VerificationRunning => ItemRunning
                            case VerificationFailed => ItemFailed
                            case _ => ItemCompleted, e.stage, e.seqNo))
    case GoalUpdated(change, goalId, supplied) =>
      var subject := if goalId != "" then goalId else TextOr(Or(supplied, state.graphId), "graph");
      Some(WorklogItem("goal:" + subject, Goal, GoalItemStatus(change), e.stage, e.seqNo))
    case RunFailed =>
      Some(WorklogItem("system:run:failure", System, ItemFailed, e.stage, e.seqNo))
    case PiLifecycle(lifecycle) =>
      Some(WorklogItem(if lifecycle.Broken? then "system:pi:failure" else "system:pi:" + StageName(e.stage), System,
                       match lifecycle
                       case Started => ItemRunning
                       case Ended => ItemCompleted
                       case Broken => ItemFailed,
                       e.stage, e.seqNo))
    case PiActivity(activity, attempt) =>
      if activity.UnknownActivity? then None
      else
        var lifecycleId := match activity
          case CompactionStart | CompactionEnd => "compaction"
          case RetryStart | RetryEnd(_) => "retry:" + TextOr(attempt, "current")
          case _ => "extension_error";
        Some(WorklogItem("system:" + StageName(e.stage) + ":" + lifecycleId, System,
                         match activity
                         case CompactionStart | RetryStart => ItemRunning
                         case RetryEnd(success) => if success then ItemCompleted else ItemFailed
                         case CompactionEnd => ItemCompleted
                         case _ => ItemFailed, e.stage, e.seqNo))
    case _ => None
  }

  function NextWorklog(state: RunPresentation, e: DomainEvent): seq<WorklogItem> {
    match AddedItem(state, e)
    case None => state.worklog
    case Some(item) => UpsertWorklog(state.worklog, item)
  }

  /** The public message a stream of deltas is coalesced under. */
  function NextActiveMessage(state: RunPresentation, e: DomainEvent): Option<string> {
    match e.body
    case MessageDelta => Some(TextOr(state.activeMessage, "progress:" + e.eventId))
    case MessageCompleted(fromAssistant, _) => if fromAssistant then None else state.activeMessage
    case RunFailed => None
    case PiLifecycle(Broken) => None
    case _ => state.activeMessage
  }

  // --------------------------------------------------- clarification requests

  /** Which fields the incoming object does not carry, so that the spread keeps the old ones. */
  datatype Kept = Kept(answeredAt: bool, resolution: bool)

  function Merged(old_: InputRequest, incoming: InputRequest, kept: Kept): InputRequest {
    incoming.(answeredAt := if kept.answeredAt then old_.answeredAt else incoming.answeredAt,
    resolvedSeq := if kept.resolution then old_.resolvedSeq else incoming.resolvedSeq,
    answerMessageId := if kept.resolution then old_.answerMessageId else incoming.answerMessageId)
  }

  /** `findIndex` by id, with `|items|` for "not found". */
  function IndexOf(items: seq<InputRequest>, id: string): (index: nat)
    ensures index <= |items|
    ensures index < |items| ==> items[index].id == id
    ensures forall j :: 0 <= j < index ==> items[j].id != id
  {
    if items == [] || items[0].id == id then 0 else 1 + IndexOf(items[1..], id)
  }

  function Find(items: seq<InputRequest>, id: string): Option<InputRequest> {
    var index := IndexOf(items, id);
    if index < |items| then Some(items[index]) else None
  }

  function ReplaceById(items: seq<InputRequest>, incoming: InputRequest, kept: Kept): seq<InputRequest> {
    var index := IndexOf(items, incoming.id);
    if index == |items| then LastN(items + [incoming], MAX_INPUT_REQUESTS)
    else items[index := Merged(items[index], incoming, kept)]
  }

  /** `items.map(...)` resolving every pending request but the one named `exceptId`. */
  function ResolvePending(items: seq<InputRequest>, exceptId: Option<string>, status: RequestStatus, at: int,
                          keepEarlier: bool)
    : (r: seq<InputRequest>)
    ensures |r| == |items|
  {
    seq(|items|, i requires 0 <= i < |items| =>
      if items[i].status == Pending && Some(items[i].id) != exceptId
      then items[i].(status := status,
                     resolvedSeq := if keepEarlier then Or(items[i].resolvedSeq, Some(at)) else Some(at))
      else items[i])
  }

  function AnswerMatching(items: seq<InputRequest>, id: string, messageId: string, at: string, seqNo: int)
    : (r: seq<InputRequest>)
    ensures |r| == |items|
  {
    seq(|items|, i requires 0 <= i < |items| =>
      if items[i].id == id
      then items[i].(status := Answered, answeredAt := Some(at), resolvedSeq := Some(seqNo),
                     answerMessageId := if messageId != "" then Some(messageId) else items[i].answerMessageId)
      else items[i])
  }

  function RequestFromEvent(e: DomainEvent): InputRequest
    requires e.body.InputRequested?
  {
    InputRequest(e.body.requestId, e.runId, e.body.requestBody, Pending, None, Some(e.seqNo), None, None)
  }

  function NextRequests(state: RunPresentation, e: DomainEvent): seq<InputRequest> {
    match e.body
    case RunCancelled => ResolvePending(state.inputRequests, None, RequestCancelled, e.seqNo, false)
    case InputRequested(id, _) =>
      ReplaceById(ResolvePending(state.inputRequests, Some(id), Expired, e.seqNo, false), RequestFromEvent(e),
                  Kept(true, true))
    case InputAnswered(id, messageId) => AnswerMatching(state.inputRequests, id, messageId, e.occurredAt, e.seqNo)
    case _ => state.inputRequests
  }

  // ------------------------------------------------------------ the reducer

  function NextStatus(state: RunPresentation, e: DomainEvent): RunStatus {
    match e.body
    case RunCreatedOrChanged(_) => ToRunStatus(e.status, state.status)
    case RunCompleted => Completed
    case RunFailed => ToRunStatus(e.status, Failed)
    case RunCancelled => Cancelled
    case RunWaitingForUser | InputRequested(_, _) => WaitingForUser
    case _ => state.status
  }

  function FailWorking(stages: StageTable, at: string): StageTable {
    seq(4, i requires 0 <= i < 4 => if stages[i].status == StageWorking then StageActivity(StageFailed, Some(at))
        else stages[i])
  }

  function NextStages(state: RunPresentation, e: DomainEvent): StageTable {
    match e.body
    case RunCreatedOrChanged(phase) => StagesAfter(state.stages, phase, Some(e.occurredAt))
    case RunCompleted => StagesAfter(state.stages, "ready", Some(e.occurredAt))
    case RunFailed => FailWorking(state.stages, e.occurredAt)
    case _ => state.stages
  }

  function NextGraphId(state: RunPresentation, e: DomainEvent): Option<string> {
    if e.body.GoalUpdated? then Or(e.body.suppliedGraphId, state.graphId) else state.graphId
  }

  /** Events of another run and events at or below the cursor are ignored. */
  predicate Accepts(state: RunPresentation, e: DomainEvent) {
    (state.runId == "" || e.runId == state.runId) && state.lastSeq < e.seqNo
  }

  /** The reducer, field by field. */
  function Reduce(state: RunPresentation, e: DomainEvent): RunPresentation {
    if !Accepts(state, e) then state
    else RunPresentation(e.runId, NextStatus(state, e), e.seqNo, NextStages(state, e), NextWorklog(state, e),
                         NextActiveMessage(state, e), NextRequests(state, e), NextGraphId(state, e), false)
  }

  function ReduceAll(state: RunPresentation, events: seq<DomainEvent>): RunPresentation {
    if events == [] then state
    else Reduce(ReduceAll(state, events[..|events| - 1]), events[|events| - 1])
  }

  method ProjectWorklogEvent(state: RunPresentation, next: RunPresentation, e: DomainEvent)
    returns (worklog: seq<WorklogItem>, activeMessage: Option<string>)
    requires next.graphId == NextGraphId(state, e)
    ensures worklog == NextWorklog(state, e) && activeMessage == NextActiveMessage(state, e)
  {
    worklog, activeMessage := state.worklog, state.activeMessage;
    match e.body {
      case MessageDelta =>
        if activeMessage.None? {
          activeMessage := Some("progress:" + e.eventId);
        }
        var previous := FindStage(worklog, activeMessage.value);
        worklog := UpsertWorklog(worklog,
                                 WorklogItem(activeMessage.value, Progress, ItemRunning, Or(previous, e.stage),
                                             e.seqNo));
      case MessageCompleted(fromAssistant, hasText) =>
        if !fromAssistant {
          return;
        }
        if activeMessage.Some? {
          var previous := FindStage(worklog, activeMessage.value);
          worklog := UpsertWorklog(worklog,
                                   WorklogItem(activeMessage.value, Progress, ItemCompleted, Or(previous, e.stage),
                                               e.seqNo));
        } else if hasText {
          worklog := UpsertWorklog(worklog,
                                   WorklogItem("progress:" + e.eventId, Progress, ItemCompleted, e.stage, e.seqNo));
        }
        activeMessage := None;
      case ToolStarted(callId) =>
        var id := "tool:" + TextOr(callId, e.eventId);
        var previous := FindStage(worklog, id);
        worklog := UpsertWorklog(worklog, WorklogItem(id, Tool, ItemRunning, Or(previous, e.stage), e.seqNo));
      case ToolCompleted(callId, isError) =>
        var id := "tool:" + TextOr(callId, e.eventId);
        var previous := FindStage(worklog, id);
        var status := if isError then ItemFailed else ItemCompleted;
        worklog := UpsertWorklog(worklog, WorklogItem(id, Tool, status, Or(previous, e.stage), e.seqNo));
      case FileChanged(fileId) =>
        var id := "file:" + TextOr(fileId, e.eventId);
        worklog := UpsertWorklog(worklog, WorklogItem(id, File, ItemCompleted, e.stage, e.seqNo));
      case VerificationUpdated(projectScope, verificationId, verdict) =>
        if !projectScope {
          return;
        }
        var id := "verification:" + TextOr(verificationId, e.eventId);
        var status := ItemCompleted;
        if verdict == VerificationRunning {
          status := ItemRunning;
        } else if verdict == VerificationStatus.VerificationFailed {
          status := ItemFailed;
        }
        worklog := UpsertWorklog(worklog, WorklogItem(id, Verification, status, e.stage, e.seqNo));
      case GoalUpdated(change, goalId, _) =>
        var subject := if goalId != "" then goalId else TextOr(next.graphId, "graph");
        worklog := UpsertWorklog(worklog,
                                 WorklogItem("goal:" + subject, Goal, GoalItemStatus(change), e.stage, e.seqNo));
      case RunFailed =>
        worklog := UpsertWorklog(worklog, WorklogItem("system:run:failure", System, ItemFailed, e.stage, e.seqNo));
        activeMessage := None;
      case PiLifecycle(Broken) =>
        worklog := UpsertWorklog(worklog, WorklogItem("system:pi:failure", System, ItemFailed, e.stage, e.seqNo));
        activeMessage := None;
      case PiLifecycle(Started) =>
        worklog := UpsertWorklog(worklog,
                                 WorklogItem("system:pi:" + StageName(e.stage), System, ItemRunning, e.stage, e.seqNo));
      case PiLifecycle(Ended) =>
        worklog := UpsertWorklog(worklog,
                                 WorklogItem("system:pi:" + StageName(e.stage), System, ItemCompleted, e.stage,
                                             e.seqNo));
      case PiActivity(activity, attempt) =>
        var lifecycleId, status;
        match activity {
          case CompactionStart => lifecycleId, status := "compaction", ItemRunning;
          case CompactionEnd => lifecycleId, status := "compaction", ItemCompleted;
          case RetryStart => lifecycleId, status := "retry:" + TextOr(attempt, "current"), ItemRunning;
          case RetryEnd(success) =>
            lifecycleId, status := "retry:" + TextOr(attempt, "current"), if success then ItemCompleted else ItemFailed;
          case ExtensionError => lifecycleId, status := "extension_error", ItemFailed;
          case UnknownActivity => return;
        }
        var id := "system:" + StageName(e.stage) + ":" + lifecycleId;
        worklog := UpsertWorklog(worklog, WorklogItem(id, System, status, e.stage, e.seqNo));
      case _ =>
    }
  }

  /** `reduceDomainEvent` as the source writes it: a fresh copy whose fields a switch reassigns. */
  method ReduceDomainEvent(state: RunPresentation, e: DomainEvent) returns (next: RunPresentation)
    ensures next == Reduce(state, e)
  {
    if e.runId != state.runId && state.runId != "" {
      return state;
    }
    if e.seqNo <= state.lastSeq {
      return state;
    }
    next := state.(runId := e.runId, lastSeq := e.seqNo, disconnected := false);
    match e.body {
      case RunCreatedOrChanged(phase) =>
        var stages := AdvanceStages(state.stages, phase, Some(e.occurredAt));
        next := next.(status := ToRunStatus(e.status, state.status), stages := stages);
      case RunCompleted =>
        var stages := AdvanceStages(state.stages, "ready", Some(e.occurredAt));
        next := next.(status := Completed, stages := stages);
      case RunFailed =>
        next := next.(status := ToRunStatus(e.status, Failed), stages := FailWorking(state.stages, e.occurredAt));
      case RunCancelled =>
        next := next.(status := Cancelled,
        inputRequests := ResolvePending(state.inputRequests, None, RequestCancelled, e.seqNo, false));
      case RunWaitingForUser =>
        next := next.(status := WaitingForUser);
      case InputRequested(id, _) =>
        next := next.(status := WaitingForUser);
        var withoutCompetingPending := ResolvePending(state.inputRequests, Some(id), Expired, e.seqNo, false);
        next := next.(inputRequests := ReplaceById(withoutCompetingPending, RequestFromEvent(e), Kept(true, true)));
      case InputAnswered(id, messageId) =>
        next := next.(inputRequests := AnswerMatching(state.inputRequests, id, messageId, e.occurredAt, e.seqNo));
      case GoalUpdated(_, _, supplied) =>
        next := next.(graphId := Or(supplied, state.graphId));
      case _ =>
    }
    var worklog, activeMessage := ProjectWorklogEvent(state, next, e);
    next := next.(worklog := worklog, activeMessage := activeMessage);
  }

  // -------------------------------------------------------- reconciliations

  /** Applies an answer response without advancing the event cursor. */
  function ReconcileInputAnswer(state: RunPresentation, response: AnswerResponse): RunPresentation {
    if response.runId != state.runId || response.request.runId != state.runId then state
    else
      var previous := Find(state.inputRequests, response.request.id);
      var answered := response.request.(
                        requestedSeq := if previous.Some? then previous.value.requestedSeq else None,
                        resolvedSeq := Or(if previous.Some? then previous.value.resolvedSeq else None,
                                          Some(state.lastSeq)),
                        answerMessageId := Some(response.messageId));
      state.(status := if previous.Some? && previous.value.status == Pending then response.runStatus else state.status,
      inputRequests := ReplaceById(state.inputRequests, answered, Kept(false, false)))
  }

  /** Reconciles the server's single-pending-request read model. */
  function ReconcileInputRequestSnapshot(state: RunPresentation, pending: Option<InputRequest>): RunPresentation {
    if pending.Some? && pending.value.runId == state.runId then
      var previous := Find(state.inputRequests, pending.value.id);
      var withoutCompetingPending :=
          ResolvePending(state.inputRequests, Some(pending.value.id), Expired, state.lastSeq, true);
      var incoming := pending.value.(requestedSeq := if previous.Some? then previous.value.requestedSeq else None);
      state.(inputRequests := ReplaceById(withoutCompetingPending, incoming, Kept(false, true)))
    else
      state.(inputRequests := ResolvePending(state.inputRequests, None, Expired, state.lastSeq, true))
  }

  /** The user stops the run: what is open is cancelled, at the cursor the browser has. */
  function StopRun(state: RunPresentation): RunPresentation {
    state.(status := Cancelled,
    inputRequests := ResolvePending(state.inputRequests, None, RequestCancelled, state.lastSeq, false))
  }

  /** A presentation before any event has been folded into it. */
  function CreateRunPresentation(runId: string, status: RunStatus, lastSeq: nat, phase: string,
                                 updatedAt: Option<string>,
                                 pending: Option<InputRequest>): RunPresentation
  {
    RunPresentation(runId, status, lastSeq, StagesAfter([IDLE, IDLE, IDLE, IDLE], phase, updatedAt), [], None,
                    if pending.Some? then [pending.value] else [], None, false)
  }

  /** What can change the modelled fields of the presentation of one run. */
  datatype Action =
    | Event(event: DomainEvent)
    | AnswerPosted(response: AnswerResponse)
    | SnapshotRead(pending: Option<InputRequest>)
    | Stopped

  /** The API client rejects an answer response whose request is not answered. */
  predicate ValidAction(a: Action) {
    a.AnswerPosted? ==> a.response.request.status == Answered
  }

  function Apply(state: RunPresentation, a: Action): RunPresentation {
    match a
    case Event(e) => Reduce(state, e)
    case AnswerPosted(response) => ReconcileInputAnswer(state, response)
    case SnapshotRead(pending) => ReconcileInputRequestSnapshot(state, pending)
    case Stopped => StopRun(state)
  }

  function ApplyAll(state: RunPresentation, actions: seq<Action>): RunPresentation {
    if actions == [] then state
    else Apply(ApplyAll(state, actions[..|actions| - 1]), actions[|actions| - 1])
  }
}
