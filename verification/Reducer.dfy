/**
  The event-sourced workflow reducer: an arbitrary bag of run events is sorted by (creation time,
  message id), stripped of identical duplicates and folded into a projection of the tasks.
 */
module Reducer {
  import opened Wrappers
  import opened TextOrder

  const MAX_REPAIR_ATTEMPTS_PER_TASK := 3
  const MAX_AGENT_TURNS_WITHOUT_PROGRESS := 5

  datatype LifecycleState =
    | ReadyForCopilot
    | CopilotRunning
    | WaitingForCi
    | WaitingForOpenAiReview
    | Paused
    | Completed

  datatype ReviewDecision = Accept | FixRequired | NextTask | BlockedByReview | HumanDecisionRequired

  datatype StopReason = SecondTaskCreated | RepairAttemptLimitReached | NoProgressLimitReached

  datatype EventType =
    | TaskCreated
    | CopilotDispatched
    | CopilotResultRecorded
    | CiEvidenceRecorded
    | OpenAiReviewRecorded
    | NextTaskCreated
    | TaskPaused
    | TaskCompleted

  /** A run event. `pullRequest` is the number at the end of the pull request URL, if there is one;
      `rest` stands for the fields that only the comparison of duplicates looks at. */
  datatype RunEvent = RunEvent(
    messageId: string,
    createdAt: int,
    eventType: EventType,
    taskId: string,
    branch: string,
    attempt: int,
    expectedHeadSha: Option<string>,
    commitSha: Option<string>,
    headSha: Option<string>,
    providerRunId: Option<string>,
    ciConclusion: Option<string>,
    ciCheckNames: seq<string>,
    reviewDecision: Option<ReviewDecision>,
    acceptedCriteriaDelta: seq<string>,
    verifiedDiffSummary: Option<string>,
    progressVerified: bool,
    nextTaskId: Option<string>,
    pullRequest: Option<nat>,
    rest: string)
  {
    predicate DemonstratesProgress() {
      progressVerified || acceptedCriteriaDelta != [] || (verifiedDiffSummary.Some? && verifiedDiffSummary.value != "")
    }

    /** The sort key order: creation time first, then message id. */
    predicate Precedes(other: RunEvent) {
      createdAt < other.createdAt || (createdAt == other.createdAt && Before(messageId, other.messageId))
    }
  }

  datatype Task = Task(
    taskId: string,
    state: LifecycleState,
    branch: string,
    currentAttempt: int,
    repairAttempts: int,
    noProgressCount: int,
    headSha: Option<string>,
    lastReviewDecision: Option<ReviewDecision>,
    providerRunIds: seq<string>,
    ciCheckNames: seq<string>,
    ciConclusion: Option<string>,
    acceptedCriteria: seq<string>,
    expectedHeadSha: Option<string>,
    pullRequest: Option<nat>,
    stopReason: Option<StopReason>)

  function NewTask(taskId: string, branch: string, attempt: int): Task {
    Task(taskId, ReadyForCopilot, branch, attempt, 0, 0, None, None, [], [], None, [], None, None, None)
  }

  datatype Projection = Projection(tasks: map<string, Task>, taskOrder: seq<string>, stopReason: Option<StopReason>)
  {
    /** Every stored task is listed: the source may read `task_order[0]` once a task exists. */
    predicate Listed() {
      tasks.Keys == set t | t in taskOrder
    }

    function Store(task: Task): Projection {
      this.(tasks := tasks[task.taskId := task])
    }
  }

  const EMPTY := Projection(map[], [], None)

  datatype Error =
    | DuplicateMessageId(messageId: string)
    | InvalidTransition(messageId: string)
    | StaleHead(messageId: string)
    | StopBoundary(messageId: string)

  type Reduction = Result<Projection, Error>

  // ---------- One event ----------

  predicate IsExecuting(t: EventType) {
    t != TaskPaused
  }

  predicate HeadMatches(task: Task, event: RunEvent) {
    && event.expectedHeadSha.Some?
    && task.headSha.Some?
    && event.expectedHeadSha == task.headSha
    && event.commitSha == event.expectedHeadSha
  }

  function Dispatch(p: Projection, task: Task, event: RunEvent): Reduction {
    if task.state != ReadyForCopilot || event.attempt != task.currentAttempt then
      Err(InvalidTransition(event.messageId))
    else
      var runs :=
        if event.providerRunId.Some? && event.providerRunId.value != "" && event.providerRunId.value !in task.providerRunIds
        then task.providerRunIds + [event.providerRunId.value]
        else task.providerRunIds;
      Ok(p.Store(task.(state := CopilotRunning, currentAttempt := event.attempt, providerRunIds := runs)))
  }

  function RecordResult(p: Projection, task: Task, event: RunEvent): Reduction {
    if task.state != CopilotRunning || event.attempt != task.currentAttempt then
      Err(InvalidTransition(event.messageId))
    else if event.commitSha != event.headSha then
      Err(StaleHead(event.messageId))
    else
      var noProgress := if event.DemonstratesProgress() then 0 else task.noProgressCount + 1;
      if noProgress > MAX_AGENT_TURNS_WITHOUT_PROGRESS then
        Ok(p.Store(task.(state := Paused, stopReason := Some(NoProgressLimitReached))))
      else
        Ok(p.Store(task.(
          state := WaitingForCi,
          currentAttempt := event.attempt,
          noProgressCount := noProgress,
          headSha := event.headSha,
          acceptedCriteria := task.acceptedCriteria + event.acceptedCriteriaDelta,
          expectedHeadSha := event.headSha,
          pullRequest := event.pullRequest)))
  }

  function RecordCi(p: Projection, task: Task, event: RunEvent): Reduction {
    if task.state != WaitingForCi || event.attempt != task.currentAttempt then
      Err(InvalidTransition(event.messageId))
    else if !HeadMatches(task, event) then
      Err(StaleHead(event.messageId))
    else
      Ok(p.Store(task.(
        state := WaitingForOpenAiReview,
        ciCheckNames := event.ciCheckNames,
        ciConclusion := event.ciConclusion)))
  }

  function RecordReview(p: Projection, task: Task, event: RunEvent): Reduction {
    if task.state != WaitingForOpenAiReview || event.attempt != task.currentAttempt then
      Err(InvalidTransition(event.messageId))
    else if !HeadMatches(task, event) then
      Err(StaleHead(event.messageId))
    else
      match event.reviewDecision
      case None => Err(InvalidTransition(event.messageId))
      case Some(FixRequired) =>
        if task.repairAttempts + 1 > MAX_REPAIR_ATTEMPTS_PER_TASK then
          Ok(p.Store(task.(state := Paused, stopReason := Some(RepairAttemptLimitReached))))
        else
          Ok(p.Store(task.(
            state := ReadyForCopilot,
            currentAttempt := task.currentAttempt + 1,
            repairAttempts := task.repairAttempts + 1,
            lastReviewDecision := event.reviewDecision,
            headSha := None,
            expectedHeadSha := None,
            ciCheckNames := [],
            ciConclusion := None)))
      case Some(BlockedByReview) =>
        Ok(p.Store(task.(state := Paused, lastReviewDecision := event.reviewDecision)))
      case Some(HumanDecisionRequired) =>
        Ok(p.Store(task.(state := Paused, lastReviewDecision := event.reviewDecision)))
      case Some(_) =>
        Ok(p.Store(task.(state := Completed, lastReviewDecision := event.reviewDecision)))
  }

  function CreateNext(p: Projection, task: Task, event: RunEvent): Reduction
    requires p.taskOrder != []
  {
    if task.state != Completed then
      Err(InvalidTransition(event.messageId))
    else if task.taskId != p.taskOrder[0] then
      Err(StopBoundary(event.messageId))
    else if event.nextTaskId.None? then
      Err(InvalidTransition(event.messageId))
    else if event.nextTaskId.value in p.tasks then
      Err(InvalidTransition(event.messageId))
    else
      var next := NewTask(event.nextTaskId.value, event.branch, 1);
      var q := p.Store(next).Store(task.(stopReason := Some(SecondTaskCreated)));
      Ok(q.(taskOrder := p.taskOrder + [next.taskId], stopReason := Some(SecondTaskCreated)))
  }

  /** One pass of the loop body over a new (not duplicate) event. */
  function Step(p: Projection, event: RunEvent): (r: Reduction)
    requires p.Listed()
  {
    if p.stopReason == Some(SecondTaskCreated) && IsExecuting(event.eventType) then
      Err(StopBoundary(event.messageId))
    else if event.eventType == TaskCreated then
      if p.taskOrder != [] || event.taskId in p.tasks then
        Err(InvalidTransition(event.messageId))
      else
        Ok(p.Store(NewTask(event.taskId, event.branch, event.attempt)).(taskOrder := p.taskOrder + [event.taskId]))
    else if event.taskId !in p.tasks then
      Err(InvalidTransition(event.messageId))
    else
      var task := p.tasks[event.taskId];
      match event.eventType
      case CopilotDispatched => Dispatch(p, task, event)
      case CopilotResultRecorded => RecordResult(p, task, event)
      case CiEvidenceRecorded => RecordCi(p, task, event)
      case OpenAiReviewRecorded => RecordReview(p, task, event)
      case NextTaskCreated => CreateNext(p, task, event)
      case TaskPaused =>
        if task.state == Completed then Err(InvalidTransition(event.messageId))
        else Ok(p.Store(task.(state := Paused)))
      case TaskCompleted =>
        if task.state != Completed then Err(InvalidTransition(event.messageId))
        else Ok(p)
  }

  // ---------- The whole log ----------

  /** Insertion keeps equal keys in their arrival order, as the source's stable sort does. */
  function Insert(event: RunEvent, sorted: seq<RunEvent>): seq<RunEvent> {
    if sorted == [] then [event]
    else if sorted[0].Precedes(event) then [sorted[0]] + Insert(event, sorted[1..])
    else [event] + sorted
  }

  function Sorted(events: seq<RunEvent>): seq<RunEvent> {
    if events == [] then [] else Insert(events[0], Sorted(events[1..]))
  }

  /** Folds sorted events, skipping identical duplicates and refusing conflicting ones. */
  function Fold(events: seq<RunEvent>, p: Projection, seen: map<string, RunEvent>): Reduction
    requires WellFormed(p)
    decreases |events|
  {
    if events == [] then Ok(p)
    else
      var event := events[0];
      if event.messageId in seen then
        if event != seen[event.messageId] then Err(DuplicateMessageId(event.messageId))
        else Fold(events[1..], p, seen)
      else
        match Step(p, event)
        case Err(error) => Err(error)
        case Ok(q) =>
          StepKeepsWellFormed(p, event);
          Fold(events[1..], q, seen[event.messageId := event])
  }

  function Reduce(events: seq<RunEvent>): Reduction {
    Fold(Sorted(events), EMPTY, map[])
  }

  method ReduceRunEvents(events: seq<RunEvent>) returns (r: Reduction)
    ensures r == Reduce(events)
  {
    var sorted := Sorted(events);
    var projection: Projection := EMPTY;
    var seen: map<string, RunEvent> := map[];
    var i := 0;
    while i < |sorted|
      invariant 0 <= i <= |sorted|
      invariant WellFormed(projection)
      invariant Fold(sorted[i..], projection, seen) == Reduce(events)
    {
      var event := sorted[i];
      assert sorted[i..][1..] == sorted[i + 1..];
      i := i + 1;
      if event.messageId in seen {
        if event != seen[event.messageId] {
          return Err(DuplicateMessageId(event.messageId));
        }
        continue;
      }
      seen := seen[event.messageId := event];
      var stepped := Step(projection, event);
      if stepped.Err? {
        return Err(stepped.error);
      }
      StepKeepsWellFormed(projection, event);
      projection := stepped.value;
    }
    return Ok(projection);
  }

  // ---------- What every reachable projection looks like ----------

  /** The bounds on one task that has just reached its state through the lifecycle. */
  predicate TaskBounds(t: Task) {
    && 0 <= t.repairAttempts <= MAX_REPAIR_ATTEMPTS_PER_TASK
    && 0 <= t.noProgressCount <= t.repairAttempts + (if t.state in {ReadyForCopilot, CopilotRunning} then 0 else 1)
    && t.stopReason != Some(NoProgressLimitReached)
  }

  /** At most two tasks; the second exists exactly when the stop boundary is set, and then the first is
      completed and the second has never been dispatched. */
  predicate WellFormed(p: Projection) {
    && p.Listed()
    && |p.taskOrder| <= 2
    && (forall id | id in p.tasks :: p.tasks[id].taskId == id && TaskBounds(p.tasks[id]))
    && (|p.taskOrder| < 2 ==> p.stopReason == None)
    && (|p.taskOrder| == 2 ==>
          && p.taskOrder[0] != p.taskOrder[1]
          && p.stopReason == Some(SecondTaskCreated)
          && p.tasks[p.taskOrder[0]].state == Completed
          && p.tasks[p.taskOrder[1]].state in {ReadyForCopilot, Paused}
          && p.tasks[p.taskOrder[1]].currentAttempt == 1
          && p.tasks[p.taskOrder[1]].repairAttempts == 0)
  }

  lemma StoreKeepsWellFormed(p: Projection, task: Task)
    requires WellFormed(p) && |p.taskOrder| == 1 && p.taskOrder[0] == task.taskId && TaskBounds(task)
    ensures WellFormed(p.Store(task))
  {
    assert p.Store(task).tasks.Keys == p.tasks.Keys;
  }

  lemma PauseKeepsWellFormed(p: Projection, id: string)
    requires WellFormed(p) && id in p.tasks && p.tasks[id].state != Completed
    ensures WellFormed(p.Store(p.tasks[id].(state := Paused)))
  {
    assert p.Store(p.tasks[id].(state := Paused)).tasks.Keys == p.tasks.Keys;
  }

  lemma CreateNextKeepsWellFormed(p: Projection, event: RunEvent)
    requires WellFormed(p) && |p.taskOrder| == 1 && p.taskOrder[0] == event.taskId
    requires CreateNext(p, p.tasks[event.taskId], event).Ok?
    ensures WellFormed(CreateNext(p, p.tasks[event.taskId], event).value)
  {
    var q := CreateNext(p, p.tasks[event.taskId], event).value;
    assert q.taskOrder == [event.taskId, event.nextTaskId.value];
    assert q.tasks.Keys == {event.taskId, event.nextTaskId.value};
  }

  lemma {:induction false} StepKeepsWellFormed(p: Projection, event: RunEvent)
    requires WellFormed(p)
    ensures Step(p, event).Ok? ==> WellFormed(Step(p, event).value)
  {
    if Step(p, event).Ok? {
      if event.eventType == TaskCreated {
        assert p.tasks == map[] && Step(p, event).value.taskOrder == [event.taskId];
      } else if event.eventType == TaskPaused {
        PauseKeepsWellFormed(p, event.taskId);
      } else {
        assert |p.taskOrder| == 1;
        assert p.taskOrder[0] == event.taskId;
        if event.eventType == NextTaskCreated {
          CreateNextKeepsWellFormed(p, event);
        } else {
          UpdateKeepsWellFormed(p, event);
        }
      }
    }
  }

  lemma {:induction false} UpdateKeepsWellFormed(p: Projection, event: RunEvent)
    requires WellFormed(p) && |p.taskOrder| == 1 && p.taskOrder[0] == event.taskId
    requires event.eventType !in {TaskCreated, NextTaskCreated, TaskPaused}
    ensures Step(p, event).Ok? ==> WellFormed(Step(p, event).value)
  {
    var r := Step(p, event);
    if r.Ok? && event.eventType != TaskCompleted {
      var task := r.value.tasks[event.taskId];
      assert r.value == p.Store(task) && TaskBounds(task);
      StoreKeepsWellFormed(p, task);
    }
  }
}
