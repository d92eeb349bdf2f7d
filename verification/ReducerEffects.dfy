/**
  What each kind of event does to a log that reduces, when it is appended to it: when it is accepted, what it writes, and with which
  error it is refused. Told from the projection and the event, not by the functions that apply it.
 */
module ReducerEffects {
  import opened Wrappers
  import opened Reducer
  import opened ReducerOrder
  import opened ReducerHistory

  /** The log reduces, and the event comes after all of it. */
  ghost predicate Extends(log: seq<RunEvent>, event: RunEvent) {
    Reduce(log).Ok? && forall x | x in log :: x.Precedes(event) && x.messageId != event.messageId
  }

  /** The task of the event, when the log created it and no follow-up task yet. */
  predicate IsOpen(p: Projection, event: RunEvent) {
    p.stopReason == None && event.taskId in p.tasks
  }

  /** The event is of the active attempt of a task in this state. */
  predicate IsDue(p: Projection, event: RunEvent, state: LifecycleState) {
    && IsOpen(p, event)
    && p.tasks[event.taskId].state == state
    && p.tasks[event.taskId].currentAttempt == event.attempt
  }

  /** The event is about the very commit the task stands on. */
  predicate OnHead(t: Task, event: RunEvent) {
    t.headSha.Some? && event.expectedHeadSha == t.headSha && event.commitSha == t.headSha
  }

  /** From `p` to `q` only this task moved. */
  predicate Moved(p: Projection, q: Projection, event: RunEvent, t: Task) {
    && q.taskOrder == p.taskOrder && q.stopReason == p.stopReason
    && q.tasks == p.tasks[event.taskId := t]
  }

  lemma {:induction false} AppendedIsOneStep(log: seq<RunEvent>, event: RunEvent)
    requires Extends(log, event)
    ensures WellFormed(Reduce(log).value) && Reduce(log + [event]) == Step(Reduce(log).value, event)
  {
    LaterEventIsOneStep(log, event);
  }

  /** A task is created when there is none, ready for its first dispatch. */
  lemma {:induction false} CreationBegins(log: seq<RunEvent>, event: RunEvent)
    requires Extends(log, event) && event.eventType == TaskCreated
    ensures var p, r := Reduce(log).value, Reduce(log + [event]);
            && (r.Ok? <==> p.taskOrder == [])
            && (r.Ok? ==>
                  && r.value.tasks.Keys == {event.taskId} && r.value.taskOrder == [event.taskId] && r.value.stopReason == None
                  && IsNew(r.value.tasks[event.taskId], event.taskId, event.branch, event.attempt))
  {
    hide Reduce;
    AppendedIsOneStep(log, event);
  }

  /** Nothing has happened to the task yet. */
  predicate IsNew(t: Task, id: string, branch: string, attempt: int) {
    && t.taskId == id && t.branch == branch && t.currentAttempt == attempt && t.state == ReadyForCopilot
    && t.repairAttempts == 0 && t.noProgressCount == 0 && t.headSha == None && t.expectedHeadSha == None
    && t.lastReviewDecision == None && t.providerRunIds == [] && t.ciCheckNames == [] && t.ciConclusion == None
    && t.acceptedCriteria == [] && t.pullRequest == None && t.stopReason == None
  }

  /** A dispatch is accepted for the active attempt of a ready task, and remembers a provider run it has not seen. */
  lemma {:induction false} DispatchRuns(log: seq<RunEvent>, event: RunEvent)
    requires Extends(log, event) && event.eventType == CopilotDispatched
    ensures var p, r := Reduce(log).value, Reduce(log + [event]);
            && (r.Ok? <==> IsDue(p, event, ReadyForCopilot))
            && (r.Ok? ==>
                  event.taskId in r.value.tasks &&
                  var t, u := p.tasks[event.taskId], r.value.tasks[event.taskId];
                  && Moved(p, r.value, event, u)
                  && u == t.(state := CopilotRunning, providerRunIds := u.providerRunIds)
                  && t.providerRunIds <= u.providerRunIds
                  && (forall run :: run in u.providerRunIds <==> run in t.providerRunIds || (run != "" && event.providerRunId == Some(run)))
                  && |u.providerRunIds| <= |t.providerRunIds| + 1
                  && (event.providerRunId.Some? && event.providerRunId.value in t.providerRunIds ==> u == t.(state := CopilotRunning)))
  {
    hide Reduce;
    AppendedIsOneStep(log, event);
  }

  /** A result is accepted from the running attempt when it stands on its own head. It moves the task to that head, adds the criteria and
      counts the turns without progress. */
  lemma {:induction false} ResultWaitsForCi(log: seq<RunEvent>, event: RunEvent)
    requires Extends(log, event) && event.eventType == CopilotResultRecorded
    ensures var p, r := Reduce(log).value, Reduce(log + [event]);
            && (r.Ok? <==> IsDue(p, event, CopilotRunning) && event.commitSha == event.headSha)
            && (r.Ok? ==>
                  event.taskId in r.value.tasks &&
                  var t, u := p.tasks[event.taskId], r.value.tasks[event.taskId];
                  && Moved(p, r.value, event, u)
                  && u == t.(state := WaitingForCi, headSha := event.headSha, expectedHeadSha := event.headSha,
                             acceptedCriteria := t.acceptedCriteria + event.acceptedCriteriaDelta, pullRequest := event.pullRequest,
                             noProgressCount := u.noProgressCount)
                  && (ShowsProgress(event) ==> u.noProgressCount == 0)
                  && (!ShowsProgress(event) ==> u.noProgressCount == t.noProgressCount + 1))
  {
    hide Reduce;
    AppendedIsOneStep(log, event);
    if event.taskId in Reduce(log).value.tasks {
      NoProgressPauseIsUnreachable(log, event);
    }
  }

  predicate ShowsProgress(event: RunEvent) {
    || event.progressVerified
    || |event.acceptedCriteriaDelta| > 0
    || (event.verifiedDiffSummary.Some? && |event.verifiedDiffSummary.value| > 0)
  }

  /** CI evidence is accepted for the head of the task, whatever its conclusion, which it records. */
  lemma {:induction false} CiWaitsForReview(log: seq<RunEvent>, event: RunEvent)
    requires Extends(log, event) && event.eventType == CiEvidenceRecorded
    ensures var p, r := Reduce(log).value, Reduce(log + [event]);
            && (r.Ok? <==> IsDue(p, event, WaitingForCi) && OnHead(p.tasks[event.taskId], event))
            && (r.Ok? ==>
                  var t := p.tasks[event.taskId];
                  Moved(p, r.value, event, t.(state := WaitingForOpenAiReview, ciCheckNames := event.ciCheckNames, ciConclusion := event.ciConclusion)))
  {
    hide Reduce;
    AppendedIsOneStep(log, event);
  }

  /** What a review makes of the task: accepted, it is completed; to be fixed, it starts its next attempt while there is one left, without
      head and CI evidence, and is paused for the limit otherwise; blocked, it is paused. */
  predicate Reviewed(t: Task, decision: ReviewDecision, u: Task) {
    match decision
    case Accept => u == t.(state := Completed, lastReviewDecision := Some(decision))
    case NextTask => u == t.(state := Completed, lastReviewDecision := Some(decision))
    case BlockedByReview => u == t.(state := Paused, lastReviewDecision := Some(decision))
    case HumanDecisionRequired => u == t.(state := Paused, lastReviewDecision := Some(decision))
    case FixRequired =>
      if t.repairAttempts < 3 then
        u == t.(state := ReadyForCopilot, currentAttempt := t.currentAttempt + 1, repairAttempts := t.repairAttempts + 1,
                lastReviewDecision := Some(decision), headSha := None, expectedHeadSha := None, ciCheckNames := [], ciConclusion := None)
      else u == t.(state := Paused, stopReason := Some(RepairAttemptLimitReached))
  }

  /** A review that decides is accepted for the head of the task that waits for it, and the task follows the decision. */
  lemma {:induction false} ReviewDecides(log: seq<RunEvent>, event: RunEvent)
    requires Extends(log, event) && event.eventType == OpenAiReviewRecorded
    ensures var p, r := Reduce(log).value, Reduce(log + [event]);
            && (r.Ok? <==> IsDue(p, event, WaitingForOpenAiReview) && OnHead(p.tasks[event.taskId], event) && event.reviewDecision.Some?)
            && (r.Ok? ==>
                  && event.taskId in r.value.tasks
                  && Moved(p, r.value, event, r.value.tasks[event.taskId])
                  && Reviewed(p.tasks[event.taskId], event.reviewDecision.value, r.value.tasks[event.taskId]))
  {
    hide Reduce;
    AppendedIsOneStep(log, event);
  }

  /** A follow-up is created by the completed initial task, under a new id, and closes the boundary. */
  lemma {:induction false} FollowUpIsCreated(log: seq<RunEvent>, event: RunEvent)
    requires Extends(log, event) && event.eventType == NextTaskCreated
    ensures var p, r := Reduce(log).value, Reduce(log + [event]);
            && (r.Ok? <==>
                  && IsOpen(p, event) && p.tasks[event.taskId].state == Completed
                  && event.nextTaskId.Some? && event.nextTaskId.value !in p.tasks)
            && (r.Ok? ==>
                  var q, next := r.value, event.nextTaskId.value;
                  && q.tasks.Keys == p.tasks.Keys + {next} && q.taskOrder == p.taskOrder + [next] && q.stopReason == Some(SecondTaskCreated)
                  && IsNew(q.tasks[next], next, event.branch, 1)
                  && q.tasks[event.taskId] == p.tasks[event.taskId].(stopReason := Some(SecondTaskCreated))
                  && forall id | id in p.tasks && id != event.taskId :: q.tasks[id] == p.tasks[id])
  {
    hide Reduce;
    AppendedIsOneStep(log, event);
  }

  /** A task that is not completed can be paused at any time; the record of a completion changes nothing. */
  lemma {:induction false} PausesAndRecords(log: seq<RunEvent>, event: RunEvent)
    requires Extends(log, event) && (event.eventType == TaskPaused || event.eventType == TaskCompleted)
    ensures var p, r := Reduce(log).value, Reduce(log + [event]);
            && (event.eventType == TaskPaused ==>
                  && (r.Ok? <==> event.taskId in p.tasks && p.tasks[event.taskId].state != Completed)
                  && (r.Ok? ==> Moved(p, r.value, event, p.tasks[event.taskId].(state := Paused))))
            && (event.eventType == TaskCompleted ==>
                  && (r.Ok? <==> IsOpen(p, event) && p.tasks[event.taskId].state == Completed)
                  && (r.Ok? ==> r.value == p))
  {
    hide Reduce;
    AppendedIsOneStep(log, event);
  }

  // ---------- Refusals ----------

  /** The event is due but not about the right commit. */
  predicate IsStale(p: Projection, event: RunEvent) {
    || (event.eventType == CopilotResultRecorded && IsDue(p, event, CopilotRunning) && event.commitSha != event.headSha)
    || (event.eventType == CiEvidenceRecorded && IsDue(p, event, WaitingForCi) && !OnHead(p.tasks[event.taskId], event))
    || (event.eventType == OpenAiReviewRecorded && IsDue(p, event, WaitingForOpenAiReview) && !OnHead(p.tasks[event.taskId], event))
  }

  /** A refused event is named, and refused for the boundary when that is closed and it is no pause, for its head when that is all that is
      wrong, and for the transition otherwise. */
  lemma {:induction false} RefusalsAreNamed(log: seq<RunEvent>, event: RunEvent)
    requires Extends(log, event) && Reduce(log + [event]).Err?
    ensures var p, error := Reduce(log).value, Reduce(log + [event]).error;
            error == if p.stopReason == Some(SecondTaskCreated) && event.eventType != TaskPaused then StopBoundary(event.messageId)
                     else if IsStale(p, event) then StaleHead(event.messageId)
                     else InvalidTransition(event.messageId)
  {
    hide Reduce;
    AppendedIsOneStep(log, event);
  }

  /** A contested message id is named only when one is contested. */
  lemma {:induction false} DuplicatesAreContested(events: seq<RunEvent>, id: string)
    requires Reduce(events) == Err(DuplicateMessageId(id))
    ensures !NoConflict(events)
  {
    hide Reduce;
    ReduceIsRunOfDistinct(events);
    RunNamesNoDuplicate(Distinct(events), EMPTY, id);
  }

  lemma {:induction false} RunNamesNoDuplicate(events: seq<RunEvent>, p: Projection, id: string)
    requires WellFormed(p)
    ensures Run(events, p) != Err(DuplicateMessageId(id))
    decreases |events|
  {
    if events != [] && Step(p, events[0]).Ok? {
      StepKeepsWellFormed(p, events[0]);
      RunNamesNoDuplicate(events[1..], Step(p, events[0]).value, id);
    }
  }
}
