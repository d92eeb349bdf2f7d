/**
  What a reduced log says about the past: a completed task has its dispatch, result, CI evidence and
  accepting review on one and the same commit, and no log that reduces is longer than the lifecycle allows.
 */
module ReducerHistory {
  import opened Wrappers
  import opened TextOrder
  import opened Reducer
  import opened ReducerOrder

  // ---------- Witnesses ----------

  /** Event `k` of the log has this type and belongs to the task's active attempt. */
  ghost predicate At(log: seq<RunEvent>, t: Task, k: int, eventType: EventType) {
    && 0 <= k < |log|
    && log[k].eventType == eventType
    && log[k].taskId == t.taskId
    && log[k].attempt == t.currentAttempt
  }

  ghost predicate DispatchedAt(log: seq<RunEvent>, t: Task, i: int) {
    At(log, t, i, CopilotDispatched)
  }

  ghost predicate ResultAt(log: seq<RunEvent>, t: Task, i: int, j: int) {
    && DispatchedAt(log, t, i) && i < j && At(log, t, j, CopilotResultRecorded)
    && log[j].commitSha == log[j].headSha == t.headSha
  }

  ghost predicate CiAt(log: seq<RunEvent>, t: Task, i: int, j: int, k: int) {
    && ResultAt(log, t, i, j) && j < k && At(log, t, k, CiEvidenceRecorded)
    && log[k].commitSha == log[k].expectedHeadSha == t.headSha
    && t.headSha.Some?
  }

  ghost predicate AcceptedAt(log: seq<RunEvent>, t: Task, i: int, j: int, k: int, l: int) {
    && CiAt(log, t, i, j, k) && k < l && At(log, t, l, OpenAiReviewRecorded)
    && log[l].commitSha == log[l].expectedHeadSha == t.headSha
    && log[l].reviewDecision in {Some(Accept), Some(NextTask)}
    && log[l].reviewDecision == t.lastReviewDecision
  }

  /** The log holds the events that brought the task into its state. */
  ghost predicate Witnessed(log: seq<RunEvent>, t: Task) {
    && (t.state == CopilotRunning ==> exists i :: DispatchedAt(log, t, i))
    && (t.state == WaitingForCi ==> exists i, j :: ResultAt(log, t, i, j))
    && (t.state == WaitingForOpenAiReview ==> exists i, j, k :: CiAt(log, t, i, j, k))
    && (t.state == Completed ==> exists i, j, k, l :: AcceptedAt(log, t, i, j, k, l))
  }

  lemma WitnessSurvives(log: seq<RunEvent>, event: RunEvent, t: Task)
    requires Witnessed(log, t)
    ensures Witnessed(log + [event], t)
  {
    var longer := log + [event];
    if t.state == CopilotRunning {
      var i :| DispatchedAt(log, t, i);
      assert DispatchedAt(longer, t, i);
    } else if t.state == WaitingForCi {
      var i, j :| ResultAt(log, t, i, j);
      assert ResultAt(longer, t, i, j);
    } else if t.state == WaitingForOpenAiReview {
      var i, j, k :| CiAt(log, t, i, j, k);
      assert CiAt(longer, t, i, j, k);
    } else if t.state == Completed {
      var i, j, k, l :| AcceptedAt(log, t, i, j, k, l);
      assert AcceptedAt(longer, t, i, j, k, l);
    }
  }

  /** The task an event addresses is witnessed again after the event. */
  lemma AddressedTaskIsWitnessed(log: seq<RunEvent>, p: Projection, event: RunEvent)
    requires WellFormed(p) && event.taskId in p.tasks && Witnessed(log, p.tasks[event.taskId])
    requires Step(p, event).Ok? && event.eventType !in {TaskCreated, NextTaskCreated}
    ensures Witnessed(log + [event], Step(p, event).value.tasks[event.taskId])
  {
    hide CreateNext, TaskBounds;
    var t := p.tasks[event.taskId];
    var u := Step(p, event).value.tasks[event.taskId];
    var longer := log + [event];
    var n := |log|;
    WitnessSurvives(log, event, t);
    if event.eventType == CopilotDispatched {
      assert DispatchedAt(longer, u, n);
    } else if event.eventType == CopilotResultRecorded {
      var i :| DispatchedAt(longer, t, i) && i < n by {
        var i :| DispatchedAt(log, t, i);
        assert DispatchedAt(longer, t, i);
      }
      assert DispatchedAt(longer, u, i);
      assert u.state == WaitingForCi ==> ResultAt(longer, u, i, n);
    } else if event.eventType == CiEvidenceRecorded {
      var i, j :| ResultAt(log, t, i, j);
      assert ResultAt(longer, u, i, j);
      assert CiAt(longer, u, i, j, n);
    } else if event.eventType == OpenAiReviewRecorded {
      var i, j, k :| CiAt(log, t, i, j, k);
      if u.state == Completed {
        assert CiAt(longer, u, i, j, k);
        assert AcceptedAt(longer, u, i, j, k, n);
      }
    }
  }

  lemma StepKeepsWitnesses(log: seq<RunEvent>, p: Projection, event: RunEvent)
    requires WellFormed(p) && Step(p, event).Ok?
    requires forall id | id in p.tasks :: Witnessed(log, p.tasks[id])
    ensures forall id | id in Step(p, event).value.tasks :: Witnessed(log + [event], Step(p, event).value.tasks[id])
  {
    var q := Step(p, event).value;
    forall id | id in q.tasks ensures Witnessed(log + [event], q.tasks[id]) {
      if id in p.tasks {
        WitnessSurvives(log, event, p.tasks[id]);
      }
      if id == event.taskId && event.eventType !in {TaskCreated, NextTaskCreated} {
        AddressedTaskIsWitnessed(log, p, event);
      } else if id == event.taskId && event.eventType == NextTaskCreated {
        FollowUpLeavesWitness(log + [event], p.tasks[id]);
      }
    }
  }

  lemma FollowUpLeavesWitness(log: seq<RunEvent>, t: Task)
    requires Witnessed(log, t) && t.state == Completed
    ensures Witnessed(log, t.(stopReason := Some(SecondTaskCreated)))
  {
    var i, j, k, l :| AcceptedAt(log, t, i, j, k, l);
    assert AcceptedAt(log, t.(stopReason := Some(SecondTaskCreated)), i, j, k, l);
  }

  /** `Run` over a log, seen from its last event. */
  lemma {:induction false} RunPeel(log: seq<RunEvent>, p: Projection)
    requires WellFormed(p) && log != [] && Run(log, p).Ok?
    ensures Run(log[..|log| - 1], p).Ok?
    ensures Run(log, p) == Step(Run(log[..|log| - 1], p).value, log[|log| - 1])
  {
    hide Run, Step;
    RunAppend(log[..|log| - 1], p, log[|log| - 1]);
    assert log == log[..|log| - 1] + [log[|log| - 1]];
  }

  lemma {:induction false} RunIsWitnessed(log: seq<RunEvent>)
    requires Run(log, EMPTY).Ok?
    ensures forall id | id in Run(log, EMPTY).value.tasks :: Witnessed(log, Run(log, EMPTY).value.tasks[id])
  {
    hide Witnessed, Step;
    if log != [] {
      RunPeel(log, EMPTY);
      RunIsWitnessed(log[..|log| - 1]);
      StepKeepsWitnesses(log[..|log| - 1], Run(log[..|log| - 1], EMPTY).value, log[|log| - 1]);
      assert log == log[..|log| - 1] + [log[|log| - 1]];
    } else {
      assert Run(log, EMPTY) == Ok(EMPTY);
    }
  }

  predicate IsAcceptance(event: RunEvent, id: string) {
    event.eventType == OpenAiReviewRecorded && event.taskId == id && event.reviewDecision in {Some(Accept), Some(NextTask)}
  }

  lemma {:induction false} AcceptanceCompletes(p: Projection, event: RunEvent, id: string)
    requires WellFormed(p) && Step(p, event).Ok?
    requires IsAcceptance(event, id) || (id in p.tasks && p.tasks[id].state == Completed)
    ensures id in Step(p, event).value.tasks && Step(p, event).value.tasks[id].state == Completed
  {
  }

  /** An accepted task stays completed. */
  lemma {:induction false} AcceptedStaysCompleted(log: seq<RunEvent>, l: nat, id: string)
    requires Run(log, EMPTY).Ok? && l < |log| && IsAcceptance(log[l], id)
    ensures id in Run(log, EMPTY).value.tasks && Run(log, EMPTY).value.tasks[id].state == Completed
    decreases |log|
  {
    hide Step, IsAcceptance;
    var init := log[..|log| - 1];
    RunPeel(log, EMPTY);
    if l < |init| {
      AcceptedStaysCompleted(init, l, id);
    }
    AcceptanceCompletes(Run(init, EMPTY).value, log[|init|], id);
  }

  lemma WitnessIsAcceptance(log: seq<RunEvent>, t: Task, i: int, j: int, k: int, l: int)
    requires AcceptedAt(log, t, i, j, k, l)
    ensures 0 <= l < |log| && IsAcceptance(log[l], t.taskId)
  {
  }

  lemma {:induction false} CompletedExactly(log: seq<RunEvent>, id: string)
    requires Run(log, EMPTY).Ok? && id in Run(log, EMPTY).value.tasks
    ensures var t := Run(log, EMPTY).value.tasks[id];
            && t.taskId == id
            && (t.state == Completed ==> exists i, j, k, l :: AcceptedAt(log, t, i, j, k, l))
            && (forall i, j, k, l | AcceptedAt(log, t, i, j, k, l) :: 0 <= l < |log| && IsAcceptance(log[l], id))
            && (forall l | 0 <= l < |log| && IsAcceptance(log[l], id) :: t.state == Completed)
  {
    hide Run, AcceptedAt, IsAcceptance;
    RunIsWitnessed(log);
    var t := Run(log, EMPTY).value.tasks[id];
    forall i, j, k, l | AcceptedAt(log, t, i, j, k, l) ensures 0 <= l < |log| && IsAcceptance(log[l], id) {
      WitnessIsAcceptance(log, t, i, j, k, l);
    }
    forall l | 0 <= l < |log| && IsAcceptance(log[l], id) ensures t.state == Completed {
      AcceptedStaysCompleted(log, l, id);
    }
  }

  /** A task is completed if and only if the log has, in key order, a dispatch, a result, CI evidence and an accepting review of
      its active attempt, the last three with one and the same commit: the projected head; and as soon as it has an accepting
      review at all. */
  lemma {:induction false} CompletionIsWitnessed(events: seq<RunEvent>, id: string)
    requires Reduce(events).Ok? && id in Reduce(events).value.tasks
    ensures StrictlyOrdered(Distinct(events)) && (forall x :: x in Distinct(events) <==> x in events)
    ensures var t := Reduce(events).value.tasks[id];
            && (t.state == Completed <==> exists i, j, k, l :: AcceptedAt(Distinct(events), t, i, j, k, l))
            && (t.state == Completed <==> exists e :: e in events && IsAcceptance(e, id))
            && t.taskId == id
  {
    hide Reduce, Run, Distinct, StrictlyOrdered, AcceptedAt, IsAcceptance, Witnessed, WellFormed, NoConflict;
    ReduceIsRunOfDistinct(events);
    DistinctIsCanonical(events);
    CompletedExactly(Distinct(events), id);
    if e :| e in events && IsAcceptance(e, id) {
      var l :| 0 <= l < |Distinct(events)| && Distinct(events)[l] == e;
    }
  }

  // ---------- Bounds ----------

  predicate IsLifecycle(event: RunEvent) {
    event.eventType !in {TaskPaused, TaskCompleted}
  }

  predicate IsDispatch(event: RunEvent) {
    event.eventType == CopilotDispatched
  }

  /** How many lifecycle events the projection can still accept. */
  function EventBudget(p: Projection): nat
    requires WellFormed(p)
  {
    if p.taskOrder == [] then 18
    else if |p.taskOrder| == 2 then 0
    else
      var t := p.tasks[p.taskOrder[0]];
      var cycles := 4 * (MAX_REPAIR_ATTEMPTS_PER_TASK - t.repairAttempts);
      match t.state
      case ReadyForCopilot => cycles + 5
      case CopilotRunning => cycles + 4
      case WaitingForCi => cycles + 3
      case WaitingForOpenAiReview => cycles + 2
      case Completed => 1
      case Paused => 0
  }

  /** How many dispatches the projection can still accept. */
  function DispatchBudget(p: Projection): nat
    requires WellFormed(p)
  {
    if p.taskOrder == [] then 4
    else if |p.taskOrder| == 2 then 0
    else
      var t := p.tasks[p.taskOrder[0]];
      match t.state
      case ReadyForCopilot => MAX_REPAIR_ATTEMPTS_PER_TASK - t.repairAttempts + 1
      case Completed => 0
      case Paused => 0
      case _ => MAX_REPAIR_ATTEMPTS_PER_TASK - t.repairAttempts
  }

  lemma {:induction false} StepSpendsBudget(p: Projection, event: RunEvent)
    requires WellFormed(p) && Step(p, event).Ok?
    ensures WellFormed(Step(p, event).value)
    ensures EventBudget(Step(p, event).value) + (if IsLifecycle(event) then 1 else 0) <= EventBudget(p)
    ensures DispatchBudget(Step(p, event).value) + (if IsDispatch(event) then 1 else 0) <= DispatchBudget(p)
  {
    StepKeepsWellFormed(p, event);
    if event.eventType != TaskCreated {
      assert p.taskOrder == [p.taskOrder[0]] || |p.taskOrder| == 2;
    }
  }

  function Tally(log: seq<RunEvent>, counts: RunEvent -> bool): nat {
    if log == [] then 0
    else Tally(log[..|log| - 1], counts) + (if counts(log[|log| - 1]) then 1 else 0)
  }

  function Chosen(log: seq<RunEvent>, counts: RunEvent -> bool): set<RunEvent> {
    set e | e in log && counts(e)
  }

  lemma {:induction false} TallyBoundsSet(log: seq<RunEvent>, counts: RunEvent -> bool)
    ensures |Chosen(log, counts)| <= Tally(log, counts)
  {
    if log != [] {
      var init, last := log[..|log| - 1], log[|log| - 1];
      TallyBoundsSet(init, counts);
      var before, now := Chosen(init, counts), Chosen(log, counts);
      assert log == init + [last];
      assert now == if counts(last) then before + {last} else before;
    } else {
      assert Chosen(log, counts) == {};
    }
  }

  lemma {:induction false} RunSpendsBudget(log: seq<RunEvent>)
    requires Run(log, EMPTY).Ok?
    ensures Tally(log, IsLifecycle) + EventBudget(Run(log, EMPTY).value) <= 18
    ensures Tally(log, IsDispatch) + DispatchBudget(Run(log, EMPTY).value) <= 4
  {
    if log != [] {
      RunPeel(log, EMPTY);
      RunSpendsBudget(log[..|log| - 1]);
      StepSpendsBudget(Run(log[..|log| - 1], EMPTY).value, log[|log| - 1]);
    }
  }

  lemma DistinctTally(events: seq<RunEvent>, counts: RunEvent -> bool)
    requires NoConflict(events)
    ensures |Chosen(events, counts)| <= Tally(Distinct(events), counts)
  {
    DistinctIsCanonical(events);
    TallyBoundsSet(Distinct(events), counts);
    assert Chosen(events, counts) == Chosen(Distinct(events), counts);
  }

  /** Every log that reduces holds at most 4 distinct dispatches and at most 18 distinct events other
      than pauses and audit completions. */
  lemma LifecycleIsBounded(events: seq<RunEvent>)
    requires Reduce(events).Ok?
    ensures |Chosen(events, IsDispatch)| <= 4
    ensures |Chosen(events, IsLifecycle)| <= 18
  {
    ReduceIsRunOfDistinct(events);
    RunSpendsBudget(Distinct(events));
    DistinctTally(events, IsDispatch);
    DistinctTally(events, IsLifecycle);
  }

  // ---------- Attempts ----------

  function AttemptOffset(t: Task): int {
    t.currentAttempt - t.repairAttempts
  }

  lemma StepKeepsAttemptOffset(p: Projection, event: RunEvent, id: string)
    requires WellFormed(p) && Step(p, event).Ok? && id in p.tasks
    ensures id in Step(p, event).value.tasks
    ensures AttemptOffset(Step(p, event).value.tasks[id]) == AttemptOffset(p.tasks[id])
    ensures p.taskOrder <= Step(p, event).value.taskOrder
  {
  }

  /** Attempts are numbered from the attempt of the TASK_CREATED event, the first of the log, and move
      only with repairs; a follow-up task stays at attempt 1 with no repair. */
  lemma {:induction false} AttemptsAreNumberedFromCreation(log: seq<RunEvent>)
    requires Run(log, EMPTY).Ok? && log != []
    ensures var p := Run(log, EMPTY).value;
            && p.taskOrder != [] && p.taskOrder[0] == log[0].taskId && log[0].taskId in p.tasks
            && log[0].eventType == TaskCreated
            && AttemptOffset(p.tasks[log[0].taskId]) == log[0].attempt
            && p.tasks[log[0].taskId].noProgressCount <= p.tasks[log[0].taskId].repairAttempts + 1
  {
    var init := log[..|log| - 1];
    RunPeel(log, EMPTY);
    if init == [] {
      assert Run(init, EMPTY).value == EMPTY;
    } else {
      AttemptsAreNumberedFromCreation(init);
      var p := Run(init, EMPTY).value;
      StepKeepsAttemptOffset(p, log[|log| - 1], log[0].taskId);
    }
  }

  /** With the shipped limits the no-progress pause is dead code: on every reachable projection the
      counter stays below its limit, so recording a result never pauses a task. */
  lemma NoProgressPauseIsUnreachable(events: seq<RunEvent>, event: RunEvent)
    requires Reduce(events).Ok? && event.taskId in Reduce(events).value.tasks
    requires event.eventType == CopilotResultRecorded
    ensures WellFormed(Reduce(events).value)
    ensures Step(Reduce(events).value, event).Ok? ==>
              Step(Reduce(events).value, event).value.tasks[event.taskId].state == WaitingForCi
    ensures forall id | id in Reduce(events).value.tasks ::
              && Reduce(events).value.tasks[id].stopReason != Some(NoProgressLimitReached)
              && Reduce(events).value.tasks[id].noProgressCount <= 4
  {
    ReduceIsRunOfDistinct(events);
  }

  // ---------- The bounds are attained ----------

  /** Event `i` of the longest log: three repair cycles, an accepted fourth attempt, a follow-up task. */
  function LongestEvent(i: nat, task: string, next: string, head: string): RunEvent {
    var cycle, phase := (i - 1) / 4, (i - 1) % 4;
    var eventType :=
      if i == 0 then TaskCreated
      else if i == 17 then NextTaskCreated
      else if phase == 0 then CopilotDispatched
      else if phase == 1 then CopilotResultRecorded
      else if phase == 2 then CiEvidenceRecorded
      else OpenAiReviewRecorded;
    RunEvent(
      seq(i + 1, _ => 'm'), i, eventType, task, "", if i == 0 then 1 else cycle + 1,
      if eventType == CopilotResultRecorded then None else Some(head), Some(head),
      if eventType == CopilotResultRecorded then Some(head) else None,
      None, None, [],
      if eventType == OpenAiReviewRecorded then Some(if cycle < 3 then FixRequired else Accept) else None,
      [], None, false, Some(next), None, "")
  }

  function LongestLog(n: nat, task: string, next: string, head: string): seq<RunEvent> {
    seq(n, i requires 0 <= i => LongestEvent(i, task, next, head))
  }

  /** After `n` events of the longest log, `state` is reached with `c` repairs done and `n` events counted. */
  ghost predicate Reached(n: nat, task: string, next: string, head: string, c: nat, state: LifecycleState) {
    var log := LongestLog(n, task, next, head);
    var r := Run(log, EMPTY);
    && r.Ok? && r.value.taskOrder == [task] && task in r.value.tasks
    && InPhase(r.value.tasks[task], head, c, state)
    && Tally(log, IsLifecycle) == n
    && Tally(log, IsDispatch) == (if state == ReadyForCopilot then c else c + 1)
  }

  predicate InPhase(t: Task, head: string, c: nat, state: LifecycleState) {
    && t.state == state && t.repairAttempts == c && t.currentAttempt == c + 1
    && (state in {WaitingForCi, WaitingForOpenAiReview} ==> t.headSha == Some(head))
  }

  lemma {:induction false} LongestLogExtends(n: nat, task: string, next: string, head: string)
    requires Run(LongestLog(n, task, next, head), EMPTY).Ok?
    ensures var log, event := LongestLog(n, task, next, head), LongestEvent(n, task, next, head);
            var longer := LongestLog(n + 1, task, next, head);
            && Run(longer, EMPTY) == Step(Run(log, EMPTY).value, event)
            && Tally(longer, IsLifecycle) == Tally(log, IsLifecycle) + 1
            && Tally(longer, IsDispatch) == Tally(log, IsDispatch) + (if IsDispatch(event) then 1 else 0)
  {
    var log, event := LongestLog(n, task, next, head), LongestEvent(n, task, next, head);
    var longer := LongestLog(n + 1, task, next, head);
    assert longer == log + [event];
    assert longer[..n] == log;
    RunAppend(log, EMPTY, event);
  }

  function PhaseState(phase: nat): LifecycleState {
    if phase == 0 then ReadyForCopilot
    else if phase == 1 then CopilotRunning
    else if phase == 2 then WaitingForCi
    else WaitingForOpenAiReview
  }

  /** The event carries what the lifecycle expects in this phase of cycle `c`. */
  predicate FitsPhase(event: RunEvent, head: string, c: nat, phase: nat) {
    && event.attempt == c + 1 && event.commitSha == Some(head)
    && event.eventType == (if phase == 0 then CopilotDispatched
                           else if phase == 1 then CopilotResultRecorded
                           else if phase == 2 then CiEvidenceRecorded
                           else OpenAiReviewRecorded)
    && (if phase == 1 then event.headSha == Some(head) else event.expectedHeadSha == Some(head))
    && (phase == 3 ==> event.reviewDecision == Some(if c < 3 then FixRequired else Accept))
  }

  lemma PhaseStep(p: Projection, event: RunEvent, head: string, c: nat, phase: nat)
    requires WellFormed(p) && p.taskOrder == [event.taskId] && event.taskId in p.tasks && c <= 3 && phase < 4
    requires InPhase(p.tasks[event.taskId], head, c, PhaseState(phase)) && FitsPhase(event, head, c, phase)
    ensures Step(p, event).Ok?
    ensures var q := Step(p, event).value;
            && q.taskOrder == [event.taskId] && event.taskId in q.tasks
            && (phase < 3 ==> InPhase(q.tasks[event.taskId], head, c, PhaseState(phase + 1)))
            && (phase == 3 && c < 3 ==> InPhase(q.tasks[event.taskId], head, c + 1, ReadyForCopilot))
            && (phase == 3 && c == 3 ==> InPhase(q.tasks[event.taskId], head, c, Completed))
  {
  }

  lemma LongestShape(c: nat, phase: nat, task: string, next: string, head: string)
    requires c <= 3 && phase < 4
    ensures LongestEvent(4 * c + 1 + phase, task, next, head).taskId == task
    ensures FitsPhase(LongestEvent(4 * c + 1 + phase, task, next, head), head, c, phase)
  {
    assert (4 * c + phase) / 4 == c && (4 * c + phase) % 4 == phase;
  }

  lemma {:induction false} PhaseIsReached(c: nat, phase: nat, task: string, next: string, head: string)
    requires c <= 3 && phase < 4
    requires Reached(4 * c + 1 + phase, task, next, head, c, PhaseState(phase))
    ensures phase < 3 ==> Reached(4 * c + 2 + phase, task, next, head, c, PhaseState(phase + 1))
    ensures phase == 3 && c < 3 ==> Reached(4 * c + 5, task, next, head, c + 1, ReadyForCopilot)
    ensures phase == 3 && c == 3 ==> Reached(4 * c + 5, task, next, head, c, Completed)
  {
    hide Run, Step, Tally, LongestEvent, LongestLog, FitsPhase;
    var n := 4 * c + 1 + phase;
    LongestLogExtends(n, task, next, head);
    LongestShape(c, phase, task, next, head);
    PhaseStep(Run(LongestLog(n, task, next, head), EMPTY).value, LongestEvent(n, task, next, head), head, c, phase);
  }

  lemma {:induction false} ReviewIsReached(c: nat, task: string, next: string, head: string)
    requires c <= 3
    ensures Reached(4 * c + 4, task, next, head, c, WaitingForOpenAiReview)
  {
    hide Reached, LongestLog;
    if c == 0 {
      CreationIsReached(task, next, head);
    } else {
      ReviewIsReached(c - 1, task, next, head);
      PhaseIsReached(c - 1, 3, task, next, head);
    }
    PhaseIsReached(c, 0, task, next, head);
    PhaseIsReached(c, 1, task, next, head);
    PhaseIsReached(c, 2, task, next, head);
  }

  lemma CreationIsReached(task: string, next: string, head: string)
    ensures Reached(1, task, next, head, 0, ReadyForCopilot)
  {
    assert LongestLog(0, task, next, head) == [];
    LongestLogExtends(0, task, next, head);
  }

  lemma LongestLogIsStrict(n: nat, task: string, next: string, head: string)
    ensures StrictlyOrdered(LongestLog(n, task, next, head)) && NoConflict(LongestLog(n, task, next, head))
  {
    var log := LongestLog(n, task, next, head);
    forall a, b | a in log && b in log && a.messageId == b.messageId ensures a == b {
      assert |a.messageId| == a.createdAt + 1 && |b.messageId| == b.createdAt + 1;
    }
  }

  lemma FollowUpIsReached(task: string, next: string, head: string)
    requires task != next && Reached(17, task, next, head, 3, Completed)
    ensures var log := LongestLog(18, task, next, head);
            Run(log, EMPTY).Ok? && Tally(log, IsLifecycle) == 18 && Tally(log, IsDispatch) == 4
  {
    hide Run, Tally, LongestLog;
    LongestLogExtends(17, task, next, head);
    var p, event := Run(LongestLog(17, task, next, head), EMPTY).value, LongestEvent(17, task, next, head);
    assert event.eventType == NextTaskCreated && event.taskId == task && event.nextTaskId == Some(next);
    assert p.tasks.Keys == {task};
    assert CreateNext(p, p.tasks[task], event).Ok?;
  }

  lemma LongestLogReduces(n: nat, task: string, next: string, head: string)
    requires Run(LongestLog(n, task, next, head), EMPTY).Ok?
    ensures Reduce(LongestLog(n, task, next, head)) == Run(LongestLog(n, task, next, head), EMPTY)
  {
    var log := LongestLog(n, task, next, head);
    LongestLogIsStrict(n, task, next, head);
    DistinctIsCanonical(log);
    StrictOrderIsUnique(Distinct(log), log);
    ReduceIsRunOfDistinct(log);
  }

  // ---------- The stop boundary ----------

  predicate IsFollowUp(event: RunEvent) {
    event.eventType == NextTaskCreated
  }

  lemma {:induction false} StepSetsBoundary(p: Projection, event: RunEvent)
    requires WellFormed(p) && Step(p, event).Ok?
    ensures var q := Step(p, event).value;
            if IsFollowUp(event) then
              p.stopReason == None && q.stopReason == Some(SecondTaskCreated)
              && event.nextTaskId.Some? && q.taskOrder == p.taskOrder + [event.nextTaskId.value]
            else q.stopReason == p.stopReason && (p.stopReason.Some? ==> q.taskOrder == p.taskOrder)
  {
  }

  lemma {:induction false} RunSetsBoundary(log: seq<RunEvent>)
    requires Run(log, EMPTY).Ok?
    ensures var p := Run(log, EMPTY).value;
            && (p.stopReason == Some(SecondTaskCreated) <==> exists e :: e in log && IsFollowUp(e))
            && (forall e | e in log && IsFollowUp(e) :: |p.taskOrder| == 2 && e.nextTaskId == Some(p.taskOrder[1]))
            && (forall i, j | 0 <= i < j < |log| :: !(IsFollowUp(log[i]) && IsFollowUp(log[j])))
            && WellFormed(p)
  {
    hide Step, IsFollowUp;
    if log == [] {
      EmptyIsWellFormed();
    } else {
      var init, last := log[..|log| - 1], log[|log| - 1];
      RunPeel(log, EMPTY);
      RunSetsBoundary(init);
      var p := Run(init, EMPTY).value;
      StepSetsBoundary(p, last);
      StepKeepsWellFormed(p, last);
      assert forall e :: e in log <==> e in init || e == last;
      assert forall i | 0 <= i < |init| :: log[i] == init[i] && log[i] in init;
    }
  }

  lemma EmptyIsWellFormed()
    ensures Run([], EMPTY) == Ok(EMPTY) && WellFormed(EMPTY)
  {
  }

  /** Of every log that reduces: the stop boundary is set if and only if the log holds the creation of a follow-up task; it holds
      one at most, and that event names the second task. */
  lemma {:induction false} BoundaryIsTheFollowUpEvent(events: seq<RunEvent>)
    requires Reduce(events).Ok?
    ensures var p := Reduce(events).value;
            && (p.stopReason == Some(SecondTaskCreated) <==> exists e :: e in events && IsFollowUp(e))
            && (forall e | e in events && IsFollowUp(e) :: |p.taskOrder| == 2 && e.nextTaskId == Some(p.taskOrder[1]))
            && (forall e, f | e in events && IsFollowUp(e) && f in events && IsFollowUp(f) :: e == f)
  {
    hide Run, IsFollowUp, Distinct, StrictlyOrdered, Reduce;
    ReduceIsRunOfDistinct(events);
    DistinctIsCanonical(events);
    RunSetsBoundary(Distinct(events));
    forall e, f | e in events && IsFollowUp(e) && f in events && IsFollowUp(f)
      ensures e == f
    {
      assert e in Distinct(events) && f in Distinct(events);
      var i :| 0 <= i < |Distinct(events)| && Distinct(events)[i] == e;
      var j :| 0 <= j < |Distinct(events)| && Distinct(events)[j] == f;
    }
  }

  /** One event before the end of the longest log the boundary is open; at its end the follow-up task is ready. */
  lemma BoundaryOpensAndCloses(task: string, next: string, head: string)
    requires task != next
    ensures var r := Reduce(LongestLog(17, task, next, head)); r.Ok? && r.value.stopReason == None
    ensures var r := Reduce(LongestLog(18, task, next, head));
            && r.Ok? && r.value.stopReason == Some(SecondTaskCreated)
            && next in r.value.tasks && r.value.tasks[next] == NewTask(next, "", 1)
  {
    ReviewIsReached(3, task, next, head);
    PhaseIsReached(3, 3, task, next, head);
    FollowUpIsReached(task, next, head);
    LongestLogReduces(17, task, next, head);
    LongestLogReduces(18, task, next, head);
    FollowUpIsFresh(task, next, head);
  }

  lemma FollowUpIsFresh(task: string, next: string, head: string)
    requires task != next && Reached(17, task, next, head, 3, Completed)
    requires Run(LongestLog(18, task, next, head), EMPTY).Ok?
    ensures var p := Run(LongestLog(18, task, next, head), EMPTY).value;
            p.stopReason == Some(SecondTaskCreated) && next in p.tasks && p.tasks[next] == NewTask(next, "", 1)
  {
    LongestLogExtends(17, task, next, head);
    var event := LongestEvent(17, task, next, head);
    assert event.eventType == NextTaskCreated && event.nextTaskId == Some(next) && event.branch == "";
  }

  /** Both bounds are exact: for any two task ids and any commit this log of 18 distinct lifecycle events,
      4 of them dispatches, reduces. */
  lemma BoundsAreAttained(task: string, next: string, head: string)
    requires task != next
    ensures var log := LongestLog(18, task, next, head);
            && Reduce(log).Ok?
            && StrictlyOrdered(log)
            && Tally(log, IsLifecycle) == 18
            && Tally(log, IsDispatch) == 4
  {
    ReviewIsReached(3, task, next, head);
    PhaseIsReached(3, 3, task, next, head);
    FollowUpIsReached(task, next, head);
    LongestLogIsStrict(18, task, next, head);
    LongestLogReduces(18, task, next, head);
  }
}
