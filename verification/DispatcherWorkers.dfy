/**
  Event handlers and recovery workers racing on one store. Every action below is one atomic piece of a
  worker: one locked store section, one read of the run log, or one call of the provider. A worker that
  raises disappears, and `Crash` removes any worker at any point.
 */
module DispatcherWorkers {
  import opened Wrappers
  import Reducer
  import opened DispatcherStore

  datatype ProviderStatus = JobCompleted | JobFailed | JobInProgress | JobUnrecognised

  datatype ProviderResult = ProviderResult(runId: string, status: ProviderStatus)

  /** A dispatch event; `admitted` is the verdict of the transport, policy and action checks. */
  datatype Event = Event(
    deliveryId: string,
    repository: string,
    taskId: Option<string>,
    attempt: Option<int>,
    branch: Option<string>,
    headSha: Option<string>,
    admitted: bool)

  /** Where a worker stands between two atomic actions. */
  datatype Pc =
    // process_event
    | Screened(event: Event)
    | Admitted(event: Event)
    | Bound(event: Event, key: DedupeKey)
    | HoldsClaim(intent: Intent)
    | HandlerArmed(intent: Intent)
    | Refused(intent: Intent)
    | NotFound(intent: Intent)
    | HandlerAnswered(intent: Intent, result: ProviderResult)
    | HandlerAcked(intent: Intent, result: ProviderResult)
    // resume_unfinished_intents
    | Looping(name: string)
    | HoldsLease(name: string, intent: Intent)
    | Reconciled(name: string, intent: Intent, result: ProviderResult)
    | Unreconciled(name: string, intent: Intent)
    | RecoveryArmed(name: string, intent: Intent)
    | RecoveryAnswered(name: string, intent: Intent, result: ProviderResult)
    | RecoveryAcked(name: string, intent: Intent, result: ProviderResult)
    // the CI-ready path
    | CiClaimed(intent: Intent)
  {
    /** The running record is written and the provider is about to be called. */
    predicate ArmedFor(id: nat) {
      (HandlerArmed? || RecoveryArmed?) && intent.id == id
    }

    /** The worker moved this intent to running and has not let go of it. */
    predicate Drives(id: nat) {
      && (HandlerArmed? || Refused? || NotFound? || HandlerAnswered? || HandlerAcked?
          || RecoveryArmed? || RecoveryAnswered? || RecoveryAcked?)
      && intent.id == id
    }

    /** The worker may still call the provider for this intent, or hand it back to be called again. */
    predicate MayRerun(id: nat) {
      (HandlerArmed? || RecoveryArmed? || Refused? || NotFound?) && intent.id == id
    }
  }

  /** The provider's side of the story: `run` called, `run` ended in a ProviderError in a handler, and
      `reconcile` found nothing after such an error. */
  datatype Happening = RunCalled(id: nat) | RunRefused(id: nat) | NothingFound(id: nat)

  datatype World = World(
    runLog: seq<Reducer.RunEvent>,
    log: seq<Record>,
    workers: map<nat, Pc>,
    history: seq<Happening>)
  {
    function State(): State {
      Replay(log)
    }

    /** Where `who` stands, if it is running. */
    function Standing(who: nat): Option<Pc> {
      if who in workers then Some(workers[who]) else None
    }
  }

  const INITIAL := World([], [], map[], [])

  datatype Action =
    | RecordRunEvent(runEvent: Reducer.RunEvent)
    | Screen(who: nat, event: Event)
    | Remember(who: nat, now: int)
    | Bind(who: nat)
    | Claim(who: nat, freshId: nat, freshCorrelation: nat, now: int)
    | Arm(who: nat, now: int)
    | Run(who: nat, answer: Option<ProviderResult>)
    | Reconcile(who: nat, answer: Option<ProviderResult>)
    | HandBack(who: nat, now: int)
    | Acknowledge(who: nat, now: int)
    | Finish(who: nat, now: int)
    | StartRecovery(who: nat, name: string)
    | Lease(who: nat, now: int, choice: nat)
    | Settle(who: nat, now: int)
    | Resume(who: nat, now: int)
    | StartCi(who: nat, semanticKey: string, ciTask: Option<string>, headSha: Option<string>, branch: Option<string>,
              freshId: nat, freshCorrelation: nat, now: int)
    | Crash(who: nat)

  const LEASE_SECONDS := 120

  // ---------- Reads of the run log ----------

  /** `_stop_boundary_reached`; reading a log that does not reduce raises. */
  function StopReached(runLog: seq<Reducer.RunEvent>): Option<bool> {
    if runLog == [] then Some(false)
    else
      match Reducer.Reduce(runLog)
      case Err(_) => None
      case Ok(p) => Some(p.stopReason == Some(Reducer.SecondTaskCreated))
  }

  /** `_validate_task_binding_for_dispatch`. */
  predicate BindingHolds(runLog: seq<Reducer.RunEvent>, event: Event) {
    var r := Reducer.Reduce(runLog);
    && r.Ok?
    && event.taskId.Some?
    && event.taskId.value in r.value.tasks
    && var task := r.value.tasks[event.taskId.value];
       && task.state == Reducer.ReadyForCopilot
       && event.branch == Some(task.branch)
       && event.attempt == Some(task.currentAttempt)
  }

  // ---------- Effects ----------

  /** What one action of a worker does: the record it appends, what the provider saw, and where the worker
      stands afterwards; a worker that returned, raised or crashed stands nowhere. */
  datatype Effect = Effect(record: Option<Record>, noted: seq<Happening>, next: Option<Pc>)

  const LEAVE := Effect(None, [], None)

  function Go(next: Pc): Effect {
    Effect(None, [], Some(next))
  }

  /** The effect of an action that is not enabled. */
  function Stay(w: World, who: nat): Effect {
    Effect(None, [], w.Standing(who))
  }

  function Afterwards(w: World, who: nat, e: Effect): World {
    World(w.runLog,
          if e.record.Some? then w.log + [e.record.value] else w.log,
          if e.next.Some? then w.workers[who := e.next.value] else w.workers - {who},
          w.history + e.noted)
  }

  /** A compare-and-set from the status and version the worker last saw; on success it continues with the
      new intent, on failure the store raises. */
  function Cas(s: State, intent: Intent, status: Status, run: Option<string>, now: int, next: Intent -> Option<Pc>): Effect {
    match Transitioned(s, intent.id, status, Some(intent.status), Some(intent.version), run)
    case Err(_) => LEAVE
    case Ok(moved) => Effect(Some(IntentRecord(StatusKind(status), now, moved)), [], next(moved))
  }

  /** The store's claim: an existing intent with this key, or a new one with its record. */
  ghost function ClaimOutcome(s: State, proposed: Intent, now: int): (Option<Record>, Intent) {
    if id :| id in s.intents && s.intents[id].dedupeKey == proposed.dedupeKey then (None, s.intents[id])
    else (Some(IntentRecord(StatusKind(Claimed), now, proposed)), proposed)
  }

  /** The key under which this event's dispatch is claimed. */
  function KeyOf(event: Event): DedupeKey
    requires event.taskId.Some? && event.attempt.Some? && event.branch.Some?
  {
    DispatchKey(event.repository, event.taskId.value, event.attempt.value, event.branch.value)
  }

  ghost function EffectOf(w: World, a: Action): Effect
    requires !a.RecordRunEvent?
  {
    if a.Screen? || a.StartRecovery? || a.StartCi? then Start(w, a)
    else if a.Crash? || a.who !in w.workers then LEAVE
    else if w.workers[a.who].Screened? || w.workers[a.who].Admitted? || w.workers[a.who].Bound? then Enter(w, a)
    else if w.workers[a.who].Looping? then TakeLease(w, a)
    else Proceed(w, a)
  }

  /** A worker begins: an event is screened, a recovery pass starts, a CI event claims its intent. */
  ghost function Start(w: World, a: Action): Effect
    requires a.Screen? || a.StartRecovery? || a.StartCi?
  {
    if a.who in w.workers then Stay(w, a.who)
    else if a.StartCi? then
      if a.freshId in w.State().intents then LEAVE
      else
        var proposed := NewIntent(a.freshId, a.freshCorrelation, CiReadyKey(a.semanticKey), CiReady, a.ciTask, a.headSha, a.branch);
        var (record, intent) := ClaimOutcome(w.State(), proposed, a.now);
        Effect(record, [], if record.Some? then Some(CiClaimed(intent)) else None)
    else if StopReached(w.runLog) != Some(false) then LEAVE
    else if a.StartRecovery? then Go(Looping(a.name))
    else if a.event.admitted then Go(Screened(a.event))
    else LEAVE
  }

  /** process_event up to the claim. */
  ghost function Enter(w: World, a: Action): Effect
    requires !a.RecordRunEvent? && a.who in w.workers
  {
    match (a, w.workers[a.who])
    case (Remember(_, now), Screened(event)) =>
      if event.deliveryId in w.State().deliveries then LEAVE
      else Effect(Some(DeliverySeen(event.deliveryId, now)), [], Some(Pc.Admitted(event)))
    case (Bind(_), Admitted(event)) =>
      if BindingHolds(w.runLog, event) then Go(Bound(event, KeyOf(event))) else LEAVE
    case (Claim(who, freshId, freshCorrelation, now), Bound(event, key)) =>
      if freshId in w.State().intents then Stay(w, who)
      else
        var (record, intent) :=
          ClaimOutcome(w.State(), NewIntent(freshId, freshCorrelation, key, DispatchTask, event.taskId, event.headSha, event.branch), now);
        Effect(record, [], if intent.status == Claimed then Some(HoldsClaim(intent)) else None)
    case _ => Stay(w, a.who)
  }

  /** The head of the recovery loop. */
  function TakeLease(w: World, a: Action): Effect
    requires !a.RecordRunEvent? && a.who in w.workers && w.workers[a.who].Looping?
  {
    match a
    case Lease(who, now, choice) =>
      if LeasableIds(w.State(), now) == {} then LEAVE
      else if !IsLeaseChoice(w.State(), now, choice) then Stay(w, who)
      else
        var name := w.workers[who].name;
        var leased := Leased(w.State().intents[choice], name, LEASE_SECONDS, now);
        Effect(Some(IntentRecord(LeaseKind, now, leased)), [],
               Some(if leased.operation == DispatchTask then HoldsLease(name, leased) else Looping(name)))
    case _ => Stay(w, a.who)
  }

  /** Everything a worker does with an intent in hand. */
  function Proceed(w: World, a: Action): Effect
    requires !a.RecordRunEvent? && a.who in w.workers
  {
    match (a, w.workers[a.who])
    // _handle_dispatch_intent
    case (Arm(_, now), HoldsClaim(intent)) =>
      Cas(w.State(), intent, Running, None, now, moved => Some(HandlerArmed(moved)))
    case (Run(_, answer), HandlerArmed(intent)) =>
      if answer.Some? then Effect(None, [RunCalled(intent.id)], Some(HandlerAnswered(intent, answer.value)))
      else Effect(None, [RunCalled(intent.id), RunRefused(intent.id)], Some(Refused(intent)))
    case (Reconcile(_, answer), Refused(intent)) =>
      if answer.Some? then Go(HandlerAnswered(intent, answer.value))
      else Effect(None, [NothingFound(intent.id)], Some(NotFound(intent)))
    case (HandBack(_, now), NotFound(intent)) =>
      Cas(w.State(), intent, Claimed, None, now, moved => None)
    case (Acknowledge(_, now), HandlerAnswered(intent, result)) =>
      Cas(w.State(), intent, Running, Some(result.runId), now, moved => Some(HandlerAcked(moved, result)))
    case (Finish(_, now), HandlerAcked(intent, result)) =>
      if result.status == JobInProgress then LEAVE
      else
        var end := if result.status == JobCompleted then Completed else if result.status == JobFailed then Failed else Blocked;
        Cas(w.State(), intent, end, None, now, moved => None)
    // resume_unfinished_intents
    case (Reconcile(_, answer), HoldsLease(name, intent)) =>
      if answer.Some? && answer.value.status != JobUnrecognised then Go(Reconciled(name, intent, answer.value))
      else Go(Unreconciled(name, intent))
    case (Settle(_, now), Reconciled(name, intent, result)) =>
      if result.status != JobInProgress then
        Cas(w.State(), intent, if result.status == JobCompleted then Completed else Failed, Some(result.runId), now, moved => Some(Looping(name)))
      else if intent.providerRunId == Some(result.runId) then Go(Looping(name))
      else Cas(w.State(), intent, intent.status, Some(result.runId), now, moved => Some(Looping(name)))
    case (Resume(_, now), Unreconciled(name, intent)) =>
      if intent.status !in NON_TERMINAL then Go(Looping(name))
      else if intent.status == Running then Cas(w.State(), intent, Unknown, None, now, moved => Some(Looping(name)))
      else Cas(w.State(), intent, Running, None, now, moved => Some(RecoveryArmed(name, moved)))
    case (Run(_, answer), RecoveryArmed(name, intent)) =>
      Effect(None, [RunCalled(intent.id)], if answer.Some? then Some(RecoveryAnswered(name, intent, answer.value)) else None)
    case (Acknowledge(_, now), RecoveryAnswered(name, intent, result)) =>
      Cas(w.State(), intent, Running, Some(result.runId), now, moved => Some(RecoveryAcked(name, moved, result)))
    case (Finish(_, now), RecoveryAcked(name, intent, result)) =>
      Cas(w.State(), intent, if result.status == JobCompleted then Completed else Failed, None, now, moved => Some(Looping(name)))
    // _handle_ci_intent
    case (Finish(_, now), CiClaimed(intent)) =>
      Cas(w.State(), intent, Completed, None, now, moved => None)
    case _ => Stay(w, a.who)
  }

  // ---------- Runs ----------

  ghost function Perform(w: World, a: Action): World {
    if a.RecordRunEvent? then w.(runLog := w.runLog + [a.runEvent])
    else Afterwards(w, a.who, EffectOf(w, a))
  }

  /** The world after a sequence of actions. */
  ghost function Execute(w: World, actions: seq<Action>): World {
    if actions == [] then w
    else Perform(Execute(w, actions[..|actions| - 1]), actions[|actions| - 1])
  }

  lemma ExecuteAppend(w: World, actions: seq<Action>, a: Action)
    ensures Execute(w, actions + [a]) == Perform(Execute(w, actions), a)
  {
    assert (actions + [a])[..|actions|] == actions;
  }
}
