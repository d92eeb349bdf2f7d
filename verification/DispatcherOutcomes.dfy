/**
  What becomes of an intent: how an event comes to be dispatched, and that the intent ends as the provider answers, told from the
  store and the answers and not by the functions that perform the steps. Other workers act in between as they like.
 */
module DispatcherOutcomes {
  import opened Wrappers
  import opened DispatcherStore
  import opened DispatcherLog
  import opened DispatcherWorkers
  import opened DispatcherInvariant
  import Reducer

  // ---------- Others in between ----------

  /** No action of these is by this worker, so it neither moves nor crashes. */
  ghost predicate ByOthers(actions: seq<Action>, who: nat) {
    forall a | a in actions :: a.RecordRunEvent? || a.who != who
  }

  lemma {:induction false} OthersLeaveStanding(w: World, actions: seq<Action>, who: nat)
    requires ByOthers(actions, who)
    ensures Execute(w, actions).Standing(who) == w.Standing(who)
  {
    hide EffectOf;
    if actions != [] {
      OthersLeaveStanding(w, actions[..|actions| - 1], who);
    }
  }

  lemma {:induction false} ExecuteConcat(w: World, first: seq<Action>, rest: seq<Action>)
    ensures Execute(w, first + rest) == Execute(Execute(w, first), rest)
    decreases |rest|
  {
    hide Perform;
    if rest == [] {
      assert first + rest == first;
    } else {
      ExecuteConcat(w, first, rest[..|rest| - 1]);
      assert (first + rest)[..|first + rest| - 1] == first + rest[..|rest| - 1];
    }
  }

  lemma {:induction false} ExecuteKeepsInvariant(w: World, actions: seq<Action>)
    requires Invariant(w)
    ensures Invariant(Execute(w, actions)) && w.log <= Execute(w, actions).log
  {
    hide EffectOf, Invariant, Permitted;
    if actions != [] {
      var init, last := actions[..|actions| - 1], actions[|actions| - 1];
      ExecuteKeepsInvariant(w, init);
      PerformKeepsInvariant(Execute(w, init), last);
    }
  }

  lemma {:induction false} PerformKeepsInvariant(w: World, a: Action)
    requires Invariant(w)
    ensures Invariant(Perform(w, a)) && w.log <= Perform(w, a).log
  {
    hide EffectOf, KeepsLog, KeepsDriver, NotesFit, Enters, Claims, Concludes;
    if a.RecordRunEvent? {
      assert Perform(w, a).State() == w.State();
    } else {
      var e := EffectOf(w, a);
      EffectIsPermitted(w, a, 0);
      if e == Stay(w, a.who) {
        StayingChangesNothing(w, a.who);
      } else {
        LogIsKept(w, a.who, e);
      }
    }
  }

  /** A terminal intent stays as it is. */
  lemma {:induction false} TerminalStays(w: World, actions: seq<Action>, id: nat)
    requires Invariant(w) && id in w.State().intents && w.State().intents[id].status !in NON_TERMINAL
    ensures id in Execute(w, actions).State().intents && Execute(w, actions).State().intents[id] == w.State().intents[id]
  {
    ExecuteKeepsInvariant(w, actions);
    var later := Execute(w, actions).log;
    assert later[..|w.log|] == w.log;
    IntentsOnlyMoveForward(later, |w.log|, id);
  }

  // ---------- One compare-and-set ----------

  /** The store still has the status and the version the worker saw. */
  predicate IsCurrent(s: State, intent: Intent) {
    intent.id in s.intents && s.intents[intent.id].status == intent.status && s.intents[intent.id].version == intent.version
  }

  /** The intent moved to this status and learned this run id; its lease is kept while it is unfinished and dropped at its end. */
  predicate MovedTo(before: Intent, after: Intent, status: Status, runId: Option<string>) {
    && before.SameIdentity(after) && after.version == before.version + 1 && after.status == status
    && after.providerRunId == (if runId.Some? && runId.value != "" then runId else before.providerRunId)
    && (if status == Claimed || status == Running then after.leaseOwner == before.leaseOwner && after.leaseExpiresAt == before.leaseExpiresAt
        else after.leaseOwner == None && after.leaseExpiresAt == None)
  }

  predicate MayMove(status: Status, to: Status) {
    status == Running || (status == Claimed && to != Claimed)
  }

  /** A transition succeeds exactly when the intent is known, is where it is expected, and may move there; it then moves it so. */
  lemma {:induction false} TransitionsExactlyWhen(
      s: State, id: nat, status: Status, expected: Option<Status>, version: Option<nat>, runId: Option<string>)
    ensures var r := Transitioned(s, id, status, expected, version, runId);
            && (r.Ok? <==>
                  && id in s.intents
                  && (expected.Some? ==> s.intents[id].status == expected.value)
                  && (version.Some? ==> s.intents[id].version == version.value)
                  && MayMove(s.intents[id].status, status))
            && (r.Ok? ==> MovedTo(s.intents[id], r.value, status, runId))
            && (r == Err(UnknownIntent) <==> id !in s.intents)
            && (r == Err(UnexpectedStatus) <==> id in s.intents && expected.Some? && s.intents[id].status != expected.value)
            && (r == Err(UnexpectedVersion) <==>
                  && id in s.intents && (expected.Some? ==> s.intents[id].status == expected.value)
                  && version.Some? && s.intents[id].version != version.value)
            && r != Err(InvalidLease)
  {
  }

  /** From a world in which the intent in hand is current, the worker moves it and goes on; otherwise it raises and writes nothing. */
  ghost predicate Swaps(w: World, v: World, who: nat, intent: Intent, status: Status, runId: Option<string>) {
    && v.runLog == w.runLog && v.history == w.history
    && (if IsCurrent(w.State(), intent) && MayMove(intent.status, status) then
          && intent.id in v.State().intents
          && MovedTo(w.State().intents[intent.id], v.State().intents[intent.id], status, runId)
          && v.State() == w.State().(intents := w.State().intents[intent.id := v.State().intents[intent.id]])
        else v.log == w.log && who !in v.workers)
  }

  lemma {:induction false} CasSwaps(
      w: World, who: nat, intent: Intent, status: Status, runId: Option<string>, now: int, next: Intent -> Option<Pc>)
    requires Invariant(w)
    ensures var v := Afterwards(w, who, Cas(w.State(), intent, status, runId, now, next));
            && Swaps(w, v, who, intent, status, runId)
            && (IsCurrent(w.State(), intent) && MayMove(intent.status, status) ==>
                  v.Standing(who) == next(v.State().intents[intent.id]))
  {
    hide GoodLog;
    ReplayIsConsistent(w.log);
    TransitionsExactlyWhen(w.State(), intent.id, status, Some(intent.status), Some(intent.version), runId);
    var r := Transitioned(w.State(), intent.id, status, Some(intent.status), Some(intent.version), runId);
    assert w.history + [] == w.history;
    if r.Ok? {
      var record := IntentRecord(StatusKind(status), now, r.value);
      assert (w.log + [record])[..|w.log|] == w.log;
    }
  }

  /** An intent can be leased exactly when it is unfinished and nobody with a name holds it beyond this moment; the lease then names the
      worker and the time, and changes nothing else. */
  lemma {:induction false} LeasesExactlyWhen(intent: Intent, worker: string, seconds: int, now: int)
    ensures intent.Leasable(now) <==>
              && (intent.status == Claimed || intent.status == Running)
              && (intent.leaseOwner == None || intent.leaseOwner == Some("") || intent.leaseExpiresAt == None || intent.leaseExpiresAt.value <= now)
    ensures var leased := Leased(intent, worker, seconds, now);
            && intent.SameIdentity(leased) && leased.version == intent.version + 1 && leased.status == intent.status
            && leased.providerRunId == intent.providerRunId
            && leased.leaseOwner == Some(worker) && leased.leaseExpiresAt == Some(now + seconds)
  {
  }

  // ---------- From an event to a call ----------

  /** An event is screened, and a recovery pass begins, exactly when the worker is free and the boundary is open. */
  lemma {:induction false} WorkersStart(w: World, who: nat, event: Event, name: string)
    requires who !in w.workers
    ensures var v := Perform(w, Screen(who, event));
            && v.log == w.log && v.history == w.history
            && v.Standing(who) == if StopReached(w.runLog) == Some(false) && event.admitted then Some(Screened(event)) else None
    ensures var v := Perform(w, StartRecovery(who, name));
            && v.log == w.log && v.history == w.history
            && v.Standing(who) == if StopReached(w.runLog) == Some(false) then Some(Looping(name)) else None
  {
  }

  /** A delivery that was seen before is dropped; any other is recorded and let in. */
  lemma {:induction false} DeliveriesEnterOnce(w: World, who: nat, now: int)
    requires who in w.workers && w.workers[who].Screened?
    ensures var v, event := Perform(w, Remember(who, now)), w.workers[who].event;
            && v.history == w.history
            && (event.deliveryId in w.State().deliveries ==> v.log == w.log && who !in v.workers)
            && (event.deliveryId !in w.State().deliveries ==>
                  && v.State() == State(w.State().deliveries + {event.deliveryId}, w.State().intents)
                  && v.Standing(who) == Some(Pc.Admitted(event)))
  {
    var event := w.workers[who].event;
    assert (w.log + [DeliverySeen(event.deliveryId, now)])[..|w.log|] == w.log;
  }

  /** The run log shows the event's task ready, on its branch and at its attempt. */
  ghost predicate IsReady(runLog: seq<Reducer.RunEvent>, event: Event) {
    var r := Reducer.Reduce(runLog);
    && r.Ok? && event.taskId.Some? && event.taskId.value in r.value.tasks
    && r.value.tasks[event.taskId.value].state == Reducer.ReadyForCopilot
    && event.branch == Some(r.value.tasks[event.taskId.value].branch)
    && event.attempt == Some(r.value.tasks[event.taskId.value].currentAttempt)
  }

  /** An event goes on exactly when its task is ready, under the key of its repository, task, attempt and branch. */
  lemma {:induction false} ReadyTasksBind(w: World, who: nat)
    requires who in w.workers && w.workers[who].Admitted?
    ensures var v, event := Perform(w, Bind(who)), w.workers[who].event;
            && v.log == w.log && v.history == w.history
            && (IsReady(w.runLog, event) ==>
                  v.Standing(who) == Some(Bound(event, DispatchKey(event.repository, event.taskId.value, event.attempt.value, event.branch.value))))
            && (!IsReady(w.runLog, event) ==> who !in v.workers)
  {
    hide Reducer.Reduce;
    assert w.history + [] == w.history;
  }

  /** A request claimed before is taken up only while it is claimed; any other is claimed under the fresh id, unleased and never run. */
  lemma {:induction false} RequestsAreClaimedOnce(w: World, who: nat, freshId: nat, freshCorrelation: nat, now: int)
    requires Invariant(w) && who in w.workers && w.workers[who].Bound? && freshId !in w.State().intents
    ensures var v, event, key := Perform(w, Claim(who, freshId, freshCorrelation, now)), w.workers[who].event, w.workers[who].key;
            var added := Intent(freshId, key, DispatchTask, event.taskId, event.headSha, event.branch, freshCorrelation, Claimed, 1, None, None, None);
            && v.history == w.history
            && (forall id | id in w.State().intents && w.State().intents[id].dedupeKey == key ::
                  && v.log == w.log
                  && v.Standing(who) == if w.State().intents[id].status == Claimed then Some(HoldsClaim(w.State().intents[id])) else None)
            && ((forall id | id in w.State().intents :: w.State().intents[id].dedupeKey != key) ==>
                  && v.State() == w.State().(intents := w.State().intents[freshId := added])
                  && v.Standing(who) == Some(HoldsClaim(added)))
  {
    hide GoodLog, Legal;
    ReplayIsConsistent(w.log);
    var Bound(event, key) := w.workers[who];
    var proposed := NewIntent(freshId, freshCorrelation, key, DispatchTask, event.taskId, event.headSha, event.branch);
    var (record, intent) := ClaimOutcome(w.State(), proposed, now);
    if record.Some? {
      assert (w.log + [record.value])[..|w.log|] == w.log;
    }
  }

  /** A claimed intent is moved to running before the call. */
  lemma {:induction false} ClaimsAreArmed(w: World, who: nat, now: int)
    requires Invariant(w) && who in w.workers && w.workers[who].HoldsClaim?
    ensures var v, intent := Perform(w, Arm(who, now)), w.workers[who].intent;
            && Swaps(w, v, who, intent, Running, None)
            && (IsCurrent(w.State(), intent) ==> v.Standing(who) == Some(HandlerArmed(v.State().intents[intent.id])))
  {
    assert Sound(w.State(), w.workers[who]);
    hide Swaps, Invariant;
    CasSwaps(w, who, w.workers[who].intent, Running, None, now, moved => Some(HandlerArmed(moved)));
  }

  // ---------- From a call to its answer ----------

  /** An armed handler calls the provider and holds its answer; when the call fails it looks the request up, and holds that answer, or
      hands the intent back if there is none. */
  lemma {:induction false} CallsAreAnswered(w: World, who: nat, answer: Option<ProviderResult>)
    requires who in w.workers
    ensures w.workers[who].HandlerArmed? ==>
              var v, intent := Perform(w, Run(who, answer)), w.workers[who].intent;
              && v.log == w.log
              && (answer.Some? ==> v.Standing(who) == Some(HandlerAnswered(intent, answer.value)) && v.history == w.history + [RunCalled(intent.id)])
              && (answer.None? ==> v.Standing(who) == Some(Refused(intent)) && v.history == w.history + [RunCalled(intent.id), RunRefused(intent.id)])
    ensures w.workers[who].Refused? ==>
              var v, intent := Perform(w, Reconcile(who, answer)), w.workers[who].intent;
              && v.log == w.log
              && (answer.Some? ==> v.Standing(who) == Some(HandlerAnswered(intent, answer.value)) && v.history == w.history)
              && (answer.None? ==> v.Standing(who) == Some(NotFound(intent)) && v.history == w.history + [NothingFound(intent.id)])
  {
    assert w.history + [] == w.history;
  }

  lemma {:induction false} NotFoundIsHandedBack(w: World, who: nat, now: int)
    requires Invariant(w) && who in w.workers && w.workers[who].NotFound?
    ensures var v, intent := Perform(w, HandBack(who, now)), w.workers[who].intent;
            Swaps(w, v, who, intent, Claimed, None) && who !in v.workers
  {
    assert Sound(w.State(), w.workers[who]);
    hide Swaps, Invariant;
    CasSwaps(w, who, w.workers[who].intent, Claimed, None, now, moved => None);
    StandsNowhere(w, who, Cas(w.State(), w.workers[who].intent, Claimed, None, now, moved => None));
  }

  lemma StandsNowhere(w: World, who: nat, e: Effect)
    requires e.next.None?
    ensures who !in Afterwards(w, who, e).workers
  {
  }

  // ---------- From an answer to its record ----------

  /** How a handler's intent ends by the answer; a job in progress ends nothing yet. */
  predicate AnswersAs(answer: ProviderStatus, status: Status) {
    match status
    case Completed => answer == JobCompleted
    case Failed => answer == JobFailed
    case Blocked => answer == JobUnrecognised
    case _ => false
  }

  lemma {:induction false} AnswersAreAcknowledged(w: World, who: nat, now: int)
    requires Invariant(w) && who in w.workers && w.workers[who].HandlerAnswered?
    ensures var v, intent, result := Perform(w, Acknowledge(who, now)), w.workers[who].intent, w.workers[who].result;
            && Swaps(w, v, who, intent, Running, Some(result.runId))
            && (IsCurrent(w.State(), intent) ==> v.Standing(who) == Some(HandlerAcked(v.State().intents[intent.id], result)))
  {
    assert Sound(w.State(), w.workers[who]);
    hide Swaps, Invariant;
    var HandlerAnswered(intent, result) := w.workers[who];
    CasSwaps(w, who, intent, Running, Some(result.runId), now, moved => Some(HandlerAcked(moved, result)));
  }

  lemma {:induction false} AnswersAreFinished(w: World, who: nat, now: int)
    requires Invariant(w) && who in w.workers && w.workers[who].HandlerAcked?
    ensures var v, intent, result := Perform(w, Finish(who, now)), w.workers[who].intent, w.workers[who].result;
            && who !in v.workers
            && (result.status == JobInProgress ==> v.log == w.log)
            && (result.status != JobInProgress ==> exists status :: AnswersAs(result.status, status) && Swaps(w, v, who, intent, status, None))
  {
    assert Sound(w.State(), w.workers[who]);
    hide Swaps, Invariant;
    var HandlerAcked(intent, result) := w.workers[who];
    if result.status != JobInProgress {
      var end :| AnswersAs(result.status, end);
      CasSwaps(w, who, intent, end, None, now, moved => None);
      StandsNowhere(w, who, Cas(w.State(), intent, end, None, now, moved => None));
    }
  }

  /** The worker calls and is answered, at once or, after a refusal, by looking the request up; others act in between. */
  ghost predicate IsAnswered(call: seq<Action>, who: nat, result: ProviderResult) {
    || (exists a :: ByOthers(a, who) && call == a + [Run(who, Some(result))])
    || (exists a, b :: ByOthers(a, who) && ByOthers(b, who) && call == a + [Run(who, None)] + b + [Reconcile(who, Some(result))])
  }

  lemma {:induction false} AnswerIsHeld(w: World, call: seq<Action>, who: nat, result: ProviderResult)
    requires who in w.workers && w.workers[who].HandlerArmed? && IsAnswered(call, who, result)
    ensures Execute(w, call).Standing(who) == Some(HandlerAnswered(w.workers[who].intent, result))
  {
    hide Perform, ByOthers;
    if a :| ByOthers(a, who) && call == a + [Run(who, Some(result))] {
      OthersLeaveStanding(w, a, who);
      ExecuteAppend(w, a, Run(who, Some(result)));
      CallsAreAnswered(Execute(w, a), who, Some(result));
    } else {
      var a, b :| ByOthers(a, who) && ByOthers(b, who) && call == a + [Run(who, None)] + b + [Reconcile(who, Some(result))];
      OthersLeaveStanding(w, a, who);
      ExecuteAppend(w, a, Run(who, None));
      CallsAreAnswered(Execute(w, a), who, None);
      var refused := Execute(w, a + [Run(who, None)]);
      OthersLeaveStanding(refused, b, who);
      ExecuteConcat(w, a + [Run(who, None)], b);
      ExecuteAppend(w, a + [Run(who, None)] + b, Reconcile(who, Some(result)));
      CallsAreAnswered(Execute(refused, b), who, Some(result));
    }
  }

  /**
    A dispatch ends as the provider answers. In any run, let a handler that is about to call be answered, acknowledge and finish, with
    others acting in between but nobody moving the intent. Then the intent is bound to the run of the answer, and is completed, failed
    or blocked as the answer is completed, failed or not recognised, from then on; while the job is in progress it stays running.
   */
  lemma {:induction false} DispatchEndsAsAnswered(
      before: seq<Action>, call: seq<Action>, who: nat, result: ProviderResult,
      a: seq<Action>, t1: int, b: seq<Action>, t2: int, later: seq<Action>)
    requires Execute(INITIAL, before).Standing(who).Some? && Execute(INITIAL, before).workers[who].HandlerArmed?
    requires IsAnswered(call, who, result) && ByOthers(a, who) && ByOthers(b, who)
    requires var intent := Execute(INITIAL, before).workers[who].intent;
             var answered := Execute(Execute(INITIAL, before), call + a);
             var acked := Perform(answered, Acknowledge(who, t1));
             && IsCurrent(answered.State(), intent)
             && intent.id in acked.State().intents && intent.id in Execute(acked, b).State().intents
             && Execute(acked, b).State().intents[intent.id] == acked.State().intents[intent.id]
    ensures var intent := Execute(INITIAL, before).workers[who].intent;
            var answered := Execute(Execute(INITIAL, before), call + a);
            var finished := Perform(Execute(Perform(answered, Acknowledge(who, t1)), b), Finish(who, t2));
            && intent.id in answered.State().intents
            && intent.id in finished.State().intents
            && var end := finished.State().intents[intent.id];
               && end.providerRunId == (if result.runId != "" then Some(result.runId) else answered.State().intents[intent.id].providerRunId)
               && (result.status == JobInProgress ==> end.status == Running)
               && (result.status != JobInProgress ==>
                     && AnswersAs(result.status, end.status)
                     && intent.id in Execute(finished, later).State().intents
                     && Execute(finished, later).State().intents[intent.id] == end)
  {
    hide Perform, ByOthers, IsAnswered, Invariant;
    var start := Execute(INITIAL, before);
    var intent := start.workers[who].intent;
    ExecuteIsSafe(before, 0);
    AnswerIsHeld(start, call, who, result);
    ExecuteConcat(start, call, a);
    OthersLeaveStanding(Execute(start, call), a, who);
    var answered := Execute(start, call + a);
    ExecuteKeepsInvariant(start, call + a);
    AnswersAreAcknowledged(answered, who, t1);
    OwnId(answered, intent.id);
    RunningIsSound(start, who);
    var acked := Perform(answered, Acknowledge(who, t1));
    PerformKeepsInvariant(answered, Acknowledge(who, t1));
    OthersLeaveStanding(acked, b, who);
    ExecuteKeepsInvariant(acked, b);
    var last := Execute(acked, b);
    AnswersAreFinished(last, who, t2);
    PerformKeepsInvariant(last, Finish(who, t2));
    var finished := Perform(last, Finish(who, t2));
    if result.status != JobInProgress {
      TerminalStays(finished, later, intent.id);
    }
  }

  lemma OwnId(w: World, id: nat)
    requires Invariant(w) && id in w.State().intents
    ensures w.State().intents[id].id == id
  {
    ReplayIsConsistent(w.log);
  }

  lemma RunningIsSound(w: World, who: nat)
    requires Invariant(w) && who in w.workers && w.workers[who].HandlerArmed?
    ensures w.workers[who].intent.status == Running
  {
    assert Sound(w.State(), w.workers[who]);
  }

  // ---------- Recovery ----------

  /** A recovery worker leases the leasable intent with the least id, and returns when there is none; it takes up dispatches only. */
  lemma {:induction false} RecoveryLeases(w: World, who: nat, now: int, choice: nat)
    requires Invariant(w) && who in w.workers && w.workers[who].Looping?
    ensures var v, name, s := Perform(w, Lease(who, now, choice)), w.workers[who].name, w.State();
            && v.history == w.history
            && ((forall id | id in s.intents :: !s.intents[id].Leasable(now)) ==> v.log == w.log && who !in v.workers)
            && (choice in s.intents && s.intents[choice].Leasable(now) && (forall id | id in s.intents && s.intents[id].Leasable(now) :: choice <= id) ==>
                  && v.State() == s.(intents := s.intents[choice := Leased(s.intents[choice], name, 120, now)])
                  && v.Standing(who) == Some(if s.intents[choice].operation == DispatchTask then HoldsLease(name, v.State().intents[choice]) else Looping(name)))
  {
    hide GoodLog;
    ReplayIsConsistent(w.log);
    var s := w.State();
    assert w.history + [] == w.history;
    assert (forall id | id in s.intents :: !s.intents[id].Leasable(now)) ==> LeasableIds(s, now) == {};
    if IsLeaseChoice(s, now, choice) {
      var record := IntentRecord(LeaseKind, now, Leased(s.intents[choice], w.workers[who].name, LEASE_SECONDS, now));
      assert (w.log + [record])[..|w.log|] == w.log;
    }
  }

  /** It asks the provider first, and counts an answer it does not recognise as none. */
  lemma {:induction false} RecoveryLooksUp(w: World, who: nat, answer: Option<ProviderResult>)
    requires who in w.workers && w.workers[who].HoldsLease?
    ensures var v, name, intent := Perform(w, Reconcile(who, answer)), w.workers[who].name, w.workers[who].intent;
            && v.log == w.log && v.history == w.history
            && v.Standing(who) == Some(if answer.Some? && answer.value.status != JobUnrecognised then Reconciled(name, intent, answer.value)
                                       else Unreconciled(name, intent))
  {
    assert w.history + [] == w.history;
  }

  /** An intent the provider knows ends as the provider says, or learns its run while the job is in progress. */
  lemma {:induction false} RecoverySettles(w: World, who: nat, now: int)
    requires Invariant(w) && who in w.workers && w.workers[who].Reconciled?
    ensures var v, name, intent, result := Perform(w, Settle(who, now)), w.workers[who].name, w.workers[who].intent, w.workers[who].result;
            && (result.status != JobInProgress ==>
                  exists status :: AnswersAs(result.status, status) && Swaps(w, v, who, intent, status, Some(result.runId))
                                   && (IsCurrent(w.State(), intent) ==> v.Standing(who) == Some(Looping(name))))
            && (result.status == JobInProgress && intent.providerRunId == Some(result.runId) ==>
                  v.log == w.log && v.Standing(who) == Some(Looping(name)))
            && (result.status == JobInProgress && intent.providerRunId != Some(result.runId) ==>
                  && Swaps(w, v, who, intent, intent.status, Some(result.runId))
                  && (IsCurrent(w.State(), intent) && intent.status == Running ==> v.Standing(who) == Some(Looping(name))))
  {
    assert Sound(w.State(), w.workers[who]);
    hide Swaps, Invariant;
    var Reconciled(name, intent, result) := w.workers[who];
    if result.status != JobInProgress {
      var end :| AnswersAs(result.status, end);
      CasSwaps(w, who, intent, end, Some(result.runId), now, moved => Some(Looping(name)));
    } else {
      CasSwaps(w, who, intent, intent.status, Some(result.runId), now, moved => Some(Looping(name)));
    }
  }

  /** A running intent the provider does not know is given up as unknown; a claimed one is moved to running, to be run. */
  lemma {:induction false} RecoveryResumes(w: World, who: nat, now: int)
    requires Invariant(w) && who in w.workers && w.workers[who].Unreconciled?
    ensures var v, name, intent := Perform(w, Resume(who, now)), w.workers[who].name, w.workers[who].intent;
            && (intent.status == Running ==>
                  && Swaps(w, v, who, intent, Unknown, None)
                  && (IsCurrent(w.State(), intent) ==> v.Standing(who) == Some(Looping(name))))
            && (intent.status == Claimed ==>
                  && Swaps(w, v, who, intent, Running, None)
                  && (IsCurrent(w.State(), intent) ==> v.Standing(who) == Some(RecoveryArmed(name, v.State().intents[intent.id]))))
  {
    assert Sound(w.State(), w.workers[who]);
    hide Swaps, Invariant;
    var Unreconciled(name, intent) := w.workers[who];
    if intent.status == Running {
      CasSwaps(w, who, intent, Unknown, None, now, moved => Some(Looping(name)));
    } else {
      CasSwaps(w, who, intent, Running, None, now, moved => Some(RecoveryArmed(name, moved)));
    }
  }

  /** It calls once; when the call fails it raises, and leaves the intent running. */
  lemma {:induction false} RecoveryCalls(w: World, who: nat, answer: Option<ProviderResult>)
    requires who in w.workers && w.workers[who].RecoveryArmed?
    ensures var v, name, intent := Perform(w, Run(who, answer)), w.workers[who].name, w.workers[who].intent;
            && v.log == w.log && v.history == w.history + [RunCalled(intent.id)]
            && v.Standing(who) == if answer.Some? then Some(RecoveryAnswered(name, intent, answer.value)) else None
  {
  }

  /** The answer is acknowledged, and the intent completed exactly when the answer is completed, and failed otherwise. */
  lemma {:induction false} RecoveryFinishes(w: World, who: nat, now: int)
    requires Invariant(w) && who in w.workers
    ensures w.workers[who].RecoveryAnswered? ==>
              var v, name, intent, result := Perform(w, Acknowledge(who, now)), w.workers[who].name, w.workers[who].intent, w.workers[who].result;
              && Swaps(w, v, who, intent, Running, Some(result.runId))
              && (IsCurrent(w.State(), intent) ==> v.Standing(who) == Some(RecoveryAcked(name, v.State().intents[intent.id], result)))
    ensures w.workers[who].RecoveryAcked? ==>
              var v, name, intent, result := Perform(w, Finish(who, now)), w.workers[who].name, w.workers[who].intent, w.workers[who].result;
              && (result.status == JobCompleted ==> Swaps(w, v, who, intent, Completed, None))
              && (result.status != JobCompleted ==> Swaps(w, v, who, intent, Failed, None))
              && (IsCurrent(w.State(), intent) ==> v.Standing(who) == Some(Looping(name)))
  {
    assert Sound(w.State(), w.workers[who]);
    hide Swaps, Invariant;
    match w.workers[who]
    case RecoveryAnswered(name, intent, result) =>
      CasSwaps(w, who, intent, Running, Some(result.runId), now, moved => Some(RecoveryAcked(name, moved, result)));
    case RecoveryAcked(name, intent, result) =>
      CasSwaps(w, who, intent, if result.status == JobCompleted then Completed else Failed, None, now, moved => Some(Looping(name)));
    case _ =>
  }

  // ---------- CI events ----------

  /** A CI event that is new is claimed under its own key, and completed at once; one that was claimed before is dropped. */
  lemma {:induction false} CiEventsAreClaimedOnce(
      w: World, who: nat, key: string, task: Option<string>, head: Option<string>, branch: Option<string>, freshId: nat, correlation: nat, now: int)
    requires Invariant(w) && who !in w.workers && freshId !in w.State().intents
    ensures var v := Perform(w, StartCi(who, key, task, head, branch, freshId, correlation, now));
            var added := Intent(freshId, CiReadyKey(key), CiReady, task, head, branch, correlation, Claimed, 1, None, None, None);
            && v.history == w.history
            && ((exists id :: id in w.State().intents && w.State().intents[id].dedupeKey == CiReadyKey(key)) ==> v.log == w.log && who !in v.workers)
            && ((forall id | id in w.State().intents :: w.State().intents[id].dedupeKey != CiReadyKey(key)) ==>
                  && v.State() == w.State().(intents := w.State().intents[freshId := added])
                  && v.Standing(who) == Some(CiClaimed(added)))
  {
    hide GoodLog, Legal;
    var proposed := NewIntent(freshId, correlation, CiReadyKey(key), CiReady, task, head, branch);
    var (record, intent) := ClaimOutcome(w.State(), proposed, now);
    if record.Some? {
      assert (w.log + [record.value])[..|w.log|] == w.log;
    }
  }

  lemma {:induction false} CiClaimsAreCompleted(w: World, who: nat, now: int)
    requires Invariant(w) && who in w.workers && w.workers[who].CiClaimed?
    ensures var v, intent := Perform(w, Finish(who, now)), w.workers[who].intent;
            Swaps(w, v, who, intent, Completed, None) && who !in v.workers
  {
    assert Sound(w.State(), w.workers[who]);
    hide Swaps, Invariant;
    CasSwaps(w, who, w.workers[who].intent, Completed, None, now, moved => None);
    StandsNowhere(w, who, Cas(w.State(), w.workers[who].intent, Completed, None, now, moved => None));
  }
}
