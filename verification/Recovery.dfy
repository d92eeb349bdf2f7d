/**
  The recovery pass `resume_unfinished_intents`, run by one worker against the store: it leases unfinished
  intents until none is left to lease. Clock readings and the provider's answers are parameters.
 */
module Recovery {
  import opened Wrappers
  import opened DispatcherStore
  import opened DispatcherWorkers

  datatype OutcomeAction = Noop | Dispatched | BlockedForReview

  datatype Outcome = Outcome(action: OutcomeAction, intentId: nat, providerRunId: Option<string>)

  /** The provider's answers, by correlation id; `run` may refuse. */
  datatype Provider = Provider(reconcile: nat -> Option<ProviderResult>, run: nat -> Option<ProviderResult>)

  /** What becomes of a leased intent: None when the pass raises while handling it. */
  function RecoveredStatus(intent: Intent, provider: Provider): Option<Status> {
    var found := provider.reconcile(intent.correlationId);
    if intent.operation != DispatchTask then Some(intent.status)
    else if found.Some? && found.value.status == JobCompleted then Some(Completed)
    else if found.Some? && found.value.status == JobFailed then Some(Failed)
    else if found.Some? && found.value.status == JobInProgress then
      // a claimed intent cannot be re-recorded as claimed, so learning its run id raises
      if intent.status == Claimed && intent.providerRunId != Some(found.value.runId) then None else Some(intent.status)
    else if intent.status == Running then Some(Unknown)
    else
      match provider.run(intent.correlationId)
      case None => None
      case Some(result) => Some(if result.status == JobCompleted then Completed else Failed)
  }

  /** The run id an intent keeps when it learns `runId`; the store ignores an empty one. */
  function Learned(intent: Intent, runId: string): Option<string> {
    if runId == "" then intent.providerRunId else Some(runId)
  }

  /** The provider run that a recovered intent is bound to: the one reconciled, the one started, or the one it had. */
  function RecoveredRun(intent: Intent, provider: Provider): Option<string> {
    var found := provider.reconcile(intent.correlationId);
    if intent.operation != DispatchTask then intent.providerRunId
    else if found.Some? && found.value.status != JobUnrecognised then Learned(intent, found.value.runId)
    else if intent.status == Running then intent.providerRunId
    else
      match provider.run(intent.correlationId)
      case None => intent.providerRunId
      case Some(result) => Learned(intent, result.runId)
  }

  /** What a pass that raises leaves of the intent it was handling: a refused run leaves it running, for nobody to run
      again, and a run id that could not be recorded leaves it as it was. */
  predicate LeftBehind(before: Intent, after: Intent, provider: Provider) {
    var found := provider.reconcile(before.correlationId);
    if found.Some? && found.value.status == JobInProgress then after == before
    else provider.run(before.correlationId).None? && after == before.(status := Running, version := before.version + 1)
  }

  /** `after` is `before` recovered: the promised status, the same identity, and the lease kept or dropped with it. */
  predicate Recovered(before: Intent, after: Intent, provider: Provider) {
    && before.SameIdentity(after)
    && RecoveredStatus(before, provider) == Some(after.status)
    && after.providerRunId == RecoveredRun(before, provider)
    && (after.status in NON_TERMINAL ==> after.leaseOwner == before.leaseOwner && after.leaseExpiresAt == before.leaseExpiresAt)
  }

  /** What the pass reports of a dispatch it took: dispatched under the run that is finished or was run to completion, nothing done while the
      run is in progress, and blocked for review when the run failed or nothing is known of it. */
  predicate Reports(intent: Intent, provider: Provider, outcome: Outcome) {
    var found, run := provider.reconcile(intent.correlationId), provider.run(intent.correlationId);
    && outcome.intentId == intent.id
    && (found.Some? && (found.value.status == JobCompleted || found.value.status == JobFailed) ==>
          outcome.action == Dispatched && outcome.providerRunId == Some(found.value.runId))
    && (found.Some? && found.value.status == JobInProgress ==> outcome.action == Noop && outcome.providerRunId == Some(found.value.runId))
    && (found.None? || found.value.status == JobUnrecognised ==>
          if intent.status == Running then outcome.action == BlockedForReview && outcome.providerRunId == None
          else run.Some? && outcome.providerRunId == Some(run.value.runId)
               && outcome.action == if run.value.status == JobCompleted then Dispatched else BlockedForReview)
  }

  /** How the status of a recovered intent follows from the answers; no status when the pass raises. */
  predicate Follows(intent: Intent, provider: Provider, status: Option<Status>) {
    var found, run := provider.reconcile(intent.correlationId), provider.run(intent.correlationId);
    match status
    case Some(Completed) =>
      || (found.Some? && found.value.status == JobCompleted)
      || (NotKnown(found) && intent.status == Claimed && run.Some? && run.value.status == JobCompleted)
    case Some(Failed) =>
      || (found.Some? && found.value.status == JobFailed)
      || (NotKnown(found) && intent.status == Claimed && run.Some? && run.value.status != JobCompleted)
    case Some(Unknown) => NotKnown(found) && intent.status == Running
    case Some(Blocked) => false
    case Some(unfinished) =>
      && found.Some? && found.value.status == JobInProgress && unfinished == intent.status
      && (intent.status == Running || intent.providerRunId == Some(found.value.runId))
    case None =>
      || (found.Some? && found.value.status == JobInProgress && intent.status == Claimed && intent.providerRunId != Some(found.value.runId))
      || (NotKnown(found) && intent.status == Claimed && run.None?)
  }

  predicate NotKnown(found: Option<ProviderResult>) {
    found.None? || found.value.status == JobUnrecognised
  }

  /** The status of an unfinished dispatch after the pass is the one that follows from the answers, and only that one does. */
  lemma {:induction false} RecoveredStatusFollows(intent: Intent, provider: Provider, status: Option<Status>)
    requires intent.operation == DispatchTask && intent.status in NON_TERMINAL
    ensures RecoveredStatus(intent, provider) == status <==> Follows(intent, provider, status)
  {
  }

  /** The run it is bound to is that of the answer, as far as it names one, and the one it had when there is no answer. */
  lemma {:induction false} RecoveredRunFollows(intent: Intent, provider: Provider)
    requires intent.operation == DispatchTask && intent.status in NON_TERMINAL
    ensures var found, run, after := provider.reconcile(intent.correlationId), provider.run(intent.correlationId), RecoveredRun(intent, provider);
            && (!NotKnown(found) && found.value.runId != "" ==> after == Some(found.value.runId))
            && (NotKnown(found) && intent.status == Claimed && run.Some? && run.value.runId != "" ==> after == Some(run.value.runId))
            && (NotKnown(found) && (intent.status == Running || run.None?) ==> after == intent.providerRunId)
            && (!NotKnown(found) && found.value.runId == "" ==> after == intent.providerRunId)
            && (NotKnown(found) && run.Some? && run.value.runId == "" ==> after == intent.providerRunId)
  {
  }

  /** Other intents are leased and left alone. */
  lemma {:induction false} OthersAreLeft(intent: Intent, provider: Provider)
    requires intent.operation != DispatchTask
    ensures RecoveredStatus(intent, provider) == Some(intent.status) && RecoveredRun(intent, provider) == intent.providerRunId
  {
  }

  /** The dispatches that were leased, in the order of the log. */
  function LeasedDispatches(log: seq<Record>): seq<nat> {
    if log == [] then []
    else
      var last := log[|log| - 1];
      LeasedDispatches(log[..|log| - 1])
      + if last.IntentRecord? && last.kind == LeaseKind && last.intent.operation == DispatchTask then [last.intent.id] else []
  }

  lemma LeasedAppend(log: seq<Record>, record: Record)
    ensures LeasedDispatches(log + [record]) == LeasedDispatches(log)
              + if record.IntentRecord? && record.kind == LeaseKind && record.intent.operation == DispatchTask then [record.intent.id] else []
  {
    assert (log + [record])[..|log|] == log;
  }

  /** A record of a status leases nothing. */
  lemma StatusLeasesNothing(log: seq<Record>, next: seq<Record>)
    requires next == log || (|next| == |log| + 1 && next[..|log|] == log && next[|log|].IntentRecord? && next[|log|].kind.StatusKind?)
    ensures LeasedDispatches(next) == LeasedDispatches(log)
  {
    if next != log {
      assert next == log + [next[|log|]];
      LeasedAppend(log, next[|log|]);
    }
  }

  function IdsOf(outcomes: seq<Outcome>): (ids: seq<nat>)
    ensures |ids| == |outcomes| && forall i | 0 <= i < |ids| :: ids[i] == outcomes[i].intentId
  {
    seq(|outcomes|, i requires 0 <= i < |outcomes| => outcomes[i].intentId)
  }

  /** From `s` to `t` only intent `id` may differ. */
  predicate OnlyChanges(s: State, t: State, id: nat) {
    && t.deliveries == s.deliveries
    && t.intents.Keys == s.intents.Keys
    && forall other | other in s.intents && other != id :: t.intents[other] == s.intents[other]
  }

  /** The body of the loop after a successful lease. */
  method RecoverOne(store: FileDispatcherStore, intent: Intent, provider: Provider, now: int)
    returns (outcome: Option<Outcome>, raised: bool)
    requires store.Valid() && intent.id in Replay(store.log).intents && Replay(store.log).intents[intent.id] == intent
    requires intent.status in NON_TERMINAL
    modifies store
    ensures store.Valid()
    ensures OnlyChanges(Replay(old(store.log)), Replay(store.log), intent.id)
    ensures raised <==> RecoveredStatus(intent, provider).None?
    ensures !raised ==> Recovered(intent, Replay(store.log).intents[intent.id], provider)
    ensures raised ==> LeftBehind(intent, Replay(store.log).intents[intent.id], provider)
    ensures raised ==> outcome.None?
    ensures !raised ==> (outcome.Some? <==> intent.operation == DispatchTask)
    ensures outcome.Some? ==> Reports(intent, provider, outcome.value)
    ensures outcome.Some? ==> (outcome.value.action == Dispatched ==> Replay(store.log).intents[intent.id].status in {Completed, Failed})
    ensures LeasedDispatches(store.log) == LeasedDispatches(old(store.log))
  {
    ghost var log := store.log;
    if intent.operation != DispatchTask {
      return None, false;
    }
    var found := provider.reconcile(intent.correlationId);
    if found.Some? && found.value.status in {JobCompleted, JobFailed} {
      var next := if found.value.status == JobCompleted then Completed else Failed;
      var r := store.TransitionIntent(intent.id, next, Some(intent.status), Some(intent.version), Some(found.value.runId), now);
      StatusLeasesNothing(log, store.log);
      return Some(Outcome(Dispatched, intent.id, Some(found.value.runId))), r.Err?;
    }
    if found.Some? && found.value.status == JobInProgress {
      if intent.providerRunId != Some(found.value.runId) {
        var r := store.TransitionIntent(
          intent.id, intent.status, Some(intent.status), Some(intent.version), Some(found.value.runId), now);
        StatusLeasesNothing(log, store.log);
        if r.Err? {
          return None, true;
        }
      }
      return Some(Outcome(Noop, intent.id, Some(found.value.runId))), false;
    }
    if intent.status == Running {
      var r := store.TransitionIntent(intent.id, Unknown, Some(Running), Some(intent.version), None, now);
      StatusLeasesNothing(log, store.log);
      return Some(Outcome(BlockedForReview, intent.id, None)), r.Err?;
    }
    outcome, raised := RunAgain(store, intent, provider, now);
  }

  /** A claimed intent the provider does not know is run. */
  method RunAgain(store: FileDispatcherStore, intent: Intent, provider: Provider, now: int)
    returns (outcome: Option<Outcome>, raised: bool)
    requires store.Valid() && intent.id in Replay(store.log).intents && Replay(store.log).intents[intent.id] == intent
    requires intent.status == Claimed
    modifies store
    ensures store.Valid()
    ensures OnlyChanges(Replay(old(store.log)), Replay(store.log), intent.id)
    ensures raised <==> provider.run(intent.correlationId).None?
    ensures raised ==> outcome.None? && Replay(store.log).intents[intent.id] == intent.(status := Running, version := intent.version + 1)
    ensures !raised ==>
              var result := provider.run(intent.correlationId).value;
              var after := Replay(store.log).intents[intent.id];
              && intent.SameIdentity(after)
              && after.status == (if result.status == JobCompleted then Completed else Failed)
              && after.providerRunId == Learned(intent, result.runId)
              && outcome == Some(Outcome(if result.status == JobCompleted then Dispatched else BlockedForReview,
                                         intent.id, Some(result.runId)))
    ensures LeasedDispatches(store.log) == LeasedDispatches(old(store.log))
  {
    hide GoodLog, Replay, LeasedDispatches;
    ghost var log := store.log;
    var running := store.TransitionIntent(intent.id, Running, Some(intent.status), Some(intent.version), None, now);
    StatusLeasesNothing(log, store.log);
    log := store.log;
    var result := provider.run(intent.correlationId);
    if result.None? {
      return None, true;
    }
    var acked := store.TransitionIntent(
      running.value.id, Running, Some(Running), Some(running.value.version), Some(result.value.runId), now);
    StatusLeasesNothing(log, store.log);
    log := store.log;
    if result.value.status == JobCompleted {
      var done := store.TransitionIntent(acked.value.id, Completed, Some(Running), Some(acked.value.version), None, now);
      StatusLeasesNothing(log, store.log);
      outcome := Some(Outcome(Dispatched, intent.id, Some(result.value.runId)));
    } else {
      var done := store.TransitionIntent(acked.value.id, Failed, Some(Running), Some(acked.value.version), None, now);
      StatusLeasesNothing(log, store.log);
      outcome := Some(Outcome(BlockedForReview, intent.id, Some(result.value.runId)));
    }
    raised := false;
  }

  /** Unfinished intents not leased beyond `horizon`. */
  function Open(s: State, horizon: int): set<nat> {
    LeasableIds(s, horizon)
  }

  lemma LeasingCloses(s: State, t: State, id: nat, now: int, horizon: int, provider: Provider, leased: Intent)
    requires id in s.intents && leased.id == id && leased.leaseOwner.Some? && leased.leaseOwner.value != ""
    requires leased.leaseExpiresAt.Some? && horizon < leased.leaseExpiresAt.value
    requires now <= horizon && id in LeasableIds(s, now)
    requires OnlyChanges(s.(intents := s.intents[id := leased]), t, id) && Recovered(leased, t.intents[id], provider)
    ensures Open(t, horizon) == Open(s, horizon) - {id} && id in Open(s, horizon)
  {
    assert t.intents.Keys == s.intents.Keys;
  }

  /** What the pass has done to one of the intents it found. */
  predicate Handled(before: Intent, after: Intent, provider: Provider) {
    && before.SameIdentity(after)
    && RecoveredStatus(before, provider) == Some(after.status)
    && after.providerRunId == RecoveredRun(before, provider)
  }

  /** Every intent the pass found is untouched, or handled and no longer open. */
  predicate Progress(start: State, s: State, horizon: int, provider: Provider) {
    && s.intents.Keys == start.intents.Keys
    && forall id | id in start.intents ::
         || s.intents[id] == start.intents[id]
         || (id !in Open(s, horizon) && id in Open(start, horizon) && Handled(start.intents[id], s.intents[id], provider))
  }

  lemma ProgressGoesOn(
      start: State, s: State, t: State, now: int, horizon: int, provider: Provider, worker: string, id: nat)
    requires Progress(start, s, horizon, provider) && worker != ""
    requires id in LeasableIds(s, now) && now <= horizon < now + LEASE_SECONDS
    requires s.intents[id].id == id
    requires var leased := Leased(s.intents[id], worker, LEASE_SECONDS, now);
             && OnlyChanges(s.(intents := s.intents[id := leased]), t, id)
             && Recovered(leased, t.intents[id], provider)
    ensures Progress(start, t, horizon, provider)
    ensures |Open(t, horizon)| < |Open(s, horizon)|
    ensures id in start.intents && start.intents[id] == s.intents[id]
  {
    LeasingCloses(s, t, id, now, horizon, provider, Leased(s.intents[id], worker, LEASE_SECONDS, now));
    assert s.intents[id] == start.intents[id];
    assert Handled(start.intents[id], t.intents[id], provider);
    assert |Open(s, horizon) - {id}| == |Open(s, horizon)| - 1;
  }

  /** No intent appears or disappears, and terminal intents are left alone. */
  predicate KeepsTerminal(start: State, s: State) {
    && s.intents.Keys == start.intents.Keys
    && forall id | id in start.intents && start.intents[id].status !in NON_TERMINAL :: s.intents[id] == start.intents[id]
  }

  lemma ProgressKeepsTerminal(
      start: State, s: State, t: State, now: int, horizon: int, provider: Provider, leased: Intent)
    requires Progress(start, s, horizon, provider)
    ensures KeepsTerminal(start, s)
    ensures leased.id in LeasableIds(s, now) && OnlyChanges(s.(intents := s.intents[leased.id := leased]), t, leased.id) ==>
              KeepsTerminal(start, t)
  {
  }

  /** The reports are of the dispatches that the pass has taken so far, once each, and say what became of each. */
  ghost predicate ReportsTaken(start: State, s: State, horizon: int, provider: Provider, outcomes: seq<Outcome>) {
    && (forall i | 0 <= i < |outcomes| ::
          && outcomes[i].intentId in start.intents && start.intents[outcomes[i].intentId].operation == DispatchTask
          && outcomes[i].intentId !in Open(s, horizon)
          && Reports(start.intents[outcomes[i].intentId], provider, outcomes[i]))
    && (forall i, j | 0 <= i < j < |outcomes| :: outcomes[i].intentId != outcomes[j].intentId)
    && (forall id | id in start.intents && start.intents[id].operation == DispatchTask && id in s.intents && s.intents[id] != start.intents[id] ::
          id in IdsOf(outcomes))
  }

  lemma NothingTaken(start: State, horizon: int, provider: Provider)
    ensures ReportsTaken(start, start, horizon, provider, [])
  {
  }

  lemma {:induction false} OneMoreTaken(
      start: State, s: State, t: State, now: int, horizon: int, provider: Provider, worker: string, id: nat, outcomes: seq<Outcome>, outcome: Option<Outcome>)
    requires ReportsTaken(start, s, horizon, provider, outcomes) && worker != ""
    requires id in LeasableIds(s, now) && now <= horizon < now + LEASE_SECONDS && s.intents[id].id == id
    requires id in start.intents && start.intents[id] == s.intents[id]
    requires var leased := Leased(s.intents[id], worker, LEASE_SECONDS, now);
             && OnlyChanges(s.(intents := s.intents[id := leased]), t, id)
             && Recovered(leased, t.intents[id], provider)
             && (outcome.Some? <==> leased.operation == DispatchTask)
             && (outcome.Some? ==> Reports(leased, provider, outcome.value))
    ensures ReportsTaken(start, t, horizon, provider, if outcome.Some? then outcomes + [outcome.value] else outcomes)
  {
    var leased := Leased(s.intents[id], worker, LEASE_SECONDS, now);
    LeasingCloses(s, t, id, now, horizon, provider, leased);
    var more := if outcome.Some? then outcomes + [outcome.value] else outcomes;
    forall other | other in start.intents && start.intents[other].operation == DispatchTask && other in t.intents && t.intents[other] != start.intents[other]
      ensures other in IdsOf(more)
    {
      if other == id {
        assert IdsOf(more)[|outcomes|] == id;
      } else {
        assert t.intents[other] == s.intents[other];
        var k :| 0 <= k < |outcomes| && IdsOf(outcomes)[k] == other;
        assert IdsOf(more)[k] == other;
      }
    }
  }

  lemma TakenAreDispatches(start: State, s: State, horizon: int, provider: Provider, outcomes: seq<Outcome>)
    requires ReportsTaken(start, s, horizon, provider, outcomes)
    ensures AllDispatch(outcomes, start)
    ensures forall o | o in outcomes :: Reports(start.intents[o.intentId], provider, o)
    ensures forall i, j | 0 <= i < j < |outcomes| :: outcomes[i].intentId != outcomes[j].intentId
  {
  }

  /** At the end every dispatch that could be leased at first has been taken. */
  lemma AllTaken(start: State, s: State, first: int, last: int, horizon: int, provider: Provider, outcomes: seq<Outcome>)
    requires ReportsTaken(start, s, horizon, provider, outcomes) && Progress(start, s, horizon, provider)
    requires first <= last && LeasableIds(s, last) == {}
    ensures forall id | id in LeasableIds(start, first) && start.intents[id].operation == DispatchTask :: id in IdsOf(outcomes)
  {
    forall id | id in LeasableIds(start, first) ensures s.intents[id] != start.intents[id] {
      assert s.intents[id] == start.intents[id] ==> id in LeasableIds(s, last);
    }
  }

  predicate AllDispatch(outcomes: seq<Outcome>, s: State) {
    forall o | o in outcomes :: o.intentId in s.intents && s.intents[o.intentId].operation == DispatchTask
  }

  lemma ProgressEnds(start: State, s: State, first: int, last: int, horizon: int, provider: Provider)
    requires Progress(start, s, horizon, provider) && first <= last && LeasableIds(s, last) == {}
    ensures forall id | id in LeasableIds(start, first) :: Handled(start.intents[id], s.intents[id], provider)
  {
    forall id | id in LeasableIds(start, first) ensures Handled(start.intents[id], s.intents[id], provider) {
      assert s.intents[id] == start.intents[id] ==> id in LeasableIds(s, last);
    }
  }

  /** Leases and recovers until nothing is left to lease. It terminates as long as all clock readings lie within
      one lease period of the first, and then, unless it raised, nothing is leasable at the last reading and every
      intent it could lease has become what the provider's answers make of it. */
  method ResumeUnfinishedIntents(store: FileDispatcherStore, worker: string, provider: Provider, clock: nat -> int)
    returns (outcomes: seq<Outcome>, raised: bool, ghost last: int)
    requires store.Valid() && worker != ""
    requires forall i: nat :: clock(0) <= clock(i) < clock(0) + LEASE_SECONDS
    modifies store
    ensures store.Valid()
    ensures Replay(store.log).intents.Keys == Replay(old(store.log)).intents.Keys
    ensures !raised ==> LeasableIds(Replay(store.log), last) == {} && clock(0) <= last < clock(0) + LEASE_SECONDS
    ensures !raised ==> forall id | id in LeasableIds(Replay(old(store.log)), clock(0)) ::
              Handled(Replay(old(store.log)).intents[id], Replay(store.log).intents[id], provider)
    ensures KeepsTerminal(Replay(old(store.log)), Replay(store.log))
    ensures AllDispatch(outcomes, Replay(old(store.log)))
    ensures forall o | o in outcomes :: Reports(Replay(old(store.log)).intents[o.intentId], provider, o)
    ensures forall i, j | 0 <= i < j < |outcomes| :: outcomes[i].intentId != outcomes[j].intentId
    ensures !raised ==> forall id | id in LeasableIds(Replay(old(store.log)), clock(0)) && Replay(old(store.log)).intents[id].operation == DispatchTask ::
              id in IdsOf(outcomes)
    ensures !raised ==> LeasedDispatches(store.log) == LeasedDispatches(old(store.log)) + IdsOf(outcomes)
    ensures raised ==> exists id :: LeasedDispatches(store.log) == LeasedDispatches(old(store.log)) + IdsOf(outcomes) + [id]
  {
    hide OnlyChanges, Recovered, Progress, KeepsTerminal, LeasableIds, ReportsTaken, Reports, LeasedDispatches, Handled, AllDispatch, Replay, GoodLog;
    outcomes, raised, last := [], false, clock(0);
    var tick := 0;
    ghost var start := Replay(store.log);
    ghost var horizon := clock(0) + LEASE_SECONDS - 1;
    ProgressStarts(start, horizon, provider);
    NothingTaken(start, horizon, provider);
    ghost var taken := LeasedDispatches(store.log);
    while true
      invariant store.Valid()
      invariant Progress(start, Replay(store.log), horizon, provider)
      invariant ReportsTaken(start, Replay(store.log), horizon, provider, outcomes)
      invariant LeasedDispatches(store.log) == taken + IdsOf(outcomes)
      decreases |Open(Replay(store.log), horizon)|
    {
      ReplayIsConsistent(store.log);
      ghost var before, log := Replay(store.log), store.log;
      var now := clock(tick);
      last := now;
      var lease := store.LeaseUnfinishedIntent(worker, LEASE_SECONDS, now);
      if lease.value.None? {
        TakenAreDispatches(start, before, horizon, provider, outcomes);
        AllTaken(start, before, clock(0), last, horizon, provider, outcomes);
        ProgressEnds(start, before, clock(0), last, horizon, provider);
        ProgressKeepsTerminal(start, before, before, now, horizon, provider, NewIntent(0, 0, CiReadyKey(""), CiReady, None, None, None));
        return outcomes, false, last;
      }
      var intent := lease.value.value;
      ChoiceIsLeasable(before, now, intent.id);
      LeasedAppend(log, IntentRecord(LeaseKind, now, intent));
      var outcome, failed := RecoverOne(store, intent, provider, clock(tick + 1));
      ProgressKeepsTerminal(start, before, Replay(store.log), now, horizon, provider, intent);
      if failed {
        TakenAreDispatches(start, before, horizon, provider, outcomes);
        return outcomes, true, last;
      }
      ProgressGoesOn(start, before, Replay(store.log), now, horizon, provider, worker, intent.id);
      OneMoreTaken(start, before, Replay(store.log), now, horizon, provider, worker, intent.id, outcomes, outcome);
      if outcome.Some? {
        assert IdsOf(outcomes + [outcome.value]) == IdsOf(outcomes) + [intent.id];
        outcomes := outcomes + [outcome.value];
      }
      tick := tick + 2;
    }
  }

  lemma ProgressStarts(start: State, horizon: int, provider: Provider)
    ensures Progress(start, start, horizon, provider)
  {
  }

  lemma ChoiceIsLeasable(s: State, now: int, id: nat)
    requires IsLeaseChoice(s, now, id)
    ensures id in LeasableIds(s, now) && id in s.intents && s.intents[id].status in NON_TERMINAL
  {
  }
}
