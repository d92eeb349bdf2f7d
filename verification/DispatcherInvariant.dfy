/**
  What one action of a worker may change, by one case split over all workers and actions; and that this keeps the
  invariant: who may call the provider for an intent, and the books that count its armings, calls, refusals and hand-backs.
 */
module DispatcherInvariant {
  import opened Wrappers
  import opened DispatcherStore
  import opened DispatcherLog
  import opened DispatcherWorkers
  import Reducer

  // ---------- Counting ----------

  /** `record` moves intent `id` from status `from` to status `to`. */
  predicate Moves(s: State, record: Record, id: nat, from: Status, to: Status) {
    && record.Concerns(id)
    && id in s.intents
    && s.intents[id].status == from
    && record.intent.status == to
  }

  /** The number of records that move the intent from `from` to `to`. */
  function MoveCount(log: seq<Record>, id: nat, from: Status, to: Status): nat {
    if log == [] then 0
    else
      var init, last := log[..|log| - 1], log[|log| - 1];
      MoveCount(init, id, from, to) + (if Moves(Replay(init), last, id, from, to) then 1 else 0)
  }

  function Armings(log: seq<Record>, id: nat): nat {
    MoveCount(log, id, Claimed, Running)
  }

  function HandBacks(log: seq<Record>, id: nat): nat {
    MoveCount(log, id, Running, Claimed)
  }

  function Times(history: seq<Happening>, what: Happening): nat {
    if history == [] then 0
    else Times(history[..|history| - 1], what) + (if history[|history| - 1] == what then 1 else 0)
  }

  lemma {:induction false} TimesConcat(history: seq<Happening>, more: seq<Happening>, what: Happening)
    ensures Times(history + more, what) == Times(history, what) + Times(more, what)
    decreases |more|
  {
    if more == [] {
      assert history + more == history;
    } else {
      var init := more[..|more| - 1];
      TimesConcat(history, init, what);
      assert (history + more)[..|history + more| - 1] == history + init;
    }
  }

  /** The books of what one action can note. */
  lemma TimesOfNotes(id: nat, what: Happening)
    ensures Times([], what) == 0
    ensures Times([RunCalled(id)], what) == One(what == RunCalled(id))
    ensures Times([NothingFound(id)], what) == One(what == NothingFound(id))
    ensures Times([RunCalled(id), RunRefused(id)], what) == One(what == RunCalled(id)) + One(what == RunRefused(id))
  {
    assert [RunCalled(id), RunRefused(id)][..1] == [RunCalled(id)];
  }

  lemma {:induction false} MoveCountAppend(log: seq<Record>, record: Record, id: nat, from: Status, to: Status)
    ensures MoveCount(log + [record], id, from, to) ==
            MoveCount(log, id, from, to) + (if Moves(Replay(log), record, id, from, to) then 1 else 0)
  {
    assert (log + [record])[..|log|] == log;
  }

  /** An intent is armed at most once more than it was handed back, and exactly as often while it is claimed. */
  lemma {:induction false} ArmingsFollowHandBacks(log: seq<Record>, id: nat)
    requires GoodLog(log)
    ensures HandBacks(log, id) <= Armings(log, id) <= HandBacks(log, id) + 1
    ensures id !in Replay(log).intents ==> Armings(log, id) == 0
    ensures id in Replay(log).intents && Replay(log).intents[id].status == Claimed ==> Armings(log, id) == HandBacks(log, id)
    ensures id in Replay(log).intents && Replay(log).intents[id].status == Running ==> Armings(log, id) == HandBacks(log, id) + 1
  {
    if log != [] {
      ArmingsFollowHandBacks(log[..|log| - 1], id);
      ReplayIsConsistent(log[..|log| - 1]);
    }
  }

  // ---------- The invariant ----------

  predicate IdleOrClaimed(s: State, id: nat) {
    id !in s.intents || s.intents[id].status == Claimed
  }

  ghost predicate SomeArmed(w: World, id: nat) {
    exists u :: u in w.workers && w.workers[u].ArmedFor(id)
  }

  ghost predicate SomeRefused(w: World, id: nat) {
    exists u :: u in w.workers && w.workers[u].Refused? && w.workers[u].intent.id == id
  }

  ghost predicate SomeNotFound(w: World, id: nat) {
    exists u :: u in w.workers && w.workers[u].NotFound? && w.workers[u].intent.id == id
  }

  ghost function One(b: bool): nat {
    if b then 1 else 0
  }

  /** What a worker at this point knows about the intent in its hand. */
  predicate Sound(s: State, pc: Pc) {
    match pc
    case Screened(_) => true
    case Admitted(_) => true
    case Bound(_, _) => true
    case Looping(_) => true
    case HoldsClaim(intent) => intent.status == Claimed && intent.id in s.intents
    case CiClaimed(intent) => intent.status == Claimed && intent.id in s.intents
    case HoldsLease(_, intent) => intent.status in NON_TERMINAL && intent.id in s.intents
    case Reconciled(_, intent, result) => intent.status in NON_TERMINAL && intent.id in s.intents && result.status != JobUnrecognised
    case Unreconciled(_, intent) => intent.status in NON_TERMINAL && intent.id in s.intents
    case _ => pc.intent.status == Running && pc.intent.id in s.intents
  }

  ghost predicate Invariant(w: World) {
    && GoodLog(w.log)
    && forall u | u in w.workers :: Sound(w.State(), w.workers[u])
  }

  /** Who drives an intent, and the books on its provider calls. */
  ghost predicate Driven(w: World, id: nat) {
    && (IdleOrClaimed(w.State(), id) ==> forall u | u in w.workers :: !w.workers[u].Drives(id))
    && (forall u, v | u in w.workers && v in w.workers && w.workers[u].Drives(id) && w.workers[v].Drives(id) :: u == v)
  }

  ghost predicate Booked(w: World, id: nat) {
    && Times(w.history, RunCalled(id)) + One(SomeArmed(w, id)) <= Armings(w.log, id)
    && HandBacks(w.log, id) + One(SomeNotFound(w, id)) <= Times(w.history, NothingFound(id))
    && Times(w.history, NothingFound(id)) + One(SomeRefused(w, id)) <= Times(w.history, RunRefused(id))
  }

  ghost predicate Safe(w: World, id: nat) {
    Invariant(w) && Driven(w, id) && Booked(w, id)
  }

  // ---------- What an action may change ----------

  predicate DrivesAt(at: Option<Pc>, id: nat) {
    at.Some? && at.value.Drives(id)
  }

  predicate ArmedAt(at: Option<Pc>, id: nat) {
    at.Some? && at.value.ArmedFor(id)
  }

  predicate Arms(s: State, e: Effect, id: nat) {
    e.record.Some? && Moves(s, e.record.value, id, Claimed, Running)
  }

  predicate HandsBack(s: State, e: Effect, id: nat) {
    e.record.Some? && Moves(s, e.record.value, id, Running, Claimed)
  }

  function After(s: State, e: Effect): State {
    if e.record.Some? then Apply(s, e.record.value) else s
  }

  /** What is appended could be appended, and the worker goes on with what it knows. */
  ghost predicate KeepsLog(s: State, e: Effect) {
    && (e.record.Some? ==> Legal(s, e.record.value))
    && (e.next.Some? ==> Sound(After(s, e), e.next.value))
  }

  /** A worker drives what it drove or has just armed, and hands back only what the provider does not know. */
  predicate KeepsDriver(s: State, was: Option<Pc>, e: Effect, id: nat) {
    && (DrivesAt(e.next, id) ==> DrivesAt(was, id) || Arms(s, e, id))
    && (ArmedAt(e.next, id) ==> Arms(s, e, id))
    && (HandsBack(s, e, id) ==> was.Some? && was.value.NotFound? && was.value.intent.id == id && e.next.None?)
  }

  /** The provider is called by an armed worker, looked up after a refusal, and by nobody else. */
  predicate NotesFit(was: Option<Pc>, e: Effect) {
    || (e.noted == [] && (e.next.Some? ==> !e.next.value.Refused? && !e.next.value.NotFound?))
    || (&& e.record.None? && was.Some? && (was.value.HandlerArmed? || was.value.RecoveryArmed?)
        && e.noted == [RunCalled(was.value.intent.id)]
        && (e.next.Some? ==> !e.next.value.Refused? && !e.next.value.NotFound?))
    || (&& e.record.None? && was.Some? && was.value.HandlerArmed?
        && e.noted == [RunCalled(was.value.intent.id), RunRefused(was.value.intent.id)]
        && e.next == Some(Refused(was.value.intent)))
    || (&& e.record.None? && was.Some? && was.value.Refused?
        && e.noted == [NothingFound(was.value.intent.id)]
        && e.next == Some(NotFound(was.value.intent)))
  }

  /** Workers start behind an open boundary, except for a CI event, which is finished in one step; an event is
      screened, admitted, bound and only then claimed. */
  predicate Enters(w: World, a: Action, e: Effect)
    requires !a.RecordRunEvent?
  {
    var was := w.Standing(a.who);
    && (was.Some? && was.value.CiClaimed? ==> e.next.None? && e.noted == [])
    && (e.next.Some? ==>
          match e.next.value
          case Screened(event) => was.None? && StopReached(w.runLog) == Some(false) && a.Screen? && a.event == event && event.admitted
          case Looping(_) => was.None? ==> StopReached(w.runLog) == Some(false)
          case Admitted(event) => was == Some(Screened(event))
          case Bound(event, key) => was == Some(Pc.Admitted(event)) && a.Bind? && BindingHolds(w.runLog, event) && key == KeyOf(event)
          case CiClaimed(_) => was.None?
          case _ => was.Some?)
  }

  /** A new intent is a CI event's, or it is claimed under the key its worker has bound. */
  predicate Claims(w: World, a: Action, e: Effect)
    requires !a.RecordRunEvent?
  {
    e.record.Some? && e.record.value.IntentRecord? && e.record.value.intent.id !in w.State().intents ==>
      var intent := e.record.value.intent;
      || (a.StartCi? && intent.operation == CiReady && intent.dedupeKey.CiReadyKey?)
      || (&& a.Claim? && a.freshId == intent.id && a.who in w.workers && w.workers[a.who].Bound?
          && intent.operation == DispatchTask && intent.dedupeKey == w.workers[a.who].key)
  }

  /** The provider's answer about its intent that the worker holds. */
  function AnswerHeld(at: Pc): Option<ProviderResult> {
    if at.HandlerAnswered? || at.HandlerAcked? || at.Reconciled? || at.RecoveryAnswered? || at.RecoveryAcked? then Some(at.result) else None
  }

  /** An intent ends as the answer in the worker's hand says: completed, failed, or blocked when a handler does not recognise it, where a
      recovery worker that ran it counts every answer but a completion as a failure. It is given up as unknown when it is running and
      nothing is known of it, and a CI intent is completed at once. */
  predicate EndsAs(at: Pc, status: Status) {
    match status
    case Completed => at.CiClaimed? || (AnswerHeld(at).Some? && at.result.status == JobCompleted)
    case Failed =>
      || ((at.HandlerAcked? || at.Reconciled?) && at.result.status == JobFailed)
      || (at.RecoveryAcked? && at.result.status != JobCompleted)
    case Blocked => at.HandlerAcked? && at.result.status == JobUnrecognised
    case Unknown => at.Unreconciled? && at.intent.status == Running
    case _ => true
  }

  /** A status is recorded of the intent in hand, and a new run id is that of the answer in hand. */
  predicate Concludes(s: State, was: Option<Pc>, e: Effect) {
    e.record.Some? && e.record.value.IntentRecord? && e.record.value.intent.id in s.intents && e.record.value.kind != LeaseKind ==>
      var intent := e.record.value.intent;
      && was.Some? && !was.value.Screened? && !was.value.Admitted? && !was.value.Bound? && !was.value.Looping?
      && was.value.intent.id == intent.id
      && EndsAs(was.value, intent.status)
      && (intent.providerRunId == s.intents[intent.id].providerRunId
          || (AnswerHeld(was.value).Some? && intent.providerRunId == Some(was.value.result.runId)))
  }

  /** Everything an action of a worker may change, from a world where the log is good and every worker sound. */
  ghost predicate Permitted(w: World, a: Action, e: Effect, id: nat)
    requires !a.RecordRunEvent?
  {
    || e == Stay(w, a.who)
    || (&& KeepsLog(w.State(), e)
        && KeepsDriver(w.State(), w.Standing(a.who), e, id)
        && NotesFit(w.Standing(a.who), e)
        && Enters(w, a, e)
        && Claims(w, a, e)
        && Concludes(w.State(), w.Standing(a.who), e))
  }

  // ---------- Every action is permitted ----------

  /** A worker with `intent` in hand may continue at `next` once it moved the intent to `moved`. */
  predicate Continues(pc: Pc, intent: Intent, moved: Intent, next: Pc) {
    || next.Looping?
    || (&& !next.Screened? && !next.Admitted? && !next.Bound? && !next.CiClaimed? && !next.Refused? && !next.NotFound?
        && !next.HoldsClaim? && !next.HoldsLease? && !next.Reconciled? && !next.Unreconciled?
        && next.intent == moved && moved.status == Running
        && (intent.status == Claimed || (pc.Drives(intent.id) && !next.HandlerArmed? && !next.RecoveryArmed?)))
  }

  predicate InHand(at: Pc, intent: Intent) {
    !at.Screened? && !at.Admitted? && !at.Bound? && !at.Looping? && at.intent == intent
  }

  /** A compare-and-set that succeeds moves the intent from the status the worker saw. */
  lemma {:induction false} CasMoves(w: World, intent: Intent, status: Status, run: Option<string>, now: int)
    requires Invariant(w) && intent.id in w.State().intents
    ensures var r := Transitioned(w.State(), intent.id, status, Some(intent.status), Some(intent.version), run);
            r.Ok? ==>
              && r.value.id == intent.id && r.value.status == status && w.State().intents[intent.id].status == intent.status
              && (r.value.providerRunId == w.State().intents[intent.id].providerRunId || (run.Some? && r.value.providerRunId == run))
              && Legal(w.State(), IntentRecord(StatusKind(status), now, r.value))
  {
    ReplayIsConsistent(w.log);
    var r := Transitioned(w.State(), intent.id, status, Some(intent.status), Some(intent.version), run);
    if r.Ok? {
      TransitionIsLegal(w.State(), intent.id, status, Some(intent.status), Some(intent.version), run, now);
    }
  }

  /** A worker that moved the intent in its hand and continues accordingly did only what is permitted. */
  lemma {:induction false} MoveIsPermitted(w: World, a: Action, intent: Intent, record: Record, next: Option<Pc>, id: nat)
    requires Invariant(w) && !a.RecordRunEvent? && a.who in w.workers && intent.id in w.State().intents
    requires record.IntentRecord? && Legal(w.State(), record)
    requires record.intent.id == intent.id && w.State().intents[intent.id].status == intent.status
    requires w.workers[a.who].CiClaimed? ==> next.None?
    requires record.intent.status == Claimed ==> intent.status == Claimed || (w.workers[a.who] == NotFound(intent) && next.None?)
    requires next.Some? ==> Continues(w.workers[a.who], intent, record.intent, next.value)
    requires Concludes(w.State(), Some(w.workers[a.who]), Effect(Some(record), [], next))
    ensures Permitted(w, a, Effect(Some(record), [], next), id)
  {
    hide Legal, GoodLog, Replay, StopReached, BindingHolds;
  }

  /** A compare-and-set with the intent in hand is permitted if its continuation fits the move it makes. */
  lemma {:induction false} CasIsPermitted(w: World, a: Action, intent: Intent, status: Status, run: Option<string>, now: int, next: Intent -> Option<Pc>, id: nat)
    requires Invariant(w) && !a.RecordRunEvent? && a.who in w.workers && intent.id in w.State().intents
    requires InHand(w.workers[a.who], intent) && EndsAs(w.workers[a.who], status)
    requires run.Some? ==> AnswerHeld(w.workers[a.who]).Some? && run == Some(w.workers[a.who].result.runId)
    requires w.workers[a.who].CiClaimed? ==> forall moved :: next(moved).None?
    requires status == Claimed ==>
               intent.status == Claimed || (w.workers[a.who] == NotFound(intent) && forall moved :: next(moved).None?)
    requires forall moved: Intent | moved.id == intent.id && moved.status == status && next(moved).Some? ::
               Continues(w.workers[a.who], intent, moved, next(moved).value)
    ensures Permitted(w, a, Cas(w.State(), intent, status, run, now, next), id)
  {
    hide Permitted, Continues, Invariant, Transitioned, Legal;
    CasMoves(w, intent, status, run, now);
    StandingStillIsPermitted(w, a, id);
    var r := Transitioned(w.State(), intent.id, status, Some(intent.status), Some(intent.version), run);
    if r.Ok? {
      MoveIsPermitted(w, a, intent, IntentRecord(StatusKind(status), now, r.value), next(r.value), id);
    }
  }

  /** The outcome of a claim: an intent that has the key, or a record for the fresh one. */
  lemma {:induction false} ClaimIsLegal(s: State, proposed: Intent, now: int)
    requires proposed.id !in s.intents
    requires proposed == NewIntent(proposed.id, proposed.correlationId, proposed.dedupeKey, proposed.operation, proposed.taskId, proposed.headSha, proposed.branch)
    ensures var (record, intent) := ClaimOutcome(s, proposed, now);
            && intent.dedupeKey == proposed.dedupeKey
            && (record.None? ==> exists id :: id in s.intents && s.intents[id] == intent)
            && (record.Some? ==>
                  intent == proposed && record.value == IntentRecord(StatusKind(Claimed), now, proposed) && Legal(s, record.value))
  {
  }

  lemma {:induction false} ClaimIsPermitted(w: World, a: Action, id: nat)
    requires Invariant(w) && a.Claim? && a.who in w.workers && w.workers[a.who].Bound?
    ensures Permitted(w, a, Enter(w, a), id)
  {
    hide Transitioned, GoodLog, Replay, StopReached, BindingHolds;
    var Bound(event, key) := w.workers[a.who];
    if a.freshId !in w.State().intents {
      ClaimIsLegal(
        w.State(), NewIntent(a.freshId, a.freshCorrelation, key, DispatchTask, event.taskId, event.headSha, event.branch), a.now);
      ReplayIsConsistent(w.log);
    }
  }

  lemma {:induction false} EnterIsPermitted(w: World, a: Action, id: nat)
    requires Invariant(w) && !a.RecordRunEvent? && a.who in w.workers
    requires w.workers[a.who].Screened? || w.workers[a.who].Admitted? || w.workers[a.who].Bound?
    ensures Permitted(w, a, Enter(w, a), id)
  {
    hide Transitioned, GoodLog, Replay, StopReached, BindingHolds, ClaimOutcome;
    match (a, w.workers[a.who])
    case (Claim(_, _, _, _), Bound(_, _)) => ClaimIsPermitted(w, a, id);
    case _ =>
  }

  lemma {:induction false} TakeLeaseIsPermitted(w: World, a: Action, id: nat)
    requires Invariant(w) && !a.RecordRunEvent? && a.who in w.workers && w.workers[a.who].Looping?
    ensures Permitted(w, a, TakeLease(w, a), id)
  {
    hide Transitioned, GoodLog, StopReached, BindingHolds;
    ReplayIsConsistent(w.log);
  }

  lemma StandingStillIsPermitted(w: World, a: Action, id: nat)
    requires !a.RecordRunEvent?
    ensures Permitted(w, a, LEAVE, id) && Permitted(w, a, Stay(w, a.who), id)
  {
  }

  /** An action with an intent in hand that leaves the store alone. */
  lemma {:induction false} NotingIsPermitted(w: World, a: Action, e: Effect, id: nat)
    requires !a.RecordRunEvent? && a.who in w.workers && !w.workers[a.who].CiClaimed?
    requires e.record.None? && NotesFit(w.Standing(a.who), e)
    requires e.next.Some? ==>
               var next := e.next.value;
               && !next.Screened? && !next.Admitted? && !next.Bound? && !next.CiClaimed? && !next.HandlerArmed? && !next.RecoveryArmed?
               && Sound(w.State(), next) && (next.Drives(id) ==> w.workers[a.who].Drives(id))
    ensures Permitted(w, a, e, id)
  {
  }

  lemma {:induction false} ProviderCallIsPermitted(w: World, a: Action, id: nat)
    requires Invariant(w) && (a.Run? || a.Reconcile?) && a.who in w.workers && !w.workers[a.who].Looping?
    requires !w.workers[a.who].Screened? && !w.workers[a.who].Admitted? && !w.workers[a.who].Bound?
    ensures Permitted(w, a, Proceed(w, a), id)
  {
    hide Permitted, Cas, GoodLog, Replay;
    StandingStillIsPermitted(w, a, id);
    match (a, w.workers[a.who])
    case (Run(_, _), HandlerArmed(_)) => NotingIsPermitted(w, a, Proceed(w, a), id);
    case (Run(_, _), RecoveryArmed(_, _)) => NotingIsPermitted(w, a, Proceed(w, a), id);
    case (Reconcile(_, _), Refused(_)) => NotingIsPermitted(w, a, Proceed(w, a), id);
    case (Reconcile(_, _), HoldsLease(_, _)) => NotingIsPermitted(w, a, Proceed(w, a), id);
    case _ =>
  }

  lemma {:induction false} HandlerIsPermitted(w: World, a: Action, id: nat)
    requires Invariant(w) && !a.RecordRunEvent? && !a.Run? && !a.Reconcile? && a.who in w.workers
    requires w.workers[a.who].HoldsClaim? || w.workers[a.who].HandlerArmed? || w.workers[a.who].Refused? || w.workers[a.who].NotFound?
             || w.workers[a.who].HandlerAnswered? || w.workers[a.who].HandlerAcked? || w.workers[a.who].CiClaimed?
    ensures Permitted(w, a, Proceed(w, a), id)
  {
    hide Permitted, Transitioned, GoodLog, Replay, Cas, Legal, Apply, KeepsDriver, StopReached, BindingHolds, Reducer.Reduce;
    StandingStillIsPermitted(w, a, id);
    match (a, w.workers[a.who])
    case (Arm(_, now), HoldsClaim(intent)) =>
      CasIsPermitted(w, a, intent, Running, None, now, moved => Some(HandlerArmed(moved)), id);
    case (HandBack(_, now), NotFound(intent)) =>
      CasIsPermitted(w, a, intent, Claimed, None, now, moved => None, id);
    case (Acknowledge(_, now), HandlerAnswered(intent, result)) =>
      CasIsPermitted(w, a, intent, Running, Some(result.runId), now, moved => Some(HandlerAcked(moved, result)), id);
    case (Finish(_, now), HandlerAcked(intent, result)) =>
      if result.status != JobInProgress {
        var end := if result.status == JobCompleted then Completed else if result.status == JobFailed then Failed else Blocked;
        CasIsPermitted(w, a, intent, end, None, now, moved => None, id);
      }
    case (Finish(_, now), CiClaimed(intent)) =>
      CasIsPermitted(w, a, intent, Completed, None, now, moved => None, id);
    case _ =>
  }

  lemma {:induction false} RecoveryIsPermitted(w: World, a: Action, id: nat)
    requires Invariant(w) && !a.RecordRunEvent? && !a.Run? && !a.Reconcile? && a.who in w.workers
    requires w.workers[a.who].HoldsLease? || w.workers[a.who].Reconciled? || w.workers[a.who].Unreconciled?
             || w.workers[a.who].RecoveryArmed? || w.workers[a.who].RecoveryAnswered? || w.workers[a.who].RecoveryAcked?
    ensures Permitted(w, a, Proceed(w, a), id)
  {
    hide Permitted, Transitioned, GoodLog, Replay, Cas, Legal, Apply, KeepsDriver, StopReached, BindingHolds, Reducer.Reduce;
    StandingStillIsPermitted(w, a, id);
    match (a, w.workers[a.who])
    case (Settle(_, now), Reconciled(name, intent, result)) =>
      var status := if result.status == JobInProgress then intent.status else if result.status == JobCompleted then Completed else Failed;
      NotingIsPermitted(w, a, Go(Looping(name)), id);
      CasIsPermitted(w, a, intent, status, Some(result.runId), now, moved => Some(Looping(name)), id);
    case (Resume(_, now), Unreconciled(name, intent)) =>
      if intent.status == Running {
        CasIsPermitted(w, a, intent, Unknown, None, now, moved => Some(Looping(name)), id);
      } else {
        CasIsPermitted(w, a, intent, Running, None, now, moved => Some(RecoveryArmed(name, moved)), id);
      }
    case (Acknowledge(_, now), RecoveryAnswered(name, intent, result)) =>
      CasIsPermitted(w, a, intent, Running, Some(result.runId), now, moved => Some(RecoveryAcked(name, moved, result)), id);
    case (Finish(_, now), RecoveryAcked(name, intent, result)) =>
      CasIsPermitted(w, a, intent, if result.status == JobCompleted then Completed else Failed, None, now, moved => Some(Looping(name)), id);
    case _ =>
  }

  lemma {:induction false} StartIsPermitted(w: World, a: Action, id: nat)
    requires Invariant(w) && (a.Screen? || a.StartRecovery? || a.StartCi?)
    ensures Permitted(w, a, Start(w, a), id)
  {
    hide Transitioned, GoodLog, Replay, BindingHolds;
    if a.StartCi? && a.who !in w.workers && a.freshId !in w.State().intents {
      ClaimIsLegal(
        w.State(), NewIntent(a.freshId, a.freshCorrelation, CiReadyKey(a.semanticKey), CiReady, a.ciTask, a.headSha, a.branch), a.now);
    }
  }

  /** The one case split over all workers and actions. */
  lemma {:induction false} EffectIsPermitted(w: World, a: Action, id: nat)
    requires Invariant(w) && !a.RecordRunEvent?
    ensures Permitted(w, a, EffectOf(w, a), id)
  {
    hide Permitted, Start, Enter, TakeLease, Proceed;
    if a.Screen? || a.StartRecovery? || a.StartCi? {
      StartIsPermitted(w, a, id);
    } else if a.Crash? || a.who !in w.workers {
      StandingStillIsPermitted(w, a, id);
    } else {
      var pc := w.workers[a.who];
      if pc.Screened? || pc.Admitted? || pc.Bound? {
        EnterIsPermitted(w, a, id);
      } else if pc.Looping? {
        TakeLeaseIsPermitted(w, a, id);
      } else if a.Run? || a.Reconcile? {
        ProviderCallIsPermitted(w, a, id);
      } else if pc.HoldsLease? || pc.Reconciled? || pc.Unreconciled? || pc.RecoveryArmed? || pc.RecoveryAnswered? || pc.RecoveryAcked? {
        RecoveryIsPermitted(w, a, id);
      } else {
        HandlerIsPermitted(w, a, id);
      }
    }
  }

  lemma StayingChangesNothing(w: World, who: nat)
    ensures Afterwards(w, who, Stay(w, who)) == w
  {
    assert w.history + [] == w.history;
    if who in w.workers {
      assert w.workers[who := w.workers[who]] == w.workers;
    } else {
      assert w.workers - {who} == w.workers;
    }
  }

  // ---------- What is permitted is safe ----------

  lemma {:induction false} LogIsKept(w: World, who: nat, e: Effect)
    requires Invariant(w) && KeepsLog(w.State(), e)
    ensures Invariant(Afterwards(w, who, e)) && Afterwards(w, who, e).State() == After(w.State(), e)
  {
    if e.record.Some? {
      AppendLegal(w.log, e.record.value);
    }
  }

  lemma {:induction false} DriverIsKept(w: World, who: nat, e: Effect, id: nat)
    requires Invariant(w) && Driven(w, id) && KeepsLog(w.State(), e) && KeepsDriver(w.State(), w.Standing(who), e, id)
    ensures Driven(Afterwards(w, who, e), id)
  {
    LogIsKept(w, who, e);
  }

  /** Nobody is armed after an action by which nobody becomes armed, if the worker that drove the intent acted. */
  lemma {:induction false} ArmedBefore(w: World, who: nat, e: Effect, id: nat)
    requires Driven(w, id) && !ArmedAt(e.next, id)
    ensures SomeArmed(Afterwards(w, who, e), id) ==> SomeArmed(w, id)
    ensures DrivesAt(w.Standing(who), id) ==> !SomeArmed(Afterwards(w, who, e), id)
  {
    var v := Afterwards(w, who, e);
    if u :| u in v.workers && v.workers[u].ArmedFor(id) {
      assert u != who && u in w.workers && w.workers[u] == v.workers[u] && w.workers[u].Drives(id);
    }
  }

  lemma {:induction false} CallsAreBooked(w: World, who: nat, e: Effect, id: nat)
    requires Driven(w, id) && KeepsDriver(w.State(), w.Standing(who), e, id) && NotesFit(w.Standing(who), e)
    requires Times(w.history, RunCalled(id)) + One(SomeArmed(w, id)) <= Armings(w.log, id)
    ensures var v := Afterwards(w, who, e); Times(v.history, RunCalled(id)) + One(SomeArmed(v, id)) <= Armings(v.log, id)
  {
    var v := Afterwards(w, who, e);
    TimesConcat(w.history, e.noted, RunCalled(id));
    if e.noted != [] {
      TimesOfNotes(w.workers[who].intent.id, RunCalled(id));
    }
    if e.record.Some? {
      MoveCountAppend(w.log, e.record.value, id, Claimed, Running);
    }
    if Arms(w.State(), e, id) {
      assert !SomeArmed(w, id);
    } else {
      ArmedBefore(w, who, e, id);
      if Times(e.noted, RunCalled(id)) > 0 {
        assert w.workers[who].ArmedFor(id) && w.workers[who].Drives(id);
        assert SomeArmed(w, id);
      }
    }
  }

  lemma {:induction false} HandBacksAreBooked(w: World, who: nat, e: Effect, id: nat)
    requires Driven(w, id) && KeepsDriver(w.State(), w.Standing(who), e, id) && NotesFit(w.Standing(who), e)
    requires HandBacks(w.log, id) + One(SomeNotFound(w, id)) <= Times(w.history, NothingFound(id))
    ensures var v := Afterwards(w, who, e); HandBacks(v.log, id) + One(SomeNotFound(v, id)) <= Times(v.history, NothingFound(id))
  {
    var v := Afterwards(w, who, e);
    TimesConcat(w.history, e.noted, NothingFound(id));
    if e.noted != [] {
      TimesOfNotes(w.workers[who].intent.id, NothingFound(id));
    }
    if e.record.Some? {
      MoveCountAppend(w.log, e.record.value, id, Running, Claimed);
    }
    if HandsBack(w.State(), e, id) {
      assert w.workers[who].Drives(id);
      assert SomeNotFound(w, id) && !SomeNotFound(v, id);
    } else if e.next.Some? && e.next.value.NotFound? && e.next.value.intent.id == id {
      assert w.workers[who].Refused? && w.workers[who].Drives(id);
      assert !SomeNotFound(w, id);
    } else {
      assert SomeNotFound(v, id) ==> SomeNotFound(w, id);
    }
  }

  lemma {:induction false} MissesAreBooked(w: World, who: nat, e: Effect, id: nat)
    requires Driven(w, id) && NotesFit(w.Standing(who), e)
    requires Times(w.history, NothingFound(id)) + One(SomeRefused(w, id)) <= Times(w.history, RunRefused(id))
    ensures var v := Afterwards(w, who, e); Times(v.history, NothingFound(id)) + One(SomeRefused(v, id)) <= Times(v.history, RunRefused(id))
  {
    var v := Afterwards(w, who, e);
    TimesConcat(w.history, e.noted, NothingFound(id));
    if e.noted != [] {
      TimesOfNotes(w.workers[who].intent.id, NothingFound(id));
    }
    TimesConcat(w.history, e.noted, RunRefused(id));
    if e.noted != [] {
      TimesOfNotes(w.workers[who].intent.id, RunRefused(id));
    }
    if e.next.Some? && e.next.value.Refused? && e.next.value.intent.id == id {
      assert w.workers[who].HandlerArmed? && w.workers[who].Drives(id);
      assert !SomeRefused(w, id);
    } else {
      assert SomeRefused(v, id) ==> SomeRefused(w, id);
      if Times(e.noted, NothingFound(id)) > 0 {
        assert w.workers[who].Refused? && w.workers[who].Drives(id);
        assert SomeRefused(w, id) && !SomeRefused(v, id);
      }
    }
  }

  lemma {:induction false} PerformKeeps(w: World, a: Action, id: nat)
    requires Safe(w, id)
    ensures Safe(Perform(w, a), id)
  {
    hide EffectOf, KeepsLog, KeepsDriver, NotesFit, Enters, Claims;
    if a.RecordRunEvent? {
      RecordKeeps(w, a.runEvent, id);
    } else {
      var e := EffectOf(w, a);
      EffectIsPermitted(w, a, id);
      if e == Stay(w, a.who) {
        StayingChangesNothing(w, a.who);
      } else {
        LogIsKept(w, a.who, e);
        DriverIsKept(w, a.who, e, id);
        CallsAreBooked(w, a.who, e, id);
        HandBacksAreBooked(w, a.who, e, id);
        MissesAreBooked(w, a.who, e, id);
      }
    }
  }

  lemma {:induction false} RecordKeeps(w: World, runEvent: Reducer.RunEvent, id: nat)
    requires Safe(w, id)
    ensures Safe(w.(runLog := w.runLog + [runEvent]), id)
  {
    var v := w.(runLog := w.runLog + [runEvent]);
    assert v.workers == w.workers && v.log == w.log && v.history == w.history;
  }

  lemma {:induction false} ExecuteIsSafe(actions: seq<Action>, id: nat)
    ensures Safe(Execute(INITIAL, actions), id)
  {
    if actions == [] {
      assert Safe(INITIAL, id);
    } else {
      ExecuteIsSafe(actions[..|actions| - 1], id);
      PerformKeeps(Execute(INITIAL, actions[..|actions| - 1]), actions[|actions| - 1], id);
    }
  }
}
