/**
  The dispatcher's persistent store: an append-only log of records whose replay is the state.
  Every public method is one locked section: it replays the log, decides, and appends at most one record.
 */
module DispatcherStore {
  import opened Wrappers

  datatype Status = Claimed | Running | Completed | Failed | Blocked | Unknown

  const NON_TERMINAL: set<Status> := {Claimed, Running}

  /** ALLOWED_STATUS_TRANSITIONS. */
  function Allowed(from: Status): set<Status> {
    match from
    case Claimed => {Running, Completed, Failed, Blocked, Unknown}
    case Running => {Claimed, Running, Completed, Failed, Blocked, Unknown}
    case _ => {}
  }

  datatype Operation = DispatchTask | CiReady

  /** What makes two requests the same request. The source renders a key as text, with a prefix per kind
      and `:` between components that contain none. */
  datatype DedupeKey =
    | DispatchKey(repository: string, taskId: string, attempt: int, branch: string)
    | CiReadyKey(semanticKey: string)

  datatype Intent = Intent(
    id: nat,
    dedupeKey: DedupeKey,
    operation: Operation,
    taskId: Option<string>,
    headSha: Option<string>,
    branch: Option<string>,
    correlationId: nat,
    status: Status,
    version: nat,
    leaseOwner: Option<string>,
    leaseExpiresAt: Option<int>,
    providerRunId: Option<string>)
  {
    predicate SameIdentity(other: Intent) {
      && id == other.id
      && dedupeKey == other.dedupeKey
      && operation == other.operation
      && taskId == other.taskId
      && headSha == other.headSha
      && branch == other.branch
      && correlationId == other.correlationId
    }

    predicate LeaseHeld(now: int) {
      leaseOwner.Some? && leaseOwner.value != "" && leaseExpiresAt.Some? && now < leaseExpiresAt.value
    }

    /** `lease_unfinished_intent` may take this intent at time `now`. */
    predicate Leasable(now: int) {
      status in NON_TERMINAL && !LeaseHeld(now)
    }
  }

  datatype Kind = StatusKind(status: Status) | LeaseKind

  datatype Record =
    | DeliverySeen(deliveryId: string, recordedAt: int)
    | IntentRecord(kind: Kind, recordedAt: int, intent: Intent)
  {
    predicate Concerns(id: nat) {
      IntentRecord? && intent.id == id
    }
  }

  datatype State = State(deliveries: set<string>, intents: map<nat, Intent>)

  function Apply(s: State, record: Record): State {
    match record
    case DeliverySeen(deliveryId, _) => s.(deliveries := s.deliveries + {deliveryId})
    case IntentRecord(_, _, intent) => s.(intents := s.intents[intent.id := intent])
  }

  function Replay(log: seq<Record>): State {
    if log == [] then State({}, map[])
    else Apply(Replay(log[..|log| - 1]), log[|log| - 1])
  }

  datatype StoreError = UnknownIntent | UnexpectedStatus | UnexpectedVersion | IllegalTransition | InvalidLease

  // ---------- What each operation decides from the replayed state ----------

  function NewIntent(
    id: nat, correlationId: nat, dedupeKey: DedupeKey, operation: Operation,
    taskId: Option<string>, headSha: Option<string>, branch: Option<string>): Intent
  {
    Intent(id, dedupeKey, operation, taskId, headSha, branch, correlationId, Claimed, 1, None, None, None)
  }

  function Transitioned(
    s: State, id: nat, status: Status,
    expectedStatus: Option<Status>, expectedVersion: Option<nat>, providerRunId: Option<string>): Result<Intent, StoreError>
  {
    if id !in s.intents then Err(UnknownIntent)
    else
      var intent := s.intents[id];
      if expectedStatus.Some? && intent.status != expectedStatus.value then Err(UnexpectedStatus)
      else if expectedVersion.Some? && intent.version != expectedVersion.value then Err(UnexpectedVersion)
      else if status !in Allowed(intent.status) then Err(IllegalTransition)
      else
        Ok(intent.(
          status := status,
          version := intent.version + 1,
          leaseOwner := if status in NON_TERMINAL then intent.leaseOwner else None,
          leaseExpiresAt := if status in NON_TERMINAL then intent.leaseExpiresAt else None,
          providerRunId := if providerRunId.Some? && providerRunId.value != "" then providerRunId else intent.providerRunId))
  }

  function Leased(intent: Intent, worker: string, seconds: int, now: int): Intent {
    intent.(version := intent.version + 1, leaseOwner := Some(worker), leaseExpiresAt := Some(now + seconds))
  }

  function LeasableIds(s: State, now: int): set<nat> {
    set id | id in s.intents && s.intents[id].Leasable(now)
  }

  /** The intent chosen by a lease call: the leasable one with the least id. */
  predicate IsLeaseChoice(s: State, now: int, id: nat) {
    id in LeasableIds(s, now) && forall other | other in LeasableIds(s, now) :: id <= other
  }

  // ---------- Logs that the operations can have produced ----------

  /** `record` is what some operation may append to a log with replay `s`. */
  predicate Legal(s: State, record: Record) {
    match record
    case DeliverySeen(deliveryId, _) => deliveryId !in s.deliveries
    case IntentRecord(kind, now, next) =>
      if next.id !in s.intents then
        && kind == StatusKind(Claimed)
        && next == NewIntent(next.id, next.correlationId, next.dedupeKey, next.operation, next.taskId, next.headSha, next.branch)
        && forall id | id in s.intents :: s.intents[id].dedupeKey != next.dedupeKey
      else
        var intent := s.intents[next.id];
        if kind == LeaseKind then
          && intent.Leasable(now)
          && next.leaseOwner.Some? && next.leaseExpiresAt.Some? && now < next.leaseExpiresAt.value
          && next == Leased(intent, next.leaseOwner.value, next.leaseExpiresAt.value - now, now)
        else
          && kind == StatusKind(next.status)
          && Transitioned(s, next.id, next.status, None, None, next.providerRunId) == Ok(next)
  }

  predicate GoodLog(log: seq<Record>) {
    log == [] || (GoodLog(log[..|log| - 1]) && Legal(Replay(log[..|log| - 1]), log[|log| - 1]))
  }

  lemma AppendLegal(log: seq<Record>, record: Record)
    requires GoodLog(log) && Legal(Replay(log), record)
    ensures GoodLog(log + [record])
    ensures Replay(log + [record]) == Apply(Replay(log), record)
  {
    assert (log + [record])[..|log|] == log;
  }

  lemma TransitionIsLegal(
    s: State, id: nat, status: Status, expectedStatus: Option<Status>, expectedVersion: Option<nat>,
    providerRunId: Option<string>, now: int)
    requires forall i | i in s.intents :: s.intents[i].id == i
    requires Transitioned(s, id, status, expectedStatus, expectedVersion, providerRunId).Ok?
    requires id in s.intents && s.intents[id].providerRunId != Some("")
    ensures Legal(s, IntentRecord(StatusKind(status), now,
                                  Transitioned(s, id, status, expectedStatus, expectedVersion, providerRunId).value))
  {
  }

  /** In every good log intents are stored under their own id, no provider run id is the empty string,
      and different intents have different dedupe keys. */
  lemma {:induction false} ReplayIsConsistent(log: seq<Record>)
    requires GoodLog(log)
    ensures forall id | id in Replay(log).intents ::
              && Replay(log).intents[id].id == id
              && Replay(log).intents[id].providerRunId != Some("")
    ensures forall a, b | a in Replay(log).intents && b in Replay(log).intents && a != b ::
              Replay(log).intents[a].dedupeKey != Replay(log).intents[b].dedupeKey
  {
    if log != [] {
      ReplayIsConsistent(log[..|log| - 1]);
    }
  }

  class FileDispatcherStore {
    var log: seq<Record>

    ghost predicate Valid()
      reads this
    {
      GoodLog(log)
    }

    constructor ()
      ensures Valid() && log == []
    {
      log := [];
    }

    /** `_load_state_locked`. */
    method LoadState() returns (s: State)
      ensures s == Replay(log)
    {
      var deliveries: set<string>, intents: map<nat, Intent> := {}, map[];
      var i := 0;
      while i < |log|
        invariant 0 <= i <= |log|
        invariant State(deliveries, intents) == Replay(log[..i])
      {
        assert log[..i + 1][..i] == log[..i];
        match log[i] {
          case DeliverySeen(deliveryId, _) => deliveries := deliveries + {deliveryId};
          case IntentRecord(_, _, intent) => intents := intents[intent.id := intent];
        }
        i := i + 1;
      }
      assert log[..|log|] == log;
      s := State(deliveries, intents);
    }

    /** Returns true, and records the delivery, exactly when it was never recorded before. */
    method RememberDelivery(deliveryId: string, now: int) returns (isNew: bool)
      requires Valid()
      modifies this
      ensures Valid()
      ensures isNew == (deliveryId !in Replay(old(log)).deliveries)
      ensures log == if isNew then old(log) + [DeliverySeen(deliveryId, now)] else old(log)
      ensures Replay(log) == Replay(old(log)).(deliveries := Replay(old(log)).deliveries + {deliveryId})
    {
      var s := LoadState();
      if deliveryId in s.deliveries {
        assert s.deliveries + {deliveryId} == s.deliveries;
        return false;
      }
      AppendLegal(log, DeliverySeen(deliveryId, now));
      log := log + [DeliverySeen(deliveryId, now)];
      return true;
    }

    /** Returns the intent with this dedupe key, creating it under the fresh id when there is none. */
    method ClaimIntent(
      dedupeKey: DedupeKey, operation: Operation, taskId: Option<string>, headSha: Option<string>, branch: Option<string>,
      freshId: nat, freshCorrelation: nat, now: int) returns (intent: Intent, claimed: bool)
      requires Valid() && freshId !in Replay(log).intents
      modifies this
      ensures Valid()
      ensures intent.dedupeKey == dedupeKey
      ensures claimed <==> forall id | id in Replay(old(log)).intents :: Replay(old(log)).intents[id].dedupeKey != dedupeKey
      ensures claimed ==>
                && intent == NewIntent(freshId, freshCorrelation, dedupeKey, operation, taskId, headSha, branch)
                && log == old(log) + [IntentRecord(StatusKind(Claimed), now, intent)]
                && Replay(log) == Replay(old(log)).(intents := Replay(old(log)).intents[freshId := intent])
      ensures !claimed ==> log == old(log) && intent.id in Replay(log).intents && Replay(log).intents[intent.id] == intent
    {
      var s := LoadState();
      ReplayIsConsistent(log);
      var pending := s.intents.Keys;
      while pending != {}
        invariant pending <= s.intents.Keys
        invariant forall id | id in s.intents && id !in pending :: s.intents[id].dedupeKey != dedupeKey
      {
        var id :| id in pending;
        if s.intents[id].dedupeKey == dedupeKey {
          return s.intents[id], false;
        }
        pending := pending - {id};
      }
      intent := NewIntent(freshId, freshCorrelation, dedupeKey, operation, taskId, headSha, branch);
      AppendLegal(log, IntentRecord(StatusKind(Claimed), now, intent));
      log := log + [IntentRecord(StatusKind(Claimed), now, intent)];
      return intent, true;
    }

    /** The compare-and-set: moves an intent along an allowed transition if it still has the expected
        status and version, and changes nothing otherwise. */
    method TransitionIntent(
      id: nat, status: Status, expectedStatus: Option<Status>, expectedVersion: Option<nat>,
      providerRunId: Option<string>, now: int) returns (r: Result<Intent, StoreError>)
      requires Valid()
      modifies this
      ensures Valid()
      ensures r == Transitioned(Replay(old(log)), id, status, expectedStatus, expectedVersion, providerRunId)
      ensures r.Err? ==> log == old(log)
      ensures r.Ok? ==>
                && log == old(log) + [IntentRecord(StatusKind(status), now, r.value)]
                && Replay(log) == Replay(old(log)).(intents := Replay(old(log)).intents[id := r.value])
    {
      var s := LoadState();
      ReplayIsConsistent(log);
      if id !in s.intents {
        return Err(UnknownIntent);
      }
      var intent := s.intents[id];
      if expectedStatus.Some? && intent.status != expectedStatus.value {
        return Err(UnexpectedStatus);
      }
      if expectedVersion.Some? && intent.version != expectedVersion.value {
        return Err(UnexpectedVersion);
      }
      if status !in Allowed(intent.status) {
        return Err(IllegalTransition);
      }
      var nextRun := if providerRunId.Some? && providerRunId.value != "" then providerRunId else intent.providerRunId;
      var updated := intent.(
        status := status,
        version := intent.version + 1,
        leaseOwner := if status in NON_TERMINAL then intent.leaseOwner else None,
        leaseExpiresAt := if status in NON_TERMINAL then intent.leaseExpiresAt else None,
        providerRunId := nextRun);
      TransitionIsLegal(s, id, status, expectedStatus, expectedVersion, providerRunId, now);
      AppendLegal(log, IntentRecord(StatusKind(status), now, updated));
      log := log + [IntentRecord(StatusKind(status), now, updated)];
      return Ok(updated);
    }

    /** Leases the unfinished, unleased intent with the least id; none exactly when there is no such intent. */
    method LeaseUnfinishedIntent(worker: string, seconds: int, now: int) returns (r: Result<Option<Intent>, StoreError>)
      requires Valid()
      modifies this
      ensures Valid()
      ensures r.Err? <==> seconds <= 0
      ensures r.Err? || r.value.None? ==> log == old(log)
      ensures r == Ok(None) ==> LeasableIds(Replay(log), now) == {}
      ensures r.Ok? && r.value.Some? ==>
                var leased := r.value.value;
                && IsLeaseChoice(Replay(old(log)), now, leased.id)
                && leased == Leased(Replay(old(log)).intents[leased.id], worker, seconds, now)
                && log == old(log) + [IntentRecord(LeaseKind, now, leased)]
                && Replay(log) == Replay(old(log)).(intents := Replay(old(log)).intents[leased.id := leased])
    {
      if seconds <= 0 {
        return Err(InvalidLease);
      }
      var s := LoadState();
      ReplayIsConsistent(log);
      var ids := SortedIds(s.intents.Keys);
      var i := 0;
      while i < |ids|
        invariant 0 <= i <= |ids|
        invariant forall k | 0 <= k < i :: ids[k] !in LeasableIds(s, now)
      {
        var intent := s.intents[ids[i]];
        if intent.status in NON_TERMINAL && !intent.LeaseHeld(now) {
          var leased := Leased(intent, worker, seconds, now);
          assert IsLeaseChoice(s, now, leased.id) by {
            forall other | other in LeasableIds(s, now) ensures leased.id <= other {
              var k :| 0 <= k < |ids| && ids[k] == other;
            }
          }
          AppendLegal(log, IntentRecord(LeaseKind, now, leased));
          log := log + [IntentRecord(LeaseKind, now, leased)];
          return Ok(Some(leased));
        }
        i := i + 1;
      }
      assert forall id | id in s.intents.Keys :: id in ids;
      return Ok(None);
    }

    method ListUnfinishedIntents() returns (unfinished: set<Intent>)
      requires Valid()
      ensures forall x :: x in unfinished <==> x.id in Replay(log).intents && Replay(log).intents[x.id] == x && x.status in NON_TERMINAL
    {
      var s := LoadState();
      ReplayIsConsistent(log);
      unfinished := set id | id in s.intents && s.intents[id].status in NON_TERMINAL :: s.intents[id];
    }

    method GetIntent(id: nat) returns (intent: Option<Intent>)
      ensures intent == if id in Replay(log).intents then Some(Replay(log).intents[id]) else None
    {
      var s := LoadState();
      intent := if id in s.intents then Some(s.intents[id]) else None;
    }
  }

  method LeastId(ids: set<nat>) returns (least: nat)
    requires ids != {}
    ensures least in ids && forall id | id in ids :: least <= id
  {
    least :| least in ids;
    var rest := ids - {least};
    while rest != {}
      invariant rest <= ids && least in ids
      invariant forall id | id in ids :: id in rest || least <= id
    {
      var id :| id in rest;
      rest := rest - {id};
      least := if id < least then id else least;
    }
  }

  /** `sorted(...)` on ids. */
  method SortedIds(ids: set<nat>) returns (r: seq<nat>)
    ensures forall id :: id in r <==> id in ids
    ensures forall i, j | 0 <= i < j < |r| :: r[i] < r[j]
  {
    r := [];
    var rest := ids;
    while rest != {}
      invariant rest <= ids
      invariant forall id :: id in r <==> id in ids && id !in rest
      invariant forall i, j | 0 <= i < j < |r| :: r[i] < r[j]
      invariant forall k | 0 <= k < |r| :: forall id | id in rest :: r[k] < id
    {
      var least := LeastId(rest);
      r, rest := r + [least], rest - {least};
    }
  }
}
