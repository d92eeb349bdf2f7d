/** Properties of every log the store can have written, over whole runs. */
module DispatcherLog {
  import opened Wrappers
  import opened DispatcherStore

  lemma {:induction false} PrefixIsGood(log: seq<Record>, n: nat)
    requires GoodLog(log) && n <= |log|
    ensures GoodLog(log[..n])
  {
    if n == |log| {
      assert log[..n] == log;
    } else {
      PrefixIsGood(log[..|log| - 1], n);
      assert log[..|log| - 1][..n] == log[..n];
    }
  }

  /** The last record of a prefix was legal when it was appended. */
  lemma RecordWasLegal(log: seq<Record>, i: nat)
    requires GoodLog(log) && i < |log|
    ensures GoodLog(log[..i]) && Legal(Replay(log[..i]), log[i])
    ensures Replay(log[..i + 1]) == Apply(Replay(log[..i]), log[i])
  {
    PrefixIsGood(log, i + 1);
    assert log[..i + 1][..i] == log[..i];
  }

  /** One legal record: the intents it is not about stay, the one it is about moves forward. */
  lemma LegalRecordMovesForward(s: State, record: Record, id: nat)
    requires Legal(s, record) && id in s.intents && s.intents[id].id == id
    ensures id in Apply(s, record).intents
    ensures var before, after := s.intents[id], Apply(s, record).intents[id];
            && before.SameIdentity(after)
            && (record.Concerns(id) ==> after == record.intent && after.version == before.version + 1 && before.status in NON_TERMINAL)
            && (!record.Concerns(id) ==> after == before)
  {
  }

  /** From any moment of a log to its end an intent keeps its identity, its version never decreases and
      tells whether anything happened, and a terminal intent gets no further record. */
  lemma {:induction false} IntentsOnlyMoveForward(log: seq<Record>, n: nat, id: nat)
    requires GoodLog(log) && n <= |log| && id in Replay(log[..n]).intents
    ensures id in Replay(log).intents
    ensures var before, after := Replay(log[..n]).intents[id], Replay(log).intents[id];
            && before.SameIdentity(after)
            && before.version <= after.version
            && (before.version == after.version ==> before == after)
            && (before.status !in NON_TERMINAL ==> before == after)
    ensures forall i | n <= i < |log| && log[i].Concerns(id) ::
              Replay(log[..n]).intents[id].version < log[i].intent.version && Replay(log[..n]).intents[id].status in NON_TERMINAL
    decreases |log|
  {
    if n == |log| {
      assert log[..n] == log;
    } else {
      var init := log[..|log| - 1];
      assert init[..n] == log[..n];
      IntentsOnlyMoveForward(init, n, id);
      ReplayIsConsistent(init);
      LegalRecordMovesForward(Replay(init), log[|init|], id);
      hide Legal;
      assert Replay(log) == Apply(Replay(init), log[|init|]);
    }
  }

  function RecordCount(log: seq<Record>, id: nat): nat {
    if log == [] then 0
    else RecordCount(log[..|log| - 1], id) + (if log[|log| - 1].Concerns(id) then 1 else 0)
  }

  /** An intent's version is the number of its records, and it exists exactly when it has one. */
  lemma {:induction false} VersionCountsRecords(log: seq<Record>, id: nat)
    requires GoodLog(log)
    ensures id in Replay(log).intents <==> RecordCount(log, id) > 0
    ensures id in Replay(log).intents ==> Replay(log).intents[id].version == RecordCount(log, id)
  {
    if log != [] {
      VersionCountsRecords(log[..|log| - 1], id);
    }
  }

  /** Of two compare-and-set calls that observed the same version, once one has succeeded no other ever will,
      whatever is appended in between. */
  lemma SecondCasFails(
    log: seq<Record>, later: seq<Record>, id: nat, version: nat,
    status: Status, expected: Option<Status>, run: Option<string>, now: int,
    otherStatus: Status, otherExpected: Option<Status>, otherRun: Option<string>)
    requires GoodLog(later)
    requires Transitioned(Replay(log), id, status, expected, Some(version), run).Ok?
    requires log + [IntentRecord(StatusKind(status), now,
                                 Transitioned(Replay(log), id, status, expected, Some(version), run).value)] <= later
    ensures Transitioned(Replay(later), id, otherStatus, otherExpected, Some(version), otherRun).Err?
  {
    var won := Transitioned(Replay(log), id, status, expected, Some(version), run).value;
    var longer := log + [IntentRecord(StatusKind(status), now, won)];
    assert later[..|log|] == log && longer[..|log|] == log && later[..|longer|] == longer;
    PrefixIsGood(later, |log|);
    ReplayIsConsistent(log);
    assert Replay(longer).intents[id] == won;
    IntentsOnlyMoveForward(later, |longer|, id);
  }

  // ---------- Leases ----------

  /** From the `i`-th record on, before the `j`-th, every lease of this intent was taken under a worker name. */
  ghost predicate NamedLeases(log: seq<Record>, i: nat, j: nat, id: nat) {
    forall k | i <= k < j && k < |log| && log[k].Concerns(id) && log[k].kind == LeaseKind :: log[k].intent.leaseOwner != Some("")
  }

  /** Once leased until `deadline`, an intent is terminal or still under a lease at least that long. */
  ghost predicate StillLeased(s: State, id: nat, deadline: int) {
    && id in s.intents
    && (s.intents[id].status in NON_TERMINAL ==>
          && s.intents[id].leaseOwner.Some? && s.intents[id].leaseOwner.value != ""
          && s.intents[id].leaseExpiresAt.Some? && deadline <= s.intents[id].leaseExpiresAt.value)
  }

  lemma {:induction false} LeaseIsKept(log: seq<Record>, i: nat, id: nat)
    requires GoodLog(log) && NamedLeases(log, i, |log|, id)
    requires i < |log| && log[i].Concerns(id) && log[i].kind == LeaseKind && log[i].intent.leaseExpiresAt.Some?
    ensures StillLeased(Replay(log), id, log[i].intent.leaseExpiresAt.value)
    decreases |log|
  {
    var init := log[..|log| - 1];
    if i == |init| {
      RecordWasLegal(log, i);
      assert log[..i + 1] == log;
    } else {
      assert NamedLeases(init, i, |init|, id) && init[i] == log[i];
      LeaseIsKept(init, i, id);
      ReplayIsConsistent(init);
      assert log[|init|].Concerns(id) && log[|init|].kind == LeaseKind ==> log[|init|].intent.leaseOwner != Some("");
    }
  }

  /** Two leases of one intent are disjoint if the first of them, and those of the intent in between, were taken
      under a name: the later starts no earlier than the deadline of the first, whatever other intents went
      through and however the clocks of the workers differ, and every lease has positive length. */
  lemma LeasesAreDisjoint(log: seq<Record>, i: nat, j: nat, id: nat)
    requires GoodLog(log) && i < j < |log| && NamedLeases(log, i, j, id)
    requires log[i].Concerns(id) && log[i].kind == LeaseKind
    requires log[j].Concerns(id) && log[j].kind == LeaseKind
    ensures log[i].intent.leaseExpiresAt.Some? && log[j].intent.leaseExpiresAt.Some?
    ensures log[i].recordedAt < log[i].intent.leaseExpiresAt.value <= log[j].recordedAt < log[j].intent.leaseExpiresAt.value
  {
    RecordWasLegal(log, i);
    RecordWasLegal(log, j);
    ReplayIsConsistent(log[..i]);
    ReplayIsConsistent(log[..j]);
    LeaseIsLegal(Replay(log[..i]), log[i]);
    LeaseIsLegal(Replay(log[..j]), log[j]);
    assert forall k | i <= k < j :: log[..j][k] == log[k];
    assert NamedLeases(log[..j], i, j, id);
    LeaseIsKept(log[..j], i, id);
  }

  /** A lease keeps others away during its time exactly when it was taken under a name: any other lease in that time
      may be recorded after it if and only if the first worker's name is empty. */
  lemma {:induction false} LeaseExcludesExactlyWhenNamed(
      log: seq<Record>, id: nat, owner: string, seconds: int, at: int, other: string, more: int, now: int)
    requires GoodLog(log) && id in Replay(log).intents && Replay(log).intents[id].Leasable(at)
    requires at <= now < at + seconds && more > 0
    ensures var lease := IntentRecord(LeaseKind, at, Leased(Replay(log).intents[id], owner, seconds, at));
            && GoodLog(log + [lease])
            && (GoodLog(log + [lease] + [IntentRecord(LeaseKind, now, Leased(lease.intent, other, more, now))]) <==> owner == "")
  {
    ReplayIsConsistent(log);
    var lease := IntentRecord(LeaseKind, at, Leased(Replay(log).intents[id], owner, seconds, at));
    var again := IntentRecord(LeaseKind, now, Leased(lease.intent, other, more, now));
    AppendLegal(log, lease);
    assert (log + [lease] + [again])[..|log + [lease]|] == log + [lease];
    assert Replay(log + [lease]).intents[id] == lease.intent;
  }

  lemma LeaseIsLegal(s: State, record: Record)
    requires Legal(s, record) && record.IntentRecord? && record.kind == LeaseKind
    ensures record.intent.id in s.intents && s.intents[record.intent.id].Leasable(record.recordedAt)
    ensures record.intent.leaseExpiresAt.Some? && record.recordedAt < record.intent.leaseExpiresAt.value
  {
  }

  /** A log in which it happens: the same intent is leased twice at one moment. */
  lemma UnnamedLeasesOverlap()
    ensures exists log: seq<Record> ::
              && GoodLog(log) && |log| == 3
              && log[1].Concerns(0) && log[1].kind == LeaseKind && log[2].Concerns(0) && log[2].kind == LeaseKind
              && log[1].recordedAt == log[2].recordedAt
  {
    var intent := NewIntent(0, 0, CiReadyKey(""), CiReady, None, None, None);
    var first := IntentRecord(StatusKind(Claimed), 0, intent);
    var once := Leased(intent, "", 120, 0);
    var twice := Leased(once, "", 120, 0);
    var log0: seq<Record> := [];
    AppendLegal(log0, first);
    var log1 := log0 + [first];
    assert Replay(log1).intents == map[0 := intent];
    AppendLegal(log1, IntentRecord(LeaseKind, 0, once));
    var log2 := log1 + [IntentRecord(LeaseKind, 0, once)];
    assert Replay(log2).intents == map[0 := once];
    AppendLegal(log2, IntentRecord(LeaseKind, 0, twice));
    var log3 := log2 + [IntentRecord(LeaseKind, 0, twice)];
    assert GoodLog(log3) && |log3| == 3;
  }
}
