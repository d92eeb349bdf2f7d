/** Processing a message version again changes nothing, and edits do not repeat commands. */
module TradingRedelivery {
  import opened Wrappers
  import opened TradingModel
  import opened TradingInvariant
  import opened TradingHistory
  import opened TradingReplacement
  import opened TradingTargets

  // ---------- Redelivery ----------

  /** Every event of this message version was processed. */
  ghost predicate IsProcessed(db: Db, m: Message) {
    forall i: nat | i < |m.events| :: m.Key(i) in db.processed
  }

  lemma {:induction false} ProcessedFrom(db: Db, m: Message, index: nat, prior: seq<AppliedResult>)
    requires index <= |m.events| && Inv(db) && PriorOk(db, m, index, prior)
    ensures forall i: nat | index <= i < |m.events| :: m.Key(i) in ApplyFrom(db, m, index, prior).0.processed
    decreases |m.events| - index
  {
    hide Inv, PriorOk, ChangeOf, Write, Evolves;
    if index < |m.events| {
      var (next, result) := ApplyEvent(db, m, index, prior);
      EventKeepsInv(db, m, index, prior);
      ProcessedFrom(next, m, index + 1, prior + [result]);
      EventsEvolve(next, m, index + 1, prior + [result]);
      ProcessedStays(next, ApplyFrom(next, m, index + 1, prior + [result]).0, m.Key(index));
    }
  }

  lemma ProcessedStays(a: Db, b: Db, k: EventKey)
    requires Evolves(a, b) && k in a.processed
    ensures k in b.processed && b.processed[k] == a.processed[k]
  {
  }

  lemma {:induction false} ProcessedIsSkipped(db: Db, m: Message, index: nat, prior: seq<AppliedResult>)
    requires index <= |m.events| && IsProcessed(db, m)
    ensures ApplyFrom(db, m, index, prior).0 == db
    decreases |m.events| - index
  {
    hide ChangeOf, Write, Note;
    if index < |m.events| {
      ProcessedIsSkipped(db, m, index + 1, prior + [ApplyEvent(db, m, index, prior).1]);
    }
  }

  /** At any later point of any run, processing a message version again changes nothing. */
  lemma {:induction false} RedeliveryChangesNothing(db: Db, m: Message, ops: seq<Op>)
    requires Reachable(db)
    ensures var later := Run(ApplyMessage(db, m), ops); ApplyMessage(later, m) == later
  {
    hide Reachable, Inv, ApplyFrom, Evolves, Run;
    ReachableMeetsInv(db);
    var next := ApplyMessage(db, m);
    var later := Run(next, ops);
    NothingIsPrior(db, m);
    EventsKeepInv(db, m, 0, []);
    ProcessedFrom(db, m, 0, []);
    RunEvolves(next, ops);
    forall i: nat | i < |m.events|
      ensures m.Key(i) in later.processed
    {
      ProcessedStays(next, later, m.Key(i));
    }
    ProcessedIsSkipped(later, m, 0, []);
  }

  // ---------- Edits ----------

  /** The same event of the same message, in whichever version. */
  ghost predicate SameEvent(a: EventKey, b: EventKey) {
    a.channel == b.channel && a.message == b.message && a.index == b.index
  }

  ghost predicate OneCommandPerEvent(outbox: Outbox) {
    forall a, b | a in outbox && b in outbox && SameEvent(a, b) :: a == b
  }

  /** The versions of a message come first in ascending order: a new event has no later version processed before it. */
  ghost predicate Ascending(db: Db, m: Message) {
    forall i: nat | i < |m.events| && m.Key(i) !in db.processed :: NoLaterVersion(db, m.Key(i))
  }

  ghost predicate NoLaterVersion(db: Db, key: EventKey) {
    forall k | k in db.processed && SameEvent(k, key) :: k.version <= key.version
  }

  ghost predicate AscendingRun(db: Db, ops: seq<Op>)
    decreases |ops|
  {
    ops == [] || ((ops[0].Process? ==> Ascending(db, ops[0].message)) && AscendingRun(Step(db, ops[0]), ops[1..]))
  }

  lemma PriorVersionIssuesNothing(db: Db, m: Message, index: nat, prior: seq<AppliedResult>)
    requires index < |m.events| && PriorVersions(db, m.Key(index)) != {}
    ensures !ChangeOf(db, m, index, prior).Commands()
  {
  }

  /** A command is issued only when no earlier version of the event was processed. */
  lemma CommandsNeedNoPriorVersion(db: Db, m: Message, index: nat, prior: seq<AppliedResult>, k: EventKey)
    requires index < |m.events| && m.Key(index) !in db.processed
    requires k in db.processed && SameEvent(k, m.Key(index))
    ensures k.version > m.version || !ChangeOf(db, m, index, prior).Commands()
  {
    if k.version < m.version {
      assert k in PriorVersions(db, m.Key(index));
      PriorVersionIssuesNothing(db, m, index, prior);
    }
  }

  lemma SourcesAreProcessed(db: Db)
    requires Inv(db)
    ensures CommandSources(db.outbox, db.processed)
  {
  }

  /** An event repeats a command if and only if no earlier version of it was processed, a later one issued a command, and
      the tables show what it needs to issue its own. */
  lemma {:induction false} RepeatsExactlyWhenLate(db: Db, m: Message, index: nat, prior: seq<AppliedResult>)
    requires index < |m.events| && m.Key(index) !in db.processed
    requires Inv(db) && OneCommandPerEvent(db.outbox)
    ensures !OneCommandPerEvent(ApplyEvent(db, m, index, prior).0.outbox) <==>
              && PriorVersions(db, m.Key(index)) == {} && IsCommanding(db, m, m.events[index], prior)
              && exists k :: k in db.outbox && SameEvent(k, m.Key(index)) && k.version > m.version
  {
    hide ChangeOf, Write, OneCommandPerEvent, IsCommanding;
    SourcesAreProcessed(db);
    CommandsExactlyWhen(db, m, index, prior);
    hide Inv;
    var key, event, change := m.Key(index), m.events[index], ChangeOf(db, m, index, prior);
    ChangeRefers(db, m, index, prior);
    OutboxKeys(db, m, key, event, change);
    forall k | k in db.outbox && SameEvent(k, key)
      ensures k.version > m.version || !change.Commands()
    {
      CommandsNeedNoPriorVersion(db, m, index, prior, k);
    }
    OneMore(db.outbox, ApplyEvent(db, m, index, prior).0.outbox, key, change.Commands());
  }

  lemma OneMore(before: Outbox, after: Outbox, key: EventKey, added: bool)
    requires OneCommandPerEvent(before) && after.Keys == before.Keys + (if added then {key} else {})
    requires forall k | k in before && SameEvent(k, key) :: k.version > key.version || !added
    ensures OneCommandPerEvent(after) <==> !added || forall k | k in before :: !SameEvent(k, key)
  {
    if added && exists k :: k in before && SameEvent(k, key) {
      var k :| k in before && SameEvent(k, key);
      assert k in after && key in after && k != key;
    }
  }

  lemma OutboxKeys(db: Db, m: Message, key: EventKey, event: Event, change: Change)
    requires Refers(db, event, change)
    ensures Commit(db, m, key, event, change).outbox.Keys == db.outbox.Keys + (if change.Commands() then {key} else {})
  {
  }

  lemma {:induction false} EventKeepsOneCommand(db: Db, m: Message, index: nat, prior: seq<AppliedResult>)
    requires index < |m.events| && Inv(db) && OneCommandPerEvent(db.outbox) && Ascending(db, m)
    ensures OneCommandPerEvent(ApplyEvent(db, m, index, prior).0.outbox)
  {
    hide Inv, OneCommandPerEvent, ChangeOf, Write, Note;
    if m.Key(index) !in db.processed {
      SourcesAreProcessed(db);
      assert forall k | k in db.outbox && SameEvent(k, m.Key(index)) :: k.version <= m.version;
      RepeatsExactlyWhenLate(db, m, index, prior);
    }
  }

  lemma {:induction false} EventKeepsAscending(db: Db, m: Message, index: nat, prior: seq<AppliedResult>)
    requires index < |m.events| && Ascending(db, m)
    ensures Ascending(ApplyEvent(db, m, index, prior).0, m)
  {
    if m.Key(index) !in db.processed {
      hide ChangeOf, Write;
      ChangeRefers(db, m, index, prior);
      WriteKeepsRecords(db, m, m.Key(index), m.events[index], ChangeOf(db, m, index, prior));
      forall i: nat | i < |m.events| && m.Key(i) !in ApplyEvent(db, m, index, prior).0.processed
        ensures NoLaterVersion(ApplyEvent(db, m, index, prior).0, m.Key(i))
      {
        assert NoLaterVersion(db, m.Key(i));
      }
    }
  }

  lemma {:induction false} EventsKeepOneCommand(db: Db, m: Message, index: nat, prior: seq<AppliedResult>)
    requires index <= |m.events| && Inv(db) && PriorOk(db, m, index, prior) && OneCommandPerEvent(db.outbox) && Ascending(db, m)
    ensures OneCommandPerEvent(ApplyFrom(db, m, index, prior).0.outbox)
    decreases |m.events| - index
  {
    hide Inv, PriorOk, ApplyEvent, OneCommandPerEvent, Ascending;
    if index < |m.events| {
      var (next, result) := ApplyEvent(db, m, index, prior);
      EventKeepsInv(db, m, index, prior);
      EventKeepsOneCommand(db, m, index, prior);
      EventKeepsAscending(db, m, index, prior);
      EventsKeepOneCommand(next, m, index + 1, prior + [result]);
    }
  }

  lemma {:induction false} StepKeepsOneCommand(db: Db, op: Op)
    requires Inv(db) && OneCommandPerEvent(db.outbox) && (op.Process? ==> Ascending(db, op.message))
    ensures OneCommandPerEvent(Step(db, op).outbox)
  {
    hide Inv, Ascending, ApplyFrom;
    match op
    case Process(m) =>
      NothingIsPrior(db, m);
      EventsKeepOneCommand(db, m, 0, []);
    case Report(_, _, _) =>
  }

  /** When versions come first in ascending order, all of them together issue at most one command per event. */
  lemma {:induction false} OneCommandPerEventOverARun(db: Db, ops: seq<Op>)
    requires Inv(db) && OneCommandPerEvent(db.outbox) && AscendingRun(db, ops)
    ensures OneCommandPerEvent(Run(db, ops).outbox)
    decreases |ops|
  {
    hide Inv, OneCommandPerEvent, Ascending, Step;
    if ops != [] {
      StepKeepsInv(db, ops[0]);
      StepKeepsOneCommand(db, ops[0]);
      OneCommandPerEventOverARun(Step(db, ops[0]), ops[1..]);
    }
  }

  // ---------- Out of order ----------

  function OnePlacement(entry: int): Event {
    Place(Some("DAX"), Buy, Stop, entry, 0, [], None)
  }

  function LonePlacement(version: int, entry: int): Message {
    Message(1, 1, version, 0, [OnePlacement(entry)])
  }

  /** A message that is one placement at a new price, on a day that is open, is applied. */
  lemma PlacementIsIssued(db: Db, m: Message, entry: int)
    requires m.events == [OnePlacement(entry)] && m.Key(0) !in db.processed && PriorVersions(db, m.Key(0)) == {}
    requires db.days == map[]
    requires forall s | s in db.sessions :: db.sessions[s].state == AcceptingSignals
    requires forall k | k in db.orders :: db.orders[k].entry != entry
    ensures var next := ApplyMessage(db, m);
            && next.outbox.Keys == db.outbox.Keys + {m.Key(0)}
            && next.outbox[m.Key(0)].payload.PlacePayload?
            && (forall k | k in db.outbox && k != m.Key(0) :: next.outbox[k] == db.outbox[k])
            && next.processed.Keys == db.processed.Keys + {m.Key(0)}
            && next.orders.Keys == db.orders.Keys + {m.Key(0)}
            && next.orders[m.Key(0)].entry == entry
            && next.days == db.days
            && (forall k | k in db.orders && k != m.Key(0) :: next.orders[k] == db.orders[k])
            && (forall s | s in next.sessions :: next.sessions[s].state == AcceptingSignals)
  {
    var (next, result) := ApplyEvent(db, m, 0, []);
    assert ApplyFrom(next, m, 1, [] + [result]).0 == next;
    assert ClosedDays(db, m.channel, m.Date()) == {};
    assert forall s, instrument :: Twins(db, s, instrument, m.events[0]) == {};
  }

  /** The second version before the first: one event of one message has issued two placements. */
  lemma LateVersionRepeatsACommand()
    ensures var db := Run(EMPTY, [Process(LonePlacement(2, 10)), Process(LonePlacement(1, 20))]);
            db.outbox.Keys == {EventKey(1, 1, 2, 0), EventKey(1, 1, 1, 0)} && !OneCommandPerEvent(db.outbox)
  {
    hide ApplyMessage, PriorVersions;
    var ops := [Process(LonePlacement(2, 10)), Process(LonePlacement(1, 20))];
    var db1 := ApplyMessage(EMPTY, LonePlacement(2, 10));
    var db2 := ApplyMessage(db1, LonePlacement(1, 20));
    NoVersionBefore(EMPTY, EventKey(1, 1, 2, 0));
    PlacementIsIssued(EMPTY, LonePlacement(2, 10), 10);
    NoVersionBefore(db1, EventKey(1, 1, 1, 0));
    PlacementIsIssued(db1, LonePlacement(1, 20), 20);
    assert ops[1..][0] == ops[1] && ops[1..][1..] == [];
    assert Run(EMPTY, ops) == Run(db1, ops[1..]) == Run(db2, []);
    assert EventKey(1, 1, 2, 0) in db2.outbox && EventKey(1, 1, 1, 0) in db2.outbox;
  }

  lemma NoVersionBefore(db: Db, key: EventKey)
    requires forall k | k in db.processed :: k.version >= key.version
    ensures PriorVersions(db, key) == {}
  {
  }
}
