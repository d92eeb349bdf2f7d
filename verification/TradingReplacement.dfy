/** A replacement is not sent to the broker before the cancellation it replaces has succeeded. */
module TradingReplacement {
  import opened Wrappers
  import opened TradingModel
  import opened TradingInvariant
  import opened TradingHistory

  /** No report is made on this command while it is blocked, and none says that it is. */
  ghost predicate Admissible(db: Db, op: Op, c: EventKey) {
    op.Report? && op.command == c && c in db.outbox ==> db.outbox[c].state != CommandBlocked && op.state != CommandBlocked
  }

  ghost predicate AdmissibleRun(db: Db, ops: seq<Op>, c: EventKey)
    decreases |ops|
  {
    ops == [] || (Admissible(db, ops[0], c) && AdmissibleRun(Step(db, ops[0]), ops[1..], c))
  }

  /** The command is blocked exactly when it depends on another and was not released. */
  ghost predicate Waits(outbox: Outbox, c: EventKey) {
    c in outbox ==>
      && (outbox[c].state == CommandBlocked ==> outbox[c].dependsOn.Some?)
      && (outbox[c].dependsOn.Some? ==> (outbox[c].state == CommandBlocked <==> outbox[c].releasedAt == None))
  }

  // ---------- Kept by every admissible step ----------

  lemma CommitKeepsWaits(db: Db, m: Message, key: EventKey, event: Event, change: Change, c: EventKey)
    requires Waits(db.outbox, c) && Refers(db, event, change)
    ensures Waits(Commit(db, m, key, event, change).outbox, c)
  {
  }

  lemma {:induction false} EventsKeepWaits(db: Db, m: Message, index: nat, prior: seq<AppliedResult>, c: EventKey)
    requires index <= |m.events| && Waits(db.outbox, c)
    ensures Waits(ApplyFrom(db, m, index, prior).0.outbox, c)
    decreases |m.events| - index
  {
    hide Waits, Write, Note, ChangeOf;
    if index < |m.events| {
      var (next, result) := ApplyEvent(db, m, index, prior);
      if m.Key(index) !in db.processed {
        ChangeRefers(db, m, index, prior);
        CommitKeepsWaits(db, m, m.Key(index), m.events[index], ChangeOf(db, m, index, prior), c);
      }
      EventsKeepWaits(next, m, index + 1, prior + [result], c);
    }
  }

  lemma StepKeepsWaits(db: Db, op: Op, c: EventKey)
    requires Waits(db.outbox, c) && Admissible(db, op, c)
    ensures Waits(Step(db, op).outbox, c)
  {
    match op
    case Process(m) => EventsKeepWaits(db, m, 0, [], c);
    case Report(_, _, _) =>
  }

  /** Over every run with such reports a command is blocked exactly while it depends on another and was not released. */
  lemma {:induction false} BlockedExactlyWhileWaiting(db: Db, ops: seq<Op>, c: EventKey)
    requires Waits(db.outbox, c) && AdmissibleRun(db, ops, c)
    ensures Waits(Run(db, ops).outbox, c)
    decreases |ops|
  {
    hide Waits, Step, Admissible;
    if ops != [] {
      StepKeepsWaits(db, ops[0], c);
      BlockedExactlyWhileWaiting(Step(db, ops[0]), ops[1..], c);
    }
  }

  // ---------- Leaving BLOCKED ----------

  lemma {:induction false} MessageKeepsCommands(db: Db, m: Message, index: nat, prior: seq<AppliedResult>)
    requires index <= |m.events| && Inv(db) && PriorOk(db, m, index, prior)
    ensures forall k | k in db.outbox ::
              k in ApplyFrom(db, m, index, prior).0.outbox && ApplyFrom(db, m, index, prior).0.outbox[k] == db.outbox[k]
    decreases |m.events| - index
  {
    hide Inv, PriorOk, Write, Note, ChangeOf;
    if index < |m.events| {
      var (next, result) := ApplyEvent(db, m, index, prior);
      EventKeepsInv(db, m, index, prior);
      EventKeepsCommands(db, m, index, prior);
      MessageKeepsCommands(next, m, index + 1, prior + [result]);
    }
  }

  lemma {:induction false} EventKeepsCommands(db: Db, m: Message, index: nat, prior: seq<AppliedResult>)
    requires index < |m.events| && Inv(db)
    ensures forall k | k in db.outbox ::
              k in ApplyEvent(db, m, index, prior).0.outbox && ApplyEvent(db, m, index, prior).0.outbox[k] == db.outbox[k]
  {
    var key := m.Key(index);
    if key !in db.processed {
      UnprocessedIsFresh(db, key);
      hide Inv, ChangeOf;
      ChangeRefers(db, m, index, prior);
      OutboxAfter(db, m, key, m.events[index], ChangeOf(db, m, index, prior));
    }
  }

  /**
    A blocked command is released only by the report that the cancellation it waits for succeeded, and the order of
    that cancellation is then cancelled; otherwise it takes a report on the command itself to unblock it.
   */
  lemma ReleasedByItsCancellation(db: Db, op: Op, c: EventKey)
    requires Reachable(db) && (op.Report? ==> op.command != c)
    requires c in db.outbox && db.outbox[c].state == CommandBlocked
    requires c in Step(db, op).outbox && Step(db, op).outbox[c].state != CommandBlocked
    ensures op.Report? && op.state == Succeeded && db.outbox[c].dependsOn == Some(op.command)
    ensures IsDependency(db.outbox, op.command, c)
    ensures var next, order := Step(db, op), db.outbox[op.command].order;
            && next.outbox[c] == db.outbox[c].(state := CommandPending, releasedAt := Some(op.at))
            && order in next.orders && next.orders[order].state == Cancelled
            && c in ReleasedBy(db, op.command, op.state)
  {
    hide Reachable;
    ReachableMeetsInv(db);
    match op
    case Process(m) =>
      NothingIsPrior(db, m);
      MessageKeepsCommands(db, m, 0, []);
    case Report(command, state, at) =>
      DependencyIsSound(db, c);
      hide Inv;
      if command in db.outbox {
        ReleaseFollowsDependency(db, command, state, at, c);
      }
  }

  lemma {:induction false} DependencyIsSound(db: Db, c: EventKey)
    requires Inv(db) && c in db.outbox
    ensures DependencyOk(db.outbox, c)
    ensures db.outbox[c].dependsOn.Some? ==>
              var d := db.outbox[c].dependsOn.value;
              d in db.outbox && CommandOk(d, db.outbox[d], db.orders)
  {
    assert DependencyOk(db.outbox, c);
    if db.outbox[c].dependsOn.Some? {
      ReportedCommandOk(db, db.outbox[c].dependsOn.value);
    }
  }

  lemma ReleaseFollowsDependency(db: Db, command: EventKey, state: CommandState, at: int, c: EventKey)
    requires command in db.outbox && c in db.outbox
    requires db.outbox[c].state == CommandBlocked && command != c
    requires DependencyOk(db.outbox, c)
    requires db.outbox[c].dependsOn.Some? ==> CommandOk(db.outbox[c].dependsOn.value, db.outbox[db.outbox[c].dependsOn.value], db.orders)
    requires ApplyReport(db, command, state, at).outbox[c].state != CommandBlocked
    ensures state == Succeeded && db.outbox[c].dependsOn == Some(command) && c in ReleasedBy(db, command, state)
    ensures var next, order := ApplyReport(db, command, state, at), db.outbox[command].order;
            && next.outbox[c] == db.outbox[c].(state := CommandPending, releasedAt := Some(at))
            && order in next.orders && next.orders[order].state == Cancelled
  {
  }

  // ---------- Released once ----------

  /** How often a run returns a command as released. */
  ghost function ReleaseCount(db: Db, ops: seq<Op>, c: EventKey): nat
    decreases |ops|
  {
    if ops == [] then 0
    else
      (if ops[0].Report? && c in ReleasedBy(db, ops[0].command, ops[0].state) then 1 else 0)
      + ReleaseCount(Step(db, ops[0]), ops[1..], c)
  }

  lemma ReportRow(db: Db, command: EventKey, state: CommandState, at: int, k: EventKey)
    requires command in db.outbox && k in db.outbox
    ensures k in ApplyReport(db, command, state, at).outbox
    ensures ApplyReport(db, command, state, at).outbox[k] == ReportedCommand(k, db.outbox[k], command, state, at)
  {
  }

  /** A report that puts this command back among the blocked ones. */
  predicate Blocks(op: Op, c: EventKey) {
    op.Report? && op.command == c && op.state == CommandBlocked
  }

  function BlockedReports(ops: seq<Op>, c: EventKey): nat {
    if ops == [] then 0 else (if Blocks(ops[0], c) then 1 else 0) + BlockedReports(ops[1..], c)
  }

  /** Whatever is processed or reported, a command stays and keeps its dependency, and only a report on it blocks it. */
  lemma {:induction false} CommandAfter(db: Db, op: Op, c: EventKey)
    requires Inv(db) && c in db.outbox
    ensures c in Step(db, op).outbox && Step(db, op).outbox[c].dependsOn == db.outbox[c].dependsOn
    ensures op.Process? ==> Step(db, op).outbox[c] == db.outbox[c]
    ensures op.Report? && op.command in db.outbox ==>
              Step(db, op).outbox[c] == ReportedCommand(c, db.outbox[c], op.command, op.state, op.at)
    ensures op.Report? && op.command !in db.outbox ==> Step(db, op).outbox[c] == db.outbox[c]
  {
    hide Inv;
    match op
    case Process(m) =>
      NothingIsPrior(db, m);
      MessageKeepsCommands(db, m, 0, []);
    case Report(command, state, at) =>
      if command in db.outbox {
        ReportRow(db, command, state, at, c);
      }
  }

  /** Every release but the first was prepared by a report that the command is blocked; a command that is not
      blocked now has none to spare. */
  lemma {:induction false} ReleasesAreBlockings(db: Db, ops: seq<Op>, c: EventKey)
    requires Inv(db)
    ensures ReleaseCount(db, ops, c) <= BlockedReports(ops, c) + 1
    ensures c in db.outbox && db.outbox[c].state != CommandBlocked ==> ReleaseCount(db, ops, c) <= BlockedReports(ops, c)
    decreases |ops|
  {
    hide Inv, Step;
    if ops != [] {
      StepKeepsInv(db, ops[0]);
      if c in db.outbox {
        CommandAfter(db, ops[0], c);
      }
      ReleasesAreBlockings(Step(db, ops[0]), ops[1..], c);
    }
  }

  lemma {:induction false} NoBlockedReports(ops: seq<Op>, c: EventKey)
    requires forall i | 0 <= i < |ops| :: !Blocks(ops[i], c)
    ensures BlockedReports(ops, c) == 0
  {
    if ops != [] {
      NoBlockedReports(ops[1..], c);
    }
  }

  /** Over all the reports of a run, a command that is never reported as blocked is returned as released at most once. */
  lemma {:induction false} ReleasedAtMostOnce(db: Db, ops: seq<Op>, c: EventKey)
    requires Inv(db) && forall i | 0 <= i < |ops| :: !Blocks(ops[i], c)
    ensures ReleaseCount(db, ops, c) <= 1
  {
    hide Inv;
    NoBlockedReports(ops, c);
    ReleasesAreBlockings(db, ops, c);
  }

  // ---------- Released exactly when blocked and answered ----------

  /** The `j`-th operation reports the success of `d`, and no report since the `i`-th operation unblocked `c`. */
  predicate Answers(ops: seq<Op>, c: EventKey, d: EventKey, i: nat, j: nat) {
    && i <= j < |ops| && ops[j].Report? && ops[j].command == d && ops[j].state == Succeeded
    && forall k | i <= k < j :: ops[k].Report? && ops[k].command == c ==> ops[k].state == CommandBlocked
  }

  /** `c` is reported as blocked, and then `d` as succeeded before `c` is reported as anything else. */
  predicate BlockedThenAnswered(ops: seq<Op>, c: EventKey, d: EventKey, i: nat, j: nat) {
    i < |ops| && Blocks(ops[i], c) && Answers(ops, c, d, i + 1, j)
  }

  lemma AnswersLater(ops: seq<Op>, c: EventKey, d: EventKey, i: nat, j: nat)
    requires ops != []
    ensures Answers(ops[1..], c, d, i, j) <==> Answers(ops, c, d, i + 1, j + 1)
  {
    if Answers(ops[1..], c, d, i, j) {
      assert forall k | i + 1 <= k < j + 1 :: ops[k] == ops[1..][k - 1];
    }
    if Answers(ops, c, d, i + 1, j + 1) {
      assert forall k | i <= k < j :: ops[1..][k] == ops[k + 1];
    }
  }

  lemma AnswersFromHere(ops: seq<Op>, c: EventKey, d: EventKey, j: nat)
    requires ops != [] && c != d
    ensures Answers(ops, c, d, 0, j) <==>
              || (j == 0 && ops[0].Report? && ops[0].command == d && ops[0].state == Succeeded)
              || (j > 0 && (ops[0].Report? && ops[0].command == c ==> ops[0].state == CommandBlocked) && Answers(ops, c, d, 1, j))
  {
  }

  /**
    When a command is released: a blocked one if and only if its cancellation is reported as succeeded before anything
    but `BLOCKED` is reported on the command itself; one that is not blocked, if and only if that happens after a
    report that it is blocked.
   */
  lemma {:induction false} ReleasedExactlyWhenBlockedAndAnswered(db: Db, ops: seq<Op>, c: EventKey)
    requires Inv(db) && c in db.outbox && db.outbox[c].dependsOn.Some?
    ensures var d := db.outbox[c].dependsOn.value;
            ReleaseCount(db, ops, c) > 0 <==>
              || (db.outbox[c].state == CommandBlocked && exists j :: Answers(ops, c, d, 0, j))
              || exists i, j :: BlockedThenAnswered(ops, c, d, i, j)
    decreases |ops|
  {
    hide Inv, Step, Answers, BlockedThenAnswered;
    if ops != [] {
      var d, next, rest := db.outbox[c].dependsOn.value, Step(db, ops[0]), ops[1..];
      DependencyIsOther(db, c);
      StepKeepsInv(db, ops[0]);
      CommandAfter(db, ops[0], c);
      if db.outbox[c].state == CommandBlocked && ops[0].Report? && ops[0].command == d && ops[0].state == Succeeded {
        AnswersFromHere(ops, c, d, 0);
      } else {
        ReleasedExactlyWhenBlockedAndAnswered(next, rest, c);
        OneLater(ops, c, d, db.outbox[c].state == CommandBlocked, next.outbox[c].state == CommandBlocked);
      }
    } else {
      NothingIsAnswered(c, db.outbox[c].dependsOn.value);
    }
  }

  lemma NothingIsAnswered(c: EventKey, d: EventKey)
    ensures !(exists j :: Answers([], c, d, 0, j)) && !(exists i, j :: BlockedThenAnswered([], c, d, i, j))
  {
  }

  lemma DependencyIsOther(db: Db, c: EventKey)
    requires Inv(db) && c in db.outbox && db.outbox[c].dependsOn.Some?
    ensures db.outbox[c].dependsOn.value in db.outbox && db.outbox[c].dependsOn.value != c
  {
    DependencyIsSound(db, c);
  }

  /** The condition over a run, and over the rest of it after a first operation that released nothing. */
  lemma {:induction false} OneLater(ops: seq<Op>, c: EventKey, d: EventKey, blocked: bool, blockedNext: bool)
    requires ops != [] && c != d
    requires !(blocked && ops[0].Report? && ops[0].command == d && ops[0].state == Succeeded)
    requires blockedNext == if ops[0].Report? && ops[0].command == c then ops[0].state == CommandBlocked else blocked
    ensures ((blocked && exists j :: Answers(ops, c, d, 0, j)) || exists i, j :: BlockedThenAnswered(ops, c, d, i, j)) <==>
            ((blockedNext && exists j :: Answers(ops[1..], c, d, 0, j)) || exists i, j :: BlockedThenAnswered(ops[1..], c, d, i, j))
  {
    hide Answers;
    var rest := ops[1..];
    forall i: nat, j: nat ensures Answers(rest, c, d, i, j) <==> Answers(ops, c, d, i + 1, j + 1) {
      AnswersLater(ops, c, d, i, j);
    }
    forall i: nat, j: nat ensures BlockedThenAnswered(rest, c, d, i, j) <==> BlockedThenAnswered(ops, c, d, i + 1, j + 1) {
      AnswersLater(ops, c, d, i + 1, j);
    }
    if blocked && exists j :: Answers(ops, c, d, 0, j) {
      var j: nat :| Answers(ops, c, d, 0, j);
      AnswersFromHere(ops, c, d, j);
      assert Answers(rest, c, d, 0, j - 1);
    }
    if i: nat, j: nat :| BlockedThenAnswered(ops, c, d, i, j) {
      AnswersAfter(ops, c, d, i + 1, j);
      if i == 0 {
        assert Answers(rest, c, d, 0, j - 1);
      } else {
        assert BlockedThenAnswered(rest, c, d, i - 1, j - 1);
      }
    }
    if blockedNext && exists j :: Answers(rest, c, d, 0, j) {
      var j: nat :| Answers(rest, c, d, 0, j);
      AnswersFromHere(ops, c, d, j + 1);
      assert blocked || BlockedThenAnswered(ops, c, d, 0, j + 1);
    }
    if i: nat, j: nat :| BlockedThenAnswered(rest, c, d, i, j) {
      assert BlockedThenAnswered(ops, c, d, i + 1, j + 1);
    }
  }

  lemma AnswersAfter(ops: seq<Op>, c: EventKey, d: EventKey, i: nat, j: nat)
    requires Answers(ops, c, d, i, j)
    ensures i <= j
  {
  }

  // ---------- Released twice ----------

  /** Reporting a released command as blocked lets the next success release it again. */
  lemma BlockedReportReleasesTwice(db: Db, c: EventKey, at: int)
    requires Reachable(db) && c in db.outbox && db.outbox[c].state == CommandBlocked && db.outbox[c].dependsOn.Some?
    ensures var d := db.outbox[c].dependsOn.value;
            ReleaseCount(db, [Report(d, Succeeded, at), Report(c, CommandBlocked, at), Report(d, Succeeded, at)], c) == 2
  {
    hide Reachable, Inv, ApplyReport;
    ReachableMeetsInv(db);
    var d := db.outbox[c].dependsOn.value;
    DependencyIsSound(db, c);
    var ops := [Report(d, Succeeded, at), Report(c, CommandBlocked, at), Report(d, Succeeded, at)];
    var db1 := Step(db, ops[0]);
    var db2 := Step(db1, ops[1]);
    ReportRow(db, d, Succeeded, at, c);
    ReportRow(db, d, Succeeded, at, d);
    ReportRow(db1, c, CommandBlocked, at, c);
    ReportRow(db1, c, CommandBlocked, at, d);
    assert ops[1..][0] == ops[1] && ops[1..][1..] == [ops[2]];
    assert ReleaseCount(db2, [ops[2]], c) == 1 + ReleaseCount(Step(db2, ops[2]), [], c);
    assert ReleaseCount(db1, ops[1..], c) == ReleaseCount(db2, [ops[2]], c);
  }

  /** An order, its cancellation and its replacement in one message. */
  function Replacing(): Message {
    var event := Place(Some("DAX"), Buy, Stop, 1, 0, [], None);
    Message(1, 1, 1, 0, [event, Cancel(Buy, Stop, None), event])
  }

  lemma FirstIsPlaced()
    ensures var (db, result) := ApplyEvent(EMPTY, Replacing(), 0, []);
            && db.processed.Keys == {Replacing().Key(0)} && db.days == map[]
            && db.sessions == map[Replacing().Key(0) := NewSession(Replacing(), "DAX")]
            && db.orders == map[Replacing().Key(0) := NewOrder(Replacing().Key(0), "DAX", Replacing().events[0], 0)]
            && result.eventType == PlaceType
  {
    assert Twins(EMPTY, Replacing().Key(0), "DAX", Replacing().events[0]) == {};
  }

  lemma SecondDecides(db: Db, prior: seq<AppliedResult>)
    requires db.processed.Keys == {Replacing().Key(0)}
    requires db.sessions == map[Replacing().Key(0) := NewSession(Replacing(), "DAX")]
    requires db.orders == map[Replacing().Key(0) := NewOrder(Replacing().Key(0), "DAX", Replacing().events[0], 0)]
    ensures ChangeOf(db, Replacing(), 1, prior) == CancelOrder(Replacing().Key(0))
  {
    hide DecidePlace;
    assert PendingOrders(db, 1, 0, Buy, Stop) == {Replacing().Key(0)};
    assert PriorVersions(db, Replacing().Key(1)) == {};
  }

  lemma SecondIsCancelled(db: Db, prior: seq<AppliedResult>)
    requires db.processed.Keys == {Replacing().Key(0)}
    requires db.sessions == map[Replacing().Key(0) := NewSession(Replacing(), "DAX")]
    requires db.orders == map[Replacing().Key(0) := NewOrder(Replacing().Key(0), "DAX", Replacing().events[0], 0)]
    ensures var (next, result) := ApplyEvent(db, Replacing(), 1, prior);
            && next.processed.Keys == {Replacing().Key(0), Replacing().Key(1)} && next.days == db.days && next.sessions == db.sessions
            && next.orders.Keys == {Replacing().Key(0)} && next.orders[Replacing().Key(0)].state == CancelRequested
            && result == AppliedResult(Replacing().Key(1), CancelType, Applied, [Replacing().Key(1)], false)
  {
    hide ChangeOf, NewOrder, NewSession;
    SecondDecides(db, prior);
  }

  lemma ThirdIsBlocked(db: Db, prior: seq<AppliedResult>)
    requires db.processed.Keys == {Replacing().Key(0), Replacing().Key(1)} && db.days == map[]
    requires db.sessions == map[Replacing().Key(0) := NewSession(Replacing(), "DAX")]
    requires db.orders.Keys == {Replacing().Key(0)} && db.orders[Replacing().Key(0)].state == CancelRequested
    requires ReplacementDependency(prior) == DependsOn(Replacing().Key(1))
    ensures var outbox := ApplyEvent(db, Replacing(), 2, prior).0.outbox;
            && Replacing().Key(2) in outbox && outbox[Replacing().Key(2)].state == CommandBlocked
            && outbox[Replacing().Key(2)].dependsOn == Some(Replacing().Key(1))
  {
    assert PriorVersions(db, Replacing().Key(2)) == {};
    assert SessionsOf(db, 1, 0, "DAX") == {Replacing().Key(0)};
    assert Twins(db, Replacing().Key(0), "DAX", Replacing().events[2]) == {};
  }

  lemma {:induction false} AfterTheMessage(m: Message, c: EventKey, d: EventKey)
    requires var db := ApplyMessage(EMPTY, m);
             c in db.outbox && db.outbox[c].state == CommandBlocked && db.outbox[c].dependsOn == Some(d)
    ensures ReleaseCount(EMPTY, [Process(m), Report(d, Succeeded, 1), Report(c, CommandBlocked, 1), Report(d, Succeeded, 1)], c) == 2
  {
    hide ApplyMessage, ApplyReport, Inv;
    var ops := [Process(m), Report(d, Succeeded, 1), Report(c, CommandBlocked, 1), Report(d, Succeeded, 1)];
    var db := Step(EMPTY, ops[0]);
    assert Run(EMPTY, [Process(m)]) == Run(db, [Process(m)][1..]);
    BlockedReportReleasesTwice(db, c, 1);
    assert ops[1..] == [Report(d, Succeeded, 1), Report(c, CommandBlocked, 1), Report(d, Succeeded, 1)];
  }

  /** Such a run exists: this message leaves its last placement blocked, and these three reports release it twice. */
  lemma {:induction false} ReplacementIsReleasedTwice()
    ensures var c, d := Replacing().Key(2), Replacing().Key(1);
            var db := ApplyMessage(EMPTY, Replacing());
            && c in db.outbox && db.outbox[c].state == CommandBlocked && db.outbox[c].dependsOn == Some(d)
            && ReleaseCount(EMPTY, [Process(Replacing()), Report(d, Succeeded, 1), Report(c, CommandBlocked, 1), Report(d, Succeeded, 1)], c) == 2
  {
    hide ApplyEvent, Inv, ApplyReport, ReleaseCount;
    var m, c, d := Replacing(), Replacing().Key(2), Replacing().Key(1);
    var (db0, r0) := ApplyEvent(EMPTY, m, 0, []);
    FirstIsPlaced();
    var (db1, r1) := ApplyEvent(db0, m, 1, [] + [r0]);
    SecondIsCancelled(db0, [] + [r0]);
    assert ReplacementDependency([] + [r0] + [r1]) == DependsOn(d);
    ThirdIsBlocked(db1, [] + [r0] + [r1]);
    var (db2, r2) := ApplyEvent(db1, m, 2, [] + [r0] + [r1]);
    assert ApplyFrom(db2, m, 3, [] + [r0] + [r1] + [r2]).0 == db2;
    assert ApplyFrom(db1, m, 2, [] + [r0] + [r1]).0 == db2;
    assert ApplyFrom(db0, m, 1, [] + [r0]).0 == db2;
    assert ApplyMessage(EMPTY, m) == db2;
    AfterTheMessage(m, c, d);
  }

  // ---------- How a replacement is issued ----------

  /** The results of the earlier events have the types of those events. */
  ghost predicate PriorTypes(m: Message, index: nat, prior: seq<AppliedResult>) {
    && index <= |m.events| && |prior| == index
    && forall i | 0 <= i < index :: prior[i].eventType == TypeOf(m.events[i])
  }

  /** What was processed under this message's identity is this message. */
  ghost predicate SameVersion(db: Db, m: Message) {
    forall i: nat | i < |m.events| && m.Key(i) in db.processed :: db.processed[m.Key(i)].eventType == TypeOf(m.events[i])
  }

  lemma {:induction false} CancellationIsFound(m: Message, index: nat, prior: seq<AppliedResult>, i: nat)
    requires PriorTypes(m, index, prior) && i < index && m.events[i].Cancel?
    ensures !ReplacementDependency(prior).NoDependency?
    decreases index
  {
    if prior[index - 1].eventType != CancelType {
      CancellationIsFound(m, index - 1, prior[..index - 1], i);
    }
  }

  lemma PlacementCarriesDependency(db: Db, m: Message, index: nat, prior: seq<AppliedResult>)
    requires index < |m.events| && m.events[index].Place?
    requires m.Key(index) !in db.outbox && m.Key(index) in ApplyEvent(db, m, index, prior).0.outbox
    ensures !ReplacementDependency(prior).Unresolved?
    ensures var command, dependency := ApplyEvent(db, m, index, prior).0.outbox[m.Key(index)], ReplacementDependency(prior);
            dependency.DependsOn? ==> command.state == CommandBlocked && command.dependsOn == Some(dependency.command)
  {
  }

  /** A placement after a cancellation in one message is issued blocked on an earlier cancellation of that message. */
  lemma ReplacementIsIssuedBlocked(db: Db, m: Message, i: nat, index: nat, prior: seq<AppliedResult>)
    requires PriorOk(db, m, index, prior) && PriorTypes(m, index, prior)
    requires i < index < |m.events| && m.events[i].Cancel? && m.events[index].Place?
    requires m.Key(index) !in db.outbox && m.Key(index) in ApplyEvent(db, m, index, prior).0.outbox
    ensures IssuedBlocked(db.outbox, ApplyEvent(db, m, index, prior).0.outbox, m.Key(index))
  {
    hide ApplyEvent;
    PlacementCarriesDependency(db, m, index, prior);
    CancellationIsFound(m, index, prior, i);
    DependencyIsCancellation(db, m, index, prior);
  }

  ghost predicate IssuedBlocked(before: Outbox, outbox: Outbox, c: EventKey) {
    && c in outbox
    && outbox[c].state == CommandBlocked
    && outbox[c].dependsOn.Some?
    && IsDependency(before, outbox[c].dependsOn.value, c)
  }

  lemma {:induction false} ResultHasItsType(db: Db, m: Message, index: nat, prior: seq<AppliedResult>)
    requires index < |m.events| && PriorTypes(m, index, prior) && SameVersion(db, m)
    ensures var (next, result) := ApplyEvent(db, m, index, prior);
            PriorTypes(m, index + 1, prior + [result]) && SameVersion(next, m)
  {
    hide ChangeOf, Write;
    ChangeRefers(db, m, index, prior);
    WriteKeepsRecords(db, m, m.Key(index), m.events[index], ChangeOf(db, m, index, prior));
  }

  lemma EventAddsOwnCommand(db: Db, m: Message, index: nat, prior: seq<AppliedResult>, k: EventKey)
    requires index < |m.events| && k !in db.outbox && k in ApplyEvent(db, m, index, prior).0.outbox
    ensures k == m.Key(index)
  {
    hide ChangeOf;
    if m.Key(index) !in db.processed {
      ChangeRefers(db, m, index, prior);
      WriteAddsOwnCommand(db, m, m.Key(index), m.events[index], ChangeOf(db, m, index, prior), k);
    }
  }

  lemma WriteAddsOwnCommand(db: Db, m: Message, key: EventKey, event: Event, change: Change, k: EventKey)
    requires Refers(db, event, change) && k !in db.outbox && k in Write(db, m, key, event, change).outbox
    ensures k == key
  {
  }

  lemma {:induction false} ReplacementWaitsFrom(db: Db, m: Message, index: nat, prior: seq<AppliedResult>, i: nat, j: nat)
    requires Inv(db) && SameVersion(db, m) && PriorOk(db, m, index, prior) && PriorTypes(m, index, prior)
    requires i < j < |m.events| && index <= j && m.events[i].Cancel? && m.events[j].Place?
    requires m.Key(j) !in db.outbox && m.Key(j) in ApplyFrom(db, m, index, prior).0.outbox
    ensures var outbox := ApplyFrom(db, m, index, prior).0.outbox; IssuedBlocked(outbox, outbox, m.Key(j))
    decreases j - index
  {
    hide Inv, SameVersion, PriorOk, PriorTypes, ApplyEvent, IsDependency;
    var (next, result) := ApplyEvent(db, m, index, prior);
    EventKeepsInv(db, m, index, prior);
    ResultHasItsType(db, m, index, prior);
    if m.Key(j) in next.outbox {
      EventAddsOwnCommand(db, m, index, prior, m.Key(j));
      ReplacementIsIssuedBlocked(db, m, i, j, prior);
      EventKeepsCommands(db, m, index, prior);
      MessageKeepsCommands(next, m, index + 1, prior + [result]);
      DependencyStays(db.outbox, ApplyFrom(db, m, index, prior).0.outbox, next.outbox[m.Key(j)].dependsOn.value, m.Key(j));
    } else if index < j {
      ReplacementWaitsFrom(next, m, index + 1, prior + [result], i, j);
    } else {
      KeyStaysAbsent(next, m, index + 1, prior + [result], m.Key(j));
    }
  }

  lemma DependencyStays(before: Outbox, after: Outbox, d: EventKey, c: EventKey)
    requires IsDependency(before, d, c) && forall k | k in before :: k in after && after[k] == before[k]
    ensures IsDependency(after, d, c)
  {
  }

  lemma {:induction false} KeyStaysAbsent(db: Db, m: Message, index: nat, prior: seq<AppliedResult>, k: EventKey)
    requires index <= |m.events| && k !in db.outbox
    requires forall i: nat | index <= i < |m.events| :: m.Key(i) != k
    ensures k !in ApplyFrom(db, m, index, prior).0.outbox
    decreases |m.events| - index
  {
    hide ApplyEvent;
    if index < |m.events| {
      var (next, result) := ApplyEvent(db, m, index, prior);
      if k in next.outbox {
        EventAddsOwnCommand(db, m, index, prior, k);
      }
      KeyStaysAbsent(next, m, index + 1, prior + [result], k);
    }
  }

  /**
    However a message is processed, a placement that follows a cancellation in it is never issued ready to send: it is
    blocked, and waits for a cancellation of an earlier event of the same message version.
   */
  lemma ReplacementWaits(db: Db, m: Message, i: nat, j: nat)
    requires Reachable(db) && SameVersion(db, m)
    requires i < j < |m.events| && m.events[i].Cancel? && m.events[j].Place?
    requires m.Key(j) !in db.outbox && m.Key(j) in ApplyMessage(db, m).outbox
    ensures IssuedBlocked(ApplyMessage(db, m).outbox, ApplyMessage(db, m).outbox, m.Key(j))
  {
    hide Reachable, Inv, SameVersion;
    ReachableMeetsInv(db);
    NothingIsPrior(db, m);
    ReplacementWaitsFrom(db, m, 0, [], i, j);
  }
}
