/** Every row carries the levels of the event that made it, and every transition has its event and its time. */
module TradingProvenance {
  import opened Wrappers
  import opened TradingModel
  import opened TradingInvariant
  import opened TradingHistory

  /** An order is what its placement asked for. */
  ghost predicate OrderTraced(k: EventKey, row: Order, processed: ProcessedEvents) {
    && k in processed
    && processed[k].fingerprint.Place?
    && var asked := processed[k].fingerprint;
       && row.side == asked.side && row.orderType == asked.orderType && row.provider == asked.provider
       && row.entry == asked.entry && row.stopLoss == asked.stopLoss && row.takeProfits == asked.takeProfits
       && (asked.instrument.Some? ==> row.instrument == asked.instrument.value)
       && row.createdAt == processed[k].createdAt
  }

  /** A command names its order by its instrument, side and type, and a PLACE command carries its levels. */
  ghost predicate CommandTraced(c: EventKey, command: Command, orders: Orders, processed: ProcessedEvents) {
    && c in processed && command.createdAt == processed[c].createdAt
    && command.order in orders
    && var row, payload := orders[command.order], command.payload;
       && payload.instrument == row.instrument && payload.side == row.side && payload.orderType == row.orderType
       && (payload.PlacePayload? ==>
             && payload.provider == row.provider && payload.entry == row.entry
             && payload.stopLoss == row.stopLoss && payload.takeProfits == row.takeProfits)
       && (payload.CancelPayload? ==>
             && processed[c].fingerprint.Cancel?
             && processed[c].fingerprint.side == row.side && processed[c].fingerprint.orderType == row.orderType)
  }

  predicate Says(kind: ResultKind, state: PositionState) {
    || (kind == TakeProfitHit && state == ClosedTp)
    || (kind == StopLossHit && state == ClosedSl)
    || (kind == BreakEven && state == ClosedBreakEven)
  }

  /** The trade result that closed a position. */
  ghost predicate IsResultFor(processed: ProcessedEvents, r: EventKey, row: Position) {
    && r in processed && processed[r].outcome == Applied
    && processed[r].fingerprint.TradeResult? && Says(processed[r].fingerprint.resultKind, row.state)
    && row.closedAt == Some(processed[r].createdAt)
  }

  ghost predicate SameTerms(row: Position, order: Order) {
    && row.instrument == order.instrument && row.side == order.side && row.entry == order.entry
    && row.stopLoss == order.stopLoss && row.takeProfits == order.takeProfits
  }

  /** A position has the levels of its order, was opened when that order was triggered, and was closed by a result. */
  ghost predicate PositionTraced(p: EventKey, row: Position, orders: Orders, processed: ProcessedEvents) {
    && p in processed && processed[p].fingerprint.Trigger? && processed[p].fingerprint.side == row.side
    && row.createdAt == processed[p].createdAt
    && row.sourceOrder in orders
    && SameTerms(row, orders[row.sourceOrder])
    && orders[row.sourceOrder].filledAt == Some(processed[p].createdAt)
    && (row.state != Active ==> exists r :: IsResultFor(processed, r, row))
  }

  ghost predicate IsEndOf(processed: ProcessedEvents, e: EventKey, row: Session) {
    && e in processed && processed[e].outcome == Applied && processed[e].fingerprint.EndSession?
    && e.channel == row.channel && row.endedAt == Some(processed[e].createdAt)
  }

  ghost predicate IsDayOf(days: Days, d: EventKey, row: Session) {
    d in days && SameDate(days[d], row)
  }

  /** A session was ended by an event of its channel, or silenced by a no-trading day of its date. */
  ghost predicate SessionTraced(row: Session, days: Days, processed: ProcessedEvents) {
    && (row.state == Ended ==> exists e :: IsEndOf(processed, e, row))
    && (row.state == NoTrading ==> exists d :: IsDayOf(days, d, row))
  }

  ghost predicate OrdersTraced(orders: Orders, processed: ProcessedEvents) {
    forall k | k in orders :: OrderTraced(k, orders[k], processed)
  }

  ghost predicate CommandsTraced(outbox: Outbox, orders: Orders, processed: ProcessedEvents) {
    forall c | c in outbox :: CommandTraced(c, outbox[c], orders, processed)
  }

  ghost predicate PositionsTraced(positions: Positions, orders: Orders, processed: ProcessedEvents) {
    forall p | p in positions :: PositionTraced(p, positions[p], orders, processed)
  }

  ghost predicate SessionsTraced(sessions: Sessions, days: Days, processed: ProcessedEvents) {
    forall s | s in sessions :: SessionTraced(sessions[s], days, processed)
  }

  ghost predicate Traced(db: Db) {
    && OrdersTraced(db.orders, db.processed)
    && CommandsTraced(db.outbox, db.orders, db.processed)
    && PositionsTraced(db.positions, db.orders, db.processed)
    && SessionsTraced(db.sessions, db.days, db.processed)
  }

  // ---------- Kept by every event ----------

  ghost predicate Grows(a: ProcessedEvents, b: ProcessedEvents) {
    forall k | k in a :: k in b && b[k] == a[k]
  }

  /** Orders whose levels stay, and whose fill, once dated, stays. */
  ghost predicate SameLevels(a: Order, b: Order) {
    && a.instrument == b.instrument && a.side == b.side && a.orderType == b.orderType && a.provider == b.provider
    && a.entry == b.entry && a.stopLoss == b.stopLoss && a.takeProfits == b.takeProfits && a.createdAt == b.createdAt
    && (a.filledAt.Some? ==> b.filledAt == a.filledAt)
  }

  ghost predicate OrdersKeepLevels(a: Orders, b: Orders) {
    forall k | k in a :: k in b && SameLevels(a[k], b[k])
  }

  lemma OrdersStayTraced(orders: Orders, processed: ProcessedEvents, next: Orders, grown: ProcessedEvents)
    requires OrdersTraced(orders, processed) && Grows(processed, grown) && OrdersKeepLevels(orders, next)
    requires forall k | k in next && k !in orders :: OrderTraced(k, next[k], grown)
    ensures OrdersTraced(next, grown)
  {
  }

  lemma CommandsStayTraced(
      outbox: Outbox, orders: Orders, processed: ProcessedEvents, next: Outbox, moved: Orders,
      grown: ProcessedEvents)
    requires CommandsTraced(outbox, orders, processed) && Grows(processed, grown) && OrdersKeepLevels(orders, moved)
    requires forall c | c in outbox :: c in next && SameButState(outbox[c], next[c])
    requires forall c | c in next && c !in outbox :: CommandTraced(c, next[c], moved, grown)
    ensures CommandsTraced(next, moved, grown)
  {
    forall c | c in outbox
      ensures CommandTraced(c, next[c], moved, grown)
    {
      assert CommandTraced(c, outbox[c], orders, processed);
      assert SameLevels(orders[outbox[c].order], moved[outbox[c].order]);
    }
  }

  lemma PositionStaysTraced(
      p: EventKey, row: Position, orders: Orders, processed: ProcessedEvents, moved: Orders, grown: ProcessedEvents)
    requires PositionTraced(p, row, orders, processed) && Grows(processed, grown) && OrdersKeepLevels(orders, moved)
    ensures PositionTraced(p, row, moved, grown)
  {
    if row.state != Active {
      var r :| IsResultFor(processed, r, row);
      assert IsResultFor(grown, r, row);
    }
    assert SameLevels(orders[row.sourceOrder], moved[row.sourceOrder]);
  }

  lemma PositionsStayTraced(
      positions: Positions, orders: Orders, processed: ProcessedEvents, next: Positions, moved: Orders,
      grown: ProcessedEvents)
    requires PositionsTraced(positions, orders, processed) && Grows(processed, grown) && OrdersKeepLevels(orders, moved)
    requires forall p | p in next :: (p in positions && next[p] == positions[p]) || PositionTraced(p, next[p], moved, grown)
    ensures PositionsTraced(next, moved, grown)
  {
    hide PositionTraced;
    forall p | p in next && p in positions && next[p] == positions[p]
      ensures PositionTraced(p, next[p], moved, grown)
    {
      PositionStaysTraced(p, next[p], orders, processed, moved, grown);
    }
  }

  ghost predicate DaysGrow(a: Days, b: Days) {
    forall d | d in a :: d in b && b[d] == a[d]
  }

  ghost predicate SameStanding(a: Session, b: Session) {
    SameSlot(a, b) && a.state == b.state && a.endedAt == b.endedAt
  }

  lemma SessionStaysTraced(
      row: Session, days: Days, processed: ProcessedEvents, more: Days, grown: ProcessedEvents, next: Session)
    requires SessionTraced(row, days, processed) && Grows(processed, grown) && DaysGrow(days, more)
    requires SameStanding(row, next)
    ensures SessionTraced(next, more, grown)
  {
    if row.state == Ended {
      var e :| IsEndOf(processed, e, row);
      assert IsEndOf(grown, e, next);
    }
    if row.state == NoTrading {
      var d :| IsDayOf(days, d, row);
      assert IsDayOf(more, d, next);
    }
  }

  lemma SessionsStayTraced(
      sessions: Sessions, days: Days, processed: ProcessedEvents, next: Sessions, more: Days, grown: ProcessedEvents)
    requires SessionsTraced(sessions, days, processed) && Grows(processed, grown) && DaysGrow(days, more)
    requires forall s | s in next ::
      || (s in sessions && SameStanding(sessions[s], next[s]))
      || SessionTraced(next[s], more, grown)
    ensures SessionsTraced(next, more, grown)
  {
    hide SessionTraced;
    forall s | s in next && s in sessions && SameStanding(sessions[s], next[s])
      ensures SessionTraced(next[s], more, grown)
    {
      SessionStaysTraced(sessions[s], days, processed, more, grown, next[s]);
    }
  }

  lemma CommitKeepsLevels(db: Db, m: Message, key: EventKey, event: Event, change: Change)
    requires OrdersOk(db.orders, db.sessions) && Fresh(db, key) && Legal(db, m, key, event, change)
    ensures var next := Commit(db, m, key, event, change);
            OrdersKeepLevels(db.orders, next.orders) && Grows(db.processed, next.processed)
  {
    assert change.FillOrder? ==> OrderOk(db.orders[change.order], db.sessions);
  }

  lemma NewOrdersAreTraced(db: Db, m: Message, key: EventKey, event: Event, change: Change)
    requires Fresh(db, key) && Legal(db, m, key, event, change)
    ensures var next := Commit(db, m, key, event, change);
            forall k | k in next.orders && k !in db.orders :: OrderTraced(k, next.orders[k], next.processed)
  {
  }

  lemma NewCommandsAreTraced(db: Db, m: Message, key: EventKey, event: Event, change: Change)
    requires Fresh(db, key) && Legal(db, m, key, event, change)
    ensures var next := Commit(db, m, key, event, change);
            && (forall c | c in db.outbox :: c in next.outbox && next.outbox[c] == db.outbox[c])
            && (forall c | c in next.outbox && c !in db.outbox :: CommandTraced(c, next.outbox[c], next.orders, next.processed))
  {
  }

  lemma OpenedPositionIsTraced(db: Db, m: Message, key: EventKey, event: Event, change: Change)
    requires Fresh(db, key) && Legal(db, m, key, event, change) && change.FillOrder?
    ensures var next := Commit(db, m, key, event, change);
            key in next.positions && PositionTraced(key, next.positions[key], next.orders, next.processed)
  {
  }

  lemma ClosedPositionIsTraced(db: Db, m: Message, key: EventKey, event: Event, change: Change)
    requires PositionsTraced(db.positions, db.orders, db.processed) && Legal(db, m, key, event, change) && change.ClosePosition?
    ensures var next := Commit(db, m, key, event, change);
            PositionTraced(change.position, next.positions[change.position], next.orders, next.processed)
  {
    var next := Commit(db, m, key, event, change);
    assert PositionTraced(change.position, db.positions[change.position], db.orders, db.processed);
    assert IsResultFor(next.processed, key, next.positions[change.position]);
  }

  lemma PositionsAfter(db: Db, m: Message, key: EventKey, event: Event, change: Change)
    requires PositionsTraced(db.positions, db.orders, db.processed) && Fresh(db, key) && Legal(db, m, key, event, change)
    ensures var next := Commit(db, m, key, event, change);
            forall p | p in next.positions ::
              (p in db.positions && next.positions[p] == db.positions[p]) || PositionTraced(p, next.positions[p], next.orders, next.processed)
  {
    if change.FillOrder? {
      OpenedPositionIsTraced(db, m, key, event, change);
    } else if change.ClosePosition? {
      ClosedPositionIsTraced(db, m, key, event, change);
    }
    hide PositionsTraced, PositionTraced;
  }

  lemma SessionsAfter(db: Db, m: Message, key: EventKey, event: Event, change: Change)
    requires Fresh(db, key) && Legal(db, m, key, event, change) && SessionsOk(db.sessions)
    ensures var next := Commit(db, m, key, event, change);
            && DaysGrow(db.days, next.days)
            && forall s | s in next.sessions ::
                 || (s in db.sessions && SameStanding(db.sessions[s], next.sessions[s]))
                 || SessionTraced(next.sessions[s], next.days, next.processed)
  {
    var next := Commit(db, m, key, event, change);
    if change.CloseSession? {
      assert IsEndOf(next.processed, key, next.sessions[change.session]);
    } else if change.CloseDay? {
      assert forall s | s in next.sessions && OnDay(db.sessions, s, m.channel, m.Date()) :: IsDayOf(next.days, key, next.sessions[s]);
    }
  }

  lemma CommitKeepsTraced(db: Db, m: Message, key: EventKey, event: Event, change: Change)
    requires Inv(db) && Traced(db) && Legal(db, m, key, event, change)
    ensures Traced(Commit(db, m, key, event, change))
  {
    hide SessionsOk, DaysOk, OrdersOk, CommandsOk, CancelsOk, DependenciesOk, PositionsOk, SourcesOk, ReviewsOk;
    hide Legal, Fresh, Commit, OrdersTraced, CommandsTraced, PositionsTraced, SessionsTraced, OrdersKeepLevels, Grows;
    LegalRefers(db, m, key, event, change);
    var next := Commit(db, m, key, event, change);
    UnprocessedIsFresh(db, key);
    CommitKeepsLevels(db, m, key, event, change);
    NewOrdersAreTraced(db, m, key, event, change);
    OrdersStayTraced(db.orders, db.processed, next.orders, next.processed);
    NewCommandsAreTraced(db, m, key, event, change);
    CommandsStayTraced(db.outbox, db.orders, db.processed, next.outbox, next.orders, next.processed);
    PositionsAfter(db, m, key, event, change);
    PositionsStayTraced(db.positions, db.orders, db.processed, next.positions, next.orders, next.processed);
    SessionsAfter(db, m, key, event, change);
    SessionsStayTraced(db.sessions, db.days, db.processed, next.sessions, next.days, next.processed);
  }

  // ---------- Kept by every report, and so by every run ----------

  lemma ReportKeepsLevels(db: Db, command: EventKey, state: CommandState, at: int)
    requires command in db.outbox && CommandOk(command, db.outbox[command], db.orders)
    ensures OrdersKeepLevels(db.orders, ApplyReport(db, command, state, at).orders)
    ensures ApplyReport(db, command, state, at).orders.Keys == db.orders.Keys
  {
  }

  lemma {:induction false} ReportKeepsTraced(db: Db, command: EventKey, state: CommandState, at: int)
    requires Inv(db) && Traced(db)
    ensures Traced(ApplyReport(db, command, state, at))
  {
    hide Inv, OrdersTraced, CommandsTraced, PositionsTraced, SessionsTraced, OrdersKeepLevels;
    var next := ApplyReport(db, command, state, at);
    if command in db.outbox {
      CommandsAreOk(db);
      ReportedCommandOk(db, command);
      ReportKeepsLevels(db, command, state, at);
      ReportMoves(db, command, state, at);
      OrdersStayTraced(db.orders, db.processed, next.orders, next.processed);
      CommandsStayTraced(db.outbox, db.orders, db.processed, next.outbox, next.orders, next.processed);
      PositionsStayTraced(db.positions, db.orders, db.processed, next.positions, next.orders, next.processed);
    }
  }

  lemma {:induction false} EventsKeepTraced(db: Db, m: Message, index: nat, prior: seq<AppliedResult>)
    requires index <= |m.events| && Inv(db) && PriorOk(db, m, index, prior) && Traced(db)
    ensures Traced(ApplyFrom(db, m, index, prior).0)
    decreases |m.events| - index
  {
    hide Inv, PriorOk, ApplyEvent, Traced;
    if index < |m.events| {
      var (next, result) := ApplyEvent(db, m, index, prior);
      EventKeepsInv(db, m, index, prior);
      EventKeepsTraced(db, m, index, prior);
      EventsKeepTraced(next, m, index + 1, prior + [result]);
    }
  }

  lemma {:induction false} EventKeepsTraced(db: Db, m: Message, index: nat, prior: seq<AppliedResult>)
    requires index < |m.events| && Inv(db) && PriorOk(db, m, index, prior) && Traced(db)
    ensures Traced(ApplyEvent(db, m, index, prior).0)
  {
    hide Inv, PriorOk, Traced, Legal, ChangeOf, Write, Note;
    if m.Key(index) !in db.processed {
      EventIsLegal(db, m, index, prior);
      CommitKeepsTraced(db, m, m.Key(index), m.events[index], ChangeOf(db, m, index, prior));
    }
  }

  lemma StepKeepsTraced(db: Db, op: Op)
    requires Inv(db) && Traced(db)
    ensures Traced(Step(db, op))
  {
    hide Inv, Traced, ApplyFrom, ApplyReport;
    match op
    case Process(m) =>
      NothingIsPrior(db, m);
      EventsKeepTraced(db, m, 0, []);
    case Report(command, state, at) => ReportKeepsTraced(db, command, state, at);
  }

  lemma {:induction false} RunKeepsTraced(db: Db, ops: seq<Op>)
    requires Inv(db) && Traced(db)
    ensures Traced(Run(db, ops))
    decreases |ops|
  {
    hide Inv, Traced, Step;
    if ops != [] {
      StepKeepsInv(db, ops[0]);
      StepKeepsTraced(db, ops[0]);
      RunKeepsTraced(Step(db, ops[0]), ops[1..]);
    }
  }

  /**
    In every reachable state: an order is what its placement asked for; a PLACE command carries its order's levels and a
    CANCEL command names an order of the side and type its event named; a position has its order's levels and was opened by
    the trigger that dates the order's fill; and a closed position and an ended or silenced session have the event that
    says so, at the time it says.
   */
  lemma EverythingIsTraced(db: Db)
    requires Reachable(db)
    ensures Traced(db)
  {
    hide Inv, Run;
    var ops :| db == Run(EMPTY, ops);
    EmptyMeetsInv();
    RunKeepsTraced(EMPTY, ops);
  }
}
