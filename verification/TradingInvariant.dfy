/** What holds of the trading tables in every reachable state. */
module TradingInvariant {
  import opened Wrappers
  import opened TradingModel

  // ---------- The invariant, by the tables it ties together ----------

  type Sessions = map<EventKey, Session>
  type Days = map<EventKey, Day>
  type Orders = map<EventKey, Order>
  type Positions = map<EventKey, Position>
  type Outbox = map<EventKey, Command>

  ghost predicate SameSlot(a: Session, b: Session) {
    a.channel == b.channel && a.date == b.date && a.instrument == b.instrument
  }

  /** `ENDING` and the operator's states are never entered. */
  ghost predicate SessionOk(row: Session) {
    row.state in {AcceptingSignals, NoTrading, Ended} && (row.endedAt.Some? <==> row.state == Ended)
  }

  ghost predicate SessionsOk(sessions: Sessions) {
    && (forall k | k in sessions :: SessionOk(sessions[k]))
    && (forall j, k | j in sessions && k in sessions && SameSlot(sessions[j], sessions[k]) :: j == k)
  }

  ghost predicate SameDate(day: Day, session: Session) {
    day.channel == session.channel && day.date == session.date
  }

  /** At most one no-trading day a channel and date, and no session of that day takes orders. */
  ghost predicate DaysOk(days: Days, sessions: Sessions) {
    && (forall j, k | j in days && k in days && days[j].channel == days[k].channel && days[j].date == days[k].date :: j == k)
    && (forall d, s | d in days && s in sessions && SameDate(days[d], sessions[s]) :: sessions[s].state in {NoTrading, Ended})
  }

  ghost predicate IsCancelState(state: OrderState) {
    state in {CancelRequested, CancelUnknown, CancelFailed, Cancelled}
  }

  ghost predicate OrderOk(row: Order, sessions: Sessions) {
    && row.session in sessions
    && row.instrument == sessions[row.session].instrument
    && row.state != Rejected
    && (row.filledAt.Some? <==> row.state == Filled)
    && (row.cancelledAt.Some? <==> row.state == Cancelled)
  }

  ghost predicate OrdersOk(orders: Orders, sessions: Sessions) {
    forall k | k in orders :: OrderOk(orders[k], sessions)
  }

  ghost predicate IsPlaceOf(outbox: Outbox, c: EventKey) {
    c in outbox && outbox[c].payload.PlacePayload?
  }

  ghost predicate IsCancelOf(outbox: Outbox, c: EventKey, order: EventKey) {
    c in outbox && outbox[c].payload.CancelPayload? && outbox[c].order == order
  }

  ghost predicate CommandOk(c: EventKey, command: Command, orders: Orders) {
    && command.order in orders
    && command.session == orders[command.order].session
    && (command.payload.PlacePayload? ==> command.order == c)
    && (command.payload.CancelPayload? ==> orders[command.order].state == CancelledOrderState(command.state))
  }

  /** Every order has its own PLACE command; a CANCEL command's state determines its order's. */
  ghost predicate CommandsOk(outbox: Outbox, orders: Orders) {
    && (forall c | c in outbox :: CommandOk(c, outbox[c], orders))
    && (forall k | k in orders :: IsPlaceOf(outbox, k))
  }

  /** An order is cancelled by one command at most, and by one when its state says so. */
  ghost predicate CancelsOk(outbox: Outbox, orders: Orders) {
    && (forall b, c, order | IsCancelOf(outbox, b, order) && IsCancelOf(outbox, c, order) :: b == c)
    && (forall k | k in orders && IsCancelState(orders[k].state) :: exists c :: IsCancelOf(outbox, c, k))
  }

  /** `d` is a cancellation of an earlier event of the same message version, itself waiting for nothing. */
  ghost predicate IsDependency(outbox: Outbox, d: EventKey, c: EventKey) {
    && d in outbox
    && outbox[d].payload.CancelPayload?
    && d.channel == c.channel && d.message == c.message && d.version == c.version && d.index < c.index
  }

  ghost predicate DependencyOk(outbox: Outbox, c: EventKey)
    requires c in outbox
  {
    && (outbox[c].payload.CancelPayload? ==> outbox[c].dependsOn == None)
    && match outbox[c].dependsOn
       case None => outbox[c].releasedAt == None
       case Some(d) => IsDependency(outbox, d, c)
  }

  ghost predicate DependenciesOk(outbox: Outbox) {
    forall c | c in outbox :: DependencyOk(outbox, c)
  }

  ghost predicate IsPositionOf(positions: Positions, p: EventKey, order: EventKey) {
    p in positions && positions[p].sourceOrder == order
  }

  ghost predicate PositionOk(row: Position, orders: Orders) {
    && row.sourceOrder in orders
    && orders[row.sourceOrder].state == Filled
    && row.session == orders[row.sourceOrder].session
    && row.state != ClosedManual
    && (row.closedAt.Some? <==> row.state != Active)
  }

  /** Filled orders and positions are in bijection. */
  ghost predicate PositionsOk(positions: Positions, orders: Orders) {
    && (forall k | k in positions :: PositionOk(positions[k], orders))
    && (forall p, q, order | IsPositionOf(positions, p, order) && IsPositionOf(positions, q, order) :: p == q)
    && (forall k | k in orders && orders[k].state == Filled :: exists p :: IsPositionOf(positions, p, k))
  }

  type ProcessedEvents = map<EventKey, Processed>

  ghost predicate DoneAs(processed: ProcessedEvents, k: EventKey, eventType: EventType) {
    k in processed && processed[k].outcome == Applied && processed[k].eventType == eventType
  }

  ghost predicate SessionSources(sessions: Sessions, processed: ProcessedEvents) {
    forall k | k in sessions :: DoneAs(processed, k, PlaceType) && sessions[k].channel == k.channel
  }

  ghost predicate DaySources(days: Days, processed: ProcessedEvents) {
    forall k | k in days :: DoneAs(processed, k, NoTradingDayType) && days[k].channel == k.channel
  }

  ghost predicate OrderSources(orders: Orders, processed: ProcessedEvents) {
    forall k | k in orders :: DoneAs(processed, k, PlaceType) && orders[k].session.channel == k.channel
  }

  ghost predicate PositionSources(positions: Positions, processed: ProcessedEvents) {
    forall k | k in positions :: DoneAs(processed, k, TriggerType) && positions[k].sourceOrder.channel == k.channel
  }

  ghost predicate CommandSources(outbox: Outbox, processed: ProcessedEvents) {
    forall k | k in outbox ::
      && DoneAs(processed, k, if outbox[k].payload.PlacePayload? then PlaceType else CancelType)
      && outbox[k].order.channel == k.channel
  }

  /** Every row was made by the event that names it, in the channel of that event. */
  ghost predicate SourcesOk(db: Db) {
    && SessionSources(db.sessions, db.processed)
    && DaySources(db.days, db.processed)
    && OrderSources(db.orders, db.processed)
    && PositionSources(db.positions, db.processed)
    && CommandSources(db.outbox, db.processed)
  }

  ghost predicate ReviewsOk(db: Db) {
    forall k :: k in db.reviews <==> k in db.processed && db.processed[k].outcome == ManualReview
  }

  /** The trading part of the invariant, without the provenance of the rows. */
  ghost predicate TablesOk(db: Db) {
    && SessionsOk(db.sessions)
    && DaysOk(db.days, db.sessions)
    && OrdersOk(db.orders, db.sessions)
    && CommandsOk(db.outbox, db.orders)
    && CancelsOk(db.outbox, db.orders)
    && DependenciesOk(db.outbox)
    && PositionsOk(db.positions, db.orders)
  }

  ghost predicate Inv(db: Db) {
    TablesOk(db) && SourcesOk(db) && ReviewsOk(db)
  }

  lemma EmptyMeetsInv()
    ensures Inv(EMPTY)
  {
  }

  // ---------- What a decision guarantees ----------

  /** The condition under which a decision is written; every decision the events make meets it. */
  ghost predicate Legal(db: Db, m: Message, key: EventKey, event: Event, change: Change) {
    && key !in db.processed
    && key.channel == m.channel
    && Refers(db, event, change)
    && match change
       case Nothing => true
       case Refuse(_) => true
       case PlaceOrder(session, instrument, dependsOn) =>
         && event.Place?
         && (event.instrument.Some? ==> instrument == event.instrument.value)
         && ClosedDays(db, m.channel, m.Date()) == {}
         && (if session in db.sessions then
               && OnDay(db.sessions, session, m.channel, m.Date())
               && db.sessions[session].instrument == instrument
               && db.sessions[session].state !in {Ended, NoTrading}
               && Twins(db, session, instrument, event) == {}
             else session == key && SessionsOf(db, m.channel, m.Date(), instrument) == {})
         && (dependsOn.Some? ==> IsDependency(db.outbox, dependsOn.value, key))
       case CancelOrder(order) =>
         && event.Cancel?
         && OnDay(db.sessions, db.orders[order].session, m.channel, m.Date())
         && db.orders[order].state == Pending
         && db.orders[order].side == event.side && db.orders[order].orderType == event.orderType
       case FillOrder(order) =>
         && event.Trigger?
         && OnDay(db.sessions, db.orders[order].session, m.channel, m.Date())
         && db.orders[order].state == Pending
         && db.orders[order].side == event.side && db.orders[order].orderType == event.orderType
       case ClosePosition(position, state) =>
         && event.TradeResult?
         && OnDay(db.sessions, db.positions[position].session, m.channel, m.Date())
         && db.positions[position].state == Active
         && state == ClosedState(event.resultKind)
       case CloseSession(session) =>
         && event.EndSession?
         && OnDay(db.sessions, session, m.channel, m.Date())
         && db.sessions[session].state in {AcceptingSignals, Ending}
       case CloseDay =>
         && event.NoTradingDay?
         && ClosedDays(db, m.channel, m.Date()) == {}
  }

  /** What the results of the earlier events of a message say about the database. */
  ghost predicate PriorOk(db: Db, m: Message, index: nat, prior: seq<AppliedResult>) {
    && |prior| == index
    && forall i | 0 <= i < index ::
         && m.Key(i) in db.processed
         && (prior[i].commands == [] || prior[i].commands == [m.Key(i)])
         && (prior[i].commands != [] ==>
               && m.Key(i) in db.outbox
               && (prior[i].eventType == CancelType ==> db.outbox[m.Key(i)].payload.CancelPayload?))
  }

  lemma {:induction false} DependencyIsCancellation(db: Db, m: Message, index: nat, prior: seq<AppliedResult>)
    requires PriorOk(db, m, index, prior)
    requires ReplacementDependency(prior).DependsOn?
    ensures IsDependency(db.outbox, ReplacementDependency(prior).command, m.Key(index))
    decreases index
  {
    var last := prior[|prior| - 1];
    if last.eventType != CancelType {
      DependencyIsCancellation(db, m, index - 1, prior[..|prior| - 1]);
    } else {
      assert m.Key(index - 1) in db.outbox;
    }
  }

  lemma PlaceIsLegal(db: Db, m: Message, index: nat, event: Event, prior: seq<AppliedResult>)
    requires event.Place? && m.Key(index) !in db.processed && PriorOk(db, m, index, prior) && SourcesOk(db)
    ensures Legal(db, m, m.Key(index), event, DecidePlace(db, m, m.Key(index), event, prior))
  {
    var dependency := ReplacementDependency(prior);
    if dependency.DependsOn? {
      DependencyIsCancellation(db, m, index, prior);
    }
  }

  lemma ChangeIsLegal(db: Db, m: Message, index: nat, prior: seq<AppliedResult>)
    requires index < |m.events|
    requires m.Key(index) !in db.processed && PriorOk(db, m, index, prior) && SourcesOk(db)
    ensures Legal(db, m, m.Key(index), m.events[index], ChangeOf(db, m, index, prior))
  {
    if m.events[index].Place? {
      PlaceIsLegal(db, m, index, m.events[index], prior);
    }
  }

  // ---------- Every change keeps the invariant ----------

  /** The rows an unprocessed event could name do not exist yet. */
  ghost predicate Fresh(db: Db, key: EventKey) {
    && key !in db.sessions && key !in db.days && key !in db.orders && key !in db.positions
    && key !in db.outbox && key !in db.reviews
  }

  /** No insert meets an existing row. */
  lemma UnprocessedIsFresh(db: Db, key: EventKey)
    requires Inv(db) && key !in db.processed
    ensures Fresh(db, key)
  {
  }

  /** The database after a change: the trading rows and the event's own records. */
  function Commit(db: Db, m: Message, key: EventKey, event: Event, change: Change): Db
    requires Refers(db, event, change)
  {
    Note(Write(db, m, key, event, change), key, event, m.at, change)
  }

  lemma SessionWritten(sessions: Sessions, days: Days, orders: Orders, key: EventKey, row: Session)
    requires SessionsOk(sessions) && DaysOk(days, sessions) && OrdersOk(orders, sessions)
    requires SessionOk(row)
    requires if key in sessions then SameSlot(row, sessions[key]) else forall k | k in sessions :: !SameSlot(row, sessions[k])
    requires row.state == AcceptingSignals ==> forall d | d in days :: !SameDate(days[d], row)
    ensures SessionsOk(sessions[key := row]) && DaysOk(days, sessions[key := row]) && OrdersOk(orders, sessions[key := row])
  {
  }

  lemma SessionsAfterPlace(db: Db, m: Message, key: EventKey, event: Event, change: Change)
    requires SessionsOk(db.sessions) && DaysOk(db.days, db.sessions) && OrdersOk(db.orders, db.sessions)
    requires Legal(db, m, key, event, change) && change.PlaceOrder?
    ensures var next := Write(db, m, key, event, change);
            SessionsOk(next.sessions) && DaysOk(next.days, next.sessions) && OrdersOk(next.orders, next.sessions)
  {
    var slot := NewSession(m, change.instrument);
    assert forall k | k in db.sessions && SameSlot(slot, db.sessions[k]) ::
        k in SessionsOf(db, m.channel, m.Date(), change.instrument);
    assert forall d | d in db.days && SameDate(db.days[d], slot) :: d in ClosedDays(db, m.channel, m.Date());
    var next := Write(db, m, key, event, change);
    var row := next.sessions[change.session];
    SessionWritten(db.sessions, db.days, db.orders, change.session, row);
    OrderWritten(db.orders, next.sessions, key, next.orders[key]);
  }

  lemma OrderWritten(orders: Orders, sessions: Sessions, key: EventKey, row: Order)
    requires OrdersOk(orders, sessions) && OrderOk(row, sessions)
    ensures OrdersOk(orders[key := row], sessions)
  {
  }

  lemma CommandAdded(outbox: Outbox, orders: Orders, sessions: Sessions, positions: Positions, key: EventKey,
                     row: Order, dependsOn: Option<EventKey>, at: int)
    requires CommandsOk(outbox, orders) && CancelsOk(outbox, orders) && PositionsOk(positions, orders)
    requires key !in orders && key !in outbox && row.state == Pending
    ensures var outbox1, orders1 := outbox[key := PlaceCommand(key, row, dependsOn, at)], orders[key := row];
            CommandsOk(outbox1, orders1) && CancelsOk(outbox1, orders1) && PositionsOk(positions, orders1)
  {
    var outbox1, orders1 := outbox[key := PlaceCommand(key, row, dependsOn, at)], orders[key := row];
    assert forall c, order :: IsCancelOf(outbox1, c, order) == IsCancelOf(outbox, c, order);
  }

  lemma DependencyAdded(outbox: Outbox, key: EventKey, command: Command)
    requires DependenciesOk(outbox) && key !in outbox
    requires command.payload.CancelPayload? ==> command.dependsOn == None
    requires command.releasedAt == None
    requires command.dependsOn.Some? ==> IsDependency(outbox, command.dependsOn.value, key)
    ensures DependenciesOk(outbox[key := command])
  {
    var next := outbox[key := command];
    assert forall d, c | IsDependency(outbox, d, c) :: IsDependency(next, d, c);
  }

  lemma CommandSent(outbox: Outbox, orders: Orders, key: EventKey, target: EventKey, at: int)
    requires CommandsOk(outbox, orders) && CancelsOk(outbox, orders)
    requires key !in orders && key !in outbox && target in orders && orders[target].state == Pending
    ensures var outbox1 := outbox[key := CancelCommand(target, orders[target], at)];
            var orders1 := orders[target := orders[target].(state := CancelRequested, updatedAt := at)];
            CommandsOk(outbox1, orders1) && CancelsOk(outbox1, orders1)
  {
    var outbox1 := outbox[key := CancelCommand(target, orders[target], at)];
    assert forall c, order :: IsCancelOf(outbox1, c, order) <==> IsCancelOf(outbox, c, order) || (c == key && order == target);
    assert forall c, order :: IsCancelOf(outbox, c, order) ==> IsCancelOf(outbox1, c, order);
    assert forall c :: !IsCancelOf(outbox, c, target);
    assert IsCancelOf(outbox1, key, target);
    assert forall k | IsPlaceOf(outbox, k) :: IsPlaceOf(outbox1, k);
  }

  /** Positions depend only on the filled orders and their sessions. */
  lemma PositionsKept(positions: Positions, orders: Orders, target: EventKey, row: Order)
    requires PositionsOk(positions, orders) && target in orders && orders[target].state != Filled && row.state != Filled
    ensures PositionsOk(positions, orders[target := row])
  {
  }

  lemma FilledKeepsCommands(outbox: Outbox, orders: Orders, target: EventKey, at: int)
    requires CommandsOk(outbox, orders) && CancelsOk(outbox, orders) && target in orders && orders[target].state == Pending
    ensures var orders1 := orders[target := orders[target].(state := Filled, filledAt := Some(at), updatedAt := at)];
            CommandsOk(outbox, orders1) && CancelsOk(outbox, orders1)
  {
    assert forall c :: !IsCancelOf(outbox, c, target);
  }

  lemma FilledKeepsPositions(orders: Orders, positions: Positions, key: EventKey, target: EventKey, at: int)
    requires PositionsOk(positions, orders) && key !in positions && target in orders && orders[target].state == Pending
    ensures var positions1 := positions[key := NewPosition(target, orders[target], at)];
            var orders1 := orders[target := orders[target].(state := Filled, filledAt := Some(at), updatedAt := at)];
            PositionsOk(positions1, orders1)
  {
    var positions1 := positions[key := NewPosition(target, orders[target], at)];
    assert forall p :: !IsPositionOf(positions, p, target);
    assert forall p, order :: IsPositionOf(positions1, p, order) <==> IsPositionOf(positions, p, order) || (p == key && order == target);
    assert IsPositionOf(positions1, key, target);
  }

  lemma OrderFilled(outbox: Outbox, orders: Orders, positions: Positions, key: EventKey, target: EventKey, at: int)
    requires CommandsOk(outbox, orders) && CancelsOk(outbox, orders) && PositionsOk(positions, orders)
    requires key !in positions && target in orders && orders[target].state == Pending
    ensures var positions1 := positions[key := NewPosition(target, orders[target], at)];
            var orders1 := orders[target := orders[target].(state := Filled, filledAt := Some(at), updatedAt := at)];
            CommandsOk(outbox, orders1) && CancelsOk(outbox, orders1) && PositionsOk(positions1, orders1)
  {
    hide CommandsOk, CancelsOk, PositionsOk;
    FilledKeepsCommands(outbox, orders, target, at);
    FilledKeepsPositions(orders, positions, key, target, at);
  }

  lemma PositionClosed(positions: Positions, orders: Orders, target: EventKey, state: PositionState, at: int)
    requires PositionsOk(positions, orders) && target in positions && state in {ClosedTp, ClosedSl, ClosedBreakEven}
    ensures PositionsOk(positions[target := positions[target].(state := state, closedAt := Some(at), updatedAt := at)], orders)
  {
    var next := positions[target := positions[target].(state := state, closedAt := Some(at), updatedAt := at)];
    assert forall p, order :: IsPositionOf(next, p, order) == IsPositionOf(positions, p, order);
  }

  lemma SessionsAfterEnd(db: Db, m: Message, key: EventKey, event: Event, change: Change)
    requires SessionsOk(db.sessions) && DaysOk(db.days, db.sessions) && OrdersOk(db.orders, db.sessions)
    requires Legal(db, m, key, event, change) && change.CloseSession?
    ensures var next := Write(db, m, key, event, change);
            SessionsOk(next.sessions) && DaysOk(next.days, next.sessions) && OrdersOk(next.orders, next.sessions)
  {
    var next := Write(db, m, key, event, change);
    SessionWritten(db.sessions, db.days, db.orders, change.session, next.sessions[change.session]);
  }

  lemma SessionsSilenced(sessions: Sessions, next: Sessions, days: Days, orders: Orders, key: EventKey, day: Day)
    requires SessionsOk(sessions) && DaysOk(days, sessions) && OrdersOk(orders, sessions)
    requires next.Keys == sessions.Keys
    requires forall k | k in sessions :: SameSlot(next[k], sessions[k]) && SessionOk(next[k])
    requires forall k | k in sessions :: sessions[k].state in {NoTrading, Ended} || SameDate(day, sessions[k]) ==> next[k].state in {NoTrading, Ended}
    requires forall d | d in days :: days[d].channel != day.channel || days[d].date != day.date
    ensures SessionsOk(next) && DaysOk(days[key := day], next) && OrdersOk(orders, next)
  {
  }

  lemma SessionsAfterCloseDay(db: Db, m: Message, key: EventKey, event: Event, change: Change)
    requires SessionsOk(db.sessions) && DaysOk(db.days, db.sessions) && OrdersOk(db.orders, db.sessions)
    requires Legal(db, m, key, event, change) && change.CloseDay?
    ensures var next := Write(db, m, key, event, change);
            SessionsOk(next.sessions) && DaysOk(next.days, next.sessions) && OrdersOk(next.orders, next.sessions)
  {
    assert forall d | d in db.days && db.days[d].channel == m.channel && db.days[d].date == m.Date() ::
        d in ClosedDays(db, m.channel, m.Date());
    hide DaysOk, OrdersOk;
    SessionsSilenced(db.sessions, Write(db, m, key, event, change).sessions, db.days, db.orders, key, Day(m.channel, m.Date(), m.at));
  }

  lemma SourcesGrow(db: Db, processed: ProcessedEvents)
    requires SourcesOk(db)
    requires forall k | k in db.processed :: k in processed && processed[k] == db.processed[k]
    ensures SourcesOk(db.(processed := processed))
  {
    assert forall k, t | DoneAs(db.processed, k, t) :: DoneAs(processed, k, t);
  }

  lemma WriteKeepsSources(db: Db, m: Message, key: EventKey, event: Event, change: Change)
    requires SourcesOk(db) && Refers(db, event, change) && key.channel == m.channel
    requires change.Outcome() == Applied ==> DoneAs(db.processed, key, TypeOf(event))
    requires change.PlaceOrder? ==> change.session == key || (change.session in db.sessions && db.sessions[change.session].channel == m.channel)
    requires change.CancelOrder? ==> event.Cancel? && OnDay(db.sessions, db.orders[change.order].session, m.channel, m.Date())
    requires change.FillOrder? ==> event.Trigger? && OnDay(db.sessions, db.orders[change.order].session, m.channel, m.Date())
    requires change.CloseDay? ==> event.NoTradingDay?
    ensures SourcesOk(Write(db, m, key, event, change))
  {
  }

  lemma KeepsReviews(db: Db, m: Message, key: EventKey, event: Event, change: Change)
    requires ReviewsOk(db) && Legal(db, m, key, event, change)
    ensures ReviewsOk(Commit(db, m, key, event, change))
  {
    hide Legal, Write;
    LegalRefers(db, m, key, event, change);
    WriteKeepsRecords(db, m, key, event, change);
  }

  lemma LegalRefers(db: Db, m: Message, key: EventKey, event: Event, change: Change)
    requires Legal(db, m, key, event, change)
    ensures Refers(db, event, change) && key !in db.processed
  {
  }

  lemma WriteKeepsRecords(db: Db, m: Message, key: EventKey, event: Event, change: Change)
    requires Refers(db, event, change)
    ensures var w := Write(db, m, key, event, change); w.processed == db.processed && w.reviews == db.reviews
  {
  }

  lemma {:induction false} KeepsSources(db: Db, m: Message, key: EventKey, event: Event, change: Change)
    requires SourcesOk(db) && Legal(db, m, key, event, change)
    ensures SourcesOk(Commit(db, m, key, event, change))
  {
    var noted := Note(db, key, event, m.at, change);
    var written := Write(db, m, key, event, change);
    assert SourcesOk(noted) by {
      SourcesGrow(db, noted.processed);
    }
    assert SourcesOk(Write(noted, m, key, event, change)) by {
      WriteKeepsSources(noted, m, key, event, change);
    }
  }

  lemma {:induction false} PlaceKeepsTables(db: Db, m: Message, key: EventKey, event: Event, change: Change)
    requires TablesOk(db) && Fresh(db, key) && Legal(db, m, key, event, change) && change.PlaceOrder?
    ensures TablesOk(Write(db, m, key, event, change))
  {
    hide SessionsOk, DaysOk, OrdersOk, CommandsOk, CancelsOk, DependenciesOk, PositionsOk;
    SessionsAfterPlace(db, m, key, event, change);
    var row := NewOrder(change.session, change.instrument, event, m.at);
    CommandAdded(db.outbox, db.orders, db.sessions, db.positions, key, row, change.dependsOn, m.at);
    DependencyAdded(db.outbox, key, PlaceCommand(key, row, change.dependsOn, m.at));
  }

  lemma {:induction false} CancelKeepsTables(db: Db, m: Message, key: EventKey, event: Event, change: Change)
    requires TablesOk(db) && Fresh(db, key) && Legal(db, m, key, event, change) && change.CancelOrder?
    ensures TablesOk(Write(db, m, key, event, change))
  {
    var row := db.orders[change.order].(state := CancelRequested, updatedAt := m.at);
    assert OrderOk(db.orders[change.order], db.sessions);
    hide SessionsOk, DaysOk, OrdersOk, CommandsOk, CancelsOk, DependenciesOk, PositionsOk;
    CommandSent(db.outbox, db.orders, key, change.order, m.at);
    PositionsKept(db.positions, db.orders, change.order, row);
    DependencyAdded(db.outbox, key, CancelCommand(change.order, db.orders[change.order], m.at));
    OrderWritten(db.orders, db.sessions, change.order, row);
  }

  lemma {:induction false} FillKeepsTables(db: Db, m: Message, key: EventKey, event: Event, change: Change)
    requires TablesOk(db) && Fresh(db, key) && Legal(db, m, key, event, change) && change.FillOrder?
    ensures TablesOk(Write(db, m, key, event, change))
  {
    var row := db.orders[change.order].(state := Filled, filledAt := Some(m.at), updatedAt := m.at);
    assert OrderOk(db.orders[change.order], db.sessions);
    hide SessionsOk, DaysOk, OrdersOk, CommandsOk, CancelsOk, DependenciesOk, PositionsOk;
    OrderFilled(db.outbox, db.orders, db.positions, key, change.order, m.at);
    OrderWritten(db.orders, db.sessions, change.order, row);
  }

  lemma {:induction false} WriteKeepsTables(db: Db, m: Message, key: EventKey, event: Event, change: Change)
    requires TablesOk(db) && Fresh(db, key) && Legal(db, m, key, event, change)
    ensures TablesOk(Write(db, m, key, event, change))
  {
    hide SessionsOk, DaysOk, OrdersOk, CommandsOk, CancelsOk, DependenciesOk, PositionsOk, Fresh;
    match change
    case Nothing =>
    case Refuse(_) =>
    case PlaceOrder(_, _, _) => PlaceKeepsTables(db, m, key, event, change);
    case CancelOrder(_) => CancelKeepsTables(db, m, key, event, change);
    case FillOrder(_) => FillKeepsTables(db, m, key, event, change);
    case ClosePosition(position, state) => PositionClosed(db.positions, db.orders, position, state, m.at);
    case CloseSession(_) => SessionsAfterEnd(db, m, key, event, change);
    case CloseDay => SessionsAfterCloseDay(db, m, key, event, change);
  }

  lemma {:induction false} CommitKeepsInv(db: Db, m: Message, key: EventKey, event: Event, change: Change)
    requires Inv(db) && Legal(db, m, key, event, change)
    ensures Inv(Commit(db, m, key, event, change))
  {
    UnprocessedIsFresh(db, key);
    hide TablesOk, SourcesOk, ReviewsOk, Legal, Write;
    KeepsSources(db, m, key, event, change);
    KeepsReviews(db, m, key, event, change);
    WriteKeepsTables(db, m, key, event, change);
  }

  // ---------- Every report keeps the invariant ----------

  /** Commands that differ in nothing but their state and the time of their release. */
  ghost predicate SameButState(a: Command, b: Command) {
    && a.payload == b.payload && a.createdAt == b.createdAt && a.session == b.session
    && a.order == b.order && a.dependsOn == b.dependsOn
  }

  ghost predicate SameCommands(outbox: Outbox, next: Outbox) {
    && next.Keys == outbox.Keys
    && forall k | k in outbox :: SameButState(outbox[k], next[k])
  }

  lemma CancelsReported(outbox: Outbox, next: Outbox, orders: Orders, orders1: Orders)
    requires CancelsOk(outbox, orders) && SameCommands(outbox, next) && orders1.Keys == orders.Keys
    requires forall k | k in orders :: IsCancelState(orders1[k].state) == IsCancelState(orders[k].state)
    ensures CancelsOk(next, orders1)
  {
    assert forall c, order :: IsCancelOf(next, c, order) == IsCancelOf(outbox, c, order);
  }

  lemma DependenciesReported(outbox: Outbox, next: Outbox)
    requires DependenciesOk(outbox) && SameCommands(outbox, next)
    requires forall k | k in outbox && outbox[k].dependsOn == None :: next[k].releasedAt == outbox[k].releasedAt
    ensures DependenciesOk(next)
  {
    assert forall d, c :: IsDependency(next, d, c) == IsDependency(outbox, d, c);
  }

  ghost predicate Follows(c: EventKey, outbox: Outbox, orders: Orders) {
    && c in outbox
    && outbox[c].order in orders
    && orders[outbox[c].order].state == CancelledOrderState(outbox[c].state)
  }

  lemma CommandsReported(outbox: Outbox, next: Outbox, orders: Orders, orders1: Orders)
    requires CommandsOk(outbox, orders) && SameCommands(outbox, next) && orders1.Keys == orders.Keys
    requires forall k | k in orders :: orders1[k].session == orders[k].session
    requires forall c | c in outbox && outbox[c].payload.CancelPayload? :: Follows(c, next, orders1)
    ensures CommandsOk(next, orders1)
  {
    assert forall k :: IsPlaceOf(next, k) == IsPlaceOf(outbox, k);
  }

  /** A report changes only states of commands and times of release. */
  lemma ReportMoves(db: Db, command: EventKey, state: CommandState, at: int)
    requires command in db.outbox
    ensures var next := ApplyReport(db, command, state, at);
            && SameCommands(db.outbox, next.outbox)
            && next.outbox[command].state == state
            && (forall k | k in db.outbox && db.outbox[k].dependsOn == None && k != command :: next.outbox[k] == db.outbox[k])
            && (forall k | k in db.outbox && db.outbox[k].dependsOn == None :: next.outbox[k].releasedAt == db.outbox[k].releasedAt)
  {
  }

  /** It moves the order of a reported cancellation, and no other. */
  lemma ReportMovesOrder(db: Db, command: EventKey, state: CommandState, at: int)
    requires command in db.outbox && CommandOk(command, db.outbox[command], db.orders)
    ensures var orders, row := ApplyReport(db, command, state, at).orders, db.outbox[command];
            && orders.Keys == db.orders.Keys
            && (forall k | k in db.orders && (row.payload.PlacePayload? || k != row.order) :: orders[k] == db.orders[k])
            && (row.payload.CancelPayload? ==> orders[row.order] == ReportedOrder(db.orders[row.order], state, at))
            && (row.payload.CancelPayload? ==> IsCancelState(db.orders[row.order].state) && IsCancelState(orders[row.order].state))
            && (row.payload.CancelPayload? ==> orders[row.order].session == db.orders[row.order].session)
  {
  }

  /** The state of a cancellation still determines that of its order. */
  lemma CancellationFollows(db: Db, command: EventKey, state: CommandState, at: int, c: EventKey)
    requires c in db.outbox && db.outbox[c].payload.CancelPayload? && CommandOk(c, db.outbox[c], db.orders)
    requires command in db.outbox && CommandOk(command, db.outbox[command], db.orders)
    requires db.outbox[c].dependsOn == None
    requires db.outbox[command].payload.CancelPayload? && db.outbox[command].order == db.outbox[c].order ==> command == c
    ensures var next := ApplyReport(db, command, state, at);
            Follows(c, next.outbox, next.orders)
  {
  }

  lemma OneCancellation(db: Db, b: EventKey, c: EventKey)
    requires CancelsOk(db.outbox, db.orders) && b in db.outbox && c in db.outbox
    requires db.outbox[b].payload.CancelPayload? && db.outbox[c].payload.CancelPayload? && db.outbox[b].order == db.outbox[c].order
    ensures b == c
  {
    assert IsCancelOf(db.outbox, b, db.outbox[b].order) && IsCancelOf(db.outbox, c, db.outbox[b].order);
  }

  lemma {:induction false} CancellationsFollow(db: Db, command: EventKey, state: CommandState, at: int, c: EventKey)
    requires CommandsOk(db.outbox, db.orders) && CancelsOk(db.outbox, db.orders) && DependenciesOk(db.outbox)
    requires command in db.outbox && c in db.outbox && db.outbox[c].payload.CancelPayload?
    ensures var next := ApplyReport(db, command, state, at); Follows(c, next.outbox, next.orders)
  {
    hide *;
    ReportedCommandOk(db, c);
    ReportedCommandOk(db, command);
    CancelWaitsForNothing(db.outbox, c);
    if db.outbox[command].payload.CancelPayload? && db.outbox[command].order == db.outbox[c].order {
      OneCancellation(db, command, c);
    }
    CancellationFollows(db, command, state, at, c);
  }

  lemma CancelWaitsForNothing(outbox: Outbox, c: EventKey)
    requires DependenciesOk(outbox) && c in outbox && outbox[c].payload.CancelPayload?
    ensures outbox[c].dependsOn == None
  {
  }

  lemma ReportedCommandOk(db: Db, command: EventKey)
    requires CommandsOk(db.outbox, db.orders) && command in db.outbox
    ensures CommandOk(command, db.outbox[command], db.orders)
  {
  }

  lemma {:induction false} ReportKeepsCommands(db: Db, command: EventKey, state: CommandState, at: int)
    requires CommandsOk(db.outbox, db.orders) && CancelsOk(db.outbox, db.orders) && DependenciesOk(db.outbox)
    requires command in db.outbox
    ensures var next := ApplyReport(db, command, state, at);
            CommandsOk(next.outbox, next.orders) && CancelsOk(next.outbox, next.orders) && DependenciesOk(next.outbox)
  {
    hide *;
    var next := ApplyReport(db, command, state, at);
    ReportedCommandOk(db, command);
    ReportMoves(db, command, state, at);
    ReportMovesOrder(db, command, state, at);
    DependenciesReported(db.outbox, next.outbox);
    CancelsReported(db.outbox, next.outbox, db.orders, next.orders);
    forall c | c in db.outbox && db.outbox[c].payload.CancelPayload?
      ensures Follows(c, next.outbox, next.orders)
    {
      CancellationsFollow(db, command, state, at, c);
    }
    CommandsReported(db.outbox, next.outbox, db.orders, next.orders);
  }

  lemma OrderOfCommand(db: Db, command: EventKey)
    requires CommandsOk(db.outbox, db.orders) && OrdersOk(db.orders, db.sessions) && command in db.outbox
    ensures CommandOk(command, db.outbox[command], db.orders) && OrderOk(db.orders[db.outbox[command].order], db.sessions)
  {
  }

  lemma {:induction false} ReportKeepsOrders(db: Db, command: EventKey, state: CommandState, at: int)
    requires CommandsOk(db.outbox, db.orders) && OrdersOk(db.orders, db.sessions) && PositionsOk(db.positions, db.orders)
    requires command in db.outbox
    ensures var next := ApplyReport(db, command, state, at);
            OrdersOk(next.orders, db.sessions) && PositionsOk(db.positions, next.orders)
  {
    hide PositionsOk, OrdersOk, CommandsOk, ReportedCommand;
    var row := db.outbox[command];
    OrderOfCommand(db, command);
    if row.payload.CancelPayload? {
      PositionsKept(db.positions, db.orders, row.order, ReportedOrder(db.orders[row.order], state, at));
      OrderWritten(db.orders, db.sessions, row.order, ReportedOrder(db.orders[row.order], state, at));
    }
  }

  lemma ReportKeepsSources(db: Db, command: EventKey, state: CommandState, at: int)
    requires SourcesOk(db) && command in db.outbox
    ensures SourcesOk(ApplyReport(db, command, state, at))
  {
    ReportMoves(db, command, state, at);
    var next := ApplyReport(db, command, state, at);
    assert OrderSources(next.orders, next.processed);
    assert CommandSources(next.outbox, next.processed) by {
      hide ApplyReport;
    }
  }

  lemma {:induction false} ReportKeepsTables(db: Db, command: EventKey, state: CommandState, at: int)
    requires TablesOk(db) && command in db.outbox
    ensures TablesOk(ApplyReport(db, command, state, at))
  {
    hide SessionsOk, DaysOk, OrdersOk, CommandsOk, CancelsOk, DependenciesOk, PositionsOk;
    ReportKeepsCommands(db, command, state, at);
    ReportKeepsOrders(db, command, state, at);
  }

  lemma {:induction false} ReportKeepsInv(db: Db, command: EventKey, state: CommandState, at: int)
    requires Inv(db)
    ensures Inv(ApplyReport(db, command, state, at))
  {
    if command in db.outbox {
      hide TablesOk, SourcesOk;
      ReportKeepsTables(db, command, state, at);
      ReportKeepsSources(db, command, state, at);
    }
  }

  // ---------- Messages and runs keep the invariant ----------

  lemma EventIsLegal(db: Db, m: Message, index: nat, prior: seq<AppliedResult>)
    requires index < |m.events| && Inv(db) && PriorOk(db, m, index, prior) && m.Key(index) !in db.processed
    ensures Legal(db, m, m.Key(index), m.events[index], ChangeOf(db, m, index, prior))
  {
    ChangeIsLegal(db, m, index, prior);
  }

  lemma {:induction false} EventKeepsInv(db: Db, m: Message, index: nat, prior: seq<AppliedResult>)
    requires index < |m.events| && Inv(db) && PriorOk(db, m, index, prior)
    ensures var (next, result) := ApplyEvent(db, m, index, prior);
            Inv(next) && PriorOk(next, m, index + 1, prior + [result])
  {
    var key := m.Key(index);
    if key !in db.processed {
      ChangeIsLegal(db, m, index, prior);
      CommitKeepsInv(db, m, key, m.events[index], ChangeOf(db, m, index, prior));
    }
    PriorGrows(db, m, index, prior);
  }

  lemma {:induction false} PriorGrows(db: Db, m: Message, index: nat, prior: seq<AppliedResult>)
    requires index < |m.events| && Inv(db) && PriorOk(db, m, index, prior)
    ensures var (next, result) := ApplyEvent(db, m, index, prior); PriorOk(next, m, index + 1, prior + [result])
  {
    hide Inv, ChangeOf, PriorOk, Write;
    var key := m.Key(index);
    var (next, result) := ApplyEvent(db, m, index, prior);
    if key !in db.processed {
      UnprocessedIsFresh(db, key);
      var change := ChangeOf(db, m, index, prior);
      ChangeRefers(db, m, index, prior);
      ChangeFitsType(db, m, index, prior);
      OutboxAfter(db, m, key, m.events[index], change);
      ProcessedAfter(db, m, key, m.events[index], change);
    }
    PriorExtends(db, next, m, index, prior, result);
  }

  lemma ProcessedAfter(db: Db, m: Message, key: EventKey, event: Event, change: Change)
    requires Refers(db, event, change)
    ensures Commit(db, m, key, event, change).processed.Keys == db.processed.Keys + {key}
  {
  }

  lemma ChangeFitsType(db: Db, m: Message, index: nat, prior: seq<AppliedResult>)
    requires index < |m.events|
    ensures ChangeOf(db, m, index, prior).CancelOrder? ==> m.events[index].Cancel?
    ensures ChangeOf(db, m, index, prior).PlaceOrder? ==> m.events[index].Place?
  {
  }

  lemma PriorExtends(db: Db, next: Db, m: Message, index: nat, prior: seq<AppliedResult>, result: AppliedResult)
    requires PriorOk(db, m, index, prior)
    requires forall k | k in db.processed :: k in next.processed
    requires forall k | k in db.outbox :: k in next.outbox && next.outbox[k] == db.outbox[k]
    requires m.Key(index) in next.processed
    requires result.commands == [] || result.commands == [m.Key(index)]
    requires result.commands != [] ==>
               m.Key(index) in next.outbox
               && (result.eventType == CancelType ==> next.outbox[m.Key(index)].payload.CancelPayload?)
    ensures PriorOk(next, m, index + 1, prior + [result])
  {
  }

  lemma OutboxAfter(db: Db, m: Message, key: EventKey, event: Event, change: Change)
    requires Refers(db, event, change) && key !in db.outbox
    ensures var next := Commit(db, m, key, event, change);
            && (forall k | k in db.outbox :: k in next.outbox && next.outbox[k] == db.outbox[k])
            && (key in next.outbox <==> change.Commands())
            && (change.CancelOrder? ==> next.outbox[key].payload.CancelPayload?)
  {
  }

  lemma {:induction false} EventsKeepInv(db: Db, m: Message, index: nat, prior: seq<AppliedResult>)
    requires index <= |m.events| && Inv(db) && PriorOk(db, m, index, prior)
    ensures Inv(ApplyFrom(db, m, index, prior).0)
    decreases |m.events| - index
  {
    hide Inv, PriorOk, ApplyEvent;
    if index < |m.events| {
      EventKeepsInv(db, m, index, prior);
      var (next, result) := ApplyEvent(db, m, index, prior);
      EventsKeepInv(next, m, index + 1, prior + [result]);
    }
  }

  lemma {:induction false} StepKeepsInv(db: Db, op: Op)
    requires Inv(db)
    ensures Inv(Step(db, op))
  {
    hide Inv, ApplyFrom, ApplyReport;
    match op
    case Process(m) => EventsKeepInv(db, m, 0, []);
    case Report(command, state, at) => ReportKeepsInv(db, command, state, at);
  }

  lemma {:induction false} RunMeetsInv(db: Db, ops: seq<Op>)
    requires Inv(db)
    ensures Inv(Run(db, ops))
    decreases |ops|
  {
    hide Inv, Step;
    if ops != [] {
      StepKeepsInv(db, ops[0]);
      RunMeetsInv(Step(db, ops[0]), ops[1..]);
    }
  }

  /** The states some sequence of messages and reports leads to from empty tables. */
  ghost predicate Reachable(db: Db) {
    exists ops :: db == Run(EMPTY, ops)
  }

  /** Every reachable state meets the invariant. */
  lemma ReachableMeetsInv(db: Db)
    requires Reachable(db)
    ensures Inv(db)
  {
    hide Inv, Run;
    var ops :| db == Run(EMPTY, ops);
    EmptyMeetsInv();
    RunMeetsInv(EMPTY, ops);
  }
}
