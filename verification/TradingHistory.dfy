/** How the trading tables change over a run, and how many rows they hold. */
module TradingHistory {
  import opened Wrappers
  import opened TradingModel
  import opened TradingInvariant

  // ---------- Counting ----------

  function PendingRows(db: Db): set<EventKey> {
    set k | k in db.orders && db.orders[k].state == Pending
  }

  function CancelledRows(db: Db): set<EventKey> {
    set k | k in db.orders && db.orders[k].state in {CancelRequested, CancelUnknown, CancelFailed, Cancelled}
  }

  function FilledRows(db: Db): set<EventKey> {
    set k | k in db.orders && db.orders[k].state == Filled
  }

  function PlaceCommands(db: Db): set<EventKey> {
    set c | c in db.outbox && db.outbox[c].payload.PlacePayload?
  }

  function CancelCommands(db: Db): set<EventKey> {
    set c | c in db.outbox && db.outbox[c].payload.CancelPayload?
  }

  /** A map that is one to one from `s` onto `t`. */
  ghost predicate Bijection(f: map<EventKey, EventKey>, s: set<EventKey>, t: set<EventKey>) {
    && f.Keys == s
    && (forall a | a in s :: f[a] in t)
    && (forall b | b in t :: exists a :: a in s && f[a] == b)
    && (forall a, b | a in s && b in s && f[a] == f[b] :: a == b)
  }

  lemma {:induction false} BijectionKeepsSize(f: map<EventKey, EventKey>, s: set<EventKey>, t: set<EventKey>)
    requires Bijection(f, s, t)
    ensures |s| == |t|
    decreases s
  {
    if s == {} {
      assert t == {};
    } else {
      var a :| a in s;
      var g := map k | k in s - {a} :: f[k];
      forall b | b in t - {f[a]}
        ensures exists k :: k in s - {a} && g[k] == b
      {
        var k :| k in s && f[k] == b;
        assert g[k] == b;
      }
      BijectionKeepsSize(g, s - {a}, t - {f[a]});
    }
  }

  lemma CancelsMatchOrders(db: Db)
    requires CommandsOk(db.outbox, db.orders) && CancelsOk(db.outbox, db.orders)
    ensures |CancelCommands(db)| == |CancelledRows(db)|
  {
    var f := map c | c in CancelCommands(db) :: db.outbox[c].order;
    forall c | c in CancelCommands(db)
      ensures f[c] in CancelledRows(db) && IsCancelOf(db.outbox, c, f[c])
    {
      ReportedCommandOk(db, c);
    }
    forall k | k in CancelledRows(db)
      ensures exists c :: c in CancelCommands(db) && f[c] == k
    {
      var c :| IsCancelOf(db.outbox, c, k);
      assert c in CancelCommands(db) && f[c] == k;
    }
    BijectionKeepsSize(f, CancelCommands(db), CancelledRows(db));
  }

  lemma PositionsMatchOrders(db: Db)
    requires PositionsOk(db.positions, db.orders)
    ensures |db.positions| == |FilledRows(db)|
  {
    var f := map p | p in db.positions :: db.positions[p].sourceOrder;
    forall p | p in db.positions
      ensures f[p] in FilledRows(db) && IsPositionOf(db.positions, p, f[p])
    {
      assert PositionOk(db.positions[p], db.orders);
    }
    forall k | k in FilledRows(db)
      ensures exists p :: p in db.positions.Keys && f[p] == k
    {
      var p :| IsPositionOf(db.positions, p, k);
      assert f[p] == k;
    }
    BijectionKeepsSize(f, db.positions.Keys, FilledRows(db));
  }

  lemma OrdersMatchPlaces(db: Db)
    requires CommandsOk(db.outbox, db.orders)
    ensures db.orders.Keys == PlaceCommands(db)
  {
    assert forall c | c in db.outbox :: CommandOk(c, db.outbox[c], db.orders);
    assert forall k | k in db.orders :: IsPlaceOf(db.outbox, k);
  }

  lemma OrdersSplit(db: Db)
    requires OrdersOk(db.orders, db.sessions)
    ensures |db.orders| == |PendingRows(db)| + |CancelledRows(db)| + |FilledRows(db)|
  {
    hide OrdersOk, PendingRows, CancelledRows, FilledRows;
    OrdersAreInThreeStates(db);
    assert |db.orders.Keys| == |(PendingRows(db) + CancelledRows(db)) + FilledRows(db)|;
  }

  lemma OrdersAreInThreeStates(db: Db)
    requires OrdersOk(db.orders, db.sessions)
    ensures db.orders.Keys == (PendingRows(db) + CancelledRows(db)) + FilledRows(db)
    ensures PendingRows(db) !! CancelledRows(db) && (PendingRows(db) + CancelledRows(db)) !! FilledRows(db)
  {
    assert forall k | k in db.orders :: OrderOk(db.orders[k], db.sessions);
  }

  /** In every reachable state the rows of the three tables add up. */
  lemma RowsAddUp(db: Db)
    requires Reachable(db)
    ensures |db.orders| == |PlaceCommands(db)|
    ensures |db.orders| == |PendingRows(db)| + |CancelCommands(db)| + |db.positions|
  {
    hide Reachable, OrdersOk, CommandsOk, CancelsOk, PositionsOk;
    ReachableMeetsInv(db);
    OrdersMatchPlaces(db);
    OrdersSplit(db);
    CancelsMatchOrders(db);
    PositionsMatchOrders(db);
  }

  // ---------- What never changes back ----------

  ghost predicate SessionEvolves(a: Session, b: Session) {
    && SameSlot(a, b)
    && a.createdAt == b.createdAt
    && (a.state in {Ended, NoTrading} ==> b == a)
  }

  /** No order returns to pending, a filled one stays as it is, and a cancellation is never turned into a fill. */
  ghost predicate OrderEvolves(a: Order, b: Order) {
    && a.session == b.session && a.instrument == b.instrument && a.side == b.side && a.orderType == b.orderType
    && a.provider == b.provider && a.entry == b.entry && a.stopLoss == b.stopLoss && a.takeProfits == b.takeProfits
    && a.createdAt == b.createdAt
    && (b.state == Pending ==> b == a)
    && (a.state == Filled ==> b == a)
    && (IsCancelState(a.state) ==> IsCancelState(b.state))
  }

  ghost predicate PositionEvolves(a: Position, b: Position) {
    && a.session == b.session && a.sourceOrder == b.sourceOrder && a.instrument == b.instrument && a.side == b.side
    && a.entry == b.entry && a.stopLoss == b.stopLoss && a.takeProfits == b.takeProfits && a.createdAt == b.createdAt
    && (a.state != Active ==> b == a)
  }

  ghost predicate SessionsEvolve(a: Sessions, b: Sessions) {
    forall k | k in a :: k in b && SessionEvolves(a[k], b[k])
  }

  ghost predicate OrdersEvolve(a: Orders, b: Orders) {
    forall k | k in a :: k in b && OrderEvolves(a[k], b[k])
  }

  ghost predicate PositionsEvolve(a: Positions, b: Positions) {
    forall k | k in a :: k in b && PositionEvolves(a[k], b[k])
  }

  ghost predicate CommandsEvolve(a: Outbox, b: Outbox) {
    forall k | k in a :: k in b && SameButState(a[k], b[k])
  }

  ghost predicate RecordsStay(a: Db, b: Db) {
    && (forall k | k in a.days :: k in b.days && b.days[k] == a.days[k])
    && (forall k | k in a.processed :: k in b.processed && b.processed[k] == a.processed[k])
    && (forall k | k in a.reviews :: k in b.reviews && b.reviews[k] == a.reviews[k])
  }

  /** An order is added only to a session that takes orders, on a date that is not closed. */
  ghost predicate MayHold(a: Db, session: EventKey, row: Session) {
    && (session in a.sessions ==> a.sessions[session].state !in {Ended, NoTrading})
    && (forall d | d in a.days :: !SameDate(a.days[d], row))
  }

  ghost predicate NewOrdersAllowed(a: Db, b: Db) {
    forall k | k in b.orders && k !in a.orders ::
      b.orders[k].session in b.sessions && MayHold(a, b.orders[k].session, b.sessions[b.orders[k].session])
  }

  ghost predicate Evolves(a: Db, b: Db) {
    && SessionsEvolve(a.sessions, b.sessions)
    && OrdersEvolve(a.orders, b.orders)
    && PositionsEvolve(a.positions, b.positions)
    && CommandsEvolve(a.outbox, b.outbox)
    && RecordsStay(a, b)
    && NewOrdersAllowed(a, b)
  }

  lemma MayHoldEarlier(a: Db, b: Db, session: EventKey, row: Session)
    requires SessionsEvolve(a.sessions, b.sessions) && RecordsStay(a, b) && MayHold(b, session, row)
    ensures MayHold(a, session, row)
  {
  }

  lemma NewOrdersCompose(a: Db, b: Db, c: Db)
    requires SessionsEvolve(a.sessions, b.sessions) && RecordsStay(a, b) && NewOrdersAllowed(a, b)
    requires SessionsEvolve(b.sessions, c.sessions) && OrdersEvolve(b.orders, c.orders) && NewOrdersAllowed(b, c)
    ensures NewOrdersAllowed(a, c)
  {
    forall k | k in c.orders && k !in a.orders
      ensures c.orders[k].session in c.sessions && MayHold(a, c.orders[k].session, c.sessions[c.orders[k].session])
    {
      var session := c.orders[k].session;
      if k in b.orders {
        assert OrderEvolves(b.orders[k], c.orders[k]);
        assert SessionEvolves(b.sessions[session], c.sessions[session]);
      } else {
        MayHoldEarlier(a, b, session, c.sessions[session]);
      }
    }
  }

  lemma EvolvesCompose(a: Db, b: Db, c: Db)
    requires Evolves(a, b) && Evolves(b, c)
    ensures Evolves(a, c)
  {
    NewOrdersCompose(a, b, c);
    hide NewOrdersAllowed;
  }

  lemma SessionsAfterCommit(db: Db, m: Message, key: EventKey, event: Event, change: Change)
    requires Fresh(db, key) && Legal(db, m, key, event, change)
    ensures SessionsEvolve(db.sessions, Commit(db, m, key, event, change).sessions)
  {
  }

  lemma OrdersAfterCommit(db: Db, m: Message, key: EventKey, event: Event, change: Change)
    requires Fresh(db, key) && Legal(db, m, key, event, change)
    ensures OrdersEvolve(db.orders, Commit(db, m, key, event, change).orders)
  {
  }

  lemma PositionsAfterCommit(db: Db, m: Message, key: EventKey, event: Event, change: Change)
    requires Fresh(db, key) && Legal(db, m, key, event, change)
    ensures PositionsEvolve(db.positions, Commit(db, m, key, event, change).positions)
  {
  }

  lemma RecordsAfterCommit(db: Db, m: Message, key: EventKey, event: Event, change: Change)
    requires Fresh(db, key) && Legal(db, m, key, event, change)
    ensures RecordsStay(db, Commit(db, m, key, event, change))
    ensures CommandsEvolve(db.outbox, Commit(db, m, key, event, change).outbox)
  {
  }

  lemma NewOrdersAfterCommit(db: Db, m: Message, key: EventKey, event: Event, change: Change)
    requires Fresh(db, key) && Legal(db, m, key, event, change)
    ensures NewOrdersAllowed(db, Commit(db, m, key, event, change))
  {
    assert forall d | d in db.days && db.days[d].channel == m.channel && db.days[d].date == m.Date() ::
        d in ClosedDays(db, m.channel, m.Date());
  }

  lemma {:induction false} CommitEvolves(db: Db, m: Message, key: EventKey, event: Event, change: Change)
    requires Inv(db) && Legal(db, m, key, event, change)
    ensures Evolves(db, Commit(db, m, key, event, change))
  {
    hide Inv, Legal, Fresh, Commit, SessionsEvolve, OrdersEvolve, PositionsEvolve, CommandsEvolve, RecordsStay, NewOrdersAllowed;
    LegalRefers(db, m, key, event, change);
    UnprocessedIsFresh(db, key);
    SessionsAfterCommit(db, m, key, event, change);
    OrdersAfterCommit(db, m, key, event, change);
    PositionsAfterCommit(db, m, key, event, change);
    RecordsAfterCommit(db, m, key, event, change);
    NewOrdersAfterCommit(db, m, key, event, change);
  }

  lemma OrdersAfterReport(db: Db, command: EventKey, state: CommandState, at: int)
    requires command in db.outbox && CommandOk(command, db.outbox[command], db.orders)
    ensures OrdersEvolve(db.orders, ApplyReport(db, command, state, at).orders)
    ensures ApplyReport(db, command, state, at).orders.Keys == db.orders.Keys
  {
  }

  lemma CommandsAfterReport(db: Db, command: EventKey, state: CommandState, at: int)
    requires command in db.outbox
    ensures CommandsEvolve(db.outbox, ApplyReport(db, command, state, at).outbox)
  {
    ReportMoves(db, command, state, at);
  }

  lemma OtherTablesAfterReport(db: Db, command: EventKey, state: CommandState, at: int)
    requires ApplyReport(db, command, state, at).orders.Keys == db.orders.Keys
    ensures var next := ApplyReport(db, command, state, at);
            && SessionsEvolve(db.sessions, next.sessions) && PositionsEvolve(db.positions, next.positions)
            && RecordsStay(db, next) && NewOrdersAllowed(db, next)
  {
  }

  lemma CommandsAreOk(db: Db)
    requires Inv(db)
    ensures CommandsOk(db.outbox, db.orders)
  {
  }

  lemma {:induction false} ReportEvolves(db: Db, command: EventKey, state: CommandState, at: int)
    requires Inv(db)
    ensures Evolves(db, ApplyReport(db, command, state, at))
  {
    if command in db.outbox {
      hide Inv, CommandsOk, CommandOk, ApplyReport, SessionsEvolve, OrdersEvolve, PositionsEvolve, CommandsEvolve, RecordsStay, NewOrdersAllowed;
      CommandsAreOk(db);
      ReportedCommandOk(db, command);
      OrdersAfterReport(db, command, state, at);
      CommandsAfterReport(db, command, state, at);
      OtherTablesAfterReport(db, command, state, at);
    } else {
      EvolvesFromItself(db);
    }
  }

  lemma {:induction false} EventEvolves(db: Db, m: Message, index: nat, prior: seq<AppliedResult>)
    requires index < |m.events| && Inv(db) && PriorOk(db, m, index, prior)
    ensures Evolves(db, ApplyEvent(db, m, index, prior).0)
  {
    var key := m.Key(index);
    if key !in db.processed {
      ChangeIsLegal(db, m, index, prior);
      hide Inv, Legal, Evolves, ChangeOf, Write, Note;
      CommitEvolves(db, m, key, m.events[index], ChangeOf(db, m, index, prior));
    } else {
      EvolvesFromItself(db);
    }
  }

  lemma EvolvesFromItself(db: Db)
    ensures Evolves(db, db)
  {
  }

  lemma {:induction false} EventsEvolve(db: Db, m: Message, index: nat, prior: seq<AppliedResult>)
    requires index <= |m.events| && Inv(db) && PriorOk(db, m, index, prior)
    ensures Evolves(db, ApplyFrom(db, m, index, prior).0)
    decreases |m.events| - index
  {
    hide Inv, PriorOk, ApplyEvent, Evolves;
    if index < |m.events| {
      EventKeepsInv(db, m, index, prior);
      EventEvolves(db, m, index, prior);
      var (next, result) := ApplyEvent(db, m, index, prior);
      EventsEvolve(next, m, index + 1, prior + [result]);
      EvolvesCompose(db, next, ApplyFrom(db, m, index, prior).0);
    } else {
      EvolvesFromItself(db);
    }
  }

  lemma StepEvolves(db: Db, op: Op)
    requires Inv(db)
    ensures Evolves(db, Step(db, op))
  {
    hide Inv, Evolves, ApplyReport;
    match op
    case Process(m) =>
      NothingIsPrior(db, m);
      EventsEvolve(db, m, 0, []);
    case Report(command, state, at) => ReportEvolves(db, command, state, at);
  }

  lemma NothingIsPrior(db: Db, m: Message)
    ensures PriorOk(db, m, 0, [])
  {
  }

  /** What a run may do to the tables, from any reachable state. */
  lemma {:induction false} RunEvolves(db: Db, ops: seq<Op>)
    requires Inv(db)
    ensures Evolves(db, Run(db, ops))
    decreases |ops|
  {
    hide Inv, Step, Evolves;
    if ops == [] {
      EvolvesFromItself(db);
    } else {
      StepKeepsInv(db, ops[0]);
      StepEvolves(db, ops[0]);
      RunEvolves(Step(db, ops[0]), ops[1..]);
      EvolvesCompose(db, Step(db, ops[0]), Run(db, ops));
    }
  }

  // ---------- What a reader may take from it ----------

  function OrdersOf(db: Db, session: EventKey): set<EventKey> {
    set k | k in db.orders && db.orders[k].session == session
  }

  function OrdersOn(db: Db, channel: int, date: int): set<EventKey> {
    set k | k in db.orders && OnDay(db.sessions, db.orders[k].session, channel, date)
  }

  lemma FrozenBetween(a: Db, b: Db, session: EventKey)
    requires SessionsEvolve(a.sessions, b.sessions) && OrdersEvolve(a.orders, b.orders) && NewOrdersAllowed(a, b)
    requires session in a.sessions && a.sessions[session].state in {Ended, NoTrading}
    ensures session in b.sessions && b.sessions[session] == a.sessions[session]
    ensures OrdersOf(b, session) == OrdersOf(a, session)
  {
    assert forall k | k in a.orders :: k in b.orders && b.orders[k].session == a.orders[k].session;
  }

  /** An ended or silenced session stays as it is and its order set is final. */
  lemma ClosedSessionsAreFrozen(db: Db, ops: seq<Op>, session: EventKey)
    requires Reachable(db) && session in db.sessions && db.sessions[session].state in {Ended, NoTrading}
    ensures session in Run(db, ops).sessions && Run(db, ops).sessions[session] == db.sessions[session]
    ensures OrdersOf(Run(db, ops), session) == OrdersOf(db, session)
  {
    hide Reachable, Inv, Run, SessionsEvolve, OrdersEvolve, PositionsEvolve, CommandsEvolve, RecordsStay, NewOrdersAllowed, OrdersOf;
    ReachableMeetsInv(db);
    RunEvolves(db, ops);
    FrozenBetween(db, Run(db, ops), session);
  }

  lemma ClosedBetween(a: Db, b: Db, d: EventKey, day: Day)
    requires OrdersOk(a.orders, a.sessions) && SessionsEvolve(a.sessions, b.sessions)
    requires OrdersEvolve(a.orders, b.orders) && NewOrdersAllowed(a, b)
    requires d in a.days && a.days[d] == day
    ensures OrdersOn(b, day.channel, day.date) == OrdersOn(a, day.channel, day.date)
  {
    forall k | k in a.orders
      ensures k in OrdersOn(b, day.channel, day.date) <==> k in OrdersOn(a, day.channel, day.date)
    {
      assert OrderOk(a.orders[k], a.sessions) && OrderEvolves(a.orders[k], b.orders[k]);
      assert SessionEvolves(a.sessions[a.orders[k].session], b.sessions[a.orders[k].session]);
    }
  }

  lemma ClosedDateAcceptsNothing(db: Db, d: EventKey)
    requires DaysOk(db.days, db.sessions) && d in db.days
    ensures SessionsIn(db, db.days[d].channel, db.days[d].date, {AcceptingSignals, Ending}) == {}
  {
    assert forall s | s in db.sessions && OnDay(db.sessions, s, db.days[d].channel, db.days[d].date) :: SameDate(db.days[d], db.sessions[s]);
  }

  /** After a no-trading day no session of its channel and date accepts signals, and no order is added there. */
  lemma ClosedDatesGainNoOrder(db: Db, ops: seq<Op>, d: EventKey)
    requires Reachable(db) && d in db.days
    ensures var next, day := Run(db, ops), db.days[d];
            && OrdersOn(next, day.channel, day.date) == OrdersOn(db, day.channel, day.date)
            && SessionsIn(next, day.channel, day.date, {AcceptingSignals, Ending}) == {}
  {
    hide Reachable, Run, SessionsOk, DaysOk, OrdersOk, CommandsOk, CancelsOk, DependenciesOk, PositionsOk, SourcesOk, ReviewsOk;
    hide Reachable, SessionsEvolve, OrdersEvolve, PositionsEvolve, CommandsEvolve, NewOrdersAllowed, OrdersOn, SessionsIn;
    ReachableMeetsInv(db);
    RunEvolves(db, ops);
    RunMeetsInv(db, ops);
    ClosedBetween(db, Run(db, ops), d, db.days[d]);
    ClosedDateAcceptsNothing(Run(db, ops), d);
  }

  /** An event sent to manual review, or with nothing to do, leaves every trading table as it was. */
  lemma RefusalsChangeNoTradingState(db: Db, m: Message, index: nat, prior: seq<AppliedResult>)
    requires index < |m.events|
    requires m.Key(index) !in db.processed
    ensures var (next, result) := ApplyEvent(db, m, index, prior);
            && m.Key(index) in next.processed && next.processed[m.Key(index)].outcome == result.outcome
            && next.reviews.Keys == db.reviews.Keys + (if result.outcome == ManualReview then {m.Key(index)} else {})
            && (result.reviewed <==> result.outcome == ManualReview)
            && (result.outcome != Applied ==>
                  && next.sessions == db.sessions && next.days == db.days && next.orders == db.orders
                  && next.positions == db.positions && next.outbox == db.outbox)
  {
    hide ChangeOf, Write;
    var key, event, change := m.Key(index), m.events[index], ChangeOf(db, m, index, prior);
    ChangeRefers(db, m, index, prior);
    WriteKeepsRecords(db, m, key, event, change);
    RefusalWritesNothing(db, m, key, event, change);
  }

  lemma RefusalWritesNothing(db: Db, m: Message, key: EventKey, event: Event, change: Change)
    requires Refers(db, event, change)
    ensures change.Outcome() != Applied ==> Write(db, m, key, event, change) == db
  {
  }

  /**
    Only placements and cancellations command the broker: the end of a session touches neither orders nor positions, and
    a cancellation touches no position.
   */
  lemma {:induction false} OnlyInstructionsCommand(db: Db, m: Message, index: nat, prior: seq<AppliedResult>)
    requires index < |m.events|
    ensures var next, event := ApplyEvent(db, m, index, prior).0, m.events[index];
            && (!event.Place? && !event.Cancel? ==> next.outbox == db.outbox)
            && (event.EndSession? || event.NoTradingDay? || event.TradeResult? ==> next.orders == db.orders)
            && (!event.Trigger? && !event.TradeResult? ==> next.positions == db.positions)
  {
    hide ChangeOf, Write;
    if m.Key(index) !in db.processed {
      ChangeRefers(db, m, index, prior);
      ChangeIsOfItsEvent(db, m, index, prior);
      WriteIsOfItsKind(db, m, m.Key(index), m.events[index], ChangeOf(db, m, index, prior));
    }
  }

  lemma ChangeIsOfItsEvent(db: Db, m: Message, index: nat, prior: seq<AppliedResult>)
    requires index < |m.events|
    ensures var change, event := ChangeOf(db, m, index, prior), m.events[index];
            match change
            case PlaceOrder(_, _, _) => event.Place?
            case CancelOrder(_) => event.Cancel?
            case FillOrder(_) => event.Trigger?
            case ClosePosition(_, _) => event.TradeResult?
            case _ => true
  {
  }

  lemma WriteIsOfItsKind(db: Db, m: Message, key: EventKey, event: Event, change: Change)
    requires Refers(db, event, change)
    ensures var w := Write(db, m, key, event, change);
            && (!change.Commands() ==> w.outbox == db.outbox)
            && (!change.Commands() && !change.FillOrder? ==> w.orders == db.orders)
            && (!change.FillOrder? && !change.ClosePosition? ==> w.positions == db.positions)
  {
  }

  // ---------- Orders, commands and positions together ----------

  /** The state of a cancelled order by the state of its cancellation. */
  predicate Reflects(command: CommandState, order: OrderState) {
    match order
    case Cancelled => command == Succeeded
    case CancelUnknown => command == UnknownOutcome
    case CancelFailed => command == Failed
    case CancelRequested => command == CommandBlocked || command == CommandPending
    case _ => false
  }

  /** In every reachable state an order's cancellation and position follow from its state, and the other way round. */
  lemma OrdersFollowTheirCommands(ops: seq<Op>, k: EventKey)
    requires k in Run(EMPTY, ops).orders
    ensures var db := Run(EMPTY, ops);
            var state := db.orders[k].state;
            && IsPlaceOf(db.outbox, k) && db.outbox[k].order == k
            && (IsCancelState(state) <==> exists c :: IsCancelOf(db.outbox, c, k))
            && (forall c | IsCancelOf(db.outbox, c, k) :: Reflects(db.outbox[c].state, state))
            && (forall b, c | IsCancelOf(db.outbox, b, k) && IsCancelOf(db.outbox, c, k) :: b == c)
            && (state == Filled <==> exists p :: IsPositionOf(db.positions, p, k))
            && (forall p, q | IsPositionOf(db.positions, p, k) && IsPositionOf(db.positions, q, k) :: p == q)
            && (IsCancelState(state) || state == Filled || state == Pending)
  {
    hide Inv, Run;
    EmptyMeetsInv();
    RunMeetsInv(EMPTY, ops);
    CouplingOf(Run(EMPTY, ops), k);
  }

  lemma {:induction false} CouplingOf(db: Db, k: EventKey)
    requires Inv(db) && k in db.orders
    ensures var state := db.orders[k].state;
            && IsPlaceOf(db.outbox, k) && db.outbox[k].order == k
            && (IsCancelState(state) <==> exists c :: IsCancelOf(db.outbox, c, k))
            && (forall c | IsCancelOf(db.outbox, c, k) :: Reflects(db.outbox[c].state, state))
            && (forall b, c | IsCancelOf(db.outbox, b, k) && IsCancelOf(db.outbox, c, k) :: b == c)
            && (state == Filled <==> exists p :: IsPositionOf(db.positions, p, k))
            && (forall p, q | IsPositionOf(db.positions, p, k) && IsPositionOf(db.positions, q, k) :: p == q)
            && (IsCancelState(state) || state == Filled || state == Pending)
  {
    OrderHasPlace(db, k);
    CancelCoupling(db, k);
    PositionCoupling(db, k);
    OrderStates(db, k);
  }

  lemma OrderHasPlace(db: Db, k: EventKey)
    requires CommandsOk(db.outbox, db.orders) && k in db.orders
    ensures IsPlaceOf(db.outbox, k) && db.outbox[k].order == k
  {
    assert CommandOk(k, db.outbox[k], db.orders);
  }

  lemma CancelCoupling(db: Db, k: EventKey)
    requires CommandsOk(db.outbox, db.orders) && CancelsOk(db.outbox, db.orders) && k in db.orders
    ensures IsCancelState(db.orders[k].state) <==> exists c :: IsCancelOf(db.outbox, c, k)
    ensures forall c | IsCancelOf(db.outbox, c, k) :: Reflects(db.outbox[c].state, db.orders[k].state)
    ensures forall b, c | IsCancelOf(db.outbox, b, k) && IsCancelOf(db.outbox, c, k) :: b == c
  {
    forall c | IsCancelOf(db.outbox, c, k)
      ensures Reflects(db.outbox[c].state, db.orders[k].state)
    {
      ReportedCommandOk(db, c);
    }
  }

  lemma PositionCoupling(db: Db, k: EventKey)
    requires PositionsOk(db.positions, db.orders) && k in db.orders
    ensures db.orders[k].state == Filled <==> exists p :: IsPositionOf(db.positions, p, k)
    ensures forall p, q | IsPositionOf(db.positions, p, k) && IsPositionOf(db.positions, q, k) :: p == q
  {
    forall p | IsPositionOf(db.positions, p, k)
      ensures db.orders[k].state == Filled
    {
      assert PositionOk(db.positions[p], db.orders);
    }
  }

  lemma OrderStates(db: Db, k: EventKey)
    requires OrdersOk(db.orders, db.sessions) && k in db.orders
    ensures IsCancelState(db.orders[k].state) || db.orders[k].state == Filled || db.orders[k].state == Pending
  {
    assert OrderOk(db.orders[k], db.sessions);
  }

  // ---------- Leaving CANCELLED ----------

  lemma CommitKeepsSettledOrders(db: Db, m: Message, key: EventKey, event: Event, change: Change, k: EventKey)
    requires Fresh(db, key) && Legal(db, m, key, event, change) && k in db.orders && db.orders[k].state != Pending
    ensures var next := Commit(db, m, key, event, change); k in next.orders && next.orders[k] == db.orders[k]
  {
  }

  lemma {:induction false} MessageKeepsSettledOrders(
      db: Db, m: Message, index: nat, prior: seq<AppliedResult>, k: EventKey)
    requires index <= |m.events| && Inv(db) && PriorOk(db, m, index, prior) && k in db.orders && db.orders[k].state != Pending
    ensures var next := ApplyFrom(db, m, index, prior).0; k in next.orders && next.orders[k] == db.orders[k]
    decreases |m.events| - index
  {
    if index < |m.events| {
      EventKeepsSettledOrders(db, m, index, prior, k);
      EventKeepsInv(db, m, index, prior);
      hide Inv, PriorOk, ApplyEvent;
      var (next, result) := ApplyEvent(db, m, index, prior);
      MessageKeepsSettledOrders(next, m, index + 1, prior + [result], k);
    }
  }

  lemma {:induction false} EventKeepsSettledOrders(db: Db, m: Message, index: nat, prior: seq<AppliedResult>, k: EventKey)
    requires index < |m.events| && Inv(db) && PriorOk(db, m, index, prior) && k in db.orders && db.orders[k].state != Pending
    ensures var next := ApplyEvent(db, m, index, prior).0; k in next.orders && next.orders[k] == db.orders[k]
  {
    var key := m.Key(index);
    if key !in db.processed {
      ChangeIsLegal(db, m, index, prior);
      hide Inv, Legal, Write, Note, ChangeOf;
      UnprocessedIsFresh(db, key);
      CommitKeepsSettledOrders(db, m, key, m.events[index], ChangeOf(db, m, index, prior), k);
    }
  }

  lemma ReportOnOrder(db: Db, command: EventKey, state: CommandState, at: int, k: EventKey)
    requires command in db.outbox && CommandOk(command, db.outbox[command], db.orders) && k in db.orders
    ensures ApplyReport(db, command, state, at).orders[k]
            == if IsCancelOf(db.outbox, command, k) then ReportedOrder(db.orders[k], state, at) else db.orders[k]
  {
  }

  /** CANCELLED is not final: an order leaves it exactly when its cancellation is reported again as anything but a success. */
  lemma CancelledIsLeftExactlyByAReport(db: Db, op: Op, k: EventKey)
    requires Reachable(db) && k in db.orders && db.orders[k].state == Cancelled
    ensures k in Step(db, op).orders
    ensures Step(db, op).orders[k].state != Cancelled <==>
              op.Report? && op.state != Succeeded && IsCancelOf(db.outbox, op.command, k)
  {
    hide Reachable, Inv, ApplyFrom, IsCancelOf, CommandOk;
    ReachableMeetsInv(db);
    match op
    case Process(m) =>
      NothingIsPrior(db, m);
      MessageKeepsSettledOrders(db, m, 0, [], k);
    case Report(command, state, at) =>
      if command in db.outbox {
        CommandsAreOk(db);
        ReportedCommandOk(db, command);
        ReportOnOrder(db, command, state, at, k);
      } else {
        NotACommand(db, command, k);
      }
  }

  lemma NotACommand(db: Db, command: EventKey, k: EventKey)
    requires command !in db.outbox
    ensures !IsCancelOf(db.outbox, command, k)
  {
  }
}
