/**
  The order in which messages of different channels and broker reports reach the engine does not matter: any two
  interleavings with the same messages channel by channel and the same reports end in the same database.
 */
module TradingConfluence {
  import opened Wrappers
  import opened TradingModel
  import opened TradingInvariant
  import opened TradingHistory
  import opened TradingReplacement

  // ---------- The rows of one channel ----------

  function Part<T>(rows: map<EventKey, T>, channel: int): map<EventKey, T> {
    map k | k in rows && k.channel == channel :: rows[k]
  }

  function Slice(db: Db, channel: int): Db {
    Db(Part(db.sessions, channel), Part(db.days, channel), Part(db.orders, channel), Part(db.positions, channel),
       Part(db.processed, channel), Part(db.reviews, channel), Part(db.outbox, channel))
  }

  lemma PartsDetermine<T>(a: map<EventKey, T>, b: map<EventKey, T>)
    requires forall c :: Part(a, c) == Part(b, c)
    ensures a == b
  {
    forall k
      ensures k in a <==> k in b
      ensures k in a && k in b ==> a[k] == b[k]
    {
      assert Part(a, k.channel) == Part(b, k.channel);
      assert k in a <==> k in Part(a, k.channel);
      assert k in b <==> k in Part(b, k.channel);
    }
  }

  lemma SlicesDetermine(a: Db, b: Db)
    requires forall c :: Slice(a, c) == Slice(b, c)
    ensures a == b
  {
    forall c
      ensures Part(a.sessions, c) == Part(b.sessions, c) && Part(a.days, c) == Part(b.days, c)
      ensures Part(a.orders, c) == Part(b.orders, c) && Part(a.positions, c) == Part(b.positions, c)
      ensures Part(a.processed, c) == Part(b.processed, c) && Part(a.reviews, c) == Part(b.reviews, c)
      ensures Part(a.outbox, c) == Part(b.outbox, c)
    {
      assert Slice(a, c) == Slice(b, c);
    }
    PartsDetermine(a.sessions, b.sessions);
    PartsDetermine(a.days, b.days);
    PartsDetermine(a.orders, b.orders);
    PartsDetermine(a.positions, b.positions);
    PartsDetermine(a.processed, b.processed);
    PartsDetermine(a.reviews, b.reviews);
    PartsDetermine(a.outbox, b.outbox);
  }

  /** Rows that refer to each other carry the channel of their keys. */
  ghost predicate ChannelsAgree(db: Db) {
    && (forall k | k in db.sessions :: db.sessions[k].channel == k.channel)
    && (forall k | k in db.days :: db.days[k].channel == k.channel)
    && (forall k | k in db.orders :: db.orders[k].session.channel == k.channel)
    && (forall k | k in db.positions :: db.positions[k].session.channel == k.channel)
  }

  lemma InvMakesChannelsAgree(db: Db)
    requires Inv(db)
    ensures ChannelsAgree(db)
  {
    hide SessionsOk, DaysOk, OrdersOk, CommandsOk, CancelsOk, DependenciesOk, ReviewsOk;
    assert forall k | k in db.positions :: PositionOk(db.positions[k], db.orders);
  }

  // ---------- An event reads its channel only ----------

  lemma SetsAreLocal(db: Db, channel: int, date: int)
    requires ChannelsAgree(db)
    ensures var part := Slice(db, channel);
            && (forall states :: SessionsIn(part, channel, date, states) == SessionsIn(db, channel, date, states))
            && (forall name :: SessionsOf(part, channel, date, name) == SessionsOf(db, channel, date, name))
            && ClosedDays(part, channel, date) == ClosedDays(db, channel, date)
            && (forall side, orderType :: PendingOrders(part, channel, date, side, orderType) == PendingOrders(db, channel, date, side, orderType))
            && ActivePositions(part, channel, date) == ActivePositions(db, channel, date)
  {
  }

  lemma TwinsAreLocal(db: Db, session: EventKey, instrument: string, event: Event)
    requires ChannelsAgree(db) && event.Place?
    ensures Twins(Slice(db, session.channel), session, instrument, event) == Twins(db, session, instrument, event)
  {
  }

  lemma DecisionIsLocal(db: Db, m: Message, key: EventKey, event: Event, prior: seq<AppliedResult>)
    requires ChannelsAgree(db)
    ensures Decide(Slice(db, m.channel), m, key, event, prior) == Decide(db, m, key, event, prior)
  {
    SetsAreLocal(db, m.channel, m.Date());
    if event.Place? {
      PlaceIsLocal(db, m, key, event, prior);
    }
  }

  lemma PlaceIsLocal(db: Db, m: Message, key: EventKey, event: Event, prior: seq<AppliedResult>)
    requires ChannelsAgree(db) && event.Place?
    ensures DecidePlace(Slice(db, m.channel), m, key, event, prior) == DecidePlace(db, m, key, event, prior)
  {
    SetsAreLocal(db, m.channel, m.Date());
    var candidates := SessionsIn(db, m.channel, m.Date(), {AcceptingSignals, Ending, Ended});
    assert InstrumentsOf(Slice(db, m.channel), candidates) == InstrumentsOf(db, candidates);
    forall s: EventKey, name | s.channel == m.channel
      ensures Twins(Slice(db, m.channel), s, name, event) == Twins(db, s, name, event)
    {
      TwinsAreLocal(db, s, name, event);
    }
  }

  lemma ChangeIsLocal(db: Db, m: Message, index: nat, prior: seq<AppliedResult>)
    requires index < |m.events| && ChannelsAgree(db)
    ensures ChangeOf(Slice(db, m.channel), m, index, prior) == ChangeOf(db, m, index, prior)
  {
    hide Decide, ChannelsAgree;
    DecisionIsLocal(db, m, m.Key(index), m.events[index], prior);
    assert PriorVersions(Slice(db, m.channel), m.Key(index)) == PriorVersions(db, m.Key(index));
  }

  // ---------- An event writes its channel only ----------

  /** The rows a decision writes belong to this channel. */
  ghost predicate WritesTo(change: Change, channel: int) {
    match change
    case PlaceOrder(session, _, _) => session.channel == channel
    case CancelOrder(order) => order.channel == channel
    case FillOrder(order) => order.channel == channel
    case ClosePosition(position, _) => position.channel == channel
    case CloseSession(session) => session.channel == channel
    case _ => true
  }

  lemma LegalWritesToItsChannel(db: Db, m: Message, key: EventKey, event: Event, change: Change)
    requires ChannelsAgree(db) && Legal(db, m, key, event, change)
    ensures WritesTo(change, m.channel) && key.channel == m.channel
  {
  }

  lemma PartOfUpdate<T>(rows: map<EventKey, T>, k: EventKey, row: T, channel: int)
    ensures Part(rows[k := row], channel) == if k.channel == channel then Part(rows, channel)[k := row] else Part(rows, channel)
  {
  }

  lemma PartOfSilenced(db: Db, m: Message, key: EventKey, event: Event, channel: int)
    requires ChannelsAgree(db)
    ensures var next := Write(db, m, key, event, CloseDay);
            Part(next.sessions, channel) ==
              if channel == m.channel then Write(Slice(db, channel), m, key, event, CloseDay).sessions else Part(db.sessions, channel)
  {
  }

  lemma {:induction false} WriteIsLocal(db: Db, m: Message, key: EventKey, event: Event, change: Change)
    requires ChannelsAgree(db) && Refers(db, event, change) && WritesTo(change, m.channel) && key.channel == m.channel
    ensures Refers(Slice(db, m.channel), event, change)
    ensures Slice(Write(db, m, key, event, change), m.channel) == Write(Slice(db, m.channel), m, key, event, change)
  {
    var c := m.channel;
    match change
    case PlaceOrder(session, instrument, dependsOn) =>
      var next := Write(db, m, key, event, change);
      PartOfUpdate(db.sessions, session, next.sessions[session], c);
      PartOfUpdate(db.orders, key, next.orders[key], c);
      PartOfUpdate(db.outbox, key, next.outbox[key], c);
    case CancelOrder(order) =>
      var next := Write(db, m, key, event, change);
      PartOfUpdate(db.orders, order, next.orders[order], c);
      PartOfUpdate(db.outbox, key, next.outbox[key], c);
    case FillOrder(order) =>
      var next := Write(db, m, key, event, change);
      PartOfUpdate(db.orders, order, next.orders[order], c);
      PartOfUpdate(db.positions, key, next.positions[key], c);
    case ClosePosition(position, _) =>
      PartOfUpdate(db.positions, position, Write(db, m, key, event, change).positions[position], c);
    case CloseSession(session) =>
      PartOfUpdate(db.sessions, session, Write(db, m, key, event, change).sessions[session], c);
    case CloseDay =>
      PartOfSilenced(db, m, key, event, c);
      PartOfUpdate(db.days, key, Day(m.channel, m.Date(), m.at), c);
    case _ =>
  }

  lemma {:induction false} WriteLeavesOthers(
      db: Db, m: Message, key: EventKey, event: Event, change: Change, channel: int)
    requires ChannelsAgree(db) && Refers(db, event, change) && WritesTo(change, m.channel) && key.channel == m.channel
    requires channel != m.channel
    ensures Slice(Write(db, m, key, event, change), channel) == Slice(db, channel)
  {
    var next := Write(db, m, key, event, change);
    match change
    case PlaceOrder(session, instrument, dependsOn) =>
      PartOfUpdate(db.sessions, session, next.sessions[session], channel);
      PartOfUpdate(db.orders, key, next.orders[key], channel);
      PartOfUpdate(db.outbox, key, next.outbox[key], channel);
    case CancelOrder(order) =>
      PartOfUpdate(db.orders, order, next.orders[order], channel);
      PartOfUpdate(db.outbox, key, next.outbox[key], channel);
    case FillOrder(order) =>
      PartOfUpdate(db.orders, order, next.orders[order], channel);
      PartOfUpdate(db.positions, key, next.positions[key], channel);
    case ClosePosition(position, _) =>
      PartOfUpdate(db.positions, position, next.positions[position], channel);
    case CloseSession(session) =>
      PartOfUpdate(db.sessions, session, next.sessions[session], channel);
    case CloseDay =>
      PartOfSilenced(db, m, key, event, channel);
      PartOfUpdate(db.days, key, Day(m.channel, m.Date(), m.at), channel);
    case _ =>
  }

  lemma NoteIsLocal(db: Db, key: EventKey, event: Event, at: int, change: Change, channel: int)
    ensures Slice(Note(db, key, event, at, change), channel) ==
              if channel == key.channel then Note(Slice(db, channel), key, event, at, change) else Slice(db, channel)
  {
    PartOfUpdate(db.processed, key, Processed(TypeOf(event), event, change.Outcome(), at), channel);
    if change.Refuse? {
      PartOfUpdate(db.reviews, key, Review(change.reason, at), channel);
    }
  }

  /** One event on the rows of its channel is the event on the database; other channels are untouched. */
  lemma EventIsLocal(db: Db, m: Message, index: nat, prior: seq<AppliedResult>, other: int)
    requires index < |m.events| && Inv(db) && PriorOk(db, m, index, prior) && other != m.channel
    ensures var (next, result) := ApplyEvent(db, m, index, prior);
            && ApplyEvent(Slice(db, m.channel), m, index, prior) == (Slice(next, m.channel), result)
            && Slice(next, other) == Slice(db, other)
  {
    var c, key, event, change := m.channel, m.Key(index), m.events[index], ChangeOf(db, m, index, prior);
    InvMakesChannelsAgree(db);
    if key !in db.processed {
      ChangeIsLegal(db, m, index, prior);
      hide Inv, PriorOk, ChangeOf, ChannelsAgree, Legal, Write, Note, WritesTo;
      ChangeRefers(db, m, index, prior);
      LegalWritesToItsChannel(db, m, key, event, change);
      ChangeIsLocal(db, m, index, prior);
      WriteIsLocal(db, m, key, event, change);
      WriteLeavesOthers(db, m, key, event, change, other);
      NoteIsLocal(Write(db, m, key, event, change), key, event, m.at, change, c);
      NoteIsLocal(Write(db, m, key, event, change), key, event, m.at, change, other);
    }
  }

  lemma {:induction false} MessageIsLocal(db: Db, m: Message, index: nat, prior: seq<AppliedResult>, other: int)
    requires index <= |m.events| && Inv(db) && PriorOk(db, m, index, prior) && other != m.channel
    ensures var (next, results) := ApplyFrom(db, m, index, prior);
            && ApplyFrom(Slice(db, m.channel), m, index, prior) == (Slice(next, m.channel), results)
            && Slice(next, other) == Slice(db, other)
    decreases |m.events| - index
  {
    hide Inv, PriorOk, ApplyEvent, Slice;
    if index < |m.events| {
      var (next, result) := ApplyEvent(db, m, index, prior);
      EventKeepsInv(db, m, index, prior);
      EventIsLocal(db, m, index, prior, other);
      MessageIsLocal(next, m, index + 1, prior + [result], other);
    }
  }

  // ---------- Messages ----------

  /** The messages of one channel, in their order. */
  ghost function OfChannel(ops: seq<Op>, channel: int): seq<Op> {
    if ops == [] then []
    else if ops[0].Process? && ops[0].message.channel == channel then [ops[0]] + OfChannel(ops[1..], channel)
    else OfChannel(ops[1..], channel)
  }

  ghost predicate OnlyMessages(ops: seq<Op>) {
    forall op | op in ops :: op.Process?
  }

  lemma {:induction false} ChannelRunsAlone(db: Db, ops: seq<Op>, channel: int)
    requires Inv(db) && OnlyMessages(ops)
    ensures Slice(Run(db, ops), channel) == Run(Slice(db, channel), OfChannel(ops, channel))
    decreases |ops|
  {
    hide Inv, ApplyFrom, Slice;
    if ops != [] {
      var m := ops[0].message;
      var next := ApplyMessage(db, m);
      NothingIsPrior(db, m);
      StepKeepsInv(db, ops[0]);
      MessageIsLocal(db, m, 0, [], if m.channel == channel then channel + 1 else channel);
      ChannelRunsAlone(next, ops[1..], channel);
      if m.channel == channel {
        assert OfChannel(ops, channel)[0] == ops[0] && OfChannel(ops, channel)[1..] == OfChannel(ops[1..], channel);
      }
    }
  }

  /** Message sequences that agree channel by channel end in the same database. */
  lemma {:induction false} MessagesOfDifferentChannelsCommute(db: Db, ops1: seq<Op>, ops2: seq<Op>)
    requires Reachable(db) && OnlyMessages(ops1) && OnlyMessages(ops2)
    requires forall c :: OfChannel(ops1, c) == OfChannel(ops2, c)
    ensures Run(db, ops1) == Run(db, ops2)
  {
    hide Reachable, Inv, Slice, Run, OnlyMessages;
    ReachableMeetsInv(db);
    forall c
      ensures Slice(Run(db, ops1), c) == Slice(Run(db, ops2), c)
    {
      ChannelRunsAlone(db, ops1, c);
      ChannelRunsAlone(db, ops2, c);
      assert OfChannel(ops1, c) == OfChannel(ops2, c);
    }
    SlicesDetermine(Run(db, ops1), Run(db, ops2));
  }

  // ---------- Reports ----------

  /** A report moves only an order whose cancellation was requested, so the pending orders stay. */
  lemma ReportKeepsPendingOrders(
      db: Db, command: EventKey, state: CommandState, at: int, channel: int, date: int, side: Side,
      orderType: OrderType)
    requires command in db.outbox && CommandOk(command, db.outbox[command], db.orders)
    ensures PendingOrders(ApplyReport(db, command, state, at), channel, date, side, orderType)
            == PendingOrders(db, channel, date, side, orderType)
  {
  }

  lemma {:induction false} ReportKeepsSets(
      db: Db, command: EventKey, state: CommandState, at: int, channel: int, date: int)
    ensures var next := ApplyReport(db, command, state, at);
            && (forall states :: SessionsIn(next, channel, date, states) == SessionsIn(db, channel, date, states))
            && (forall name :: SessionsOf(next, channel, date, name) == SessionsOf(db, channel, date, name))
            && ClosedDays(next, channel, date) == ClosedDays(db, channel, date)
            && ActivePositions(next, channel, date) == ActivePositions(db, channel, date)
  {
    hide ReportedCommand, ReportedOrder;
    SameTablesSameSets(db, ApplyReport(db, command, state, at), channel, date);
  }

  lemma SameTablesSameSets(a: Db, b: Db, channel: int, date: int)
    requires a.sessions == b.sessions && a.days == b.days && a.positions == b.positions
    ensures forall states :: SessionsIn(b, channel, date, states) == SessionsIn(a, channel, date, states)
    ensures forall name :: SessionsOf(b, channel, date, name) == SessionsOf(a, channel, date, name)
    ensures ClosedDays(b, channel, date) == ClosedDays(a, channel, date)
    ensures ActivePositions(b, channel, date) == ActivePositions(a, channel, date)
  {
  }

  lemma ReportKeepsTwins(
      db: Db, command: EventKey, state: CommandState, at: int, session: EventKey, instrument: string, event: Event)
    requires command in db.outbox && CommandOk(command, db.outbox[command], db.orders) && event.Place?
    ensures Twins(ApplyReport(db, command, state, at), session, instrument, event) == Twins(db, session, instrument, event)
  {
  }

  lemma ReportKeepsDecision(
      db: Db, command: EventKey, state: CommandState, at: int, m: Message, key: EventKey, event: Event,
      prior: seq<AppliedResult>)
    requires command in db.outbox && CommandOk(command, db.outbox[command], db.orders)
    ensures Decide(ApplyReport(db, command, state, at), m, key, event, prior) == Decide(db, m, key, event, prior)
  {
    var next := ApplyReport(db, command, state, at);
    ReportKeepsSets(db, command, state, at, m.channel, m.Date());
    if event.Cancel? || event.Trigger? {
      ReportKeepsPendingOrders(db, command, state, at, m.channel, m.Date(), event.side, event.orderType);
    }
    if event.Place? {
      var candidates := SessionsIn(db, m.channel, m.Date(), {AcceptingSignals, Ending, Ended});
      assert InstrumentsOf(next, candidates) == InstrumentsOf(db, candidates);
      forall session, instrument
        ensures Twins(next, session, instrument, event) == Twins(db, session, instrument, event)
      {
        ReportKeepsTwins(db, command, state, at, session, instrument, event);
      }
      assert DecidePlace(next, m, key, event, prior) == DecidePlace(db, m, key, event, prior);
    }
  }

  lemma ReportKeepsChange(
      db: Db, command: EventKey, state: CommandState, at: int, m: Message, index: nat, prior: seq<AppliedResult>)
    requires command in db.outbox && CommandOk(command, db.outbox[command], db.orders) && index < |m.events|
    ensures ChangeOf(ApplyReport(db, command, state, at), m, index, prior) == ChangeOf(db, m, index, prior)
  {
    hide Decide, CommandOk;
    ReportKeepsDecision(db, command, state, at, m, m.Key(index), m.events[index], prior);
    assert PriorVersions(ApplyReport(db, command, state, at), m.Key(index)) == PriorVersions(db, m.Key(index));
  }

  /** The change neither targets the order of the reported cancellation nor waits for it. */
  ghost predicate Independent(db: Db, command: EventKey, key: EventKey, change: Change)
    requires command in db.outbox
  {
    && key != command && key !in db.outbox
    && (db.outbox[command].payload.CancelPayload? ==> key != db.outbox[command].order)
    && match change
       case PlaceOrder(_, _, dependsOn) => dependsOn != Some(command)
       case CancelOrder(order) => db.outbox[command].payload.CancelPayload? ==> order != db.outbox[command].order
       case FillOrder(order) => db.outbox[command].payload.CancelPayload? ==> order != db.outbox[command].order
       case _ => true
  }

  function ReportedOutbox(outbox: Outbox, command: EventKey, state: CommandState, at: int): Outbox {
    map k | k in outbox :: ReportedCommand(k, outbox[k], command, state, at)
  }

  function ReportedOrders(orders: Orders, row: Command, state: CommandState, at: int): Orders {
    if row.payload.CancelPayload? && row.order in orders then orders[row.order := ReportedOrder(orders[row.order], state, at)] else orders
  }

  lemma ReportByTables(db: Db, command: EventKey, state: CommandState, at: int)
    requires command in db.outbox
    ensures ApplyReport(db, command, state, at)
            == db.(orders := ReportedOrders(db.orders, db.outbox[command], state, at),
                   outbox := ReportedOutbox(db.outbox, command, state, at))
  {
  }

  lemma OutboxInsertCommutes(outbox: Outbox, key: EventKey, row: Command, command: EventKey, state: CommandState, at: int)
    requires key != command && row.dependsOn != Some(command)
    ensures ReportedOutbox(outbox[key := row], command, state, at) == ReportedOutbox(outbox, command, state, at)[key := row]
  {
  }

  lemma OrderUpdateCommutes(orders: Orders, k: EventKey, row: Order, command: Command, state: CommandState, at: int)
    requires command.payload.CancelPayload? ==> k != command.order
    ensures ReportedOrders(orders[k := row], command, state, at) == ReportedOrders(orders, command, state, at)[k := row]
    ensures k in ReportedOrders(orders, command, state, at) <==> k in orders
    ensures k in orders ==> ReportedOrders(orders, command, state, at)[k] == orders[k]
  {
  }

  lemma {:induction false} ReportCommutesWithWrite(
      db: Db, command: EventKey, state: CommandState, at: int, m: Message, key: EventKey, event: Event,
      change: Change)
    requires command in db.outbox
    requires Refers(db, event, change) && Independent(db, command, key, change)
    ensures Refers(ApplyReport(db, command, state, at), event, change)
    ensures Write(ApplyReport(db, command, state, at), m, key, event, change)
            == ApplyReport(Write(db, m, key, event, change), command, state, at)
  {
    hide ApplyReport, ReportedOutbox, ReportedOrders, ReportedCommand, ReportedOrder;
    var row := db.outbox[command];
    var next := Write(db, m, key, event, change);
    ReportByTables(db, command, state, at);
    assert command in next.outbox && next.outbox[command] == row;
    ReportByTables(next, command, state, at);
    match change
    case PlaceOrder(session, _, _) =>
      OutboxInsertCommutes(db.outbox, key, next.outbox[key], command, state, at);
      OrderUpdateCommutes(db.orders, key, next.orders[key], row, state, at);
    case CancelOrder(order) =>
      OutboxInsertCommutes(db.outbox, key, next.outbox[key], command, state, at);
      OrderUpdateCommutes(db.orders, order, next.orders[order], row, state, at);
    case FillOrder(order) =>
      OrderUpdateCommutes(db.orders, order, next.orders[order], row, state, at);
    case _ =>
  }

  /** No earlier event of the message issued this command. */
  ghost predicate NotIssued(prior: seq<AppliedResult>, command: EventKey) {
    forall i | 0 <= i < |prior| :: command !in prior[i].commands
  }

  lemma {:induction false} DependencyWasIssued(prior: seq<AppliedResult>, command: EventKey)
    requires NotIssued(prior, command)
    ensures ReplacementDependency(prior) != DependsOn(command)
    decreases |prior|
  {
    if prior != [] {
      assert prior[|prior| - 1].commands != [command] by {
        assert command !in prior[|prior| - 1].commands;
      }
      DependencyWasIssued(prior[..|prior| - 1], command);
    }
  }

  lemma PlacementDependency(db: Db, m: Message, index: nat, prior: seq<AppliedResult>, command: EventKey)
    requires index < |m.events| && NotIssued(prior, command)
    ensures var change := ChangeOf(db, m, index, prior); change.PlaceOrder? ==> change.dependsOn != Some(command)
  {
    DependencyWasIssued(prior, command);
  }

  lemma PendingOrdersAreIndependent(db: Db, command: EventKey, key: EventKey, m: Message, event: Event, change: Change)
    requires command in db.outbox && CommandOk(command, db.outbox[command], db.orders)
    requires Legal(db, m, key, event, change) && Fresh(db, key)
    requires change.PlaceOrder? ==> change.dependsOn != Some(command)
    ensures Independent(db, command, key, change)
  {
  }

  lemma ReportCommutesWithNote(
      db: Db, command: EventKey, state: CommandState, at: int, key: EventKey, event: Event, when: int,
      change: Change)
    ensures Note(ApplyReport(db, command, state, at), key, event, when, change)
            == ApplyReport(Note(db, key, event, when, change), command, state, at)
    ensures ApplyReport(db, command, state, at).processed == db.processed
  {
  }

  lemma {:induction false} EventIsIndependent(
      db: Db, command: EventKey, m: Message, index: nat, prior: seq<AppliedResult>)
    requires Inv(db) && command in db.outbox && index < |m.events| && PriorOk(db, m, index, prior) && NotIssued(prior, command)
    requires m.Key(index) !in db.processed
    ensures Independent(db, command, m.Key(index), ChangeOf(db, m, index, prior))
    ensures CommandOk(command, db.outbox[command], db.orders) && m.Key(index) !in db.outbox && m.Key(index) != command
  {
    ChangeIsLegal(db, m, index, prior);
    UnprocessedIsFresh(db, m.Key(index));
    ReportedCommandOk(db, command);
    hide Inv, PriorOk, ChangeOf, Legal;
    PlacementDependency(db, m, index, prior, command);
    PendingOrdersAreIndependent(db, command, m.Key(index), m, m.events[index], ChangeOf(db, m, index, prior));
  }

  lemma {:induction false} CommandOfAnEarlierEvent(
      db: Db, command: EventKey, m: Message, index: nat, prior: seq<AppliedResult>)
    requires Inv(db) && command in db.outbox && index < |m.events| && NotIssued(prior, command)
    ensures NotIssued(prior + [ApplyEvent(db, m, index, prior).1], command)
    ensures command in ApplyEvent(db, m, index, prior).0.outbox
  {
    hide Inv, ChangeOf, Write, Note;
    EventKeepsCommands(db, m, index, prior);
    if m.Key(index) !in db.processed {
      UnprocessedIsFresh(db, m.Key(index));
    }
  }

  /** A report on an existing command and an event of any message commute. */
  lemma {:induction false} ReportCommutesWithEvent(
      db: Db, command: EventKey, state: CommandState, at: int, m: Message, index: nat, prior: seq<AppliedResult>)
    requires Inv(db) && command in db.outbox && index < |m.events| && PriorOk(db, m, index, prior) && NotIssued(prior, command)
    ensures ApplyEvent(ApplyReport(db, command, state, at), m, index, prior)
            == (ApplyReport(ApplyEvent(db, m, index, prior).0, command, state, at), ApplyEvent(db, m, index, prior).1)
  {
    hide Inv, PriorOk, ChangeOf, Write, Note, Independent, CommandOk, ApplyReport, NotIssued;
    var key, event, change := m.Key(index), m.events[index], ChangeOf(db, m, index, prior);
    ReportCommutesWithNote(db, command, state, at, key, event, m.at, change);
    if key !in db.processed {
      ChangeRefers(db, m, index, prior);
      EventIsIndependent(db, command, m, index, prior);
      ReportKeepsChange(db, command, state, at, m, index, prior);
      ReportCommutesWithWrite(db, command, state, at, m, key, event, change);
      ReportCommutesWithNote(Write(db, m, key, event, change), command, state, at, key, event, m.at, change);
    }
  }

  lemma {:induction false} ReportCommutesFrom(
      db: Db, command: EventKey, state: CommandState, at: int, m: Message, index: nat, prior: seq<AppliedResult>)
    requires Inv(db) && command in db.outbox && index <= |m.events| && PriorOk(db, m, index, prior) && NotIssued(prior, command)
    ensures ApplyFrom(ApplyReport(db, command, state, at), m, index, prior).0
            == ApplyReport(ApplyFrom(db, m, index, prior).0, command, state, at)
    ensures command in ApplyFrom(db, m, index, prior).0.outbox
    decreases |m.events| - index
  {
    hide Inv, PriorOk, ApplyEvent, ApplyReport, NotIssued;
    if index < |m.events| {
      var (next, result) := ApplyEvent(db, m, index, prior);
      EventKeepsInv(db, m, index, prior);
      ReportCommutesWithEvent(db, command, state, at, m, index, prior);
      CommandOfAnEarlierEvent(db, command, m, index, prior);
      ReportCommutesFrom(next, command, state, at, m, index + 1, prior + [result]);
    }
  }

  /** A report on an existing command commutes with every message, of its own channel too. */
  lemma ReportCommutesWithMessage(db: Db, command: EventKey, state: CommandState, at: int, m: Message)
    requires Reachable(db) && command in db.outbox
    ensures ApplyMessage(ApplyReport(db, command, state, at), m) == ApplyReport(ApplyMessage(db, m), command, state, at)
    ensures command in ApplyMessage(db, m).outbox
  {
    hide Reachable, Inv, ApplyReport;
    ReachableMeetsInv(db);
    NothingIsPrior(db, m);
    ReportCommutesFrom(db, command, state, at, m, 0, []);
  }

  // ---------- Interleavings ----------

  /** Every report is on a command that exists by then. */
  ghost predicate Feasible(db: Db, ops: seq<Op>)
    decreases |ops|
  {
    ops == [] || ((ops[0].Report? ==> ops[0].command in db.outbox) && Feasible(Step(db, ops[0]), ops[1..]))
  }

  function Messages(ops: seq<Op>): (r: seq<Op>)
    ensures forall op | op in r :: op.Process?
  {
    if ops == [] then [] else (if ops[0].Process? then [ops[0]] else []) + Messages(ops[1..])
  }

  function Reports(ops: seq<Op>): seq<Op> {
    if ops == [] then [] else (if ops[0].Report? then [ops[0]] else []) + Reports(ops[1..])
  }

  lemma {:induction false} ReportCommutesWithMessages(
      db: Db, command: EventKey, state: CommandState, at: int, ops: seq<Op>)
    requires Inv(db) && command in db.outbox && OnlyMessages(ops)
    ensures Run(ApplyReport(db, command, state, at), ops) == ApplyReport(Run(db, ops), command, state, at)
    decreases |ops|
  {
    hide Inv, ApplyFrom, ApplyReport;
    if ops != [] {
      StepKeepsInv(db, ops[0]);
      NothingIsPrior(db, ops[0].message);
      ReportCommutesFrom(db, command, state, at, ops[0].message, 0, []);
      ReportCommutesWithMessages(Step(db, ops[0]), command, state, at, ops[1..]);
    }
  }

  lemma RunPeels(db: Db, op: Op, ops: seq<Op>)
    ensures Run(db, [op] + ops) == Run(Step(db, op), ops)
  {
    assert ([op] + ops)[1..] == ops;
  }

  /** All the reports of a run may be held back until its messages are done. */
  lemma {:induction false} ReportsMayWait(db: Db, ops: seq<Op>)
    requires Inv(db) && Feasible(db, ops)
    ensures Run(db, ops) == Run(Run(db, Messages(ops)), Reports(ops))
    decreases |ops|
  {
    hide Inv, Step;
    if ops != [] {
      var next := Step(db, ops[0]);
      StepKeepsInv(db, ops[0]);
      ReportsMayWait(next, ops[1..]);
      match ops[0]
      case Process(m) =>
        RunPeels(db, ops[0], Messages(ops[1..]));
        assert Messages(ops) == [ops[0]] + Messages(ops[1..]) && Reports(ops) == Reports(ops[1..]);
      case Report(command, state, at) =>
        ReportStep(db, ops[0]);
        ReportCommutesWithMessages(db, command, state, at, Messages(ops[1..]));
        var done := Run(db, Messages(ops[1..]));
        ReportStep(done, ops[0]);
        RunPeels(done, ops[0], Reports(ops[1..]));
        assert Messages(ops) == Messages(ops[1..]) && Reports(ops) == [ops[0]] + Reports(ops[1..]);
    }
  }

  lemma ReportStep(db: Db, op: Op)
    requires op.Report?
    ensures Step(db, op) == ApplyReport(db, op.command, op.state, op.at)
  {
  }

  /**
    Confluence: two interleavings that keep the order of the messages of each channel and the order of the reports end
    in the same database.
   */
  lemma InterleavingsAgree(db: Db, ops1: seq<Op>, ops2: seq<Op>)
    requires Reachable(db) && Feasible(db, ops1) && Feasible(db, ops2)
    requires Reports(ops1) == Reports(ops2)
    requires forall c :: OfChannel(Messages(ops1), c) == OfChannel(Messages(ops2), c)
    ensures Run(db, ops1) == Run(db, ops2)
  {
    hide Reachable, Inv, Run, Feasible, OfChannel, Messages, Reports;
    ReachableMeetsInv(db);
    ReportsMayWait(db, ops1);
    ReportsMayWait(db, ops2);
    MessagesOfDifferentChannelsCommute(db, Messages(ops1), Messages(ops2));
  }
}
