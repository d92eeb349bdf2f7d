/**
  The trading state machine: parsed messages become events, events change sessions, orders and positions
  through a per-message snapshot, and broker intents go to an outbox that asynchronous reports move on.
  An event creates at most one row in each table, so the key of the event names the row.
 */
module TradingModel {
  import opened Wrappers

  // ---------- Messages ----------

  datatype EventKey = EventKey(channel: int, message: int, version: int, index: nat)

  datatype Side = Buy | Sell

  datatype OrderType = Stop

  datatype ResultKind = TakeProfitHit | StopLossHit | BreakEven

  /** Prices are integer hundredths, the precision of the price columns. */
  datatype Event =
    | Place(instrument: Option<string>, side: Side, orderType: OrderType,
            entry: int, stopLoss: int, takeProfits: seq<int>, provider: Option<string>)
    | Cancel(side: Side, orderType: OrderType, provider: Option<string>)
    | Trigger(side: Side, orderType: OrderType)
    | TradeResult(resultKind: ResultKind, target: Option<string>)
    | EndSession
    | NoTradingDay(note: Option<string>)
    | RequestManualReview(reason: string, details: Option<string>)
    | Unsupported(name: string, content: string)

  datatype EventType =
    | PlaceType | CancelType | TriggerType | TradeResultType | EndSessionType | NoTradingDayType
    | RequestManualReviewType | UnsupportedType(name: string)

  function TypeOf(event: Event): EventType {
    match event
    case Place(_, _, _, _, _, _, _) => PlaceType
    case Cancel(_, _, _) => CancelType
    case Trigger(_, _) => TriggerType
    case TradeResult(_, _) => TradeResultType
    case EndSession => EndSessionType
    case NoTradingDay(_) => NoTradingDayType
    case RequestManualReview(_, _) => RequestManualReviewType
    case Unsupported(name, _) => UnsupportedType(name)
  }

  const SECONDS_PER_DAY := 86400

  /** A parsed message; `at` is the edit date, or the message date when there is none, in seconds. */
  datatype Message = Message(channel: int, message: int, version: int, at: int, events: seq<Event>)
  {
    function Date(): int {
      at / SECONDS_PER_DAY
    }

    function Key(index: nat): EventKey {
      EventKey(channel, message, version, index)
    }
  }

  // ---------- Tables ----------

  datatype SessionState = AcceptingSignals | NoTrading | Ending | Ended | PausedByOperator | ErrorReconciliation

  datatype Session = Session(
    channel: int, date: int, instrument: string, state: SessionState, createdAt: int, updatedAt: int, endedAt: Option<int>)

  datatype Day = Day(channel: int, date: int, createdAt: int)

  datatype OrderState = Pending | CancelRequested | CancelUnknown | CancelFailed | Filled | Cancelled | Rejected

  datatype Order = Order(
    session: EventKey, instrument: string, side: Side, orderType: OrderType, provider: Option<string>,
    entry: int, stopLoss: int, takeProfits: seq<int>, state: OrderState, createdAt: int, updatedAt: int,
    filledAt: Option<int>, cancelledAt: Option<int>)

  datatype PositionState = Active | ClosedTp | ClosedSl | ClosedBreakEven | ClosedManual

  datatype Position = Position(
    session: EventKey, sourceOrder: EventKey, instrument: string, side: Side,
    entry: int, stopLoss: int, takeProfits: seq<int>, state: PositionState, createdAt: int, updatedAt: int,
    closedAt: Option<int>)

  datatype Outcome = Applied | Noop | ManualReview

  datatype Processed = Processed(eventType: EventType, fingerprint: Event, outcome: Outcome, createdAt: int)

  datatype Reason =
    | EditedEventChanged
    | ReplacementUnresolved
    | SessionClosed(state: SessionState)
    | InstrumentUnresolved(candidates: nat)
    | NoUniqueOrder(candidates: nat)
    | NoUniquePosition(candidates: nat)
    | NoUniqueSession(candidates: nat)
    | Requested(reason: string, details: Option<string>)
    | UnsupportedEvent(name: string)

  datatype Review = Review(reason: Reason, createdAt: int)

  datatype CommandState = CommandBlocked | CommandPending | Succeeded | UnknownOutcome | Failed

  datatype Payload =
    | PlacePayload(instrument: string, side: Side, orderType: OrderType, provider: Option<string>,
                   entry: int, stopLoss: int, takeProfits: seq<int>)
    | CancelPayload(instrument: string, side: Side, orderType: OrderType)

  /** An outbox command; its type is that of its payload and its idempotency key is the event key with that type. */
  datatype Command = Command(
    payload: Payload, state: CommandState, createdAt: int, session: EventKey, order: EventKey,
    dependsOn: Option<EventKey>, releasedAt: Option<int>)

  datatype Db = Db(
    sessions: map<EventKey, Session>,
    days: map<EventKey, Day>,
    orders: map<EventKey, Order>,
    positions: map<EventKey, Position>,
    processed: map<EventKey, Processed>,
    reviews: map<EventKey, Review>,
    outbox: map<EventKey, Command>)

  const EMPTY := Db(map[], map[], map[], map[], map[], map[], map[])

  // ---------- What an event reads ----------

  /** The sessions of one channel and one date; with their orders and positions they are what a message loads. */
  predicate OnDay(sessions: map<EventKey, Session>, session: EventKey, channel: int, date: int) {
    session in sessions && sessions[session].channel == channel && sessions[session].date == date
  }

  function SessionsIn(db: Db, channel: int, date: int, states: set<SessionState>): set<EventKey> {
    set k | k in db.sessions && OnDay(db.sessions, k, channel, date) && db.sessions[k].state in states
  }

  function SessionsOf(db: Db, channel: int, date: int, instrument: string): set<EventKey> {
    set k | k in db.sessions && OnDay(db.sessions, k, channel, date) && db.sessions[k].instrument == instrument
  }

  function ClosedDays(db: Db, channel: int, date: int): set<EventKey> {
    set k | k in db.days && db.days[k].channel == channel && db.days[k].date == date
  }

  function PendingOrders(db: Db, channel: int, date: int, side: Side, orderType: OrderType): set<EventKey> {
    set k | k in db.orders
            && OnDay(db.sessions, db.orders[k].session, channel, date)
            && db.orders[k].state == Pending
            && db.orders[k].side == side
            && db.orders[k].orderType == orderType
  }

  function ActivePositions(db: Db, channel: int, date: int): set<EventKey> {
    set k | k in db.positions && OnDay(db.sessions, db.positions[k].session, channel, date) && db.positions[k].state == Active
  }

  /** A pending order of the session that is what a placement asks for, but for its provider. */
  predicate IsTwin(row: Order, session: EventKey, instrument: string, event: Event)
    requires event.Place?
  {
    && row.session == session
    && row.state == Pending
    && row.instrument == instrument
    && row.side == event.side
    && row.orderType == event.orderType
    && row.entry == event.entry
    && row.stopLoss == event.stopLoss
    && row.takeProfits == event.takeProfits
  }

  function Twins(db: Db, session: EventKey, instrument: string, event: Event): set<EventKey>
    requires event.Place?
  {
    set k | k in db.orders && IsTwin(db.orders[k], session, instrument, event)
  }

  /** Some element of a non-empty set: the source takes the first of a list whose order is arbitrary. */
  ghost function Pick(s: set<EventKey>): (k: EventKey)
    requires s != {}
    ensures k in s
  {
    var k :| k in s; k
  }

  // ---------- What an event decides ----------

  datatype AppliedResult =
    AppliedResult(key: EventKey, eventType: EventType, outcome: Outcome, commands: seq<EventKey>, reviewed: bool)

  datatype Dependency = NoDependency | Unresolved | DependsOn(command: EventKey)

  /** `_resolve_replacement_dependency`: the last cancellation among the earlier events of the message. */
  function ReplacementDependency(prior: seq<AppliedResult>): Dependency {
    if prior == [] then NoDependency
    else
      var last := prior[|prior| - 1];
      if last.eventType != CancelType then ReplacementDependency(prior[..|prior| - 1])
      else if last.outcome != Applied || |last.commands| != 1 then Unresolved
      else DependsOn(last.commands[0])
  }

  datatype Resolution = Found(session: EventKey) | Created(instrument: string) | NotResolved(candidates: nat)

  function InstrumentsOf(db: Db, sessions: set<EventKey>): set<string> {
    set k | k in sessions && k in db.sessions :: db.sessions[k].instrument
  }

  /** `_resolve_or_create_session`. */
  ghost function ResolveSession(db: Db, channel: int, date: int, instrument: Option<string>): Resolution {
    match instrument
    case Some(name) =>
      var named := SessionsOf(db, channel, date, name);
      if named != {} then Found(Pick(named)) else Created(name)
    case None =>
      var candidates := SessionsIn(db, channel, date, {AcceptingSignals, Ending, Ended});
      if |InstrumentsOf(db, candidates)| == 1 && candidates != {} then Found(Pick(candidates))
      else NotResolved(|candidates|)
  }

  datatype Change =
    | Nothing
    | Refuse(reason: Reason)
    | PlaceOrder(session: EventKey, instrument: string, dependsOn: Option<EventKey>)
    | CancelOrder(order: EventKey)
    | FillOrder(order: EventKey)
    | ClosePosition(position: EventKey, state: PositionState)
    | CloseSession(session: EventKey)
    | CloseDay
  {
    function Outcome(): Outcome {
      if Nothing? then Noop else if Refuse? then ManualReview else Applied
    }

    predicate Commands() {
      PlaceOrder? || CancelOrder?
    }
  }

  ghost function DecidePlace(db: Db, m: Message, key: EventKey, event: Event, prior: seq<AppliedResult>): Change
    requires event.Place?
  {
    var dependency := ReplacementDependency(prior);
    if dependency.Unresolved? then Refuse(ReplacementUnresolved)
    else if ClosedDays(db, m.channel, m.Date()) != {} then Refuse(SessionClosed(NoTrading))
    else
      var dependsOn := if dependency.DependsOn? then Some(dependency.command) else None;
      match ResolveSession(db, m.channel, m.Date(), event.instrument)
      case NotResolved(candidates) => Refuse(InstrumentUnresolved(candidates))
      case Created(instrument) => PlaceOrder(key, instrument, dependsOn)
      case Found(session) =>
        var row := db.sessions[session];
        if row.state in {Ended, NoTrading} then Refuse(SessionClosed(row.state))
        else if Twins(db, session, row.instrument, event) != {} then Nothing
        else PlaceOrder(session, row.instrument, dependsOn)
  }

  function ClosedState(kind: ResultKind): PositionState {
    match kind
    case TakeProfitHit => ClosedTp
    case StopLossHit => ClosedSl
    case BreakEven => ClosedBreakEven
  }

  /** `_apply_event`. */
  ghost function Decide(db: Db, m: Message, key: EventKey, event: Event, prior: seq<AppliedResult>): Change {
    match event
    case Place(_, _, _, _, _, _, _) => DecidePlace(db, m, key, event, prior)
    case Cancel(side, orderType, _) =>
      var matches := PendingOrders(db, m.channel, m.Date(), side, orderType);
      if |matches| != 1 then Refuse(NoUniqueOrder(|matches|)) else CancelOrder(Pick(matches))
    case Trigger(side, orderType) =>
      var matches := PendingOrders(db, m.channel, m.Date(), side, orderType);
      if |matches| != 1 then Refuse(NoUniqueOrder(|matches|)) else FillOrder(Pick(matches))
    case TradeResult(kind, _) =>
      var matches := ActivePositions(db, m.channel, m.Date());
      if |matches| != 1 then Refuse(NoUniquePosition(|matches|)) else ClosePosition(Pick(matches), ClosedState(kind))
    case EndSession =>
      var matches := SessionsIn(db, m.channel, m.Date(), {AcceptingSignals, Ending});
      if |matches| != 1 then Refuse(NoUniqueSession(|matches|)) else CloseSession(Pick(matches))
    case NoTradingDay(_) => if ClosedDays(db, m.channel, m.Date()) != {} then Nothing else CloseDay
    case RequestManualReview(reason, details) => Refuse(Requested(reason, details))
    case Unsupported(name, _) => Refuse(UnsupportedEvent(name))
  }

  // ---------- What a decision writes ----------

  function NewSession(m: Message, instrument: string): Session {
    Session(m.channel, m.Date(), instrument, AcceptingSignals, m.at, m.at, None)
  }

  function NewOrder(session: EventKey, instrument: string, event: Event, at: int): Order
    requires event.Place?
  {
    Order(session, instrument, event.side, event.orderType, event.provider, event.entry, event.stopLoss, event.takeProfits,
          Pending, at, at, None, None)
  }

  function PlaceCommand(order: EventKey, row: Order, dependsOn: Option<EventKey>, at: int): Command {
    Command(
      PlacePayload(row.instrument, row.side, row.orderType, row.provider, row.entry, row.stopLoss, row.takeProfits),
      if dependsOn.Some? then CommandBlocked else CommandPending,
      at, row.session, order, dependsOn, None)
  }

  function CancelCommand(order: EventKey, row: Order, at: int): Command {
    Command(CancelPayload(row.instrument, row.side, row.orderType), CommandPending, at, row.session, order, None, None)
  }

  function NewPosition(order: EventKey, row: Order, at: int): Position {
    Position(row.session, order, row.instrument, row.side, row.entry, row.stopLoss, row.takeProfits, Active, at, at, None)
  }

  function Silence(session: Session, at: int): Session {
    if session.state in {AcceptingSignals, Ending} then session.(state := NoTrading, updatedAt := at) else session
  }

  /** The rows a decision refers to exist. */
  predicate Refers(db: Db, event: Event, change: Change) {
    match change
    case PlaceOrder(_, _, _) => event.Place?
    case CancelOrder(order) => order in db.orders
    case FillOrder(order) => order in db.orders
    case ClosePosition(position, _) => position in db.positions
    case CloseSession(session) => session in db.sessions
    case _ => true
  }

  /** The trading rows after a decision. */
  function Write(db: Db, m: Message, key: EventKey, event: Event, change: Change): Db
    requires Refers(db, event, change)
  {
    match change
    case Nothing => db
    case Refuse(_) => db
    case PlaceOrder(session, instrument, dependsOn) =>
      var row := if session in db.sessions then db.sessions[session] else NewSession(m, instrument);
      var order := NewOrder(session, instrument, event, m.at);
      db.(sessions := db.sessions[session := row.(updatedAt := m.at)],
          orders := db.orders[key := order],
          outbox := db.outbox[key := PlaceCommand(key, order, dependsOn, m.at)])
    case CancelOrder(target) =>
      db.(orders := db.orders[target := db.orders[target].(state := CancelRequested, updatedAt := m.at)],
          outbox := db.outbox[key := CancelCommand(target, db.orders[target], m.at)])
    case FillOrder(target) =>
      db.(orders := db.orders[target := db.orders[target].(state := Filled, filledAt := Some(m.at), updatedAt := m.at)],
          positions := db.positions[key := NewPosition(target, db.orders[target], m.at)])
    case ClosePosition(target, state) =>
      db.(positions := db.positions[target := db.positions[target].(state := state, closedAt := Some(m.at), updatedAt := m.at)])
    case CloseSession(target) =>
      db.(sessions := db.sessions[target := db.sessions[target].(state := Ended, endedAt := Some(m.at), updatedAt := m.at)])
    case CloseDay =>
      db.(days := db.days[key := Day(m.channel, m.Date(), m.at)],
          sessions := map k | k in db.sessions ::
            if OnDay(db.sessions, k, m.channel, m.Date()) then Silence(db.sessions[k], m.at) else db.sessions[k])
  }

  /** The event's own records: what was processed, and the review when it was refused. */
  function Note(db: Db, key: EventKey, event: Event, at: int, change: Change): Db {
    db.(processed := db.processed[key := Processed(TypeOf(event), event, change.Outcome(), at)],
        reviews := if change.Refuse? then db.reviews[key := Review(change.reason, at)] else db.reviews)
  }

  function ResultOf(key: EventKey, event: Event, change: Change): AppliedResult {
    AppliedResult(key, TypeOf(event), change.Outcome(), if change.Commands() then [key] else [], change.Refuse?)
  }

  // ---------- One message ----------

  /** The versions of this message whose event with this index was processed before this version. */
  function PriorVersions(db: Db, key: EventKey): set<EventKey> {
    set k | k in db.processed && k.channel == key.channel && k.message == key.message && k.index == key.index && k.version < key.version
  }

  ghost predicate IsLatest(versions: set<EventKey>, latest: EventKey) {
    latest in versions && forall v | v in versions :: v.version <= latest.version
  }

  lemma {:induction false} LatestExists(versions: set<EventKey>)
    requires versions != {}
    ensures exists latest :: IsLatest(versions, latest)
    decreases versions
  {
    var k :| k in versions;
    var rest := versions - {k};
    if rest == {} {
      assert versions == {k};
      assert IsLatest(versions, k);
    } else {
      LatestExists(rest);
      var top :| IsLatest(rest, top);
      assert forall v | v in versions :: v == k || v in rest;
      assert IsLatest(versions, if k.version > top.version then k else top);
    }
  }

  ghost function Latest(versions: set<EventKey>): (latest: EventKey)
    requires versions != {}
    ensures IsLatest(versions, latest)
  {
    LatestExists(versions);
    var latest :| IsLatest(versions, latest);
    latest
  }

  /** `_apply_prior_version_guard`. */
  function Guard(previous: Processed, event: Event): Change {
    if previous.eventType == TypeOf(event) && previous.fingerprint == event then Nothing else Refuse(EditedEventChanged)
  }

  /** What happens to an event that was not processed yet. */
  ghost function ChangeOf(db: Db, m: Message, index: nat, prior: seq<AppliedResult>): Change
    requires index < |m.events|
  {
    var key, event := m.Key(index), m.events[index];
    var versions := PriorVersions(db, key);
    if versions != {} then Guard(db.processed[Latest(versions)], event) else Decide(db, m, key, event, prior)
  }

  lemma {:induction false} ChangeRefers(db: Db, m: Message, index: nat, prior: seq<AppliedResult>)
    requires index < |m.events|
    ensures Refers(db, m.events[index], ChangeOf(db, m, index, prior))
  {
  }

  /** The loop body of `apply_parsed_message`, reading the tables afresh. */
  ghost function ApplyEvent(db: Db, m: Message, index: nat, prior: seq<AppliedResult>): (Db, AppliedResult)
    requires index < |m.events|
  {
    var key, event := m.Key(index), m.events[index];
    if key in db.processed then
      (db, AppliedResult(key, db.processed[key].eventType, db.processed[key].outcome, [], false))
    else
      var change := ChangeOf(db, m, index, prior);
      ChangeRefers(db, m, index, prior);
      (Note(Write(db, m, key, event, change), key, event, m.at, change), ResultOf(key, event, change))
  }

  ghost function ApplyFrom(db: Db, m: Message, index: nat, prior: seq<AppliedResult>): (Db, seq<AppliedResult>)
    requires index <= |m.events|
    decreases |m.events| - index
  {
    if index == |m.events| then (db, prior)
    else
      var (next, result) := ApplyEvent(db, m, index, prior);
      ApplyFrom(next, m, index + 1, prior + [result])
  }

  /** `apply_parsed_message`. */
  ghost function ApplyMessage(db: Db, m: Message): Db {
    ApplyFrom(db, m, 0, []).0
  }

  // ---------- Broker reports ----------

  function CancelledOrderState(state: CommandState): OrderState {
    match state
    case Succeeded => Cancelled
    case UnknownOutcome => CancelUnknown
    case Failed => CancelFailed
    case _ => CancelRequested
  }

  /** An order after a report on its cancellation. */
  function ReportedOrder(row: Order, state: CommandState, at: int): Order {
    row.(state := CancelledOrderState(state), updatedAt := at, cancelledAt := if state == Succeeded then Some(at) else None)
  }

  /** The blocked commands that a success of this command releases. */
  predicate IsDependent(row: Command, command: EventKey) {
    row.dependsOn == Some(command) && row.state == CommandBlocked
  }

  function ReportedCommand(k: EventKey, row: Command, command: EventKey, state: CommandState, at: int): Command {
    if k == command then row.(state := state)
    else if state == Succeeded && IsDependent(row, command) then row.(state := CommandPending, releasedAt := Some(at))
    else row
  }

  /** `update_outbox_command_state`; reporting an unknown command raises and changes nothing. */
  function ApplyReport(db: Db, command: EventKey, state: CommandState, at: int): Db {
    if command !in db.outbox then db
    else
      var row := db.outbox[command];
      db.(orders :=
            if row.payload.CancelPayload? && row.order in db.orders then
              db.orders[row.order := ReportedOrder(db.orders[row.order], state, at)]
            else db.orders,
          outbox := map k | k in db.outbox :: ReportedCommand(k, db.outbox[k], command, state, at))
  }

  /** What the report returns: the commands it released. */
  function ReleasedBy(db: Db, command: EventKey, state: CommandState): set<EventKey> {
    if command !in db.outbox || state != Succeeded then {}
    else set k | k in db.outbox && k != command && IsDependent(db.outbox[k], command)
  }

  // ---------- Runs ----------

  datatype Op = Process(message: Message) | Report(command: EventKey, state: CommandState, at: int)

  ghost function Step(db: Db, op: Op): Db {
    match op
    case Process(m) => ApplyMessage(db, m)
    case Report(command, state, at) => ApplyReport(db, command, state, at)
  }

  ghost function Run(db: Db, ops: seq<Op>): Db
    decreases |ops|
  {
    if ops == [] then db else Run(Step(db, ops[0]), ops[1..])
  }
}
