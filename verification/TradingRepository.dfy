/**
  `SqlAlchemyTradingStateRepository`: a message loads the rows of its channel and date into lists once, changes the
  lists event by event, and writes them back after each event. The specification reads the tables afresh each time.
 */
module TradingRepository {
  import opened Wrappers
  import opened TradingModel
  import opened TradingInvariant
  import opened TradingHistory
  import opened TradingSnapshot
  import opened TradingLists

  class TradingStateSnapshot {
    var sessions: seq<Item<Session>>
    var days: seq<Item<Day>>
    var orders: seq<Item<Order>>
    var positions: seq<Item<Position>>

    constructor (sessions: seq<Item<Session>>, days: seq<Item<Day>>, orders: seq<Item<Order>>, positions: seq<Item<Position>>)
      ensures this.sessions == sessions && this.days == days && this.orders == orders && this.positions == positions
    {
      this.sessions := sessions;
      this.days := days;
      this.orders := orders;
      this.positions := positions;
    }

    ghost predicate Holds(db: Db, channel: int, date: int)
      reads this
    {
      Lists(sessions, days, orders, positions, db, channel, date)
    }
  }

  /** What a handler returns besides the changed lists. */
  datatype Mutation = Mutation(outcome: Outcome, review: Option<Reason>, command: Option<Command>)

  function MutationOf(db: Db, m: Message, key: EventKey, event: Event, change: Change): Mutation
    requires Refers(db, event, change)
  {
    Mutation(
      change.Outcome(),
      if change.Refuse? then Some(change.reason) else None,
      if change.Commands() then Some(Write(db, m, key, event, change).outbox[key]) else None)
  }

  function ToReview(reason: Reason): Mutation {
    Mutation(ManualReview, Some(reason), None)
  }

  class TradingStateRepository {
    var sessions: Sessions
    var days: Days
    var orders: Orders
    var positions: Positions
    var processed: ProcessedEvents
    var reviews: map<EventKey, TradingModel.Review>
    var outbox: Outbox

    ghost function Contents(): Db
      reads this
    {
      Db(sessions, days, orders, positions, processed, reviews, outbox)
    }

    constructor ()
      ensures Contents() == EMPTY
    {
      sessions, days, orders, positions, processed, reviews, outbox := map[], map[], map[], map[], map[], map[], map[];
    }

    // ---------- Handlers ----------

    /** The lists and the mutation are those of this change. */
    ghost predicate Carries(
        snapshot: TradingStateSnapshot, mutation: Mutation, db: Db, m: Message, key: EventKey, event: Event,
        change: Change)
      reads snapshot
    {
      && Refers(db, event, change)
      && mutation == MutationOf(db, m, key, event, change)
      && snapshot.Holds(Write(db, m, key, event, change), m.channel, m.Date())
    }

    method ApplyCancelPendingOrder(
        snapshot: TradingStateSnapshot, m: Message, key: EventKey, event: Event, ghost db: Db,
        ghost prior: seq<AppliedResult>)
      returns (mutation: Mutation)
      requires event.Cancel? && snapshot.Holds(db, m.channel, m.Date())
      modifies snapshot
      ensures Carries(snapshot, mutation, db, m, key, event, Decide(db, m, key, event, prior))
    {
      hide DecidePlace, Represents;
      ghost var rows := DayOrders(db.orders, db.sessions, m.channel, m.Date());
      var wanted := (row: Order) => row.state == Pending && row.side == event.side && row.orderType == event.orderType;
      var matches := Matching(snapshot.orders, rows, wanted);
      assert Selected(rows, wanted).Keys == PendingOrders(db, m.channel, m.Date(), event.side, event.orderType);
      if |matches| != 1 {
        return ToReview(NoUniqueOrder(|matches|));
      }
      var target := snapshot.orders[matches[0]];
      var row := target.row.(state := CancelRequested, updatedAt := m.at);
      RepresentsUpdate(snapshot.orders, rows, matches[0], row);
      OrderWrittenInDay(db, m.channel, m.Date(), target.id, row);
      snapshot.orders := snapshot.orders[matches[0] := Item(target.id, row)];
      mutation := Mutation(Applied, None, Some(CancelCommand(target.id, target.row, m.at)));
    }

    method ApplyMarkOrderTriggered(
        snapshot: TradingStateSnapshot, m: Message, key: EventKey, event: Event, ghost db: Db,
        ghost prior: seq<AppliedResult>)
      returns (mutation: Mutation)
      requires event.Trigger? && snapshot.Holds(db, m.channel, m.Date())
      requires PositionsOk(db.positions, db.orders) && key !in db.positions
      modifies snapshot
      ensures Carries(snapshot, mutation, db, m, key, event, Decide(db, m, key, event, prior))
    {
      hide DecidePlace, Represents;
      ghost var rows := DayOrders(db.orders, db.sessions, m.channel, m.Date());
      var wanted := (row: Order) => row.state == Pending && row.side == event.side && row.orderType == event.orderType;
      var matches := Matching(snapshot.orders, rows, wanted);
      assert Selected(rows, wanted).Keys == PendingOrders(db, m.channel, m.Date(), event.side, event.orderType);
      if |matches| != 1 {
        return ToReview(NoUniqueOrder(|matches|));
      }
      var target := snapshot.orders[matches[0]];
      assert Decide(db, m, key, event, prior) == FillOrder(target.id);
      FilledInDay(db, m, key, event, target.id);
      hide Decide, OnDay, DayOrders, DayPositions, PendingOrders;
      var row := target.row.(state := Filled, filledAt := Some(m.at), updatedAt := m.at);
      RepresentsUpdate(snapshot.orders, rows, matches[0], row);
      snapshot.orders := snapshot.orders[matches[0] := Item(target.id, row)];
      ghost var held := DayPositions(db.positions, db.sessions, m.channel, m.Date());
      var ofTarget := (position: Position) => position.sourceOrder == target.id;
      var existing := First(snapshot.positions, held, ofTarget);
      if existing.None? {
        var position := NewPosition(target.id, row, m.at);
        RepresentsMore(snapshot.positions, held, key, position);
        snapshot.positions := snapshot.positions + [Item(key, position)];
      }
      mutation := Mutation(Applied, None, None);
    }

    method ApplyRecordTradeResult(
        snapshot: TradingStateSnapshot, m: Message, key: EventKey, event: Event, ghost db: Db,
        ghost prior: seq<AppliedResult>)
      returns (mutation: Mutation)
      requires event.TradeResult? && snapshot.Holds(db, m.channel, m.Date())
      modifies snapshot
      ensures Carries(snapshot, mutation, db, m, key, event, Decide(db, m, key, event, prior))
    {
      hide DecidePlace, Represents;
      ghost var rows := DayPositions(db.positions, db.sessions, m.channel, m.Date());
      var wanted := (row: Position) => row.state == Active;
      var matches := Matching(snapshot.positions, rows, wanted);
      assert Selected(rows, wanted).Keys == ActivePositions(db, m.channel, m.Date());
      if |matches| != 1 {
        return ToReview(NoUniquePosition(|matches|));
      }
      var target := snapshot.positions[matches[0]];
      var row := target.row.(state := ClosedState(event.resultKind), closedAt := Some(m.at), updatedAt := m.at);
      RepresentsUpdate(snapshot.positions, rows, matches[0], row);
      PositionWrittenInDay(db, m.channel, m.Date(), target.id, row);
      snapshot.positions := snapshot.positions[matches[0] := Item(target.id, row)];
      mutation := Mutation(Applied, None, None);
    }

    method ApplyEndSession(
        snapshot: TradingStateSnapshot, m: Message, key: EventKey, event: Event, ghost db: Db,
        ghost prior: seq<AppliedResult>)
      returns (mutation: Mutation)
      requires event.EndSession? && snapshot.Holds(db, m.channel, m.Date())
      modifies snapshot
      ensures Carries(snapshot, mutation, db, m, key, event, Decide(db, m, key, event, prior))
    {
      hide DecidePlace, Represents;
      ghost var rows := DaySessions(db.sessions, m.channel, m.Date());
      var wanted := (row: Session) => row.state in {AcceptingSignals, Ending};
      var matches := Matching(snapshot.sessions, rows, wanted);
      assert Selected(rows, wanted).Keys == SessionsIn(db, m.channel, m.Date(), {AcceptingSignals, Ending});
      if |matches| != 1 {
        return ToReview(NoUniqueSession(|matches|));
      }
      var target := snapshot.sessions[matches[0]];
      var row := target.row.(state := Ended, endedAt := Some(m.at), updatedAt := m.at);
      RepresentsUpdate(snapshot.sessions, rows, matches[0], row);
      SessionWrittenInDay(db, m.channel, m.Date(), target.id, row);
      snapshot.sessions := snapshot.sessions[matches[0] := Item(target.id, row)];
      mutation := Mutation(Applied, None, None);
    }

    method ApplyNoTradingDay(
        snapshot: TradingStateSnapshot, m: Message, key: EventKey, event: Event, ghost db: Db,
        ghost prior: seq<AppliedResult>)
      returns (mutation: Mutation)
      requires event.NoTradingDay? && snapshot.Holds(db, m.channel, m.Date()) && key !in db.days
      modifies snapshot
      ensures Carries(snapshot, mutation, db, m, key, event, Decide(db, m, key, event, prior))
    {
      hide DecidePlace, Represents;
      var closed := HasNoTradingDay(snapshot, m, db);
      if closed {
        return Mutation(Noop, None, None);
      }
      var day := Day(m.channel, m.Date(), m.at);
      RepresentsMore(snapshot.days, DayDays(db.days, m.channel, m.Date()), key, day);
      assert DayDays(db.days[key := day], m.channel, m.Date()) == DayDays(db.days, m.channel, m.Date())[key := day];
      snapshot.days := snapshot.days + [Item(key, day)];
      ghost var items, rows := snapshot.sessions, DaySessions(db.sessions, m.channel, m.Date());
      for i := 0 to |snapshot.sessions|
        modifies snapshot`sessions
        invariant |snapshot.sessions| == |items|
        invariant forall j | 0 <= j < i :: snapshot.sessions[j] == Item(items[j].id, Silence(items[j].row, m.at))
        invariant forall j | i <= j < |items| :: snapshot.sessions[j] == items[j]
      {
        var item := snapshot.sessions[i];
        if item.row.state in {AcceptingSignals, Ending} {
          snapshot.sessions := snapshot.sessions[i := Item(item.id, item.row.(state := NoTrading, updatedAt := m.at))];
        }
      }
      SilencedInDay(db, m, key, event, items, snapshot.sessions);
      mutation := Mutation(Applied, None, None);
    }

    /** The place in the list of the session a placement is for; a session it makes is appended. */
    method ResolveOrCreateSession(
        snapshot: TradingStateSnapshot, m: Message, key: EventKey, instrument: Option<string>, ghost db: Db)
      returns (found: Result<nat, Reason>)
      requires snapshot.Holds(db, m.channel, m.Date()) && SessionsOk(db.sessions) && key !in db.sessions
      modifies snapshot`sessions
      ensures match ResolveSession(db, m.channel, m.Date(), instrument)
              case NotResolved(candidates) => found == Err(InstrumentUnresolved(candidates)) && snapshot.sessions == old(snapshot.sessions)
              case Found(session) =>
                && found.Ok? && snapshot.sessions == old(snapshot.sessions)
                && found.value < |snapshot.sessions| && snapshot.sessions[found.value] == Item(session, db.sessions[session])
              case Created(name) =>
                && found == Ok(|old(snapshot.sessions)|)
                && snapshot.sessions == old(snapshot.sessions) + [Item(key, NewSession(m, name))]
    {
      hide Represents;
      ghost var rows := DaySessions(db.sessions, m.channel, m.Date());
      match instrument
      case Some(name) =>
        var named := (row: Session) => row.instrument == name;
        var existing := First(snapshot.sessions, rows, named);
        assert Selected(rows, named).Keys == SessionsOf(db, m.channel, m.Date(), name);
        if existing.Some? {
          OneSessionPerInstrument(db, m.channel, m.Date(), name, snapshot.sessions[existing.value].id);
          return Ok(existing.value);
        }
        snapshot.sessions := snapshot.sessions + [Item(key, NewSession(m, name))];
        found := Ok(|snapshot.sessions| - 1);
      case None =>
        found := ResolveFromContext(snapshot, m, db);
    }

    /** The one instrument with a session that day, when the placement names none. */
    method ResolveFromContext(
        snapshot: TradingStateSnapshot, m: Message, ghost db: Db) returns (found: Result<nat, Reason>)
      requires snapshot.Holds(db, m.channel, m.Date()) && SessionsOk(db.sessions)
      ensures match ResolveSession(db, m.channel, m.Date(), None)
              case NotResolved(candidates) => found == Err(InstrumentUnresolved(candidates))
              case Found(session) =>
                && found.Ok? && found.value < |snapshot.sessions|
                && snapshot.sessions[found.value] == Item(session, db.sessions[session])
              case Created(_) => false
    {
      hide Represents, SessionsOk;
      ghost var rows := DaySessions(db.sessions, m.channel, m.Date());
      var open := (row: Session) => row.state in {AcceptingSignals, Ending, Ended};
      var candidates := Matching(snapshot.sessions, rows, open);
      assert Selected(rows, open).Keys == SessionsIn(db, m.channel, m.Date(), {AcceptingSignals, Ending, Ended});
      var instruments := set i | 0 <= i < |candidates| :: snapshot.sessions[candidates[i]].row.instrument;
      assert instruments == InstrumentsOf(db, IdsAt(snapshot.sessions, candidates));
      if |instruments| == 1 && candidates != [] {
        OneSessionInContext(db, m.channel, m.Date(), snapshot.sessions[candidates[0]].id);
        return Ok(candidates[0]);
      }
      found := Err(InstrumentUnresolved(|candidates|));
    }

    method ApplyPlacePendingOrder(
        snapshot: TradingStateSnapshot, m: Message, key: EventKey, event: Event, prior: seq<AppliedResult>,
        ghost db: Db)
      returns (mutation: Mutation)
      requires event.Place? && snapshot.Holds(db, m.channel, m.Date())
      requires SessionsOk(db.sessions) && OrdersOk(db.orders, db.sessions) && PositionsHaveSessions(db) && Fresh(db, key)
      modifies snapshot
      ensures Carries(snapshot, mutation, db, m, key, event, Decide(db, m, key, event, prior))
    {
      hide Represents, SessionsOk, OrdersOk, PositionsHaveSessions, DaySessions, DayOrders, DayPositions, IsTwin, Twins;
      var dependency := ReplacementDependency(prior);
      if dependency.Unresolved? {
        return ToReview(ReplacementUnresolved);
      }
      var closed := HasNoTradingDay(snapshot, m, db);
      if closed {
        return ToReview(SessionClosed(NoTrading));
      }
      ghost var items := snapshot.sessions;
      var found := ResolveOrCreateSession(snapshot, m, key, event.instrument, db);
      if found.Err? {
        return ToReview(found.error);
      }
      var dependsOn := if dependency.DependsOn? then Some(dependency.command) else None;
      mutation := PlaceInSession(snapshot, m, key, event, found.value, dependsOn, db, items);
    }

    /** What a placement decides once its session is known; the session may be the last of the list, just made. */
    ghost function DecideIn(db: Db, session: Item<Session>, event: Event, dependsOn: Option<EventKey>): Change
      requires event.Place?
    {
      if session.id in db.sessions && session.row.state in {Ended, NoTrading} then Refuse(SessionClosed(session.row.state))
      else if session.id in db.sessions && Twins(db, session.id, session.row.instrument, event) != {} then Nothing
      else PlaceOrder(session.id, session.row.instrument, dependsOn)
    }

    method PlaceInSession(
        snapshot: TradingStateSnapshot, m: Message, key: EventKey, event: Event, place: nat,
        dependsOn: Option<EventKey>,
        ghost db: Db, ghost items: seq<Item<Session>>)
      returns (mutation: Mutation)
      requires event.Place? && place < |snapshot.sessions|
      requires OrdersOk(db.orders, db.sessions) && PositionsHaveSessions(db) && Fresh(db, key)
      requires ResolvedFrom(db.sessions, m, key, items, snapshot.sessions, place)
      requires Represents(snapshot.days, DayDays(db.days, m.channel, m.Date()))
      requires Represents(snapshot.orders, DayOrders(db.orders, db.sessions, m.channel, m.Date()))
      requires Represents(snapshot.positions, DayPositions(db.positions, db.sessions, m.channel, m.Date()))
      modifies snapshot
      ensures Carries(snapshot, mutation, db, m, key, event, DecideIn(db, old(snapshot.sessions[place]), event, dependsOn))
    {
      hide Represents, OrdersOk, PositionsHaveSessions, DaySessions, DayOrders, DayPositions, DayDays, IsTwin, Twins, Write;
      WriteNothing(db, m, key, event);
      var session := snapshot.sessions[place];
      if session.row.state in {Ended, NoTrading} {
        return ToReview(SessionClosed(session.row.state));
      }
      ghost var rows := DayOrders(db.orders, db.sessions, m.channel, m.Date());
      var wanted := (row: Order) => IsTwin(row, session.id, session.row.instrument, event);
      var twin := First(snapshot.orders, rows, wanted);
      TwinsAreOfTheDay(db, m, event, session.id, session.row.instrument, wanted);
      if twin.Some? {
        return Mutation(Noop, None, None);
      }
      var order := NewOrder(session.id, session.row.instrument, event, m.at);
      PlacementIsCarried(db, m, key, event, dependsOn, items, snapshot.sessions, place, snapshot.days, snapshot.orders, snapshot.positions);
      snapshot.orders := snapshot.orders + [Item(key, order)];
      snapshot.sessions := snapshot.sessions[place := Item(session.id, session.row.(updatedAt := m.at))];
      mutation := Mutation(Applied, None, Some(PlaceCommand(key, order, dependsOn, m.at)));
    }

    method ApplyEventToLists(
        snapshot: TradingStateSnapshot, m: Message, key: EventKey, event: Event, prior: seq<AppliedResult>,
        ghost db: Db)
      returns (mutation: Mutation)
      requires snapshot.Holds(db, m.channel, m.Date()) && Inv(db) && key !in db.processed
      modifies snapshot
      ensures Carries(snapshot, mutation, db, m, key, event, Decide(db, m, key, event, prior))
    {
      InvForHandlers(db, key);
      hide Inv, DecidePlace;
      match event
      case Place(_, _, _, _, _, _, _) => mutation := ApplyPlacePendingOrder(snapshot, m, key, event, prior, db);
      case Cancel(_, _, _) => mutation := ApplyCancelPendingOrder(snapshot, m, key, event, db, prior);
      case Trigger(_, _) => mutation := ApplyMarkOrderTriggered(snapshot, m, key, event, db, prior);
      case TradeResult(_, _) => mutation := ApplyRecordTradeResult(snapshot, m, key, event, db, prior);
      case EndSession => mutation := ApplyEndSession(snapshot, m, key, event, db, prior);
      case NoTradingDay(_) => mutation := ApplyNoTradingDay(snapshot, m, key, event, db, prior);
      case RequestManualReview(reason, details) => mutation := ToReview(Requested(reason, details));
      case Unsupported(name, _) => mutation := ToReview(UnsupportedEvent(name));
    }

    // ---------- Writing back ----------

    method UpsertSnapshot(snapshot: TradingStateSnapshot, ghost w: Db, ghost channel: int, ghost date: int)
      requires snapshot.Holds(w, channel, date) && WritesBack(Contents(), w, channel, date)
      modifies this`sessions, this`days, this`orders, this`positions
      ensures Contents() == old(Contents()).(sessions := w.sessions, days := w.days, orders := w.orders, positions := w.positions)
    {
      hide Represents, WritesBack, DaySessions, DayDays, DayOrders, DayPositions;
      var mergeSession := (row: Session, item: Session) => row.(state := item.state, updatedAt := item.updatedAt, endedAt := item.endedAt);
      SessionTargets(Contents(), w, channel, date, snapshot.sessions, mergeSession);
      sessions := Upsert(sessions, snapshot.sessions, mergeSession, w.sessions);
      var keepDay := (row: Day, item: Day) => row;
      DayTargets(old(Contents()), w, channel, date, snapshot.days, keepDay);
      days := Upsert(days, snapshot.days, keepDay, w.days);
      var mergeOrder := (row: Order, item: Order) =>
        row.(provider := item.provider, state := item.state, updatedAt := item.updatedAt, filledAt := item.filledAt, cancelledAt := item.cancelledAt);
      OrderTargets(old(Contents()), w, channel, date, snapshot.orders, mergeOrder);
      orders := Upsert(orders, snapshot.orders, mergeOrder, w.orders);
      var mergePosition := (row: Position, item: Position) => row.(state := item.state, updatedAt := item.updatedAt, closedAt := item.closedAt);
      PositionTargets(old(Contents()), w, channel, date, snapshot.positions, mergePosition);
      positions := Upsert(positions, snapshot.positions, mergePosition, w.positions);
    }

    /** `_persist_mutation`; the guard of an edited message has no lists to write back. */
    method PersistMutation(
        m: Message, key: EventKey, event: Event, mutation: Mutation, ghost change: Change, ghost db: Db)
      requires Refers(db, event, change) && mutation == MutationOf(db, m, key, event, change)
      requires var w := Write(db, m, key, event, change);
               Contents() == db.(sessions := w.sessions, days := w.days, orders := w.orders, positions := w.positions)
      modifies this`processed, this`reviews, this`outbox
      ensures Contents() == Commit(db, m, key, event, change)
    {
      hide Write;
      processed := processed[key := Processed(TypeOf(event), event, mutation.outcome, m.at)];
      if mutation.review.Some? {
        reviews := reviews[key := TradingModel.Review(mutation.review.value, m.at)];
      }
      WriteAddsCommand(db, m, key, event, change);
      if mutation.command.Some? {
        outbox := outbox[key := mutation.command.value];
      }
    }

    /** `_find_prior_processed_event`. */
    method FindPriorProcessedEvent(key: EventKey) returns (prior: Option<EventKey>)
      ensures prior == if PriorVersions(Contents(), key) == {} then None else Some(Latest(PriorVersions(Contents(), key)))
    {
      prior := None;
      ghost var versions := PriorVersions(Contents(), key);
      ghost var seen: set<EventKey> := {};
      var rest := processed.Keys;
      while rest != {}
        invariant rest <= processed.Keys && seen == versions - rest
        invariant if seen == {} then prior == None else prior.Some? && IsLatest(seen, prior.value)
        decreases rest
      {
        var k :| k in rest;
        if k.channel == key.channel && k.message == key.message && k.index == key.index && k.version < key.version {
          if prior.None? || k.version > prior.value.version {
            prior := Some(k);
          }
          seen := seen + {k};
        }
        rest := rest - {k};
      }
      if prior.Some? {
        LatestIsUnique(Contents(), key, prior.value);
      }
    }

    method LoadSnapshot(channel: int, date: int) returns (snapshot: TradingStateSnapshot)
      ensures fresh(snapshot) && snapshot.Holds(Contents(), channel, date)
    {
      hide Represents;
      var onDate := (row: Day) => row.channel == channel && row.date == date;
      var closed := Select(days, onDate);
      assert Selected(days, onDate) == DayDays(days, channel, date);
      var ofDay := (row: Session) => row.channel == channel && row.date == date;
      var records := Select(sessions, ofDay);
      assert Selected(sessions, ofDay) == DaySessions(sessions, channel, date);
      var ids := set k | k in sessions && ofDay(sessions[k]);
      var orderOf := (row: Order) => row.session in ids;
      var orderRecords := Select(orders, orderOf);
      assert Selected(orders, orderOf) == DayOrders(orders, sessions, channel, date);
      var positionOf := (row: Position) => row.session in ids;
      var positionRecords := Select(positions, positionOf);
      assert Selected(positions, positionOf) == DayPositions(positions, sessions, channel, date);
      snapshot := new TradingStateSnapshot(records, closed, orderRecords, positionRecords);
    }

    /** The loop body of `apply_parsed_message`: what it does to the tables is one event on fresh tables. */
    method ProcessEvent(snapshot: TradingStateSnapshot, m: Message, index: nat, prior: seq<AppliedResult>)
      returns (result: AppliedResult)
      requires index < |m.events| && Inv(Contents()) && PriorOk(Contents(), m, index, prior)
      requires snapshot.Holds(Contents(), m.channel, m.Date())
      modifies this, snapshot
      ensures (Contents(), result) == ApplyEvent(old(Contents()), m, index, prior)
      ensures snapshot.Holds(Contents(), m.channel, m.Date())
    {
      hide Inv, PriorOk, Decide, Write, Lists, Legal;
      var key, event := m.Key(index), m.events[index];
      if key in processed {
        return AppliedResult(key, processed[key].eventType, processed[key].outcome, [], false);
      }
      ghost var db, change := Contents(), ChangeOf(Contents(), m, index, prior);
      EventIsLegal(db, m, index, prior);
      ChangeRefers(db, m, index, prior);
      WriteNothing(db, m, key, event);
      WriteAddsCommand(db, m, key, event, change);
      var mutation;
      var latest := FindPriorProcessedEvent(key);
      if latest.Some? {
        var previous := processed[latest.value];
        if previous.eventType == TypeOf(event) && previous.fingerprint == event {
          mutation := Mutation(Noop, None, None);
        } else {
          mutation := ToReview(EditedEventChanged);
        }
      } else {
        mutation := ApplyEventToLists(snapshot, m, key, event, prior, db);
        CommitWritesBack(db, m, key, event, change);
        UpsertSnapshot(snapshot, Write(db, m, key, event, change), m.channel, m.Date());
      }
      PersistMutation(m, key, event, mutation, change, db);
      SameListsSameTables(snapshot.sessions, snapshot.days, snapshot.orders, snapshot.positions,
                          Write(db, m, key, event, change), Contents(), m.channel, m.Date());
      result := AppliedResult(key, TypeOf(event), mutation.outcome, if mutation.command.Some? then [key] else [], mutation.review.Some?);
    }

    /**
      `apply_parsed_message`: with the rows loaded once, the database and the results are those of reading the tables
      afresh before every event.
     */
    method ApplyParsedMessage(m: Message) returns (results: seq<AppliedResult>)
      requires Inv(Contents())
      modifies this
      ensures (Contents(), results) == ApplyFrom(old(Contents()), m, 0, [])
      ensures Contents() == ApplyMessage(old(Contents()), m) && Inv(Contents())
    {
      hide Inv, PriorOk, ApplyEvent, Lists;
      var snapshot := LoadSnapshot(m.channel, m.Date());
      results := [];
      NothingIsPrior(Contents(), m);
      for index := 0 to |m.events|
        invariant Inv(Contents()) && PriorOk(Contents(), m, index, results)
        invariant snapshot.Holds(Contents(), m.channel, m.Date()) && fresh(snapshot)
        invariant ApplyFrom(old(Contents()), m, 0, []) == ApplyFrom(Contents(), m, index, results)
      {
        EventKeepsInv(Contents(), m, index, results);
        var result := ProcessEvent(snapshot, m, index, results);
        results := results + [result];
      }
    }

    /** `update_outbox_command_state`: an unknown command raises, otherwise the released commands are returned. */
    method UpdateOutboxCommandState(
        command: EventKey, state: CommandState, at: int) returns (released: Result<seq<EventKey>, EventKey>)
      modifies this`orders, this`outbox
      ensures Contents() == ApplyReport(old(Contents()), command, state, at)
      ensures released.Err? <==> command !in old(outbox)
      ensures released.Ok? ==> (set k | k in released.value) == ReleasedBy(old(Contents()), command, state)
      ensures released.Ok? ==> forall i, j | 0 <= i < j < |released.value| :: released.value[i] != released.value[j]
    {
      hide ReportedOrder, CancelledOrderState;
      if command !in outbox {
        return Err(command);
      }
      var row := outbox[command];
      outbox := outbox[command := row.(state := state)];
      if row.payload.CancelPayload? && row.order in orders {
        orders := orders[row.order := ReportedOrder(orders[row.order], state, at)];
      }
      var ids := [];
      if state == Succeeded {
        ids := ReleaseDependents(command, at);
      }
      released := Ok(ids);
    }

    method ReleaseDependents(command: EventKey, at: int) returns (ids: seq<EventKey>)
      modifies this`outbox
      ensures outbox == map k | k in old(outbox) ::
                if IsDependent(old(outbox)[k], command) then old(outbox)[k].(state := CommandPending, releasedAt := Some(at))
                else old(outbox)[k]
      ensures (set k | k in ids) == set k | k in old(outbox) && IsDependent(old(outbox)[k], command)
      ensures forall i, j | 0 <= i < j < |ids| :: ids[i] != ids[j]
    {
      hide Represents;
      var blocked := (row: Command) => IsDependent(row, command);
      var dependents := Select(outbox, blocked);
      ghost var rows := Selected(outbox, blocked);
      IdsOfList(dependents, rows);
      ids := [];
      for i := 0 to |dependents|
        invariant |ids| == i && forall j | 0 <= j < i :: ids[j] == dependents[j].id
        invariant outbox.Keys == old(outbox).Keys
        invariant forall k | k in outbox ::
          outbox[k] == if k in ids then old(outbox)[k].(state := CommandPending, releasedAt := Some(at)) else old(outbox)[k]
      {
        var id := dependents[i].id;
        assert id in rows && id !in ids;
        outbox := outbox[id := outbox[id].(state := CommandPending, releasedAt := Some(at))];
        ids := ids + [id];
      }
      assert ids == IdsInOrder(dependents);
      assert forall k | k in old(outbox) :: k in rows <==> IsDependent(old(outbox)[k], command);
    }

    method HasNoTradingDay(snapshot: TradingStateSnapshot, m: Message, ghost db: Db) returns (closed: bool)
      requires snapshot.Holds(db, m.channel, m.Date())
      ensures closed <==> ClosedDays(db, m.channel, m.Date()) != {}
    {
      ghost var rows := DayDays(db.days, m.channel, m.Date());
      var wanted := (row: Day) => row.channel == m.channel && row.date == m.Date();
      var found := First(snapshot.days, rows, wanted);
      assert Selected(rows, wanted).Keys == ClosedDays(db, m.channel, m.Date());
      closed := found.Some?;
    }
  }
}
