/** The rows of one channel and one date, as tables and as lists, before and after each kind of change. */
module TradingLists {
  import opened Wrappers
  import opened TradingModel
  import opened TradingInvariant
  import opened TradingHistory
  import opened TradingSnapshot

  // ---------- The rows of one channel and one date ----------

  function DaySessions(sessions: Sessions, channel: int, date: int): Sessions {
    map k | k in sessions && OnDay(sessions, k, channel, date) :: sessions[k]
  }

  function DayDays(days: Days, channel: int, date: int): Days {
    map k | k in days && days[k].channel == channel && days[k].date == date :: days[k]
  }

  function DayOrders(orders: Orders, sessions: Sessions, channel: int, date: int): Orders {
    map k | k in orders && OnDay(sessions, orders[k].session, channel, date) :: orders[k]
  }

  function DayPositions(positions: Positions, sessions: Sessions, channel: int, date: int): Positions {
    map k | k in positions && OnDay(sessions, positions[k].session, channel, date) :: positions[k]
  }

  /** The lists hold the rows of this channel and date. */
  ghost predicate Lists(
      sessions: seq<Item<Session>>, days: seq<Item<Day>>, orders: seq<Item<Order>>, positions: seq<Item<Position>>,
      db: Db, channel: int, date: int)
  {
    && Represents(sessions, DaySessions(db.sessions, channel, date))
    && Represents(days, DayDays(db.days, channel, date))
    && Represents(orders, DayOrders(db.orders, db.sessions, channel, date))
    && Represents(positions, DayPositions(db.positions, db.sessions, channel, date))
  }

  lemma OrderWrittenInDay(db: Db, channel: int, date: int, k: EventKey, row: Order)
    requires OnDay(db.sessions, row.session, channel, date)
    ensures DayOrders(db.orders[k := row], db.sessions, channel, date) == DayOrders(db.orders, db.sessions, channel, date)[k := row]
  {
  }

  lemma PositionWrittenInDay(db: Db, channel: int, date: int, k: EventKey, row: Position)
    requires OnDay(db.sessions, row.session, channel, date)
    ensures DayPositions(db.positions[k := row], db.sessions, channel, date)
            == DayPositions(db.positions, db.sessions, channel, date)[k := row]
  {
  }

  /** A session of the day keeps its slot, so the orders and positions of the day stay. */
  lemma SessionWrittenInDay(db: Db, channel: int, date: int, k: EventKey, row: Session)
    requires k in db.sessions && SameSlot(row, db.sessions[k]) && OnDay(db.sessions, k, channel, date)
    ensures var sessions := db.sessions[k := row];
            && DaySessions(sessions, channel, date) == DaySessions(db.sessions, channel, date)[k := row]
            && DayOrders(db.orders, sessions, channel, date) == DayOrders(db.orders, db.sessions, channel, date)
            && DayPositions(db.positions, sessions, channel, date) == DayPositions(db.positions, db.sessions, channel, date)
  {
  }

  /** A pending order has no position yet. */
  lemma FilledInDay(db: Db, m: Message, key: EventKey, event: Event, order: EventKey)
    requires PositionsOk(db.positions, db.orders) && key !in db.positions
    requires order in db.orders && db.orders[order].state == Pending && OnDay(db.sessions, db.orders[order].session, m.channel, m.Date())
    ensures var w, c, d := Write(db, m, key, event, FillOrder(order)), m.channel, m.Date();
            && DayOrders(w.orders, w.sessions, c, d) == DayOrders(db.orders, db.sessions, c, d)[order := w.orders[order]]
            && DayPositions(w.positions, w.sessions, c, d) == DayPositions(db.positions, db.sessions, c, d)[key := w.positions[key]]
            && key !in DayPositions(db.positions, db.sessions, c, d)
            && forall k | k in DayPositions(db.positions, db.sessions, c, d) ::
                 DayPositions(db.positions, db.sessions, c, d)[k].sourceOrder != order
  {
    assert forall k | k in db.positions :: PositionOk(db.positions[k], db.orders);
  }

  lemma OneSessionPerInstrument(db: Db, channel: int, date: int, name: string, session: EventKey)
    requires SessionsOk(db.sessions) && session in SessionsOf(db, channel, date, name)
    ensures SessionsOf(db, channel, date, name) == {session}
  {
    assert forall k | k in SessionsOf(db, channel, date, name) :: SameSlot(db.sessions[k], db.sessions[session]);
  }

  lemma {:induction false} OneElement<T>(s: set<T>, x: T, y: T)
    requires |s| == 1 && x in s && y in s
    ensures x == y
  {
    assert |s - {x}| == 0;
  }

  lemma OneSessionInContext(db: Db, channel: int, date: int, session: EventKey)
    requires SessionsOk(db.sessions)
    requires var candidates := SessionsIn(db, channel, date, {AcceptingSignals, Ending, Ended});
             session in candidates && |InstrumentsOf(db, candidates)| == 1
    ensures SessionsIn(db, channel, date, {AcceptingSignals, Ending, Ended}) == {session}
  {
    var candidates := SessionsIn(db, channel, date, {AcceptingSignals, Ending, Ended});
    forall k | k in candidates
      ensures k == session
    {
      OneElement(InstrumentsOf(db, candidates), db.sessions[k].instrument, db.sessions[session].instrument);
      assert SameSlot(db.sessions[k], db.sessions[session]);
    }
  }

  /** The pending orders of the session are among those loaded, and a session just made has none. */
  lemma TwinsAreOfTheDay(db: Db, m: Message, event: Event, session: EventKey, instrument: string, wanted: Order -> bool)
    requires event.Place? && OrdersOk(db.orders, db.sessions)
    requires OnDay(db.sessions, session, m.channel, m.Date()) || session !in db.sessions
    requires forall row :: wanted(row) <==> IsTwin(row, session, instrument, event)
    ensures Selected(DayOrders(db.orders, db.sessions, m.channel, m.Date()), wanted).Keys == Twins(db, session, instrument, event)
    ensures session !in db.sessions ==> Twins(db, session, instrument, event) == {}
  {
    assert forall k | k in db.orders :: OrderOk(db.orders[k], db.sessions);
  }

  /** The session at this place is one of those loaded, or was made and appended. */
  ghost predicate ResolvedFrom(
      sessions: Sessions, m: Message, key: EventKey, items: seq<Item<Session>>, next: seq<Item<Session>>, place: nat)
    requires place < |next|
  {
    var session := next[place];
    && Represents(items, DaySessions(sessions, m.channel, m.Date()))
    && if session.id in sessions then
         OnDay(sessions, session.id, m.channel, m.Date()) && next == items && session.row == sessions[session.id]
       else
         session == Item(key, NewSession(m, session.row.instrument)) && place == |items| && next == items + [session]
  }

  /** The list of sessions after a placement: its session may be new. */
  lemma SessionsPlacedInDay(
      sessions: Sessions, m: Message, key: EventKey, items: seq<Item<Session>>, next: seq<Item<Session>>, place: nat)
    requires key !in sessions && place < |next| && ResolvedFrom(sessions, m, key, items, next, place)
    ensures var session := next[place];
            var row := session.row.(updatedAt := m.at);
            Represents(next[place := Item(session.id, row)], DaySessions(sessions[session.id := row], m.channel, m.Date()))
  {
    hide Represents;
    var session := next[place];
    var c, d := m.channel, m.Date();
    var loaded := DaySessions(sessions, c, d)[session.id := session.row];
    var row := session.row.(updatedAt := m.at);
    if session.id in sessions {
      assert loaded == DaySessions(sessions, c, d);
    } else {
      RepresentsMore(items, DaySessions(sessions, c, d), key, session.row);
    }
    RepresentsUpdate(next, loaded, place, row);
    assert DaySessions(sessions[session.id := row], c, d) == loaded[session.id := row];
  }

  /** Its order is of the day, and no other order or position joins or leaves the day. */
  lemma OrderPlacedInDay(db: Db, m: Message, key: EventKey, order: Order, session: EventKey, row: Session)
    requires OrdersOk(db.orders, db.sessions) && PositionsHaveSessions(db)
    requires session in db.sessions ==> SameSlot(row, db.sessions[session])
    requires row.channel == m.channel && row.date == m.Date() && order.session == session
    ensures var sessions, c, d := db.sessions[session := row], m.channel, m.Date();
            && DayOrders(db.orders[key := order], sessions, c, d) == DayOrders(db.orders, db.sessions, c, d)[key := order]
            && DayPositions(db.positions, sessions, c, d) == DayPositions(db.positions, db.sessions, c, d)
  {
    assert forall k | k in db.orders :: OrderOk(db.orders[k], db.sessions);
  }

  lemma PlacementIsCarried(db: Db, m: Message, key: EventKey, event: Event, dependsOn: Option<EventKey>,
                           items: seq<Item<Session>>, next: seq<Item<Session>>, place: nat,
                           days: seq<Item<Day>>, orders: seq<Item<Order>>, positions: seq<Item<Position>>)
    requires event.Place? && place < |next| && ResolvedFrom(db.sessions, m, key, items, next, place)
    requires OrdersOk(db.orders, db.sessions) && PositionsHaveSessions(db) && Fresh(db, key)
    requires Represents(days, DayDays(db.days, m.channel, m.Date()))
    requires Represents(orders, DayOrders(db.orders, db.sessions, m.channel, m.Date()))
    requires Represents(positions, DayPositions(db.positions, db.sessions, m.channel, m.Date()))
    ensures var session := next[place];
            var w := Write(db, m, key, event, PlaceOrder(session.id, session.row.instrument, dependsOn));
            var order := NewOrder(session.id, session.row.instrument, event, m.at);
            && Lists(next[place := Item(session.id, session.row.(updatedAt := m.at))], days, orders + [Item(key, order)], positions,
                     w, m.channel, m.Date())
            && w.outbox[key] == PlaceCommand(key, order, dependsOn, m.at)
  {
    hide Represents, OrdersOk, PositionsHaveSessions, DaySessions, DayOrders, DayPositions, DayDays;
    var session := next[place];
    var order := NewOrder(session.id, session.row.instrument, event, m.at);
    SessionsPlacedInDay(db.sessions, m, key, items, next, place);
    OrderPlacedInDay(db, m, key, order, session.id, session.row.(updatedAt := m.at));
    OrdersOfTheDay(db, m.channel, m.Date());
    RepresentsMore(orders, DayOrders(db.orders, db.sessions, m.channel, m.Date()), key, order);
  }

  lemma WriteNothing(db: Db, m: Message, key: EventKey, event: Event)
    ensures forall change: Change | change.Nothing? || change.Refuse? :: Write(db, m, key, event, change) == db
  {
  }

  lemma InvForHandlers(db: Db, key: EventKey)
    requires Inv(db) && key !in db.processed
    ensures SessionsOk(db.sessions) && OrdersOk(db.orders, db.sessions) && PositionsOk(db.positions, db.orders)
    ensures PositionsHaveSessions(db) && Fresh(db, key)
  {
    UnprocessedIsFresh(db, key);
    forall k | k in db.positions
      ensures db.positions[k].session in db.sessions
    {
      assert PositionOk(db.positions[k], db.orders);
      assert OrderOk(db.orders[db.positions[k].sourceOrder], db.sessions);
    }
  }

  /** Rows of other days are as they were. */
  ghost predicate OnlyTheDayDiffers(db: Db, w: Db, channel: int, date: int) {
    && (forall k | k in db.days :: k in w.days && w.days[k] == db.days[k])
    && (forall k | k in w.days :: k in db.days || (w.days[k].channel == channel && w.days[k].date == date))
    && (forall k | k in w.sessions ::
          (k in db.sessions && db.sessions[k] == w.sessions[k]) || OnDay(w.sessions, k, channel, date))
    && (forall k | k in w.orders ::
          (k in db.orders && db.orders[k] == w.orders[k]) || OnDay(w.sessions, w.orders[k].session, channel, date))
    && (forall k | k in w.positions ::
          (k in db.positions && db.positions[k] == w.positions[k]) || OnDay(w.sessions, w.positions[k].session, channel, date))
  }

  /** Rows keep what an update does not write. */
  ghost predicate WritesBack(db: Db, w: Db, channel: int, date: int) {
    && SessionsEvolve(db.sessions, w.sessions)
    && OrdersEvolve(db.orders, w.orders)
    && PositionsEvolve(db.positions, w.positions)
    && OnlyTheDayDiffers(db, w, channel, date)
  }

  lemma {:induction false} SessionTargets(db: Db, w: Db, channel: int, date: int, items: seq<Item<Session>>, merge: (Session, Session) -> Session)
    requires WritesBack(db, w, channel, date) && Represents(items, DaySessions(w.sessions, channel, date))
    requires forall row, item :: merge(row, item) == row.(state := item.state, updatedAt := item.updatedAt, endedAt := item.endedAt)
    ensures Targets(db.sessions, items, merge, w.sessions)
  {
    assert forall k | k in w.sessions && OnDay(w.sessions, k, channel, date) :: k in DaySessions(w.sessions, channel, date);
  }

  lemma {:induction false} DayTargets(db: Db, w: Db, channel: int, date: int, items: seq<Item<Day>>, merge: (Day, Day) -> Day)
    requires WritesBack(db, w, channel, date) && Represents(items, DayDays(w.days, channel, date))
    requires forall row, item :: merge(row, item) == row
    ensures Targets(db.days, items, merge, w.days)
  {
    assert forall k | k in w.days && w.days[k].channel == channel && w.days[k].date == date :: k in DayDays(w.days, channel, date);
  }

  lemma {:induction false} OrderTargets(db: Db, w: Db, channel: int, date: int, items: seq<Item<Order>>, merge: (Order, Order) -> Order)
    requires WritesBack(db, w, channel, date) && Represents(items, DayOrders(w.orders, w.sessions, channel, date))
    requires forall row, item ::
               merge(row, item) == row.(provider := item.provider, state := item.state, updatedAt := item.updatedAt, filledAt := item.filledAt, cancelledAt := item.cancelledAt)
    ensures Targets(db.orders, items, merge, w.orders)
  {
    assert forall k | k in w.orders && OnDay(w.sessions, w.orders[k].session, channel, date) ::
        k in DayOrders(w.orders, w.sessions, channel, date);
  }

  lemma {:induction false} PositionTargets(db: Db, w: Db, channel: int, date: int, items: seq<Item<Position>>, merge: (Position, Position) -> Position)
    requires WritesBack(db, w, channel, date) && Represents(items, DayPositions(w.positions, w.sessions, channel, date))
    requires forall row, item :: merge(row, item) == row.(state := item.state, updatedAt := item.updatedAt, closedAt := item.closedAt)
    ensures Targets(db.positions, items, merge, w.positions)
  {
    assert forall k | k in w.positions && OnDay(w.sessions, w.positions[k].session, channel, date) ::
        k in DayPositions(w.positions, w.sessions, channel, date);
  }

  lemma {:induction false} WriteAddsCommand(db: Db, m: Message, key: EventKey, event: Event, change: Change)
    requires Refers(db, event, change)
    ensures var w := Write(db, m, key, event, change);
            && w.outbox == (if change.Commands() then db.outbox[key := w.outbox[key]] else db.outbox)
            && w.processed == db.processed && w.reviews == db.reviews
  {
  }

  lemma {:induction false} LatestIsUnique(db: Db, key: EventKey, prior: EventKey)
    requires IsLatest(PriorVersions(db, key), prior)
    ensures PriorVersions(db, key) != {} && Latest(PriorVersions(db, key)) == prior
  {
  }

  lemma {:induction false} CommitWritesBack(db: Db, m: Message, key: EventKey, event: Event, change: Change)
    requires Inv(db) && Legal(db, m, key, event, change)
    ensures WritesBack(db, Write(db, m, key, event, change), m.channel, m.Date())
  {
    hide Inv, Legal, Write, SessionsEvolve, OrdersEvolve, PositionsEvolve, OnlyTheDayDiffers;
    LegalRefers(db, m, key, event, change);
    UnprocessedIsFresh(db, key);
    SessionsAfterCommit(db, m, key, event, change);
    OrdersAfterCommit(db, m, key, event, change);
    PositionsAfterCommit(db, m, key, event, change);
    OnlyTheDayIsWritten(db, m, key, event, change);
  }

  lemma {:induction false} OnlyTheDayIsWritten(db: Db, m: Message, key: EventKey, event: Event, change: Change)
    requires Fresh(db, key) && Legal(db, m, key, event, change)
    ensures OnlyTheDayDiffers(db, Write(db, m, key, event, change), m.channel, m.Date())
  {
  }

  lemma {:induction false} SameListsSameTables(
      sessions: seq<Item<Session>>, days: seq<Item<Day>>, orders: seq<Item<Order>>, positions: seq<Item<Position>>,
      a: Db, b: Db, channel: int, date: int)
    requires Lists(sessions, days, orders, positions, a, channel, date)
    requires a.sessions == b.sessions && a.days == b.days && a.orders == b.orders && a.positions == b.positions
    ensures Lists(sessions, days, orders, positions, b, channel, date)
  {
  }

  lemma {:induction false} OrdersOfTheDay(db: Db, channel: int, date: int)
    ensures DayOrders(db.orders, db.sessions, channel, date).Keys <= db.orders.Keys
  {
  }

  ghost predicate PositionsHaveSessions(db: Db) {
    forall k | k in db.positions :: db.positions[k].session in db.sessions
  }

  lemma {:induction false} SilencedInDay(
      db: Db, m: Message, key: EventKey, event: Event, items: seq<Item<Session>>, next: seq<Item<Session>>)
    requires Represents(items, DaySessions(db.sessions, m.channel, m.Date())) && |next| == |items|
    requires forall j | 0 <= j < |items| :: next[j] == Item(items[j].id, Silence(items[j].row, m.at))
    ensures var w, c, d := Write(db, m, key, event, CloseDay), m.channel, m.Date();
            && Represents(next, DaySessions(w.sessions, c, d))
            && DayOrders(db.orders, w.sessions, c, d) == DayOrders(db.orders, db.sessions, c, d)
            && DayPositions(db.positions, w.sessions, c, d) == DayPositions(db.positions, db.sessions, c, d)
  {
    var w := Write(db, m, key, event, CloseDay);
    var rows := DaySessions(w.sessions, m.channel, m.Date());
    forall k | k in rows
      ensures exists i :: 0 <= i < |next| && next[i].id == k
    {
      assert k in DaySessions(db.sessions, m.channel, m.Date());
      var i :| 0 <= i < |items| && items[i].id == k;
      assert next[i].id == k;
    }
  }
}
