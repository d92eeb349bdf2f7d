/**
  What an event comes to, told from the rows of the tables and not by the functions that decide: what is applied to which row, what
  is left undone and what is sent to review for which reason; and what a report does.
 */
module TradingOutcomes {
  import opened Wrappers
  import opened TradingModel
  import opened TradingInvariant
  import opened TradingHistory
  import TradingTargets

  // ---------- What was done ----------

  predicate NamesType(event: Event, eventType: EventType) {
    match eventType
    case PlaceType => event.Place?
    case CancelType => event.Cancel?
    case TriggerType => event.Trigger?
    case TradeResultType => event.TradeResult?
    case EndSessionType => event.EndSession?
    case NoTradingDayType => event.NoTradingDay?
    case RequestManualReviewType => event.RequestManualReview?
    case UnsupportedType(name) => event.Unsupported? && event.name == name
  }

  /** The event's own records are added, and it is answered with this outcome. */
  ghost predicate Recorded(db: Db, next: Db, m: Message, index: nat, result: AppliedResult, outcome: Outcome)
    requires index < |m.events|
  {
    var key, event := m.Key(index), m.events[index];
    && key in next.processed && NamesType(event, result.eventType)
    && next.processed == db.processed[key := Processed(result.eventType, event, outcome, m.at)]
    && result.key == key && result.outcome == outcome
    && (result.reviewed <==> outcome == ManualReview)
  }

  ghost predicate SameTrading(db: Db, next: Db) {
    && next.sessions == db.sessions && next.days == db.days && next.orders == db.orders
    && next.positions == db.positions && next.outbox == db.outbox
  }

  /** The event goes to review for this reason, and changes nothing else. */
  ghost predicate SentToReview(db: Db, next: Db, m: Message, index: nat, result: AppliedResult, reason: Reason)
    requires index < |m.events|
  {
    && Recorded(db, next, m, index, result, ManualReview) && SameTrading(db, next) && result.commands == []
    && next.reviews == db.reviews[m.Key(index) := Review(reason, m.at)]
  }

  /** There was nothing to do. */
  ghost predicate LeftAlone(db: Db, next: Db, m: Message, index: nat, result: AppliedResult)
    requires index < |m.events|
  {
    && Recorded(db, next, m, index, result, Noop) && SameTrading(db, next) && result.commands == []
    && next.reviews == db.reviews
  }

  /** The event is applied, and commands the broker or not. */
  ghost predicate Done(db: Db, next: Db, m: Message, index: nat, result: AppliedResult, commands: bool)
    requires index < |m.events|
  {
    && Recorded(db, next, m, index, result, Applied) && next.reviews == db.reviews
    && result.commands == if commands then [m.Key(index)] else []
  }

  // ---------- Edits ----------

  /** A processed version of the same event before this one, and the latest of these. */
  ghost predicate IsPrevious(db: Db, key: EventKey, k: EventKey) {
    && IsEarlier(db, key, k)
    && forall j | IsEarlier(db, key, j) :: j.version <= k.version
  }

  ghost predicate IsEarlier(db: Db, key: EventKey, k: EventKey) {
    k in db.processed && k.channel == key.channel && k.message == key.message && k.index == key.index && k.version < key.version
  }

  /** Every record has the type of its event. */
  ghost predicate Typed(processed: ProcessedEvents) {
    forall k | k in processed :: processed[k].eventType == TypeOf(processed[k].fingerprint)
  }

  /** An event of a version that follows a processed one is left alone if it is the same, and sent to review if it was changed. */
  lemma {:induction false} EditsAreNoticed(db: Db, m: Message, index: nat, prior: seq<AppliedResult>, k: EventKey)
    requires index < |m.events| && m.Key(index) !in db.processed && Typed(db.processed) && IsPrevious(db, m.Key(index), k)
    ensures var (next, result) := ApplyEvent(db, m, index, prior);
            if db.processed[k].fingerprint == m.events[index] then LeftAlone(db, next, m, index, result)
            else SentToReview(db, next, m, index, result, EditedEventChanged)
  {
    var versions := PriorVersions(db, m.Key(index));
    assert forall j :: j in versions <==> IsEarlier(db, m.Key(index), j);
    assert Latest(versions) == k;
  }

  // ---------- The events of a message ----------

  /** An event that was processed is answered as it was then, commands nothing and changes nothing. */
  lemma {:induction false} ProcessedIsAnswered(db: Db, m: Message, index: nat, prior: seq<AppliedResult>)
    requires index < |m.events| && m.Key(index) in db.processed
    ensures var (next, result) := ApplyEvent(db, m, index, prior);
            && next == db && result.key == m.Key(index) && result.commands == [] && !result.reviewed
            && result.eventType == db.processed[m.Key(index)].eventType && result.outcome == db.processed[m.Key(index)].outcome
  {
    hide ChangeOf;
  }

  /** Each event of the message is applied to the tables that the one before it left. */
  ghost predicate Passes(tables: seq<Db>, m: Message, results: seq<AppliedResult>) {
    && |tables| == |results| + 1 && |results| <= |m.events|
    && forall i | 0 <= i < |results| :: (tables[i + 1], results[i]) == ApplyEvent(tables[i], m, i, results[..i])
  }

  lemma {:induction false} EventsPass(tables: seq<Db>, m: Message, results: seq<AppliedResult>) returns (all: seq<Db>)
    requires Passes(tables, m, results)
    ensures var (next, answers) := ApplyFrom(tables[|results|], m, |results|, results);
            Passes(all, m, answers) && |answers| == |m.events| && tables <= all && all[|m.events|] == next
    decreases |m.events| - |results|
  {
    hide ApplyEvent;
    all := tables;
    if |results| < |m.events| {
      var n := |results|;
      var (next, result) := ApplyEvent(tables[n], m, n, results);
      var longer := results + [result];
      assert forall i | 0 <= i <= n :: longer[..i] == results[..i];
      all := EventsPass(tables + [next], m, longer);
    }
  }

  /** A message is its events one after the other, with one result an event in their order. */
  lemma {:induction false} MessageIsItsEvents(db: Db, m: Message) returns (tables: seq<Db>)
    ensures var (next, results) := ApplyFrom(db, m, 0, []);
            Passes(tables, m, results) && |results| == |m.events| && tables[0] == db && tables[|m.events|] == next
  {
    tables := EventsPass([db], m, []);
  }

  // ---------- The first version of an event ----------

  ghost predicate IsFirst(db: Db, m: Message, index: nat)
    requires index < |m.events|
  {
    m.Key(index) !in db.processed && forall k :: !IsEarlier(db, m.Key(index), k)
  }

  lemma FirstDecides(db: Db, m: Message, index: nat, prior: seq<AppliedResult>)
    requires index < |m.events| && IsFirst(db, m, index)
    ensures ChangeOf(db, m, index, prior) == Decide(db, m, m.Key(index), m.events[index], prior)
  {
    assert forall k | k in PriorVersions(db, m.Key(index)) :: IsEarlier(db, m.Key(index), k);
  }

  /** The session is one of the message's channel and day. */
  ghost predicate IsToday(db: Db, m: Message, s: EventKey) {
    s in db.sessions && db.sessions[s].channel == m.channel && db.sessions[s].date == m.at / 86400
  }

  ghost predicate IsClosedToday(db: Db, m: Message) {
    exists d :: d in db.days && db.days[d].channel == m.channel && db.days[d].date == m.at / 86400
  }

  /** The rows a cancellation, a trigger, a result or the end of a session may mean. */
  ghost predicate MayMean(db: Db, m: Message, event: Event, k: EventKey) {
    match event
    case Cancel(side, orderType, _) => IsPendingToday(db, m, k, side, orderType)
    case Trigger(side, orderType) => IsPendingToday(db, m, k, side, orderType)
    case TradeResult(_, _) => k in db.positions && IsToday(db, m, db.positions[k].session) && db.positions[k].state == Active
    case EndSession => IsToday(db, m, k) && (db.sessions[k].state == AcceptingSignals || db.sessions[k].state == Ending)
    case _ => false
  }

  ghost predicate IsPendingToday(db: Db, m: Message, k: EventKey, side: Side, orderType: OrderType) {
    && k in db.orders && IsToday(db, m, db.orders[k].session) && db.orders[k].state == Pending
    && db.orders[k].side == side && db.orders[k].orderType == orderType
  }

  ghost predicate MeansOnly(db: Db, m: Message, event: Event, k: EventKey) {
    MayMean(db, m, event, k) && forall j | MayMean(db, m, event, j) :: j == k
  }

  /** What these events do to the one row they mean. */
  ghost predicate ActedOn(db: Db, next: Db, m: Message, index: nat, k: EventKey)
    requires index < |m.events|
  {
    match m.events[index]
    case Cancel(_, _, _) => IsCancelled(db, next, m, m.Key(index), k)
    case Trigger(_, _) => IsFilled(db, next, m, m.Key(index), k)
    case TradeResult(kind, _) =>
      && next.sessions == db.sessions && next.days == db.days && next.orders == db.orders && next.outbox == db.outbox
      && k in db.positions
      && exists state :: Ends(kind, state) && next.positions == db.positions[k := db.positions[k].(state := state, closedAt := Some(m.at), updatedAt := m.at)]
    case EndSession =>
      && next.days == db.days && next.orders == db.orders && next.positions == db.positions && next.outbox == db.outbox
      && k in db.sessions && next.sessions == db.sessions[k := db.sessions[k].(state := Ended, endedAt := Some(m.at), updatedAt := m.at)]
    case _ => false
  }

  predicate Ends(kind: ResultKind, state: PositionState) {
    || (kind == TakeProfitHit && state == ClosedTp)
    || (kind == StopLossHit && state == ClosedSl)
    || (kind == BreakEven && state == ClosedBreakEven)
  }

  ghost predicate IsCancelled(db: Db, next: Db, m: Message, key: EventKey, k: EventKey) {
    && k in db.orders
    && next.sessions == db.sessions && next.days == db.days && next.positions == db.positions
    && next.orders == db.orders[k := db.orders[k].(state := CancelRequested, updatedAt := m.at)]
    && next.outbox == db.outbox[key := Command(
         CancelPayload(db.orders[k].instrument, db.orders[k].side, db.orders[k].orderType),
         CommandPending, m.at, db.orders[k].session, k, None, None)]
  }

  ghost predicate IsFilled(db: Db, next: Db, m: Message, key: EventKey, k: EventKey) {
    && k in db.orders
    && next.sessions == db.sessions && next.days == db.days && next.outbox == db.outbox
    && var row := db.orders[k];
       && next.orders == db.orders[k := row.(state := Filled, filledAt := Some(m.at), updatedAt := m.at)]
       && next.positions == db.positions[key := Position(
            row.session, k, row.instrument, row.side, row.entry, row.stopLoss, row.takeProfits, Active, m.at, m.at, None)]
  }

  predicate NoUnique(event: Event, n: nat, reason: Reason) {
    match event
    case Cancel(_, _, _) => reason == NoUniqueOrder(n)
    case Trigger(_, _) => reason == NoUniqueOrder(n)
    case TradeResult(_, _) => reason == NoUniquePosition(n)
    case EndSession => reason == NoUniqueSession(n)
    case _ => false
  }

  lemma {:induction false} CancelDecides(db: Db, m: Message, index: nat, prior: seq<AppliedResult>, candidates: set<EventKey>)
    requires index < |m.events| && IsFirst(db, m, index) && m.events[index].Cancel?
    requires forall k :: k in candidates <==> MayMean(db, m, m.events[index], k)
    ensures ByCandidates(db, m, index, prior, candidates)
  {
    var event := m.events[index];
    FirstDecides(db, m, index, prior);
    assert PendingOrders(db, m.channel, m.Date(), event.side, event.orderType) == candidates;
    TradingTargets.OneCandidate(candidates);
    hide PendingOrders, IsFirst, MayMean, ChangeOf;
    ReviewedFor(db, m, index, prior, NoUniqueOrder(|candidates|));
  }

  lemma {:induction false} TriggerDecides(db: Db, m: Message, index: nat, prior: seq<AppliedResult>, candidates: set<EventKey>)
    requires index < |m.events| && IsFirst(db, m, index) && m.events[index].Trigger?
    requires forall k :: k in candidates <==> MayMean(db, m, m.events[index], k)
    ensures ByCandidates(db, m, index, prior, candidates)
  {
    var event := m.events[index];
    FirstDecides(db, m, index, prior);
    assert PendingOrders(db, m.channel, m.Date(), event.side, event.orderType) == candidates;
    TradingTargets.OneCandidate(candidates);
    hide PendingOrders, IsFirst, MayMean, ChangeOf;
    ReviewedFor(db, m, index, prior, NoUniqueOrder(|candidates|));
  }

  lemma {:induction false} ResultDecides(db: Db, m: Message, index: nat, prior: seq<AppliedResult>, candidates: set<EventKey>)
    requires index < |m.events| && IsFirst(db, m, index) && m.events[index].TradeResult?
    requires forall k :: k in candidates <==> MayMean(db, m, m.events[index], k)
    ensures ByCandidates(db, m, index, prior, candidates)
  {
    FirstDecides(db, m, index, prior);
    assert ActivePositions(db, m.channel, m.Date()) == candidates;
    TradingTargets.OneCandidate(candidates);
    hide ActivePositions, IsFirst, MayMean, ChangeOf;
    ReviewedFor(db, m, index, prior, NoUniquePosition(|candidates|));
    assert Ends(m.events[index].resultKind, ClosedState(m.events[index].resultKind));
  }

  lemma {:induction false} EndDecides(db: Db, m: Message, index: nat, prior: seq<AppliedResult>, candidates: set<EventKey>)
    requires index < |m.events| && IsFirst(db, m, index) && m.events[index].EndSession?
    requires forall k :: k in candidates <==> MayMean(db, m, m.events[index], k)
    ensures ByCandidates(db, m, index, prior, candidates)
  {
    FirstDecides(db, m, index, prior);
    assert SessionsIn(db, m.channel, m.Date(), {AcceptingSignals, Ending}) == candidates;
    TradingTargets.OneCandidate(candidates);
    hide SessionsIn, IsFirst, MayMean, ChangeOf;
    ReviewedFor(db, m, index, prior, NoUniqueSession(|candidates|));
  }

  /** An event that is refused is sent to review for that reason, and changes nothing else. */
  lemma {:induction false} ReviewedFor(db: Db, m: Message, index: nat, prior: seq<AppliedResult>, reason: Reason)
    requires index < |m.events| && m.Key(index) !in db.processed
    ensures ChangeOf(db, m, index, prior) == Refuse(reason) ==>
              var (next, result) := ApplyEvent(db, m, index, prior); SentToReview(db, next, m, index, result, reason)
  {
    hide ChangeOf;
  }

  /** Done to the only candidate, or sent to review with their number. */
  ghost predicate ByCandidates(db: Db, m: Message, index: nat, prior: seq<AppliedResult>, candidates: set<EventKey>)
    requires index < |m.events|
  {
    var (next, result) := ApplyEvent(db, m, index, prior);
    if |candidates| == 1 then
      Done(db, next, m, index, result, m.events[index].Cancel?) && forall k | k in candidates :: ActedOn(db, next, m, index, k)
    else exists reason :: NoUnique(m.events[index], |candidates|, reason) && SentToReview(db, next, m, index, result, reason)
  }

  /**
    A cancellation, a trigger, a result or the end of a session acts on the one row it may mean, and is sent to review with the number
    of candidates when there is none or more than one.
   */
  lemma {:induction false} TargetDecides(db: Db, m: Message, index: nat, prior: seq<AppliedResult>, candidates: set<EventKey>)
    requires index < |m.events| && IsFirst(db, m, index)
    requires var event := m.events[index]; event.Cancel? || event.Trigger? || event.TradeResult? || event.EndSession?
    requires forall k :: k in candidates <==> MayMean(db, m, m.events[index], k)
    ensures ByCandidates(db, m, index, prior, candidates)
  {
    hide ByCandidates, IsFirst, MayMean;
    match m.events[index]
    case Cancel(_, _, _) => CancelDecides(db, m, index, prior, candidates);
    case Trigger(_, _) => TriggerDecides(db, m, index, prior, candidates);
    case TradeResult(_, _) => ResultDecides(db, m, index, prior, candidates);
    case EndSession => EndDecides(db, m, index, prior, candidates);
  }

  // ---------- Days, requests and what is not supported ----------

  /** The day is closed by this event, and the sessions of the day that are still open are silenced; others stay as they are. */
  ghost predicate DayIsClosed(db: Db, next: Db, m: Message, key: EventKey) {
    && next.orders == db.orders && next.positions == db.positions && next.outbox == db.outbox
    && next.days == db.days[key := Day(m.channel, m.at / 86400, m.at)]
    && next.sessions.Keys == db.sessions.Keys
    && forall s | s in db.sessions ::
         next.sessions[s] == if IsToday(db, m, s) && (db.sessions[s].state == AcceptingSignals || db.sessions[s].state == Ending)
                             then db.sessions[s].(state := NoTrading, updatedAt := m.at) else db.sessions[s]
  }

  /** A no-trading day closes a day once; what the parser could not read, or the engine does not support, goes to review as it is. */
  lemma {:induction false} OthersDecide(db: Db, m: Message, index: nat, prior: seq<AppliedResult>)
    requires index < |m.events| && IsFirst(db, m, index)
    ensures var (next, result) := ApplyEvent(db, m, index, prior);
            match m.events[index]
            case NoTradingDay(_) =>
              if IsClosedToday(db, m) then LeftAlone(db, next, m, index, result)
              else Done(db, next, m, index, result, false) && DayIsClosed(db, next, m, m.Key(index))
            case RequestManualReview(reason, details) => SentToReview(db, next, m, index, result, Requested(reason, details))
            case Unsupported(name, _) => SentToReview(db, next, m, index, result, UnsupportedEvent(name))
            case _ => true
  {
    FirstDecides(db, m, index, prior);
    assert IsClosedToday(db, m) <==> ClosedDays(db, m.channel, m.Date()) != {} by {
      if d :| d in db.days && db.days[d].channel == m.channel && db.days[d].date == m.at / 86400 {
        assert d in ClosedDays(db, m.channel, m.Date());
      }
      if d :| d in ClosedDays(db, m.channel, m.Date()) {
        assert d in db.days && db.days[d].channel == m.channel && db.days[d].date == m.at / 86400;
      }
    }
    hide ClosedDays, IsClosedToday, DecidePlace, ChangeOf, IsFirst;
  }

  // ---------- Placements ----------

  ghost predicate IsLastCancel(prior: seq<AppliedResult>, i: int) {
    0 <= i < |prior| && prior[i].eventType == CancelType && forall j | i < j < |prior| :: prior[j].eventType != CancelType
  }

  /** The last cancellation before the event in its message was not applied, or not by one command. */
  ghost predicate CancelUnresolved(prior: seq<AppliedResult>) {
    exists i :: IsLastCancel(prior, i) && !(prior[i].outcome == Applied && |prior[i].commands| == 1)
  }

  /** The command of that cancellation, if there is one. */
  ghost predicate WaitsFor(prior: seq<AppliedResult>, command: Option<EventKey>) {
    && (forall i | IsLastCancel(prior, i) :: command.Some? && prior[i].commands == [command.value])
    && (command.Some? ==> exists i :: IsLastCancel(prior, i))
  }

  lemma {:induction false} DependencyIsLastCancel(prior: seq<AppliedResult>)
    ensures ReplacementDependency(prior).Unresolved? <==> CancelUnresolved(prior)
    ensures !CancelUnresolved(prior) ==>
              WaitsFor(prior, if ReplacementDependency(prior).DependsOn? then Some(ReplacementDependency(prior).command) else None)
  {
    if prior != [] {
      var init := prior[..|prior| - 1];
      if prior[|init|].eventType != CancelType {
        DependencyIsLastCancel(init);
        forall i: int ensures IsLastCancel(prior, i) <==> IsLastCancel(init, i) {
          if IsLastCancel(init, i) {
            assert forall j | i < j < |prior| :: j < |init| ==> prior[j] == init[j];
          }
          if IsLastCancel(prior, i) {
            assert i < |init| && forall j | i < j < |init| :: prior[j] == init[j];
          }
        }
      } else {
        assert IsLastCancel(prior, |init|);
      }
    }
  }

  ghost predicate IsSessionFor(db: Db, m: Message, name: string, s: EventKey) {
    IsToday(db, m, s) && db.sessions[s].instrument == name
  }

  /** A pending order of the session that differs from what is asked for in its provider at most. */
  ghost predicate IsSame(db: Db, s: EventKey, event: Event, k: EventKey)
    requires event.Place? && s in db.sessions
  {
    && k in db.orders && db.orders[k].session == s && db.orders[k].state == Pending
    && db.orders[k].instrument == db.sessions[s].instrument
    && db.orders[k].side == event.side && db.orders[k].orderType == event.orderType && db.orders[k].entry == event.entry
    && db.orders[k].stopLoss == event.stopLoss && db.orders[k].takeProfits == event.takeProfits
  }

  /** The order is placed in this session, which is touched or begun, and the broker commanded, at once or after a cancellation. */
  ghost predicate PlacedIn(db: Db, next: Db, m: Message, index: nat, s: EventKey, name: string, command: Option<EventKey>)
    requires index < |m.events| && m.events[index].Place?
  {
    var key, event := m.Key(index), m.events[index];
    && next.days == db.days && next.positions == db.positions
    && next.sessions == db.sessions[s := if s in db.sessions then db.sessions[s].(updatedAt := m.at)
                                         else Session(m.channel, m.at / 86400, name, AcceptingSignals, m.at, m.at, None)]
    && next.orders == db.orders[key := Order(
         s, name, event.side, event.orderType, event.provider, event.entry, event.stopLoss, event.takeProfits,
         Pending, m.at, m.at, None, None)]
    && next.outbox == db.outbox[key := Command(
         PlacePayload(name, event.side, event.orderType, event.provider, event.entry, event.stopLoss, event.takeProfits),
         if command.Some? then CommandBlocked else CommandPending, m.at, s, key, command, None)]
  }

  /** What a placement comes to in a session of its day: refused when closed, left alone when it is there, else placed. */
  ghost predicate DecidedIn(db: Db, next: Db, m: Message, index: nat, result: AppliedResult, s: EventKey, prior: seq<AppliedResult>)
    requires index < |m.events| && m.events[index].Place?
  {
    s in db.sessions &&
    if db.sessions[s].state == Ended || db.sessions[s].state == NoTrading then
      SentToReview(db, next, m, index, result, SessionClosed(db.sessions[s].state))
    else if exists k :: IsSame(db, s, m.events[index], k) then LeftAlone(db, next, m, index, result)
    else Placed(db, next, m, index, result, s, db.sessions[s].instrument, prior)
  }

  ghost predicate Placed(db: Db, next: Db, m: Message, index: nat, result: AppliedResult, s: EventKey, name: string, prior: seq<AppliedResult>)
    requires index < |m.events| && m.events[index].Place?
  {
    Done(db, next, m, index, result, true) && exists command :: WaitsFor(prior, command) && PlacedIn(db, next, m, index, s, name, command)
  }

  /** The sessions that a placement without an instrument may mean. */
  ghost predicate IsCandidate(db: Db, m: Message, s: EventKey) {
    IsToday(db, m, s) && (db.sessions[s].state == AcceptingSignals || db.sessions[s].state == Ending || db.sessions[s].state == Ended)
  }

  /** The session the model resolves for a placement, and what is decided there. */
  lemma {:induction false} DecidesIn(db: Db, m: Message, index: nat, prior: seq<AppliedResult>, s: EventKey)
    requires index < |m.events| && m.events[index].Place? && IsFirst(db, m, index) && !CancelUnresolved(prior) && !IsClosedToday(db, m)
    requires s in db.sessions && ResolveSession(db, m.channel, m.Date(), m.events[index].instrument) == Found(s)
    ensures var (next, result) := ApplyEvent(db, m, index, prior); DecidedIn(db, next, m, index, result, s, prior)
  {
    var event := m.events[index];
    var dependency := ReplacementDependency(prior);
    FirstDecides(db, m, index, prior);
    DependencyIsLastCancel(prior);
    NotClosed(db, m);
    SameAsTwin(db, s, event);
    hide ReplacementDependency, CancelUnresolved, WaitsFor, IsFirst, IsSame, Twins, ClosedDays, IsClosedToday, ResolveSession, ChangeOf;
    ReviewedFor(db, m, index, prior, SessionClosed(db.sessions[s].state));
  }

  lemma NotClosed(db: Db, m: Message)
    ensures IsClosedToday(db, m) <==> ClosedDays(db, m.channel, m.Date()) != {}
  {
    if d :| d in db.days && db.days[d].channel == m.channel && db.days[d].date == m.at / 86400 {
      assert d in ClosedDays(db, m.channel, m.Date());
    }
    if d :| d in ClosedDays(db, m.channel, m.Date()) {
      assert d in db.days && db.days[d].channel == m.channel && db.days[d].date == m.at / 86400;
    }
  }

  lemma SameAsTwin(db: Db, s: EventKey, event: Event)
    requires event.Place? && s in db.sessions
    ensures Twins(db, s, db.sessions[s].instrument, event) != {} <==> exists k :: IsSame(db, s, event, k)
  {
    if k :| IsSame(db, s, event, k) {
      assert k in Twins(db, s, db.sessions[s].instrument, event);
    }
    if k :| k in Twins(db, s, db.sessions[s].instrument, event) {
      assert IsSame(db, s, event, k);
    }
  }

  /** A placement waits for the cancellation before it and finds its day open, or it is refused. */
  lemma {:induction false} PlacementIsRefused(db: Db, m: Message, index: nat, prior: seq<AppliedResult>)
    requires index < |m.events| && m.events[index].Place? && IsFirst(db, m, index)
    ensures var (next, result) := ApplyEvent(db, m, index, prior);
            && (CancelUnresolved(prior) ==> SentToReview(db, next, m, index, result, ReplacementUnresolved))
            && (!CancelUnresolved(prior) && IsClosedToday(db, m) ==> SentToReview(db, next, m, index, result, SessionClosed(NoTrading)))
  {
    FirstDecides(db, m, index, prior);
    DependencyIsLastCancel(prior);
    NotClosed(db, m);
    hide ReplacementDependency, CancelUnresolved, IsFirst, ClosedDays, IsClosedToday, ResolveSession, ChangeOf, SentToReview;
    ReviewedFor(db, m, index, prior, ReplacementUnresolved);
    ReviewedFor(db, m, index, prior, SessionClosed(NoTrading));
  }

  /** With an instrument, a placement goes to the session of that instrument, and begins it if there is none. */
  lemma {:induction false} NamedPlacementDecides(db: Db, m: Message, index: nat, prior: seq<AppliedResult>)
    requires index < |m.events| && m.events[index].Place? && m.events[index].instrument.Some? && IsFirst(db, m, index)
    requires SessionsOk(db.sessions) && m.Key(index) !in db.sessions && !CancelUnresolved(prior) && !IsClosedToday(db, m)
    ensures var (next, result) := ApplyEvent(db, m, index, prior);
            var name := m.events[index].instrument.value;
            && (forall s | IsSessionFor(db, m, name, s) :: DecidedIn(db, next, m, index, result, s, prior))
            && ((forall s :: !IsSessionFor(db, m, name, s)) ==> Placed(db, next, m, index, result, m.Key(index), name, prior))
  {
    var name := m.events[index].instrument.value;
    var named := SessionsOf(db, m.channel, m.Date(), name);
    assert forall s :: s in named <==> IsSessionFor(db, m, name, s);
    if named != {} {
      assert forall s | IsSessionFor(db, m, name, s) :: SameSlot(db.sessions[s], db.sessions[Pick(named)]);
      hide IsFirst, IsSessionFor, DecidedIn, Placed, SessionsOf, CancelUnresolved, IsClosedToday;
      DecidesIn(db, m, index, prior, Pick(named));
    } else {
      hide IsSessionFor, SessionsOf;
      Begins(db, m, index, prior, name);
    }
  }

  lemma {:induction false} Begins(db: Db, m: Message, index: nat, prior: seq<AppliedResult>, name: string)
    requires index < |m.events| && m.events[index].Place? && IsFirst(db, m, index) && !CancelUnresolved(prior) && !IsClosedToday(db, m)
    requires m.Key(index) !in db.sessions && ResolveSession(db, m.channel, m.Date(), m.events[index].instrument) == Created(name)
    ensures var (next, result) := ApplyEvent(db, m, index, prior); Placed(db, next, m, index, result, m.Key(index), name, prior)
  {
    FirstDecides(db, m, index, prior);
    DependencyIsLastCancel(prior);
    NotClosed(db, m);
    hide ReplacementDependency, CancelUnresolved, WaitsFor, IsFirst, ClosedDays, IsClosedToday, ResolveSession, ChangeOf;
  }

  /** Without one it goes to the only session it may mean; when there is none, or there are sessions for several instruments, it is
      sent to review with their number. */
  lemma {:induction false} UnnamedPlacementDecides(db: Db, m: Message, index: nat, prior: seq<AppliedResult>, candidates: set<EventKey>)
    requires index < |m.events| && m.events[index].Place? && m.events[index].instrument.None? && IsFirst(db, m, index)
    requires SessionsOk(db.sessions) && !CancelUnresolved(prior) && !IsClosedToday(db, m)
    requires forall s :: s in candidates <==> IsCandidate(db, m, s)
    ensures var (next, result) := ApplyEvent(db, m, index, prior);
            if candidates != {} && forall s, t | s in candidates && t in candidates :: s == t then
              forall s | s in candidates :: DecidedIn(db, next, m, index, result, s, prior)
            else SentToReview(db, next, m, index, result, InstrumentUnresolved(|candidates|))
  {
    assert SessionsIn(db, m.channel, m.Date(), {AcceptingSignals, Ending, Ended}) == candidates;
    OneSession(db, m, candidates);
    hide IsFirst, DecidedIn, SessionsIn, IsCandidate, CancelUnresolved, IsClosedToday, InstrumentsOf, SentToReview;
    if candidates != {} && forall s, t | s in candidates && t in candidates :: s == t {
      DecidesIn(db, m, index, prior, Pick(candidates));
    } else {
      Unresolvable(db, m, index, prior, |candidates|);
    }
  }

  lemma {:induction false} Unresolvable(db: Db, m: Message, index: nat, prior: seq<AppliedResult>, n: nat)
    requires index < |m.events| && m.events[index].Place? && IsFirst(db, m, index) && !CancelUnresolved(prior) && !IsClosedToday(db, m)
    requires ResolveSession(db, m.channel, m.Date(), m.events[index].instrument) == NotResolved(n)
    ensures var (next, result) := ApplyEvent(db, m, index, prior); SentToReview(db, next, m, index, result, InstrumentUnresolved(n))
  {
    FirstDecides(db, m, index, prior);
    DependencyIsLastCancel(prior);
    NotClosed(db, m);
    hide ReplacementDependency, CancelUnresolved, IsFirst, ClosedDays, IsClosedToday, ResolveSession, ChangeOf, SentToReview;
    ReviewedFor(db, m, index, prior, InstrumentUnresolved(n));
  }

  /** Sessions of one day are for different instruments, so those for one instrument are one. */
  lemma OneSession(db: Db, m: Message, candidates: set<EventKey>)
    requires SessionsOk(db.sessions) && forall s | s in candidates :: IsToday(db, m, s)
    ensures candidates != {} && |InstrumentsOf(db, candidates)| == 1 <==>
              candidates != {} && forall s, t | s in candidates && t in candidates :: s == t
  {
    if candidates != {} {
      var names, one := InstrumentsOf(db, candidates), Pick(candidates);
      var name := db.sessions[one].instrument;
      assert name in names && |names| == |names - {name}| + 1;
      forall s | s in candidates ensures db.sessions[s].instrument == name <==> s == one {
        assert s != one ==> !SameSlot(db.sessions[s], db.sessions[one]);
      }
      assert |names| == 1 <==> names == {name};
      forall s | s in candidates ensures db.sessions[s].instrument in names {
      }
    }
  }

  // ---------- Reports ----------

  /** A report on a cancellation moves its order to the state that reflects it and dates the cancellation, or undates it; a report on a
      placement moves no order; neither touches any other order or table. */
  lemma {:induction false} ReportMovesTheOrder(db: Db, command: EventKey, state: CommandState, at: int)
    requires Inv(db) && command in db.outbox
    ensures var next, row := ApplyReport(db, command, state, at), db.outbox[command];
            && next.sessions == db.sessions && next.days == db.days && next.positions == db.positions
            && next.processed == db.processed && next.reviews == db.reviews
            && (row.payload.PlacePayload? ==> next.orders == db.orders)
            && (row.payload.CancelPayload? ==> OrderMoves(db, next, row.order, state, at))
  {
    CommandsAreOk(db);
    ReportedCommandOk(db, command);
    hide Inv;
    ReportOnCancel(db, command, state, at);
  }

  /** This order is in the state that reflects the report, and dated by it. */
  ghost predicate OrderMoves(db: Db, next: Db, order: EventKey, state: CommandState, at: int) {
    && order in db.orders && order in next.orders
    && Reflects(state, next.orders[order].state)
    && next.orders == db.orders[order := db.orders[order].(
         state := next.orders[order].state, updatedAt := at, cancelledAt := if state == Succeeded then Some(at) else None)]
  }

  lemma ReportOnCancel(db: Db, command: EventKey, state: CommandState, at: int)
    requires command in db.outbox && (db.outbox[command].payload.CancelPayload? ==> db.outbox[command].order in db.orders)
    ensures var next, row := ApplyReport(db, command, state, at), db.outbox[command];
            && (row.payload.PlacePayload? ==> next.orders == db.orders)
            && (row.payload.CancelPayload? ==> OrderMoves(db, next, row.order, state, at))
  {
    hide ReportedCommand;
  }

  /** It sets the state of the command; a success of it sends the blocked commands that wait for it, and returns these. */
  lemma {:induction false} ReportMovesTheCommands(db: Db, command: EventKey, state: CommandState, at: int, k: EventKey)
    requires command in db.outbox && k in db.outbox
    ensures var next := ApplyReport(db, command, state, at);
            var waiting := k != command && db.outbox[k].dependsOn == Some(command) && db.outbox[k].state == CommandBlocked;
            && next.outbox.Keys == db.outbox.Keys
            && next.outbox[k] == (if k == command then db.outbox[k].(state := state)
                                  else if waiting && state == Succeeded then db.outbox[k].(state := CommandPending, releasedAt := Some(at))
                                  else db.outbox[k])
            && (k in ReleasedBy(db, command, state) <==> waiting && state == Succeeded)
  {
  }

  /** A report on a command that does not exist changes nothing and releases nothing. */
  lemma {:induction false} UnknownReportChangesNothing(db: Db, command: EventKey, state: CommandState, at: int)
    requires command !in db.outbox
    ensures ApplyReport(db, command, state, at) == db && ReleasedBy(db, command, state) == {}
  {
  }

  // ---------- Every record has the type of its event ----------

  lemma {:induction false} EventsKeepTyped(db: Db, m: Message, index: nat, prior: seq<AppliedResult>)
    requires index <= |m.events| && Typed(db.processed)
    ensures Typed(ApplyFrom(db, m, index, prior).0.processed)
    decreases |m.events| - index
  {
    hide ChangeOf, Write;
    if index < |m.events| {
      var (next, result) := ApplyEvent(db, m, index, prior);
      ChangeRefers(db, m, index, prior);
      WriteKeepsRecords(db, m, m.Key(index), m.events[index], ChangeOf(db, m, index, prior));
      EventsKeepTyped(next, m, index + 1, prior + [result]);
    }
  }

  lemma {:induction false} RunKeepsTyped(db: Db, ops: seq<Op>)
    requires Typed(db.processed)
    ensures Typed(Run(db, ops).processed)
    decreases |ops|
  {
    hide ApplyFrom;
    if ops != [] {
      if ops[0].Process? {
        EventsKeepTyped(db, ops[0].message, 0, []);
      }
      RunKeepsTyped(Step(db, ops[0]), ops[1..]);
    }
  }

  lemma {:induction false} ReachableIsTyped(db: Db)
    requires Reachable(db)
    ensures Typed(db.processed)
  {
    var ops :| db == Run(EMPTY, ops);
    RunKeepsTyped(EMPTY, ops);
  }
}
