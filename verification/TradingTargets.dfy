/** Events act on a unique target or not at all, and no order is placed twice while it is pending. */
module TradingTargets {
  import opened Wrappers
  import opened TradingModel
  import opened TradingInvariant
  import opened TradingHistory
  import opened TradingProvenance

  // ---------- Unique targets ----------

  /** The rows an event could mean. */
  ghost predicate IsCandidate(db: Db, m: Message, event: Event, k: EventKey) {
    match event
    case Cancel(side, orderType, _) => k in PendingOrders(db, m.channel, m.Date(), side, orderType)
    case Trigger(side, orderType) => k in PendingOrders(db, m.channel, m.Date(), side, orderType)
    case TradeResult(_, _) => k in ActivePositions(db, m.channel, m.Date())
    case EndSession => k in SessionsIn(db, m.channel, m.Date(), {AcceptingSignals, Ending})
    case _ => false
  }

  ghost predicate IsOnlyCandidate(db: Db, m: Message, event: Event, k: EventKey) {
    IsCandidate(db, m, event, k) && forall j | IsCandidate(db, m, event, j) :: j == k
  }

  /** What the event does to its target, and that it does nothing to any other row of the table. */
  ghost predicate ActsOn(db: Db, next: Db, event: Event, k: EventKey) {
    match event
    case Cancel(_, _, _) => OnlyOrderMoves(db, next, k, CancelRequested)
    case Trigger(_, _) => OnlyOrderMoves(db, next, k, Filled)
    case TradeResult(kind, _) =>
      && k in db.positions && k in next.positions
      && next.positions == db.positions[k := next.positions[k]]
      && Says(kind, next.positions[k].state)
    case EndSession =>
      && k in db.sessions && k in next.sessions
      && next.sessions == db.sessions[k := next.sessions[k]]
      && next.sessions[k].state == Ended
    case _ => false
  }

  ghost predicate OnlyOrderMoves(db: Db, next: Db, k: EventKey, state: OrderState) {
    k in db.orders && k in next.orders && next.orders == db.orders[k := next.orders[k]] && next.orders[k].state == state
  }

  ghost predicate IsOnly(s: set<EventKey>, k: EventKey) {
    k in s && forall j | j in s :: j == k
  }

  lemma {:induction false} OneCandidate(s: set<EventKey>)
    ensures |s| == 1 <==> exists k :: IsOnly(s, k)
    ensures |s| == 1 ==> s == {Pick(s)}
  {
    if |s| == 1 {
      var k := Pick(s);
      var rest := s - {k};
      assert |rest| == |s| - 1;
      assert rest == {};
      forall j | j in s ensures j == k {
        assert j !in rest;
      }
      assert s == {k} && IsOnly(s, k);
    }
    if k :| IsOnly(s, k) {
      assert s == {k};
    }
  }

  /** The only candidate is the only element of the set of candidates. */
  lemma {:induction false} OnlyOneMeant(db: Db, m: Message, event: Event, candidates: set<EventKey>)
    requires forall k :: IsCandidate(db, m, event, k) <==> k in candidates
    ensures (exists k :: IsOnlyCandidate(db, m, event, k)) <==> |candidates| == 1
    ensures forall k | IsOnlyCandidate(db, m, event, k) :: k in candidates
  {
    hide IsCandidate;
    OneCandidate(candidates);
    if k :| IsOnly(candidates, k) {
      assert IsOnlyCandidate(db, m, event, k);
    }
    if k :| IsOnlyCandidate(db, m, event, k) {
      assert IsOnly(candidates, k);
    }
  }

  /**
    A cancellation, a trigger, a result and the end of a session apply exactly when they can mean one row only. They then
    act on that row, and otherwise ask for review.
   */
  lemma AppliedExactlyWhenTargetIsUnique(db: Db, m: Message, index: nat, prior: seq<AppliedResult>)
    requires index < |m.events| && m.Key(index) !in db.processed && PriorVersions(db, m.Key(index)) == {}
    requires var event := m.events[index]; event.Cancel? || event.Trigger? || event.TradeResult? || event.EndSession?
    ensures var (next, result) := ApplyEvent(db, m, index, prior);
            var event := m.events[index];
            && (result.outcome == Applied <==> exists k :: IsOnlyCandidate(db, m, event, k))
            && (result.outcome != Applied ==> result.outcome == ManualReview)
            && (forall k | IsOnlyCandidate(db, m, event, k) :: ActsOn(db, next, event, k))
  {
    hide ApplyEvent, ActsOn, PriorVersions, PendingOrders, ActivePositions, SessionsIn, IsOnly, IsOnlyCandidate;
    var event := m.events[index];
    var candidates := set k | k in db.orders.Keys + db.positions.Keys + db.sessions.Keys && IsCandidate(db, m, event, k);
    CandidatesOf(db, m, event, candidates);
    OnlyOneMeant(db, m, event, candidates);
    OneCandidate(candidates);
    ActsOnTarget(db, m, index, prior, candidates);
  }

  lemma CandidatesOf(db: Db, m: Message, event: Event, candidates: set<EventKey>)
    requires candidates == set k | k in db.orders.Keys + db.positions.Keys + db.sessions.Keys && IsCandidate(db, m, event, k)
    ensures event.Cancel? || event.Trigger? ==> candidates == PendingOrders(db, m.channel, m.Date(), event.side, event.orderType)
    ensures event.TradeResult? ==> candidates == ActivePositions(db, m.channel, m.Date())
    ensures event.EndSession? ==> candidates == SessionsIn(db, m.channel, m.Date(), {AcceptingSignals, Ending})
    ensures forall k :: k in candidates <==> IsCandidate(db, m, event, k)
  {
  }

  lemma ActsOnTarget(db: Db, m: Message, index: nat, prior: seq<AppliedResult>, candidates: set<EventKey>)
    requires index < |m.events| && m.Key(index) !in db.processed && PriorVersions(db, m.Key(index)) == {}
    requires var event := m.events[index]; event.Cancel? || event.Trigger? || event.TradeResult? || event.EndSession?
    requires var event := m.events[index];
             && (event.Cancel? || event.Trigger? ==> candidates == PendingOrders(db, m.channel, m.Date(), event.side, event.orderType))
             && (event.TradeResult? ==> candidates == ActivePositions(db, m.channel, m.Date()))
             && (event.EndSession? ==> candidates == SessionsIn(db, m.channel, m.Date(), {AcceptingSignals, Ending}))
    requires |candidates| == 1 ==> candidates == {Pick(candidates)}
    ensures var (next, result) := ApplyEvent(db, m, index, prior);
            && (result.outcome == Applied <==> |candidates| == 1)
            && (result.outcome != Applied ==> result.outcome == ManualReview)
            && (|candidates| == 1 ==> forall k | k in candidates :: ActsOn(db, next, m.events[index], k))
  {
    hide DecidePlace;
  }

  // ---------- When the broker is commanded ----------

  /** The session takes this placement: it is open and has no pending order that is the same. */
  ghost predicate Takes(db: Db, session: EventKey, event: Event)
    requires event.Place? && session in db.sessions
  {
    && db.sessions[session].state !in {Ended, NoTrading}
    && Twins(db, session, db.sessions[session].instrument, event) == {}
  }

  /** The sessions a placement without an instrument may mean. */
  function OpenOrEnded(db: Db, m: Message): set<EventKey> {
    SessionsIn(db, m.channel, m.Date(), {AcceptingSignals, Ending, Ended})
  }

  /** The day is open, the cancellation it replaces went through, and every session it may mean takes it; without an
      instrument there must be such sessions, and all for one instrument. */
  ghost predicate IsPlaceable(db: Db, m: Message, event: Event, prior: seq<AppliedResult>)
    requires event.Place?
  {
    && !ReplacementDependency(prior).Unresolved?
    && ClosedDays(db, m.channel, m.Date()) == {}
    && match event.instrument
       case Some(name) => forall s | s in SessionsOf(db, m.channel, m.Date(), name) :: Takes(db, s, event)
       case None =>
         && OpenOrEnded(db, m) != {}
         && (forall s | s in OpenOrEnded(db, m) :: Takes(db, s, event))
         && (forall s, t | s in OpenOrEnded(db, m) && t in OpenOrEnded(db, m) :: db.sessions[s].instrument == db.sessions[t].instrument)
  }

  /** What the tables must show for the event to command the broker. */
  ghost predicate IsCommanding(db: Db, m: Message, event: Event, prior: seq<AppliedResult>) {
    || (event.Place? && IsPlaceable(db, m, event, prior))
    || (event.Cancel? && exists k :: IsOnlyCandidate(db, m, event, k))
  }

  lemma OneInstrument(db: Db, sessions: set<EventKey>)
    requires forall k | k in sessions :: k in db.sessions
    ensures sessions != {} && |InstrumentsOf(db, sessions)| == 1 <==>
              sessions != {} && forall s, t | s in sessions && t in sessions :: db.sessions[s].instrument == db.sessions[t].instrument
  {
    var names := InstrumentsOf(db, sessions);
    forall s | s in sessions ensures db.sessions[s].instrument in names {
    }
    if sessions != {} {
      var name := db.sessions[Pick(sessions)].instrument;
      assert name in names;
      assert |names| == 1 <==> names == {name} by {
        assert |names| == |names - {name}| + 1;
      }
    }
  }

  lemma PlacedExactlyWhenPlaceable(db: Db, m: Message, key: EventKey, event: Event, prior: seq<AppliedResult>)
    requires event.Place? && SessionsOk(db.sessions)
    ensures DecidePlace(db, m, key, event, prior).PlaceOrder? <==> IsPlaceable(db, m, event, prior)
  {
    match event.instrument
    case Some(name) =>
      assert forall s, t | s in SessionsOf(db, m.channel, m.Date(), name) && t in SessionsOf(db, m.channel, m.Date(), name) :: SameSlot(db.sessions[s], db.sessions[t]);
    case None =>
      OneInstrument(db, OpenOrEnded(db, m));
      assert forall s, t | s in OpenOrEnded(db, m) && t in OpenOrEnded(db, m) && db.sessions[s].instrument == db.sessions[t].instrument :: SameSlot(db.sessions[s], db.sessions[t]);
  }

  lemma {:induction false} CancelledExactlyWhenUnique(db: Db, m: Message, event: Event)
    requires event.Cancel?
    ensures (exists k :: IsOnlyCandidate(db, m, event, k)) <==> |PendingOrders(db, m.channel, m.Date(), event.side, event.orderType)| == 1
  {
    hide PendingOrders, IsOnlyCandidate;
    OnlyOneMeant(db, m, event, PendingOrders(db, m.channel, m.Date(), event.side, event.orderType));
  }

  /** An event commands the broker if and only if it is the first version of itself to be processed and the tables show what
      it needs. */
  lemma CommandsExactlyWhen(db: Db, m: Message, index: nat, prior: seq<AppliedResult>)
    requires index < |m.events| && m.Key(index) !in db.processed && SessionsOk(db.sessions)
    ensures ApplyEvent(db, m, index, prior).1.commands != [] <==>
              PriorVersions(db, m.Key(index)) == {} && IsCommanding(db, m, m.events[index], prior)
  {
    hide DecidePlace, IsPlaceable, SessionsOk, PriorVersions, PendingOrders, IsOnlyCandidate, Write, Note;
    var event := m.events[index];
    if event.Place? {
      PlacedExactlyWhenPlaceable(db, m, m.Key(index), event, prior);
      OnlyPlacesOrNothing(db, m, m.Key(index), event, prior);
    } else if event.Cancel? {
      CancelledExactlyWhenUnique(db, m, event);
    }
  }

  lemma OnlyPlacesOrNothing(db: Db, m: Message, key: EventKey, event: Event, prior: seq<AppliedResult>)
    requires event.Place?
    ensures DecidePlace(db, m, key, event, prior).Commands() ==> DecidePlace(db, m, key, event, prior).PlaceOrder?
  {
  }

  // ---------- No order twice ----------

  ghost predicate SamePlacement(a: Order, b: Order) {
    && a.session == b.session && a.instrument == b.instrument && a.side == b.side && a.orderType == b.orderType
    && a.entry == b.entry && a.stopLoss == b.stopLoss && a.takeProfits == b.takeProfits
  }

  /** No two pending orders of a session are the same placement. */
  ghost predicate NoTwins(orders: Orders) {
    forall j, k | j in orders && k in orders && orders[j].state == Pending && orders[k].state == Pending
                  && SamePlacement(orders[j], orders[k]) :: j == k
  }

  lemma PlacementHasNoTwin(db: Db, m: Message, key: EventKey, event: Event, change: Change, k: EventKey)
    requires OrdersOk(db.orders, db.sessions) && Legal(db, m, key, event, change) && change.PlaceOrder? && Fresh(db, key)
    requires k in db.orders && db.orders[k].state == Pending
    ensures !SamePlacement(db.orders[k], Commit(db, m, key, event, change).orders[key])
  {
    assert OrderOk(db.orders[k], db.sessions);
    if change.session in db.sessions {
      assert k !in Twins(db, change.session, change.instrument, event);
    }
  }

  lemma FewerPending(orders: Orders, next: Orders)
    requires NoTwins(orders)
    requires forall k | k in next && next[k].state == Pending :: k in orders && orders[k] == next[k]
    ensures NoTwins(next)
  {
  }

  lemma OneMorePending(orders: Orders, key: EventKey, row: Order)
    requires NoTwins(orders) && key !in orders
    requires forall k | k in orders && orders[k].state == Pending :: !SamePlacement(orders[k], row)
    ensures NoTwins(orders[key := row])
  {
  }

  /** Whatever is not a placement leaves fewer orders pending, or as many. */
  lemma OthersAddNoPending(db: Db, m: Message, key: EventKey, event: Event, change: Change)
    requires Legal(db, m, key, event, change) && !change.PlaceOrder?
    ensures var next := Commit(db, m, key, event, change).orders;
            forall k | k in next && next[k].state == Pending :: k in db.orders && db.orders[k] == next[k]
  {
  }

  lemma PlacementAddsItsOrder(db: Db, m: Message, key: EventKey, event: Event, change: Change)
    requires Legal(db, m, key, event, change) && change.PlaceOrder?
    ensures var next := Commit(db, m, key, event, change).orders; key in next && next == db.orders[key := next[key]]
  {
  }

  lemma CommitKeepsNoTwins(db: Db, m: Message, key: EventKey, event: Event, change: Change)
    requires OrdersOk(db.orders, db.sessions) && Fresh(db, key) && NoTwins(db.orders) && Legal(db, m, key, event, change)
    ensures NoTwins(Commit(db, m, key, event, change).orders)
  {
    hide OrdersOk, Legal, NoTwins, Commit, SamePlacement;
    LegalRefers(db, m, key, event, change);
    var next := Commit(db, m, key, event, change).orders;
    if change.PlaceOrder? {
      PlacementAddsItsOrder(db, m, key, event, change);
      forall k | k in db.orders && db.orders[k].state == Pending
        ensures !SamePlacement(db.orders[k], next[key])
      {
        PlacementHasNoTwin(db, m, key, event, change, k);
      }
      OneMorePending(db.orders, key, next[key]);
    } else {
      OthersAddNoPending(db, m, key, event, change);
      FewerPending(db.orders, next);
    }
  }

  lemma ReportKeepsNoTwins(db: Db, command: EventKey, state: CommandState, at: int)
    requires NoTwins(db.orders)
    ensures NoTwins(ApplyReport(db, command, state, at).orders)
  {
    FewerPending(db.orders, ApplyReport(db, command, state, at).orders);
  }

  lemma OrdersAreOk(db: Db)
    requires Inv(db)
    ensures OrdersOk(db.orders, db.sessions)
  {
  }

  lemma {:induction false} EventsKeepNoTwins(db: Db, m: Message, index: nat, prior: seq<AppliedResult>)
    requires index <= |m.events| && Inv(db) && PriorOk(db, m, index, prior) && NoTwins(db.orders)
    ensures NoTwins(ApplyFrom(db, m, index, prior).0.orders)
    decreases |m.events| - index
  {
    hide Inv, PriorOk, Legal, ChangeOf, Write, NoTwins;
    if index < |m.events| {
      var (next, result) := ApplyEvent(db, m, index, prior);
      EventKeepsInv(db, m, index, prior);
      if m.Key(index) !in db.processed {
        EventIsLegal(db, m, index, prior);
        UnprocessedIsFresh(db, m.Key(index));
        OrdersAreOk(db);
        CommitKeepsNoTwins(db, m, m.Key(index), m.events[index], ChangeOf(db, m, index, prior));
      }
      EventsKeepNoTwins(next, m, index + 1, prior + [result]);
    }
  }

  lemma {:induction false} RunKeepsNoTwins(db: Db, ops: seq<Op>)
    requires Inv(db) && NoTwins(db.orders)
    ensures NoTwins(Run(db, ops).orders)
    decreases |ops|
  {
    hide Inv, NoTwins, ApplyFrom, ApplyReport;
    if ops != [] {
      StepKeepsInv(db, ops[0]);
      match ops[0] {
        case Process(m) =>
          NothingIsPrior(db, m);
          EventsKeepNoTwins(db, m, 0, []);
        case Report(command, state, at) => ReportKeepsNoTwins(db, command, state, at);
      }
      RunKeepsNoTwins(Step(db, ops[0]), ops[1..]);
    }
  }

  /** In every reachable state no session has two pending orders that are the same but for their provider. */
  lemma NoOrderIsPendingTwice(db: Db)
    requires Reachable(db)
    ensures NoTwins(db.orders)
  {
    hide Inv, Run;
    var ops :| db == Run(EMPTY, ops);
    EmptyMeetsInv();
    RunKeepsNoTwins(EMPTY, ops);
  }
}
