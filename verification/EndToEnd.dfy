/** From incoming messages to commands: store the version, parse it, apply it. */
module EndToEnd {
  import opened Wrappers
  import opened RawMessages
  import opened TradingModel
  import opened TradingInvariant
  import opened TradingHistory
  import opened TradingReplacement
  import opened TradingRedelivery

  /** The parser is a function of the stored version. */
  type Parser = RawMessage -> seq<Event>

  function MessageOf(row: Stored, parse: Parser): Message {
    Message(row.raw.channel, row.raw.message, row.version,
            if row.raw.editDate.Some? then row.raw.editDate.value else row.raw.date, parse(row.raw))
  }

  datatype Engine = Engine(rows: seq<Stored>, db: Db)

  datatype Input =
    | Deliver(raw: RawMessage)
    | DeliverAndCrash(raw: RawMessage)
    | BrokerReport(command: EventKey, state: CommandState, at: int)

  /** The row a delivery is answered with. */
  function RowFor(rows: seq<Stored>, raw: RawMessage): (row: Stored)
    ensures row in Ingest(rows, raw) && row.raw.SameVersion(raw)
  {
    var existing := Existing(rows, raw);
    if existing.Some? then rows[existing.value] else NextRow(rows, raw)
  }

  /** `process_raw_message`: two transactions, and a crash may fall between them. */
  ghost function Accept(engine: Engine, input: Input, parse: Parser): Engine {
    match input
    case Deliver(raw) =>
      Engine(Ingest(engine.rows, raw), ApplyMessage(engine.db, MessageOf(RowFor(engine.rows, raw), parse)))
    case DeliverAndCrash(raw) => engine.(rows := Ingest(engine.rows, raw))
    case BrokerReport(command, state, at) => engine.(db := ApplyReport(engine.db, command, state, at))
  }

  const START := Engine([], EMPTY)

  ghost function AcceptAll(inputs: seq<Input>, parse: Parser): Engine {
    if inputs == [] then START
    else Accept(AcceptAll(inputs[..|inputs| - 1], parse), inputs[|inputs| - 1], parse)
  }

  // ---------- The rows, and which of them were processed ----------

  /** The rows that a sequence of inputs leaves; the parser has no part in them. */
  function StoredBy(inputs: seq<Input>): seq<Stored> {
    if inputs == [] then []
    else
      var init, last := inputs[..|inputs| - 1], inputs[|inputs| - 1];
      if last.BrokerReport? then StoredBy(init) else Ingest(StoredBy(init), last.raw)
  }

  predicate Delivers(input: Input, raw: RawMessage) {
    input.Deliver? && input.raw.SameVersion(raw)
  }

  /** This version was delivered, and the delivery did not crash. */
  ghost predicate Delivered(inputs: seq<Input>, raw: RawMessage) {
    exists j :: 0 <= j < |inputs| && Delivers(inputs[j], raw)
  }

  ghost predicate IsVersionOf(row: Stored, k: EventKey) {
    row.raw.channel == k.channel && row.raw.message == k.message && row.version == k.version
  }

  /** What was processed is a stored version that was delivered. */
  ghost predicate OnlyDelivered(engine: Engine, inputs: seq<Input>) {
    forall k | k in engine.db.processed ::
      exists i :: 0 <= i < |engine.rows| && IsVersionOf(engine.rows[i], k) && Delivered(inputs, engine.rows[i].raw)
  }

  /** Every stored version that was delivered was processed. */
  ghost predicate AllDelivered(engine: Engine, inputs: seq<Input>, parse: Parser) {
    forall i | 0 <= i < |engine.rows| && Delivered(inputs, engine.rows[i].raw) :: IsProcessed(engine.db, MessageOf(engine.rows[i], parse))
  }

  ghost predicate Sound(engine: Engine, inputs: seq<Input>, parse: Parser) {
    && engine.rows == StoredBy(inputs)
    && GoodTable(engine.rows)
    && Inv(engine.db)
    && OnlyDelivered(engine, inputs)
    && AllDelivered(engine, inputs, parse)
  }

  lemma {:induction false} ProcessedOnlyItsKeys(db: Db, m: Message, index: nat, prior: seq<AppliedResult>, k: EventKey)
    requires index <= |m.events| && k in ApplyFrom(db, m, index, prior).0.processed && k !in db.processed
    ensures k.channel == m.channel && k.message == m.message && k.version == m.version
    decreases |m.events| - index
  {
    hide ChangeOf, Write;
    if index < |m.events| {
      var (next, result) := ApplyEvent(db, m, index, prior);
      if k in next.processed {
        ChangeRefers(db, m, index, prior);
        WriteKeepsRecords(db, m, m.Key(index), m.events[index], ChangeOf(db, m, index, prior));
      } else {
        ProcessedOnlyItsKeys(next, m, index + 1, prior + [result], k);
      }
    }
  }

  lemma DeliveredMore(inputs: seq<Input>, input: Input, raw: RawMessage)
    ensures Delivered(inputs + [input], raw) <==> Delivered(inputs, raw) || Delivers(input, raw)
  {
    if j :| 0 <= j < |inputs| && Delivers(inputs[j], raw) {
      assert Delivers((inputs + [input])[j], raw);
    }
    if Delivers(input, raw) {
      assert Delivers((inputs + [input])[|inputs|], raw);
    }
  }

  lemma {:induction false} DeliveryKeepsOnly(engine: Engine, inputs: seq<Input>, raw: RawMessage, parse: Parser)
    requires OnlyDelivered(engine, inputs)
    ensures OnlyDelivered(Accept(engine, Deliver(raw), parse), inputs + [Deliver(raw)])
  {
    hide ApplyFrom, Delivered;
    var row := RowFor(engine.rows, raw);
    var m := MessageOf(row, parse);
    var next := Accept(engine, Deliver(raw), parse);
    forall k | k in next.db.processed
      ensures exists i :: 0 <= i < |next.rows| && IsVersionOf(next.rows[i], k) && Delivered(inputs + [Deliver(raw)], next.rows[i].raw)
    {
      if k in engine.db.processed {
        var i :| 0 <= i < |engine.rows| && IsVersionOf(engine.rows[i], k) && Delivered(inputs, engine.rows[i].raw);
        DeliveredMore(inputs, Deliver(raw), engine.rows[i].raw);
        assert next.rows[i] == engine.rows[i];
      } else {
        ProcessedOnlyItsKeys(engine.db, m, 0, [], k);
        DeliveredMore(inputs, Deliver(raw), row.raw);
        var i :| 0 <= i < |next.rows| && next.rows[i] == row;
        assert IsVersionOf(next.rows[i], k);
      }
    }
  }

  lemma {:induction false} RowIsFound(rows: seq<Stored>, i: nat, raw: RawMessage)
    requires GoodTable(rows) && i < |rows| && rows[i].raw.SameVersion(raw)
    ensures Existing(rows, raw) == Some(i) && RowFor(rows, raw) == rows[i]
  {
  }

  /** The row a delivery is answered with is there afterwards, and answers every later delivery of that version. */
  lemma {:induction false} RowStays(rows: seq<Stored>, more: seq<Stored>, raw: RawMessage, again: RawMessage)
    requires GoodTable(more) && Ingest(rows, raw) <= more && again.SameVersion(raw)
    ensures RowFor(more, again) == RowFor(rows, raw) && Existing(more, again).Some?
  {
    var row := RowFor(rows, raw);
    var i :| 0 <= i < |Ingest(rows, raw)| && Ingest(rows, raw)[i] == row;
    RowIsFound(more, i, again);
  }

  lemma {:induction false} DeliveryKeepsAll(engine: Engine, inputs: seq<Input>, raw: RawMessage, parse: Parser)
    requires GoodTable(engine.rows) && Inv(engine.db) && AllDelivered(engine, inputs, parse)
    ensures AllDelivered(Accept(engine, Deliver(raw), parse), inputs + [Deliver(raw)], parse)
  {
    hide Inv, ApplyFrom, Evolves, Delivered, IsProcessed, GoodTable;
    var row := RowFor(engine.rows, raw);
    var m := MessageOf(row, parse);
    var next := Accept(engine, Deliver(raw), parse);
    NothingIsPrior(engine.db, m);
    DeliveryProcesses(engine.db, m);
    StepEvolves(engine.db, Process(m));
    IngestKeepsGood(engine.rows, raw);
    forall i | 0 <= i < |next.rows| && Delivered(inputs + [Deliver(raw)], next.rows[i].raw)
      ensures IsProcessed(next.db, MessageOf(next.rows[i], parse))
    {
      DeliveredMore(inputs, Deliver(raw), next.rows[i].raw);
      if raw.SameVersion(next.rows[i].raw) {
        RowIsFound(next.rows, i, raw);
        RowStays(engine.rows, next.rows, raw, raw);
      } else {
        assert next.rows[i] == engine.rows[i];
        StaysProcessed(engine.db, next.db, MessageOf(engine.rows[i], parse));
      }
    }
  }

  lemma DeliveryProcesses(db: Db, m: Message)
    requires Inv(db) && PriorOk(db, m, 0, [])
    ensures IsProcessed(ApplyMessage(db, m), m)
  {
    ProcessedFrom(db, m, 0, []);
  }

  lemma StaysProcessed(a: Db, b: Db, m: Message)
    requires Evolves(a, b) && IsProcessed(a, m)
    ensures IsProcessed(b, m)
  {
    hide Evolves;
    forall i: nat | i < |m.events|
      ensures m.Key(i) in b.processed
    {
      ProcessedStays(a, b, m.Key(i));
    }
  }

  lemma {:induction false} OthersKeepOnly(engine: Engine, inputs: seq<Input>, input: Input, parse: Parser)
    requires !input.Deliver? && OnlyDelivered(engine, inputs)
    ensures OnlyDelivered(Accept(engine, input, parse), inputs + [input])
  {
    hide Delivered;
    var next := Accept(engine, input, parse);
    forall k | k in next.db.processed
      ensures exists i :: 0 <= i < |next.rows| && IsVersionOf(next.rows[i], k) && Delivered(inputs + [input], next.rows[i].raw)
    {
      assert k in engine.db.processed;
      var i :| 0 <= i < |engine.rows| && IsVersionOf(engine.rows[i], k) && Delivered(inputs, engine.rows[i].raw);
      DeliveredMore(inputs, input, engine.rows[i].raw);
      assert next.rows[i] == engine.rows[i];
    }
  }

  /** A delivered version is among the rows. */
  lemma {:induction false} DeliveredIsStored(inputs: seq<Input>, raw: RawMessage)
    requires Delivered(inputs, raw)
    ensures GoodTable(StoredBy(inputs)) && Existing(StoredBy(inputs), raw).Some?
  {
    var j :| 0 <= j < |inputs| && Delivers(inputs[j], raw);
    RowIsKept(inputs, j, raw);
  }

  lemma {:induction false} OthersKeepAll(engine: Engine, inputs: seq<Input>, input: Input, parse: Parser)
    requires engine.rows == StoredBy(inputs) && !input.Deliver? && AllDelivered(engine, inputs, parse)
    ensures AllDelivered(Accept(engine, input, parse), inputs + [input], parse)
  {
    hide Delivered, IsProcessed, GoodTable;
    var next := Accept(engine, input, parse);
    forall i | 0 <= i < |next.rows| && Delivered(inputs + [input], next.rows[i].raw)
      ensures IsProcessed(next.db, MessageOf(next.rows[i], parse))
    {
      DeliveredMore(inputs, input, next.rows[i].raw);
      DeliveredIsStored(inputs, next.rows[i].raw);
      if i < |engine.rows| {
        SameProcessed(engine.db, next.db, MessageOf(engine.rows[i], parse));
      }
    }
  }

  lemma SameProcessed(a: Db, b: Db, m: Message)
    requires a.processed == b.processed
    ensures IsProcessed(a, m) <==> IsProcessed(b, m)
  {
  }

  lemma {:induction false} StoredIsGood(inputs: seq<Input>)
    ensures GoodTable(StoredBy(inputs))
  {
    if inputs != [] {
      StoredIsGood(inputs[..|inputs| - 1]);
      if !inputs[|inputs| - 1].BrokerReport? {
        IngestKeepsGood(StoredBy(inputs[..|inputs| - 1]), inputs[|inputs| - 1].raw);
      }
    }
  }

  lemma {:induction false} StoredGrows(inputs: seq<Input>, n: nat)
    requires n <= |inputs|
    ensures StoredBy(inputs[..n]) <= StoredBy(inputs)
    decreases |inputs|
  {
    if n == |inputs| {
      assert inputs[..n] == inputs;
    } else {
      assert inputs[..|inputs| - 1][..n] == inputs[..n];
      StoredGrows(inputs[..|inputs| - 1], n);
    }
  }

  /** The row that answered an input still answers its version at the end. */
  lemma {:induction false} RowIsKept(inputs: seq<Input>, n: nat, raw: RawMessage)
    requires n < |inputs| && !inputs[n].BrokerReport? && inputs[n].raw.SameVersion(raw)
    ensures GoodTable(StoredBy(inputs)) && Existing(StoredBy(inputs), raw).Some?
    ensures RowFor(StoredBy(inputs), raw) == RowFor(StoredBy(inputs[..n]), inputs[n].raw)
  {
    hide GoodTable;
    StoredIsGood(inputs);
    StoredGrows(inputs, n + 1);
    assert inputs[..n + 1][..n] == inputs[..n];
    RowStays(StoredBy(inputs[..n]), StoredBy(inputs), inputs[n].raw, raw);
  }

  /** Whatever is delivered, crashes or is reported. */
  lemma {:induction false} AcceptAllIsSound(inputs: seq<Input>, parse: Parser)
    ensures Sound(AcceptAll(inputs, parse), inputs, parse)
  {
    if inputs == [] {
      EmptyMeetsInv();
    } else {
      var init, last := inputs[..|inputs| - 1], inputs[|inputs| - 1];
      AcceptAllIsSound(init, parse);
      assert init + [last] == inputs;
      SoundIsKept(AcceptAll(init, parse), init, last, parse);
    }
  }

  lemma {:induction false} SoundIsKept(engine: Engine, inputs: seq<Input>, input: Input, parse: Parser)
    requires Sound(engine, inputs, parse)
    ensures Sound(Accept(engine, input, parse), inputs + [input], parse)
  {
    hide Inv, GoodTable, OnlyDelivered, AllDelivered, ApplyFrom, Ingest, ApplyReport;
    assert (inputs + [input])[..|inputs|] == inputs;
    if !input.BrokerReport? {
      IngestKeepsGood(engine.rows, input.raw);
    }
    match input
    case Deliver(raw) =>
      StepKeepsInv(engine.db, Process(MessageOf(RowFor(engine.rows, raw), parse)));
      DeliveryKeepsOnly(engine, inputs, raw, parse);
      DeliveryKeepsAll(engine, inputs, raw, parse);
    case DeliverAndCrash(_) =>
      OthersKeepOnly(engine, inputs, input, parse);
      OthersKeepAll(engine, inputs, input, parse);
    case BrokerReport(command, state, at) =>
      StepKeepsInv(engine.db, Report(command, state, at));
      OthersKeepOnly(engine, inputs, input, parse);
      OthersKeepAll(engine, inputs, input, parse);
  }

  /** A delivery applies what the parser reads in the stored version, under its number, at the time of its edit or else of the message; a
      delivery that crashes only stores it; a report moves the engine only. */
  lemma {:induction false} InputsDo(engine: Engine, input: Input, parse: Parser)
    ensures var next := Accept(engine, input, parse);
            match input
            case Deliver(raw) =>
              && next.rows == Ingest(engine.rows, raw)
              && exists row, m :: row in next.rows && row.raw.SameVersion(raw) && next.db == ApplyMessage(engine.db, m)
                                  && m.channel == raw.channel && m.message == raw.message && m.version == row.version && m.events == parse(row.raw)
                                  && (if row.raw.editDate.Some? then row.raw.editDate == Some(m.at) else m.at == row.raw.date)
            case DeliverAndCrash(raw) => next.rows == Ingest(engine.rows, raw) && next.db == engine.db
            case BrokerReport(command, state, at) => next.rows == engine.rows && next.db == ApplyReport(engine.db, command, state, at)
  {
    hide ApplyMessage, Ingest, ApplyReport, Existing;
  }

  // ---------- Redelivery ----------

  /** Delivering again a version that was once delivered without a crash, whatever crashed and happened since, changes nothing. */
  lemma {:induction false} RedeliveryEndToEnd(inputs: seq<Input>, raw: RawMessage, parse: Parser)
    requires Delivered(inputs, raw)
    ensures var engine := AcceptAll(inputs, parse); Accept(engine, Deliver(raw), parse) == engine
  {
    hide Inv, GoodTable, ApplyFrom, OnlyDelivered;
    var engine := AcceptAll(inputs, parse);
    AcceptAllIsSound(inputs, parse);
    DeliveredIsStored(inputs, raw);
    var row := RowFor(engine.rows, raw);
    var j :| 0 <= j < |inputs| && Delivers(inputs[j], raw);
    assert Delivers(inputs[j], row.raw);
    assert IsProcessed(engine.db, MessageOf(row, parse));
    ProcessedIsSkipped(engine.db, MessageOf(row, parse), 0, []);
  }

  // ---------- Late deliveries ----------

  /** The number of the version that the `k`-th input brings. */
  function VersionAt(inputs: seq<Input>, k: nat): nat
    requires k < |inputs| && !inputs[k].BrokerReport?
  {
    RowFor(StoredBy(inputs), inputs[k].raw).version
  }

  /** The `l`-th input is the first delivery of its version, and the `k`-th, before it, delivered a later version of the
      message. */
  ghost predicate LateDelivery(inputs: seq<Input>, k: nat, l: nat) {
    && k < l < |inputs| && inputs[k].Deliver? && inputs[l].Deliver? && inputs[k].raw.SameMessage(inputs[l].raw)
    && VersionAt(inputs, l) < VersionAt(inputs, k)
    && !Delivered(inputs[..l], inputs[l].raw)
  }

  lemma {:induction false} LateStays(inputs: seq<Input>, input: Input, k: nat, l: nat)
    requires LateDelivery(inputs, k, l)
    ensures LateDelivery(inputs + [input], k, l)
  {
    hide Delivered;
    var more := inputs + [input];
    assert more[..l] == inputs[..l] && more[..k] == inputs[..k];
    RowIsKept(inputs, k, inputs[k].raw);
    RowIsKept(more, k, more[k].raw);
    RowIsKept(inputs, l, inputs[l].raw);
    RowIsKept(more, l, more[l].raw);
  }

  /** A delivery that is not late is of the latest version processed so far, or of one that was processed. */
  lemma {:induction false} DeliveryIsAscending(inputs: seq<Input>, raw: RawMessage, parse: Parser)
    requires forall k :: !LateDelivery(inputs + [Deliver(raw)], k, |inputs|)
    ensures var engine := AcceptAll(inputs, parse); Ascending(engine.db, MessageOf(RowFor(engine.rows, raw), parse))
  {
    hide Inv, GoodTable, Delivered, LateDelivery;
    var engine := AcceptAll(inputs, parse);
    var m := MessageOf(RowFor(engine.rows, raw), parse);
    AcceptAllIsSound(inputs, parse);
    if Delivered(inputs, raw) {
      WasProcessed(engine, inputs, raw, parse);
    } else {
      forall i: nat, k | i < |m.events| && k in engine.db.processed && SameEvent(k, m.Key(i))
        ensures k.version <= m.version
      {
        var r :| 0 <= r < |engine.rows| && IsVersionOf(engine.rows[r], k) && Delivered(inputs, engine.rows[r].raw);
        NotLate(inputs, raw, r);
      }
    }
  }

  lemma {:induction false} WasProcessed(engine: Engine, inputs: seq<Input>, raw: RawMessage, parse: Parser)
    requires Sound(engine, inputs, parse) && Delivered(inputs, raw)
    ensures IsProcessed(engine.db, MessageOf(RowFor(engine.rows, raw), parse))
  {
    hide Inv, GoodTable, OnlyDelivered, IsProcessed;
    DeliveredIsStored(inputs, raw);
    var j :| 0 <= j < |inputs| && Delivers(inputs[j], raw);
    assert Delivers(inputs[j], RowFor(engine.rows, raw).raw);
  }

  lemma {:induction false} NotLate(inputs: seq<Input>, raw: RawMessage, r: nat)
    requires r < |StoredBy(inputs)| && StoredBy(inputs)[r].raw.SameMessage(raw)
    requires Delivered(inputs, StoredBy(inputs)[r].raw) && !Delivered(inputs, raw)
    requires forall k :: !LateDelivery(inputs + [Deliver(raw)], k, |inputs|)
    ensures StoredBy(inputs)[r].version <= RowFor(StoredBy(inputs), raw).version
  {
    hide GoodTable;
    var rows, more := StoredBy(inputs), inputs + [Deliver(raw)];
    var j :| 0 <= j < |inputs| && Delivers(inputs[j], rows[r].raw);
    assert more[..|inputs|] == inputs && more[..j] == inputs[..j];
    RowIsKept(more, |inputs|, raw);
    RowIsKept(more, j, rows[r].raw);
    RowIsKept(inputs, j, rows[r].raw);
    RowIsKept(more, j, more[j].raw);
    RowIsFound(rows, r, rows[r].raw);
    assert !LateDelivery(more, j, |inputs|);
  }

  /**
    However messages are delivered, edited, delivered again and lost to crashes between storing and applying, and whatever
    the broker reports: while no version is first delivered after a later one, all versions of one event of one message
    together issue at most one command.
   */
  lemma {:induction false} OneCommandEndToEnd(inputs: seq<Input>, parse: Parser)
    requires forall k, l :: !LateDelivery(inputs, k, l)
    ensures OneCommandPerEvent(AcceptAll(inputs, parse).db.outbox)
  {
    hide Inv, Sound, OneCommandPerEvent, LateDelivery, Ascending, ApplyMessage, ApplyReport, Ingest;
    if inputs != [] {
      var init, last := inputs[..|inputs| - 1], inputs[|inputs| - 1];
      assert init + [last] == inputs;
      forall k, l ensures !LateDelivery(init, k, l) {
        if LateDelivery(init, k, l) {
          LateStays(init, last, k, l);
        }
      }
      OneCommandEndToEnd(init, parse);
      AcceptAllIsSound(init, parse);
      StaysOne(AcceptAll(init, parse), init, last, parse);
    } else {
      NoCommandYet();
    }
  }

  lemma NoCommandYet()
    ensures OneCommandPerEvent(START.db.outbox)
  {
  }

  lemma {:induction false} StaysOne(engine: Engine, inputs: seq<Input>, input: Input, parse: Parser)
    requires Sound(engine, inputs, parse) && OneCommandPerEvent(engine.db.outbox) && engine == AcceptAll(inputs, parse)
    requires forall k :: !LateDelivery(inputs + [input], k, |inputs|)
    ensures OneCommandPerEvent(Accept(engine, input, parse).db.outbox)
  {
    hide Inv, GoodTable, OneCommandPerEvent, LateDelivery, Ascending, ApplyFrom, ApplyReport, Ingest;
    match input
    case Deliver(raw) =>
      DeliveryIsAscending(inputs, raw, parse);
      StepKeepsOneCommand(engine.db, Process(MessageOf(RowFor(engine.rows, raw), parse)));
    case DeliverAndCrash(_) =>
    case BrokerReport(command, state, at) =>
      StepKeepsOneCommand(engine.db, Report(command, state, at));
  }

  // ---------- A late delivery can repeat a command ----------

  /** A parser that reads an order in two of the versions and nothing in any other. */
  function TwoOrders(a: RawMessage, b: RawMessage): Parser {
    (raw: RawMessage) => if raw.SameVersion(a) then [OnePlacement(20)] else if raw.SameVersion(b) then [OnePlacement(10)] else []
  }

  /** Nothing was processed but one placement. */
  ghost predicate OnlyPlaced(db: Db, b: EventKey) {
    && db.processed.Keys == {b} && db.outbox.Keys == {b} && db.outbox[b].payload.PlacePayload?
    && db.days == map[] && (forall s | s in db.sessions :: db.sessions[s].state == AcceptingSignals)
    && (forall k | k in db.orders :: db.orders[k].entry == 10)
  }

  /** How far a run with that parser has come: neither version, the later one, both. */
  ghost predicate Stage(db: Db, first: bool, second: bool, a: EventKey, b: EventKey) {
    && (!first && !second ==> db == EMPTY)
    && (!first && second ==> OnlyPlaced(db, b))
    && (first && second ==> a in db.outbox && b in db.outbox)
  }

  lemma {:induction false} ReportKeepsStage(db: Db, report: Input, first: bool, second: bool, a: EventKey, b: EventKey)
    requires Stage(db, first, second, a, b) && report.BrokerReport?
    ensures Stage(ApplyReport(db, report.command, report.state, report.at), first, second, a, b)
  {
  }

  lemma {:induction false} NoEventsNoChange(db: Db, m: Message)
    requires m.events == []
    ensures ApplyMessage(db, m) == db
  {
  }

  lemma {:induction false} CommandsStay(db: Db, m: Message, k: EventKey)
    requires Inv(db) && k in db.outbox
    ensures k in ApplyMessage(db, m).outbox
  {
    hide Inv;
    NothingIsPrior(db, m);
    MessageKeepsCommands(db, m, 0, []);
  }

  lemma AgainIsNothing(db: Db, m: Message)
    requires IsProcessed(db, m)
    ensures ApplyMessage(db, m) == db
  {
    ProcessedIsSkipped(db, m, 0, []);
  }

  lemma {:induction false} SecondIsPlaced(db: Db, m: Message, first: bool, second: bool, a: EventKey)
    requires Inv(db) && Stage(db, first, second, a, m.Key(0)) && (first ==> second) && m.events == [OnePlacement(10)]
    ensures Stage(ApplyMessage(db, m), first, true, a, m.Key(0))
  {
    hide Inv, ApplyMessage;
    if first {
      CommandsStay(db, m, a);
      CommandsStay(db, m, m.Key(0));
    } else if second {
      AgainIsNothing(db, m);
    } else {
      PlacementIsIssued(db, m, 10);
    }
  }

  lemma {:induction false} FirstIsPlacedLate(db: Db, m: Message, first: bool, b: EventKey)
    requires Inv(db) && Stage(db, first, true, m.Key(0), b) && m.events == [OnePlacement(20)] && m.version < b.version
    ensures Stage(ApplyMessage(db, m), true, true, m.Key(0), b)
  {
    hide Inv, ApplyMessage;
    if first {
      CommandsStay(db, m, b);
      CommandsStay(db, m, m.Key(0));
    } else {
      assert forall k | k in db.processed :: k in db.processed.Keys && k == b;
      assert PriorVersions(db, m.Key(0)) == {};
      PlacementIsIssued(db, m, 20);
    }
  }

  function EventOf(inputs: seq<Input>, k: nat): EventKey
    requires k < |inputs| && !inputs[k].BrokerReport?
  {
    EventKey(inputs[k].raw.channel, inputs[k].raw.message, VersionAt(inputs, k), 0)
  }

  /** The message that the `n`-th input applies, if it is of the version that the `k`-th brings. */
  lemma {:induction false} MessageAt(inputs: seq<Input>, n: nat, k: nat, parse: Parser)
    requires n < |inputs| && k < |inputs| && !inputs[k].BrokerReport? && Delivers(inputs[n], inputs[k].raw)
    ensures MessageOf(RowFor(StoredBy(inputs[..n]), inputs[n].raw), parse).Key(0) == EventOf(inputs, k)
  {
    RowIsKept(inputs, n, inputs[k].raw);
  }

  lemma {:induction false} StageAt(inputs: seq<Input>, n: nat, k: nat, l: nat)
    requires LateDelivery(inputs, k, l) && n <= |inputs|
    ensures Stage(AcceptAll(inputs[..n], TwoOrders(inputs[l].raw, inputs[k].raw)).db,
                  Delivered(inputs[..n], inputs[l].raw), Delivered(inputs[..n], inputs[k].raw), EventOf(inputs, l), EventOf(inputs, k))
  {
    hide Stage, Inv, GoodTable, ApplyMessage, ApplyReport, Ingest, Delivered;
    var parse := TwoOrders(inputs[l].raw, inputs[k].raw);
    if n == 0 {
      NothingDelivered(inputs[l].raw);
      NothingDelivered(inputs[k].raw);
      StageOfEmpty(EventOf(inputs, l), EventOf(inputs, k));
      assert inputs[..0] == [];
    } else {
      StageAt(inputs, n - 1, k, l);
      assert inputs[..n][..n - 1] == inputs[..n - 1] && inputs[..n] == inputs[..n - 1] + [inputs[n - 1]];
      AcceptAllIsSound(inputs[..n - 1], parse);
      DeliveredMore(inputs[..n - 1], inputs[n - 1], inputs[l].raw);
      DeliveredMore(inputs[..n - 1], inputs[n - 1], inputs[k].raw);
      LaterFirst(inputs, n - 1, k, l);
      StageMoves(inputs, n - 1, k, l);
    }
  }

  lemma NothingDelivered(raw: RawMessage)
    ensures !Delivered([], raw)
  {
  }

  lemma StageOfEmpty(a: EventKey, b: EventKey)
    ensures Stage(EMPTY, false, false, a, b)
  {
  }

  lemma DeliveredBefore(inputs: seq<Input>, n: nat, m: nat, raw: RawMessage)
    requires n <= m <= |inputs|
    ensures Delivered(inputs[..n], raw) ==> Delivered(inputs[..m], raw)
    ensures n < m && Delivers(inputs[n], raw) ==> Delivered(inputs[..m], raw)
  {
    if j :| 0 <= j < n && Delivers(inputs[..n][j], raw) {
      assert inputs[..m][j] == inputs[..n][j];
    }
    if n < m && Delivers(inputs[n], raw) {
      assert inputs[..m][n] == inputs[n];
    }
  }

  /** Before the late version is delivered, and when it is, the later one was. */
  lemma {:induction false} LaterFirst(inputs: seq<Input>, n: nat, k: nat, l: nat)
    requires LateDelivery(inputs, k, l) && n < |inputs|
    ensures Delivered(inputs[..n], inputs[l].raw) || Delivers(inputs[n], inputs[l].raw) ==> Delivered(inputs[..n], inputs[k].raw)
  {
    hide Delivered;
    if n > k {
      DeliveredBefore(inputs, k, n, inputs[k].raw);
    } else {
      DeliveredBefore(inputs, n, l, inputs[l].raw);
    }
  }

  lemma {:induction false} StageMoves(inputs: seq<Input>, n: nat, k: nat, l: nat)
    requires LateDelivery(inputs, k, l) && n < |inputs|
    requires var parse, first, second := TwoOrders(inputs[l].raw, inputs[k].raw), Delivered(inputs[..n], inputs[l].raw), Delivered(inputs[..n], inputs[k].raw);
             && Stage(AcceptAll(inputs[..n], parse).db, first, second, EventOf(inputs, l), EventOf(inputs, k))
             && Sound(AcceptAll(inputs[..n], parse), inputs[..n], parse)
             && (first || Delivers(inputs[n], inputs[l].raw) ==> second)
    ensures var parse, first, second := TwoOrders(inputs[l].raw, inputs[k].raw), Delivered(inputs[..n], inputs[l].raw), Delivered(inputs[..n], inputs[k].raw);
            Stage(Accept(AcceptAll(inputs[..n], parse), inputs[n], parse).db,
                  first || Delivers(inputs[n], inputs[l].raw), second || Delivers(inputs[n], inputs[k].raw), EventOf(inputs, l), EventOf(inputs, k))
  {
    hide Stage, Inv, GoodTable, ApplyMessage, ApplyReport, Ingest, Delivered, OnlyDelivered, AllDelivered;
    var parse := TwoOrders(inputs[l].raw, inputs[k].raw);
    var engine := AcceptAll(inputs[..n], parse);
    var first, second := Delivered(inputs[..n], inputs[l].raw), Delivered(inputs[..n], inputs[k].raw);
    match inputs[n]
    case Deliver(raw) =>
      var m := MessageOf(RowFor(engine.rows, raw), parse);
      if raw.SameVersion(inputs[l].raw) {
        MessageAt(inputs, n, l, parse);
        FirstIsPlacedLate(engine.db, m, first, EventOf(inputs, k));
      } else if raw.SameVersion(inputs[k].raw) {
        MessageAt(inputs, n, k, parse);
        SecondIsPlaced(engine.db, m, first, second, EventOf(inputs, l));
      } else {
        NoEventsNoChange(engine.db, m);
      }
    case DeliverAndCrash(_) =>
    case BrokerReport(_, _, _) =>
      ReportKeepsStage(engine.db, inputs[n], first, second, EventOf(inputs, l), EventOf(inputs, k));
  }

  lemma {:induction false} LateDeliveryRepeats(inputs: seq<Input>, k: nat, l: nat)
    requires LateDelivery(inputs, k, l)
    ensures !OneCommandPerEvent(AcceptAll(inputs, TwoOrders(inputs[l].raw, inputs[k].raw)).db.outbox)
  {
    hide Inv, GoodTable, AcceptAll, StoredBy;
    StageAt(inputs, |inputs|, k, l);
    assert inputs[..|inputs|] == inputs;
    assert Delivers(inputs[l], inputs[l].raw) && Delivers(inputs[k], inputs[k].raw);
    assert SameEvent(EventOf(inputs, l), EventOf(inputs, k));
  }

  /**
    Exactly which input sequences are harmless: whatever the parser reads in the versions, no event issues two commands, if
    and only if no version is first delivered after a later version of its message was.
   */
  lemma {:induction false} OneCommandExactlyWithoutLateDeliveries(inputs: seq<Input>)
    ensures (forall parse: Parser :: OneCommandPerEvent(AcceptAll(inputs, parse).db.outbox)) <==> !(exists k, l :: LateDelivery(inputs, k, l))
  {
    hide OneCommandPerEvent, AcceptAll, LateDelivery;
    if k: nat, l: nat :| LateDelivery(inputs, k, l) {
      LateDeliveryRepeats(inputs, k, l);
    } else {
      forall parse: Parser ensures OneCommandPerEvent(AcceptAll(inputs, parse).db.outbox) {
        OneCommandEndToEnd(inputs, parse);
      }
    }
  }

  // ---------- Crashes ----------

  /** Whatever is stored by an input that crashes is delivered before another version of its message comes. */
  ghost predicate RedeliveredInTime(inputs: seq<Input>) {
    forall i, k | 0 <= i < k < |inputs| && inputs[i].DeliverAndCrash? && !inputs[k].BrokerReport?
                  && inputs[i].raw.SameMessage(inputs[k].raw) && !inputs[i].raw.SameVersion(inputs[k].raw) ::
      Delivered(inputs[..k], inputs[i].raw)
  }

  lemma {:induction false} StoredWasBrought(inputs: seq<Input>, r: nat) returns (i: nat)
    requires r < |StoredBy(inputs)|
    ensures i < |inputs| && !inputs[i].BrokerReport? && inputs[i].raw.SameVersion(StoredBy(inputs)[r].raw)
  {
    var init := inputs[..|inputs| - 1];
    if r < |StoredBy(init)| {
      i := StoredWasBrought(init, r);
    } else {
      i := |init|;
    }
  }

  /** A version with a smaller number was brought before. */
  lemma {:induction false} EarlierVersionWasBrought(inputs: seq<Input>, k: nat, l: nat) returns (i: nat)
    requires k < l < |inputs| && !inputs[k].BrokerReport? && !inputs[l].BrokerReport? && inputs[k].raw.SameMessage(inputs[l].raw)
    requires VersionAt(inputs, l) < VersionAt(inputs, k)
    ensures i < k && !inputs[i].BrokerReport? && inputs[i].raw.SameVersion(inputs[l].raw)
  {
    hide GoodTable, Ingest, LastOf;
    var rows := StoredBy(inputs);
    StoredGrows(inputs, k + 1);
    RowIsKept(inputs, l, inputs[l].raw);
    RowIsKept(inputs, k, inputs[k].raw);
    assert inputs[..k + 1][k] == inputs[k];
    RowIsKept(inputs[..k + 1], k, inputs[k].raw);
    var rk, rl := Existing(StoredBy(inputs[..k + 1]), inputs[k].raw).value, Existing(rows, inputs[l].raw).value;
    RowIsFound(rows, rk, inputs[k].raw);
    if rk < rl {
      LaterVersionsAreGreater(rows, rk, rl);
    }
    i := StoredWasBrought(inputs[..k + 1], rl);
    if i == k {
      SameVersionAt(inputs, k, l);
    }
  }

  lemma {:induction false} TimelyWasDelivered(inputs: seq<Input>, k: nat, l: nat)
    requires RedeliveredInTime(inputs)
    requires k < l < |inputs| && !inputs[k].BrokerReport? && !inputs[l].BrokerReport? && inputs[k].raw.SameMessage(inputs[l].raw)
    requires VersionAt(inputs, l) < VersionAt(inputs, k)
    ensures Delivered(inputs[..l], inputs[l].raw)
  {
    hide VersionAt;
    var i := EarlierVersionWasBrought(inputs, k, l);
    var j := i;
    if inputs[i].DeliverAndCrash? {
      if inputs[i].raw.SameVersion(inputs[k].raw) {
        SameVersionAt(inputs, k, l);
      }
      j :| 0 <= j < k && Delivers(inputs[..k][j], inputs[i].raw);
    }
    assert Delivers(inputs[..l][j], inputs[l].raw);
  }

  lemma {:induction false} SameVersionAt(inputs: seq<Input>, k: nat, l: nat)
    requires k < |inputs| && l < |inputs| && !inputs[k].BrokerReport? && !inputs[l].BrokerReport?
    requires inputs[k].raw.SameVersion(inputs[l].raw)
    ensures VersionAt(inputs, k) == VersionAt(inputs, l)
  {
    RowIsKept(inputs, k, inputs[k].raw);
    RowIsKept(inputs, k, inputs[l].raw);
  }

  /** A crash between the two transactions is harmless if the version is delivered again in time; without crashes no delivery
      is late at all. */
  lemma {:induction false} RedeliveredInTimeIsNotLate(inputs: seq<Input>, k: nat, l: nat)
    requires RedeliveredInTime(inputs)
    ensures !LateDelivery(inputs, k, l)
  {
    hide RedeliveredInTime, Delivered, VersionAt;
    if LateDelivery(inputs, k, l) {
      TimelyWasDelivered(inputs, k, l);
    }
  }

  function OneOrder(editDate: Option<int>, contentHash: string): RawMessage {
    RawMessage(1, 1, 0, editDate, contentHash, contentHash)
  }

  function FirstVersion(): RawMessage {
    OneOrder(None, "a")
  }

  function EditedVersion(): RawMessage {
    OneOrder(Some(0), "b")
  }

  lemma FirstIsStored()
    ensures Ingest([], FirstVersion()) == [Stored(FirstVersion(), 1, None)]
  {
  }

  lemma EditIsStored()
    ensures Ingest([Stored(FirstVersion(), 1, None)], EditedVersion()) == [Stored(FirstVersion(), 1, None), Stored(EditedVersion(), 2, Some(0))]
  {
    var one := [Stored(FirstVersion(), 1, None)];
    assert Existing(one[..0], EditedVersion()) == None && Existing(one, EditedVersion()) == None;
    assert LastOf(one, EditedVersion()) == Some(0);
  }

  /** A crash that is not: stored but not processed, then edited, then delivered again. */
  lemma {:induction false} CrashBetweenStoringAndApplying()
    ensures var inputs := [DeliverAndCrash(OneOrder(None, "a")), Deliver(OneOrder(Some(0), "b")), Deliver(OneOrder(None, "a"))];
            && LateDelivery(inputs, 1, 2)
            && !OneCommandPerEvent(AcceptAll(inputs, TwoOrders(inputs[2].raw, inputs[1].raw)).db.outbox)
  {
    hide OneCommandPerEvent, AcceptAll, Ingest, GoodTable, Existing, RowFor;
    var inputs := [DeliverAndCrash(FirstVersion()), Deliver(EditedVersion()), Deliver(FirstVersion())];
    var rows := [Stored(FirstVersion(), 1, None), Stored(EditedVersion(), 2, Some(0))];
    FirstIsStored();
    EditIsStored();
    StoredByCrash(inputs);
    StoredIsGood(inputs);
    SecondHasFirst(rows);
    StoredAgain(rows, FirstVersion());
    RowIsFound(rows, 0, FirstVersion());
    RowIsFound(rows, 1, EditedVersion());
    LateDeliveryRepeats(inputs, 1, 2);
  }

  lemma {:induction false} StoredByCrash(inputs: seq<Input>)
    requires |inputs| == 3 && inputs[0].DeliverAndCrash? && inputs[1].Deliver? && inputs[2].Deliver?
    ensures StoredBy(inputs) == Ingest(Ingest(Ingest([], inputs[0].raw), inputs[1].raw), inputs[2].raw)
  {
    hide Ingest;
    assert inputs[..2][..1] == inputs[..1] && inputs[..1][..0] == [];
    assert StoredBy(inputs[..1]) == Ingest([], inputs[0].raw);
    assert StoredBy(inputs[..2]) == Ingest(StoredBy(inputs[..1]), inputs[1].raw);
  }

  lemma SecondHasFirst(rows: seq<Stored>)
    requires |rows| == 2 && rows[0].raw == FirstVersion()
    ensures Existing(rows, FirstVersion()).Some?
  {
    assert rows[0].raw.SameVersion(FirstVersion());
  }

  lemma StoredAgain(rows: seq<Stored>, raw: RawMessage)
    requires Existing(rows, raw).Some?
    ensures Ingest(rows, raw) == rows
  {
  }
}
