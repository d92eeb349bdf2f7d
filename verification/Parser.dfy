/**
  The message parser with its patterns as parameters: what is proved holds for every text and any patterns whose matches
  lie inside the line they were found in.
 */
module Parser {
  import opened Wrappers
  import opened LineSpans
  import TradingModel

  type Side = TradingModel.Side

  type ResultKind = TradingModel.ResultKind

  /** A match of a status pattern, by its offsets in the line. */
  datatype Match = Match(start: nat, end: nat, side: Side)

  datatype Order = Order(
    provider: string, instrument: Option<string>, side: Side, entry: int, stopLoss: int, takeProfits: seq<int>, evidence: seq<Span>)

  datatype Block = Block(provider: string, start: nat, end: nat, text: string, orders: seq<Order>, evidence: seq<Span>)

  datatype Instruction =
    | PlacePending(order: Order)
    | CancelPending(side: Side)
    | MarkTriggered(side: Side)
    | TradeResult(kind: ResultKind)
    | EndOfSession
    | NoTrading
    | ManualReview(reason: string)

  datatype Event = Event(instruction: Instruction, evidence: seq<Span>)

  datatype Classification =
    | NoTradingDay | RiskAdvisory | Promotion | Educational | SessionControl | OrderStatus | TradeInstruction | UnknownMessage

  datatype ParseStatus = Proposed | ContextRequired | ReviewRequired

  datatype Parsed = Parsed(
    classification: Classification, events: seq<Event>, evidence: seq<Span>, status: ParseStatus, blocks: seq<Block>)

  /** The patterns; all but the first four normalise the line or text they are given before they match it. */
  datatype Patterns = Patterns(
    triggers: string -> seq<Match>,
    deletes: string -> seq<Match>,
    ends: string -> seq<Match>,
    breakEvens: string -> seq<Match>,
    header: string -> Option<string>,
    side: string -> Option<Side>,
    entry: string -> Option<Option<int>>,
    stopLoss: string -> Option<Option<int>>,
    takeProfit: string -> Option<Option<int>>,
    instrument: string -> Option<string>,
    noTrading: string -> bool,
    riskAdvisory: string -> bool,
    promotion: string -> bool,
    educational: string -> bool,
    sessionEnd: string -> bool,
    breakEven: string -> bool,
    trigger: string -> bool,
    deleteOrder: string -> bool,
    tpOnly: string -> bool,
    slOnly: string -> bool,
    mentionsDelete: string -> bool)
  {
    ghost predicate InLine() {
      FindsInLine(triggers) && FindsInLine(deletes) && FindsInLine(ends) && FindsInLine(breakEvens)
    }
  }

  /** Matches lie inside the line they were found in. */
  ghost predicate FindsInLine(find: string -> seq<Match>) {
    forall line: string, m: Match | m in find(line) :: m.start <= m.end <= |line|
  }

  // ---------- Provider blocks ----------

  datatype Boundary = Boundary(provider: string, startLine: nat, endLine: nat, start: nat, end: nat)

  predicate IsHeader(p: Patterns, line: LineSpan) {
    p.header(line.text).Some?
  }

  /** A block begins at a header and holds no other. */
  ghost predicate BlockOk(b: Boundary, lines: seq<LineSpan>, p: Patterns) {
    && b.startLine < b.endLine <= |lines|
    && IsHeader(p, lines[b.startLine])
    && b.provider == p.header(lines[b.startLine].text).value
    && (forall i | b.startLine < i < b.endLine :: !IsHeader(p, lines[i]))
    && b.start == lines[b.startLine].start
    && b.end == lines[b.endLine - 1].end
  }

  ghost predicate Chained(bs: seq<Boundary>) {
    forall k | 0 <= k < |bs| - 1 :: bs[k].endLine == bs[k + 1].startLine
  }

  /** The blocks tile the lines from the first header to the end. */
  ghost predicate Tiles(bs: seq<Boundary>, lines: seq<LineSpan>, p: Patterns) {
    && (forall b | b in bs :: BlockOk(b, lines, p))
    && Chained(bs)
    && (forall i | 0 <= i < |lines| && (bs == [] || i < bs[0].startLine) :: !IsHeader(p, lines[i]))
    && (bs != [] ==> bs[|bs| - 1].endLine == |lines|)
  }

  /** `_extract_provider_boundaries`. */
  method ExtractProviderBoundaries(lines: seq<LineSpan>, p: Patterns) returns (bs: seq<Boundary>)
    ensures Tiles(bs, lines, p)
  {
    bs := [];
    for index := 0 to |lines|
      invariant forall b | b in bs :: BlockOk(b, lines, p)
      invariant Chained(bs)
      invariant forall i | 0 <= i < index && (bs == [] || i < bs[0].startLine) :: !IsHeader(p, lines[i])
      invariant bs != [] ==> BlockOk(bs[|bs| - 1], lines, p)
      invariant bs != [] ==>
        var last := bs[|bs| - 1];
        last.startLine < index <= last.endLine <= |lines| && (last.endLine == |lines| || IsHeader(p, lines[last.endLine]))
    {
      var line := lines[index];
      if p.header(line.text).Some? {
        var endLine := |lines|;
        for next := index + 1 to |lines|
          invariant endLine == |lines| && next <= |lines|
          invariant forall i | index < i < next :: !IsHeader(p, lines[i])
        {
          if p.header(lines[next].text).Some? {
            endLine := next;
            break;
          }
        }
        var boundary := Boundary(p.header(line.text).value, index, endLine, line.start, lines[endLine - 1].end);
        assert BlockOk(boundary, lines, p);
        assert bs != [] ==> BlockOk(bs[|bs| - 1], lines, p);
        bs := bs + [boundary];
      }
    }
  }

  // ---------- Order sections ----------

  /** The values of the lines that match, or none when one of them is no number. */
  function Decimals(lines: seq<LineSpan>, pattern: string -> Option<Option<int>>): seq<int> {
    if exists line :: line in lines && pattern(line.text) == Some(None) then [] else MatchedDecimals(lines, pattern)
  }

  function MatchedDecimals(lines: seq<LineSpan>, pattern: string -> Option<Option<int>>): seq<int> {
    if lines == [] then []
    else
      var last := pattern(lines[|lines| - 1].text);
      MatchedDecimals(lines[..|lines| - 1], pattern) + if last.Some? && last.value.Some? then [last.value.value] else []
  }

  /** `_extract_all_decimal_lines`. */
  method ExtractAllDecimals(lines: seq<LineSpan>, pattern: string -> Option<Option<int>>) returns (decimals: seq<int>)
    ensures decimals == Decimals(lines, pattern)
  {
    decimals := [];
    for i := 0 to |lines|
      invariant decimals == MatchedDecimals(lines[..i], pattern)
      invariant forall j | 0 <= j < i :: pattern(lines[j].text) != Some(None)
    {
      assert lines[..i + 1][..i] == lines[..i];
      match pattern(lines[i].text) {
        case None =>
        case Some(None) =>
          assert lines[i] in lines;
          return [];
        case Some(Some(value)) => decimals := decimals + [value];
      }
    }
    assert lines[..|lines|] == lines;
  }

  function Wholes(lines: seq<LineSpan>): (spans: seq<Span>)
    ensures |spans| == |lines| && forall i | 0 <= i < |lines| :: spans[i] == lines[i].Whole()
  {
    seq(|lines|, i requires 0 <= i < |lines| => lines[i].Whole())
  }

  /** What a section of a block says: an order, unless it lacks an entry, a stop loss or a take profit. */
  function OrderOf(instrument: Option<string>, provider: string, section: seq<LineSpan>, p: Patterns): Option<Order>
    requires section != [] && p.side(section[0].text).Some?
  {
    var entry, stopLoss, takeProfits := Decimals(section, p.entry), Decimals(section, p.stopLoss), Decimals(section, p.takeProfit);
    if entry == [] || stopLoss == [] || takeProfits == [] then None
    else Some(Order(provider, instrument, p.side(section[0].text).value, entry[0], stopLoss[0], takeProfits, Wholes(section)))
  }

  predicate IsSide(p: Patterns, line: LineSpan) {
    p.side(line.text).Some?
  }

  predicate AllStartWithSide(sections: seq<seq<LineSpan>>, p: Patterns) {
    forall i | 0 <= i < |sections| :: sections[i] != [] && IsSide(p, sections[i][0])
  }

  /** A block in sections: each from a line that names a side up to the next; header lines and lines before are left out. */
  function Sections(lines: seq<LineSpan>, p: Patterns): (sections: seq<seq<LineSpan>>)
    ensures AllStartWithSide(sections, p)
  {
    if lines == [] then []
    else
      var line, earlier := lines[|lines| - 1], Sections(lines[..|lines| - 1], p);
      if IsHeader(p, line) then earlier
      else if IsSide(p, line) then earlier + [[line]]
      else if earlier == [] then []
      else earlier[..|earlier| - 1] + [earlier[|earlier| - 1] + [line]]
  }

  function OrdersOf(instrument: Option<string>, provider: string, sections: seq<seq<LineSpan>>, p: Patterns): seq<Order>
    requires AllStartWithSide(sections, p)
  {
    if sections == [] then []
    else
      var last := OrderOf(instrument, provider, sections[|sections| - 1], p);
      OrdersOf(instrument, provider, sections[..|sections| - 1], p) + if last.Some? then [last.value] else []
  }

  /** `_parse_order_sections` with `_parse_order_instruction`. */
  method ParseOrderSections(
      instrument: Option<string>, provider: string, lines: seq<LineSpan>, p: Patterns) returns (orders: seq<Order>)
    ensures orders == OrdersOf(instrument, provider, Sections(lines, p), p)
  {
    hide OrderOf, OrdersOf, IsHeader;
    orders := [];
    var current := [];
    for i := 0 to |lines|
      invariant Scanned(Sections(lines[..i], p), current, orders, instrument, provider, p)
    {
      var line := lines[i];
      ghost var sections := Sections(lines[..i], p);
      assert lines[..i + 1][..i] == lines[..i];
      if IsHeader(p, line) {
      } else if IsSide(p, line) {
        if current != [] {
          var parsed := ParseOrderInstruction(instrument, provider, current, p);
          if parsed.Some? {
            orders := orders + [parsed.value];
          }
        }
        CloseSection(sections, current, instrument, provider, p);
        current := [line];
        assert (sections + [[line]])[..|sections|] == sections;
      } else if current != [] {
        current := current + [line];
        assert (sections[..|sections| - 1] + [current])[..|sections| - 1] == sections[..|sections| - 1];
      }
    }
    assert lines[..|lines|] == lines;
    ghost var sections := Sections(lines, p);
    CloseSection(sections, current, instrument, provider, p);
    if current != [] {
      var parsed := ParseOrderInstruction(instrument, provider, current, p);
      if parsed.Some? {
        orders := orders + [parsed.value];
      }
    }
  }

  /** The loop's state: the section being read, and the orders of those before it. */
  ghost predicate Scanned(sections: seq<seq<LineSpan>>, current: seq<LineSpan>, orders: seq<Order>,
                          instrument: Option<string>, provider: string, p: Patterns)
    requires AllStartWithSide(sections, p)
  {
    if sections == [] then current == [] && orders == []
    else current == sections[|sections| - 1] != [] && orders == OrdersOf(instrument, provider, sections[..|sections| - 1], p)
  }

  lemma CloseSection(
      sections: seq<seq<LineSpan>>, current: seq<LineSpan>, instrument: Option<string>, provider: string,
      p: Patterns)
    requires AllStartWithSide(sections, p) && (sections == [] ==> current == []) && (sections != [] ==> current == sections[|sections| - 1])
    ensures sections == [] ==> OrdersOf(instrument, provider, sections, p) == []
    ensures sections != [] ==>
              && current != [] && IsSide(p, current[0])
              && OrdersOf(instrument, provider, sections, p)
                 == OrdersOf(instrument, provider, sections[..|sections| - 1], p)
                    + (if OrderOf(instrument, provider, current, p).Some? then [OrderOf(instrument, provider, current, p).value] else [])
  {
  }

  method ParseOrderInstruction(instrument: Option<string>, provider: string, section: seq<LineSpan>, p: Patterns)
    returns (order: Option<Order>)
    requires section != [] && IsSide(p, section[0])
    ensures order == OrderOf(instrument, provider, section, p)
  {
    var entry := ExtractAllDecimals(section, p.entry);
    var stopLoss := ExtractAllDecimals(section, p.stopLoss);
    var takeProfits := ExtractAllDecimals(section, p.takeProfit);
    if entry == [] || stopLoss == [] || takeProfits == [] {
      return None;
    }
    var evidence := Wholes(section);
    order := Some(Order(provider, instrument, p.side(section[0].text).value, entry[0], stopLoss[0], takeProfits, evidence));
  }

  /** The lines of a block from its first side on, without headers. */
  function Kept(lines: seq<LineSpan>, p: Patterns): seq<LineSpan> {
    if lines == [] then []
    else
      var line, earlier := lines[|lines| - 1], Kept(lines[..|lines| - 1], p);
      if IsHeader(p, line) || (earlier == [] && !IsSide(p, line)) then earlier else earlier + [line]
  }

  /** The sections are those lines cut exactly before every side: none is lost, repeated or moved. */
  lemma {:induction false} SectionsPartitionTheBlock(lines: seq<LineSpan>, p: Patterns)
    ensures Joined(Sections(lines, p)) == Kept(lines, p)
    ensures Sections(lines, p) == [] <==> Kept(lines, p) == []
    ensures forall section, i | section in Sections(lines, p) && 0 < i < |section| :: !IsSide(p, section[i]) && !IsHeader(p, section[i])
    ensures forall line | line in Kept(lines, p) :: line in lines
  {
    if lines != [] {
      var line, init := lines[|lines| - 1], lines[..|lines| - 1];
      var earlier := Sections(init, p);
      SectionsPartitionTheBlock(init, p);
      var sections := Sections(lines, p);
      if sections != earlier {
        var n := |sections| - 1;
        assert sections[..n] == earlier[..n];
        if !IsSide(p, line) {
          assert Joined(earlier) == Joined(earlier[..n]) + earlier[n];
        } else {
          assert earlier[..n] == earlier;
        }
        assert forall section | section in sections :: section in earlier[..n] || section == sections[n];
      }
    }
  }

  /** An order is evidenced by pieces of the text, one at least. */
  predicate OrderEvidenced(order: Order, source: string) {
    order.evidence != [] && AllSlice(order.evidence, source)
  }

  lemma {:induction false} OrdersAreEvidenced(
      instrument: Option<string>, provider: string, sections: seq<seq<LineSpan>>, p: Patterns, source: string)
    requires AllStartWithSide(sections, p)
    requires forall line | line in Joined(sections) :: line.Whole().Slices(source)
    ensures forall order | order in OrdersOf(instrument, provider, sections, p) :: OrderEvidenced(order, source)
  {
    if sections != [] {
      var init, last := sections[..|sections| - 1], sections[|sections| - 1];
      assert forall line | line in Joined(init) || line in last :: line in Joined(sections);
      OrdersAreEvidenced(instrument, provider, init, p, source);
      assert AllSlice(Wholes(last), source);
    }
  }

  ghost predicate BlockOf(block: Block, b: Boundary, lines: seq<LineSpan>, source: string, p: Patterns) {
    && BlockOk(b, lines, p)
    && block.provider == b.provider && block.start == b.start && block.end == b.end
    && block.orders == OrdersOf(p.instrument(source), b.provider, Sections(lines[b.startLine..b.endLine], p), p)
    && block.evidence == [Span(block.start, block.end, block.text)]
    && AllSlice(block.evidence, source)
    && forall order | order in block.orders :: OrderEvidenced(order, source)
  }

  ghost predicate BlocksOf(blocks: seq<Block>, bs: seq<Boundary>, lines: seq<LineSpan>, source: string, p: Patterns) {
    |blocks| == |bs| && forall i | 0 <= i < |bs| :: BlockOf(blocks[i], bs[i], lines, source, p)
  }

  /** `_parse_provider_blocks`. */
  method ParseProviderBlocks(
      source: string, lines: seq<LineSpan>, p: Patterns) returns (blocks: seq<Block>, ghost bs: seq<Boundary>)
    requires LinesOf(lines, source)
    ensures Tiles(bs, lines, p) && BlocksOf(blocks, bs, lines, source, p)
    ensures forall block | block in blocks :: BlockEvidenced(block, source)
  {
    hide Sections, OrdersOf;
    blocks := [];
    var boundaries := ExtractProviderBoundaries(lines, p);
    bs := boundaries;
    var instrument := p.instrument(source);
    for i := 0 to |boundaries|
      invariant |blocks| == i && forall j | 0 <= j < i :: BlockOf(blocks[j], boundaries[j], lines, source, p)
    {
      var b := boundaries[i];
      assert BlockOk(b, lines, p);
      BoundarySlices(b, lines, source, p);
      var blockLines := lines[b.startLine..b.endLine];
      var orders := ParseOrderSections(instrument, b.provider, blockLines, p);
      SectionsPartitionTheBlock(blockLines, p);
      OrdersAreEvidenced(instrument, b.provider, Sections(blockLines, p), p, source);
      var blockText := source[b.start..b.end];
      var block := Block(b.provider, b.start, b.end, blockText, orders, [Span(b.start, b.end, blockText)]);
      assert BlockOf(block, b, lines, source, p);
      blocks := blocks + [block];
    }
    BlocksEvidenced(blocks, bs, lines, source, p);
  }

  lemma BoundarySlices(b: Boundary, lines: seq<LineSpan>, source: string, p: Patterns)
    requires LinesOf(lines, source) && BlockOk(b, lines, p)
    ensures b.start <= b.end <= |source|
  {
    assert lines[b.startLine].Whole().Slices(source) && lines[b.endLine - 1].Whole().Slices(source);
  }

  // ---------- Status events ----------

  datatype Found = Found(span: Span, side: Side)

  function FoundIn(line: LineSpan, matches: seq<Match>): (found: seq<Found>)
    requires forall m | m in matches :: m.start <= m.end <= |line.text|
    ensures |found| == |matches|
    ensures forall i | 0 <= i < |matches| ::
              found[i] == Found(Span(line.start + matches[i].start, line.start + matches[i].end, line.text[matches[i].start..matches[i].end]),
                                matches[i].side)
  {
    seq(|matches|, i requires 0 <= i < |matches| =>
      Found(Span(line.start + matches[i].start, line.start + matches[i].end, line.text[matches[i].start..matches[i].end]), matches[i].side))
  }

  /** The matches of a pattern, line by line. */
  ghost function AllFound(lines: seq<LineSpan>, find: string -> seq<Match>): seq<Found>
    requires FindsInLine(find)
  {
    if lines == [] then []
    else
      var last := lines[|lines| - 1];
      AllFound(lines[..|lines| - 1], find) + FoundIn(last, find(last.text))
  }

  lemma FoundSlices(line: LineSpan, matches: seq<Match>, source: string)
    requires line.Whole().Slices(source) && forall m | m in matches :: m.start <= m.end <= |line.text|
    ensures forall f | f in FoundIn(line, matches) :: f.span.Slices(source)
  {
    forall i | 0 <= i < |matches|
      ensures FoundIn(line, matches)[i].span.Slices(source)
    {
      var m := matches[i];
      assert source[line.start + m.start..line.start + m.end] == source[line.start..line.end][m.start..m.end];
    }
  }

  method FindAll(lines: seq<LineSpan>, find: string -> seq<Match>, ghost source: string) returns (found: seq<Found>)
    requires LinesOf(lines, source) && FindsInLine(find)
    ensures found == AllFound(lines, find)
    ensures forall f | f in found :: f.span.Slices(source)
  {
    hide FoundIn;
    found := [];
    for i := 0 to |lines|
      invariant found == AllFound(lines[..i], find)
      invariant forall f | f in found :: f.span.Slices(source)
    {
      var line := lines[i];
      assert lines[..i + 1][..i] == lines[..i];
      assert line.Whole().Slices(source);
      var matches := find(line.text);
      FoundSlices(line, matches, source);
      found := found + FoundIn(line, matches);
    }
    assert lines[..|lines|] == lines;
  }

  function SpansOf(found: seq<Found>): (spans: seq<Span>)
    ensures |spans| == |found| && forall i | 0 <= i < |found| :: spans[i] == found[i].span
  {
    seq(|found|, i requires 0 <= i < |found| => found[i].span)
  }

  /** One event a match, with the match as its evidence. */
  function TriggerEvents(found: seq<Found>): (events: seq<Event>)
    ensures |events| == |found| && forall i | 0 <= i < |found| :: events[i] == Event(MarkTriggered(found[i].side), [found[i].span])
  {
    seq(|found|, i requires 0 <= i < |found| => Event(MarkTriggered(found[i].side), [found[i].span]))
  }

  function CancelEvents(found: seq<Found>): (events: seq<Event>)
    ensures |events| == |found| && forall i | 0 <= i < |found| :: events[i] == Event(CancelPending(found[i].side), [found[i].span])
  {
    seq(|found|, i requires 0 <= i < |found| => Event(CancelPending(found[i].side), [found[i].span]))
  }

  /** One event for all the matches together, if there are any. */
  function OneEvent(spans: seq<Span>, instruction: Instruction): seq<Event> {
    if spans == [] then [] else [Event(instruction, spans)]
  }

  datatype Status = Status(events: seq<Event>, evidence: seq<Span>, review: Option<Event>)

  predicate Evidenced(events: seq<Event>, source: string) {
    forall event | event in events :: event.evidence != [] && AllSlice(event.evidence, source)
  }

  function WholeEvent(source: string, holds: bool, kind: ResultKind): seq<Event> {
    if holds then [Event(TradeResult(kind), [Span(0, |source|, source)])] else []
  }

  /** The status events of a text: triggers, cancellations, the end of the session, and results, in this order. */
  ghost function StatusEvents(source: string, lines: seq<LineSpan>, p: Patterns): seq<Event>
    requires p.InLine()
  {
    TriggerEvents(AllFound(lines, p.triggers))
    + CancelEvents(AllFound(lines, p.deletes))
    + OneEvent(SpansOf(AllFound(lines, p.ends)), EndOfSession)
    + WholeEvent(source, p.tpOnly(source), TradingModel.TakeProfitHit)
    + WholeEvent(source, p.slOnly(source), TradingModel.StopLossHit)
    + OneEvent(SpansOf(AllFound(lines, p.breakEvens)), TradeResult(TradingModel.BreakEven))
  }

  const AMBIGUOUS_DELETE := "delete instruction is ambiguous"

  /** `_parse_message_status_events`. */
  method ParseMessageStatusEvents(source: string, lines: seq<LineSpan>, p: Patterns) returns (r: Status)
    requires LinesOf(lines, source) && p.InLine()
    ensures r.events == StatusEvents(source, lines, p)
    ensures r.review.Some? <==> AllFound(lines, p.deletes) == [] && p.mentionsDelete(source)
    ensures Evidenced(r.events, source) && AllSlice(r.evidence, source)
    ensures r.evidence == EvidenceOf(r.events)
    ensures r.review.Some? ==> r.review.value == Event(ManualReview(AMBIGUOUS_DELETE), Mentions(lines, p)) && AllSlice(r.review.value.evidence, source)
  {
    hide AllFound, FindsInLine, LinesOf, AllSlice, Evidenced, SpansOf, TriggerEvents, CancelEvents, OneEvent, WholeEvent;
    var triggers := FindAll(lines, p.triggers, source);
    FoundEvidence(triggers, source, EndOfSession);
    var evidence, events := SpansOf(triggers), TriggerEvents(triggers);
    var deletes := FindAll(lines, p.deletes, source);
    FoundEvidence(deletes, source, EndOfSession);
    var review := None;
    if deletes == [] && p.mentionsDelete(source) {
      var mentions := AllMentioning(lines, p, source);
      review := Some(Event(ManualReview(AMBIGUOUS_DELETE), mentions));
    }
    Joins(events, CancelEvents(deletes), evidence, SpansOf(deletes), source);
    evidence, events := evidence + SpansOf(deletes), events + CancelEvents(deletes);
    var ends := FindAll(lines, p.ends, source);
    FoundEvidence(ends, source, EndOfSession);
    Joins(events, OneEvent(SpansOf(ends), EndOfSession), evidence, SpansOf(ends), source);
    evidence, events := evidence + SpansOf(ends), events + OneEvent(SpansOf(ends), EndOfSession);
    var tp := WholeEvent(source, p.tpOnly(source), TradingModel.TakeProfitHit);
    WholeEvidence(source, p.tpOnly(source), TradingModel.TakeProfitHit);
    Joins(events, tp, evidence, EvidenceOf(tp), source);
    evidence, events := evidence + EvidenceOf(tp), events + tp;
    var sl := WholeEvent(source, p.slOnly(source), TradingModel.StopLossHit);
    WholeEvidence(source, p.slOnly(source), TradingModel.StopLossHit);
    Joins(events, sl, evidence, EvidenceOf(sl), source);
    evidence, events := evidence + EvidenceOf(sl), events + sl;
    var breakEvens := FindAll(lines, p.breakEvens, source);
    FoundEvidence(breakEvens, source, TradeResult(TradingModel.BreakEven));
    Joins(events, OneEvent(SpansOf(breakEvens), TradeResult(TradingModel.BreakEven)), evidence, SpansOf(breakEvens), source);
    evidence, events := evidence + SpansOf(breakEvens), events + OneEvent(SpansOf(breakEvens), TradeResult(TradingModel.BreakEven));
    r := Status(events, evidence, review);
  }

  lemma FoundEvidence(found: seq<Found>, source: string, instruction: Instruction)
    requires forall f | f in found :: f.span.Slices(source)
    ensures AllSlice(SpansOf(found), source)
    ensures Evidenced(TriggerEvents(found), source) && Evidenced(CancelEvents(found), source)
    ensures Evidenced(OneEvent(SpansOf(found), instruction), source)
    ensures SpansOf(found) == EvidenceOf(TriggerEvents(found)) == EvidenceOf(CancelEvents(found)) == EvidenceOf(OneEvent(SpansOf(found), instruction))
  {
    OneSpanEach(found);
  }

  lemma {:induction false} OneSpanEach(found: seq<Found>)
    ensures SpansOf(found) == EvidenceOf(TriggerEvents(found)) == EvidenceOf(CancelEvents(found))
  {
    if found != [] {
      var init := found[..|found| - 1];
      OneSpanEach(init);
      assert TriggerEvents(found)[..|init|] == TriggerEvents(init);
      assert CancelEvents(found)[..|init|] == CancelEvents(init);
      assert SpansOf(found) == SpansOf(init) + [found[|init|].span];
    }
  }

  lemma WholeEvidence(source: string, holds: bool, kind: ResultKind)
    ensures Evidenced(WholeEvent(source, holds, kind), source)
    ensures AllSlice(EvidenceOf(WholeEvent(source, holds, kind)), source)
  {
    assert Span(0, |source|, source).Slices(source);
  }

  lemma Joins(a: seq<Event>, b: seq<Event>, c: seq<Span>, d: seq<Span>, source: string)
    requires Evidenced(a, source) && Evidenced(b, source) && AllSlice(c, source) && AllSlice(d, source)
    ensures Evidenced(a + b, source) && AllSlice(c + d, source)
    ensures c == EvidenceOf(a) && d == EvidenceOf(b) ==> c + d == EvidenceOf(a + b)
  {
    EvidenceJoins(a, b);
  }

  lemma {:induction false} EvidenceJoins(a: seq<Event>, b: seq<Event>)
    ensures EvidenceOf(a + b) == EvidenceOf(a) + EvidenceOf(b)
  {
    if b == [] {
      assert a + b == a;
    } else {
      EvidenceJoins(a, b[..|b| - 1]);
      assert (a + b)[..|a + b| - 1] == a + b[..|b| - 1];
    }
  }

  function EvidenceOf(events: seq<Event>): seq<Span> {
    if events == [] then [] else EvidenceOf(events[..|events| - 1]) + events[|events| - 1].evidence
  }

  /** The lines that mention a delete. */
  function Mentions(lines: seq<LineSpan>, p: Patterns): seq<Span> {
    if lines == [] then []
    else
      var last := lines[|lines| - 1];
      Mentions(lines[..|lines| - 1], p) + if p.mentionsDelete(last.text) then [last.Whole()] else []
  }

  /** `_all_matching_spans`. */
  method AllMentioning(lines: seq<LineSpan>, p: Patterns, ghost source: string) returns (spans: seq<Span>)
    requires LinesOf(lines, source)
    ensures AllSlice(spans, source) && spans == Mentions(lines, p)
  {
    spans := [];
    for i := 0 to |lines|
      invariant AllSlice(spans, source) && spans == Mentions(lines[..i], p)
    {
      assert lines[..i + 1][..i] == lines[..i];
      if p.mentionsDelete(lines[i].text) {
        assert lines[i].Whole().Slices(source);
        spans := spans + [lines[i].Whole()];
      }
    }
    assert lines[..|lines|] == lines;
  }

  // ---------- Order of events ----------

  const NO_EVIDENCE_KEY := 1_000_000_000

  function Earliest(spans: seq<Span>): (start: nat)
    requires spans != []
    ensures forall span | span in spans :: start <= span.start
    ensures exists span :: span in spans && span.start == start
  {
    if |spans| == 1 then spans[0].start
    else
      var rest := Earliest(spans[1..]);
      if spans[0].start < rest then spans[0].start else rest
  }

  function SortKey(event: Event): int {
    if event.evidence != [] then Earliest(event.evidence) else NO_EVIDENCE_KEY
  }

  /** The place of event `n` among the earlier ones, which are in order: after all whose key is not greater. */
  function Insert(order: seq<nat>, events: seq<Event>, n: nat): seq<nat>
    requires n < |events| && forall i | 0 <= i < |order| :: order[i] < |events|
  {
    if order == [] || SortKey(events[order[|order| - 1]]) <= SortKey(events[n]) then order + [n]
    else Insert(order[..|order| - 1], events, n) + [order[|order| - 1]]
  }

  /** The order of the first `n` events. */
  function SortOrder(events: seq<Event>, n: nat): (order: seq<nat>)
    requires n <= |events|
    ensures forall i | 0 <= i < |order| :: order[i] < n
    ensures |order| == n
  {
    if n == 0 then []
    else
      InsertPermutes(SortOrder(events, n - 1), events, n - 1);
      Insert(SortOrder(events, n - 1), events, n - 1)
  }

  /** `_sort_events_by_evidence`. */
  function SortEventsByEvidence(events: seq<Event>): (sorted: seq<Event>)
    ensures |sorted| == |events|
  {
    var order := SortOrder(events, |events|);
    seq(|events|, i requires 0 <= i < |events| => events[order[i]])
  }

  lemma {:induction false} InsertPermutes(order: seq<nat>, events: seq<Event>, n: nat)
    requires n < |events| && forall i | 0 <= i < |order| :: order[i] < |events|
    ensures multiset(Insert(order, events, n)) == multiset(order) + multiset{n}
    ensures |Insert(order, events, n)| == |order| + 1
    ensures forall i | 0 <= i < |order| + 1 :: Insert(order, events, n)[i] == n || Insert(order, events, n)[i] in order
  {
    if order != [] && SortKey(events[order[|order| - 1]]) > SortKey(events[n]) {
      InsertPermutes(order[..|order| - 1], events, n);
      assert order == order[..|order| - 1] + [order[|order| - 1]];
    }
  }

  /** By key, and by place in the input where keys are equal. */
  ghost predicate Before(events: seq<Event>, i: nat, j: nat)
    requires i < |events| && j < |events|
  {
    SortKey(events[i]) < SortKey(events[j]) || (SortKey(events[i]) == SortKey(events[j]) && i < j)
  }

  ghost predicate InOrder(events: seq<Event>, order: seq<nat>) {
    && (forall i | 0 <= i < |order| :: order[i] < |events|)
    && forall i, j | 0 <= i < j < |order| :: Before(events, order[i], order[j])
  }

  lemma {:induction false} InsertKeepsOrder(order: seq<nat>, events: seq<Event>, n: nat)
    requires InOrder(events, order) && n < |events| && forall i | 0 <= i < |order| :: order[i] < n
    ensures InOrder(events, Insert(order, events, n))
  {
    hide SortKey;
    if order != [] && SortKey(events[order[|order| - 1]]) > SortKey(events[n]) {
      var init, last := order[..|order| - 1], order[|order| - 1];
      InsertKeepsOrder(init, events, n);
      InsertPermutes(init, events, n);
      LastComesLast(Insert(init, events, n), init, events, n, last);
      assert forall i | 0 <= i < |init| :: init[i] == order[i];
    }
  }

  lemma LastComesLast(inserted: seq<nat>, init: seq<nat>, events: seq<Event>, n: nat, last: nat)
    requires InOrder(events, inserted) && last < |events| && n < |events| && SortKey(events[last]) > SortKey(events[n])
    requires forall i | 0 <= i < |inserted| :: inserted[i] == n || inserted[i] in init
    requires forall i | 0 <= i < |init| :: init[i] < |events| && Before(events, init[i], last)
    ensures InOrder(events, inserted + [last])
  {
    hide SortKey;
  }

  lemma NothingToOrder(events: seq<Event>)
    ensures InOrder(events, [])
  {
  }

  /** Sorting neither loses nor repeats an event, orders by earliest evidence, and keeps the order of equals. */
  lemma {:induction false} SortIsAStablePermutation(events: seq<Event>, n: nat)
    requires n <= |events|
    ensures InOrder(events, SortOrder(events, n))
    ensures forall k: nat :: multiset(SortOrder(events, n))[k] == if k < n then 1 else 0
  {
    hide Insert, InOrder, SortKey;
    NothingToOrder(events);
    if n > 0 {
      SortIsAStablePermutation(events, n - 1);
      InsertKeepsOrder(SortOrder(events, n - 1), events, n - 1);
      InsertPermutes(SortOrder(events, n - 1), events, n - 1);
    }
  }

  // ---------- The whole message ----------

  /** `classify`, given whether the message has a provider header. */
  function Classify(source: string, hasHeader: bool, p: Patterns): Classification {
    if p.noTrading(source) then NoTradingDay
    else if p.riskAdvisory(source) then RiskAdvisory
    else if p.promotion(source) then Promotion
    else if p.educational(source) then Educational
    else if p.sessionEnd(source) then SessionControl
    else if p.tpOnly(source) || p.slOnly(source) || p.breakEven(source) then OrderStatus
    else if hasHeader then TradeInstruction
    else if p.trigger(source) then OrderStatus
    else if p.deleteOrder(source) then TradeInstruction
    else UnknownMessage
  }

  /** An order without its provider and evidence. */
  datatype CanonicalOrder = CanonicalOrder(instrument: Option<string>, side: Side, entry: int, stopLoss: int, takeProfits: seq<int>)

  function Canonical(orders: seq<Order>): seq<CanonicalOrder> {
    seq(|orders|, i requires 0 <= i < |orders| =>
      CanonicalOrder(orders[i].instrument, orders[i].side, orders[i].entry, orders[i].stopLoss, orders[i].takeProfits))
  }

  /** All blocks say the same. */
  predicate Compatible(blocks: seq<Block>) {
    |set block | block in blocks :: Canonical(block.orders)| <= 1
  }

  function OfProvider(blocks: seq<Block>, provider: string): seq<Block> {
    if blocks == [] then []
    else OfProvider(blocks[..|blocks| - 1], provider) + if blocks[|blocks| - 1].provider == provider then [blocks[|blocks| - 1]] else []
  }

  /** The preferred provider's blocks, or the first block when none is preferred. */
  function SelectedBlocks(blocks: seq<Block>, preferred: Option<string>): seq<Block> {
    if blocks == [] then []
    else match preferred
         case Some(provider) => OfProvider(blocks, provider)
         case None => [blocks[0]]
  }

  function OrderEvents(orders: seq<Order>): (events: seq<Event>)
    ensures |events| == |orders| && forall i | 0 <= i < |orders| :: events[i] == Event(PlacePending(orders[i]), orders[i].evidence)
  {
    seq(|orders|, i requires 0 <= i < |orders| => Event(PlacePending(orders[i]), orders[i].evidence))
  }

  function BlockEvents(blocks: seq<Block>): seq<Event> {
    if blocks == [] then [] else BlockEvents(blocks[..|blocks| - 1]) + OrderEvents(blocks[|blocks| - 1].orders)
  }

  function BlockEvidence(blocks: seq<Block>): seq<Span> {
    if blocks == [] then [] else BlockEvidence(blocks[..|blocks| - 1]) + blocks[|blocks| - 1].evidence
  }

  predicate RequiresContext(event: Event) {
    (event.instruction.PlacePending? && event.instruction.order.instrument == None) || event.instruction.TradeResult?
  }

  /** Every piece of evidence in a result is a piece of the text. */
  predicate ResultSlices(r: Parsed, source: string) {
    && AllSlice(r.evidence, source)
    && (forall event | event in r.events :: AllSlice(event.evidence, source))
    && (forall block | block in r.blocks ::
          && Span(block.start, block.end, block.text).Slices(source)
          && AllSlice(block.evidence, source)
          && forall order | order in block.orders :: AllSlice(order.evidence, source))
  }

  predicate BlockEvidenced(block: Block, source: string) {
    && block.evidence == [Span(block.start, block.end, block.text)]
    && AllSlice(block.evidence, source)
    && forall order | order in block.orders :: OrderEvidenced(order, source)
  }

  lemma {:induction false} BlocksAreEvidenced(blocks: seq<Block>, source: string)
    requires forall block | block in blocks :: BlockEvidenced(block, source)
    ensures Evidenced(BlockEvents(blocks), source) && AllSlice(BlockEvidence(blocks), source)
  {
    if blocks != [] {
      var last := blocks[|blocks| - 1];
      BlocksAreEvidenced(blocks[..|blocks| - 1], source);
      assert BlockEvidenced(last, source);
      forall event | event in OrderEvents(last.orders)
        ensures event.evidence != [] && AllSlice(event.evidence, source)
      {
        var i :| 0 <= i < |last.orders| && OrderEvents(last.orders)[i] == event;
        assert OrderEvidenced(last.orders[i], source);
      }
    }
  }

  lemma {:induction false} SelectedAreBlocks(blocks: seq<Block>, provider: string)
    ensures forall block :: block in OfProvider(blocks, provider) <==> block in blocks && block.provider == provider
  {
    if blocks != [] {
      SelectedAreBlocks(blocks[..|blocks| - 1], provider);
    }
  }

  function Review(c: Classification, reason: string, evidence: seq<Span>, blocks: seq<Block>): Parsed {
    Parsed(c, [Event(ManualReview(reason), evidence)], evidence, ReviewRequired, blocks)
  }

  /** What the blocks and the status patterns of a message ask for, in the order of their evidence. */
  ghost function Asked(
      source: string, lines: seq<LineSpan>, blocks: seq<Block>, preferred: Option<string>, p: Patterns): seq<Event>
    requires p.InLine()
  {
    SortEventsByEvidence(BlockEvents(SelectedBlocks(blocks, preferred)) + StatusEvents(source, lines, p))
  }

  lemma SortedIsEvidenced(events: seq<Event>, source: string)
    requires Evidenced(events, source)
    ensures Evidenced(SortEventsByEvidence(events), source)
  {
  }

  method SelectProviderBlocks(blocks: seq<Block>, preferred: Option<string>) returns (selected: seq<Block>)
    requires blocks != []
    ensures selected == SelectedBlocks(blocks, preferred)
    ensures forall block | block in selected :: block in blocks
    ensures preferred.Some? ==> (selected == [] <==> forall block | block in blocks :: block.provider != preferred.value)
  {
    if preferred.None? {
      return [blocks[0]];
    }
    selected := [];
    for i := 0 to |blocks|
      invariant selected == OfProvider(blocks[..i], preferred.value)
    {
      assert blocks[..i + 1][..i] == blocks[..i];
      if blocks[i].provider == preferred.value {
        selected := selected + [blocks[i]];
      }
    }
    assert blocks[..|blocks|] == blocks;
    SelectedAreBlocks(blocks, preferred.value);
    assert selected != [] ==> selected[0] in OfProvider(blocks, preferred.value);
  }

  const PROVIDER_MISSING := "configured provider is missing from message"

  const BLOCKS_DISAGREE := "provider blocks disagree"

  /** Why the blocks of a message cannot be used. */
  function BlockReason(blocks: seq<Block>, preferred: Option<string>): Option<string> {
    if blocks != [] && preferred.Some? && (forall block | block in blocks :: block.provider != preferred.value) then Some(PROVIDER_MISSING)
    else if blocks != [] && preferred.None? && !Compatible(blocks) then Some(BLOCKS_DISAGREE)
    else None
  }

  /** Why a message that could ask for something must be reviewed: its blocks are not those of the preferred provider or, when
      none is preferred, do not agree; it mentions a delete that names no order; or it asks for nothing. */
  ghost function ReviewReason(
      source: string, lines: seq<LineSpan>, c: Classification, blocks: seq<Block>, preferred: Option<string>, p: Patterns): Option<string>
    requires p.InLine()
  {
    if BlockReason(blocks, preferred).Some? then BlockReason(blocks, preferred)
    else if AllFound(lines, p.deletes) == [] && p.mentionsDelete(source) then Some(AMBIGUOUS_DELETE)
    else if Asked(source, lines, blocks, preferred, p) == [] then Some(NothingFound(c))
    else None
  }

  /** The evidence of the whole result, given the reason for a review, if there is one. */
  ghost function EvidenceShown(
      source: string, lines: seq<LineSpan>, blocks: seq<Block>, preferred: Option<string>, p: Patterns, reason: Option<string>): seq<Span>
    requires p.InLine()
  {
    var selected := BlockEvidence(SelectedBlocks(blocks, preferred));
    if BlockReason(blocks, preferred).Some? then BlockEvidence(blocks)
    else if reason == Some(AMBIGUOUS_DELETE) then if selected != [] then selected else Mentions(lines, p)
    else selected + EvidenceOf(StatusEvents(source, lines, p))
  }

  const SILENT := {Promotion, Educational, RiskAdvisory}

  /**
    `parse`. Every span is a piece of the text. The lines are those of the text, and the blocks tile them; a message of a kind that
    asks for nothing yields no event, and any other the events it asks for, in the order of their evidence, or one request for
    review, exactly when there is a reason for it. Every event has evidence, so the key for events without is never used.
   */
  method Parse(source: string, preferred: Option<string>, p: Patterns)
    returns (r: Parsed, ghost lines: seq<LineSpan>, ghost bs: seq<Boundary>)
    requires p.InLine()
    ensures LinesOf(lines, source) && AreLines(lines, Pieces(source)) && Tiles(bs, lines, p)
    ensures r.classification == Classify(source, bs != [], p)
    ensures ResultSlices(r, source)
    ensures r.classification in SILENT ==> r == Parsed(r.classification, [], [], Proposed, [])
    ensures r.classification == NoTradingDay ==>
              var whole := [Span(0, |source|, source)]; r == Parsed(NoTradingDay, [Event(NoTrading, whole)], whole, Proposed, [])
    ensures r.classification !in SILENT + {NoTradingDay} ==>
              var reason := ReviewReason(source, lines, r.classification, r.blocks, preferred, p);
              && BlocksOf(r.blocks, bs, lines, source, p)
              && r.evidence == EvidenceShown(source, lines, r.blocks, preferred, p, reason)
              && (r.status == ReviewRequired <==> reason.Some?)
              && (reason.Some? ==> r.events == [Event(ManualReview(reason.value), r.evidence)])
              && (reason.None? ==>
                    && r.events == Asked(source, lines, r.blocks, preferred, p) != [] && Evidenced(r.events, source)
                    && (r.status == ContextRequired <==> exists event :: event in r.events && RequiresContext(event)))
  {
    hide AllFound, FindsInLine, Sections, OrdersOf, BlockOk, Chained, BlocksOf, AllSlice, Evidenced, ResultSlices, Asked, ReviewReason,
         AreLines, Pieces, StatusEvents, EvidenceShown;
    var lineSpans := SplitLinesWithSpans(source);
    lines := lineSpans;
    var boundaries := ExtractProviderBoundaries(lineSpans, p);
    var c := Classify(source, boundaries != [], p);
    bs := boundaries;
    var whole := [Span(0, |source|, source)];
    WholeSlices(source, c);
    if c in {Promotion, Educational, RiskAdvisory} {
      return Parsed(c, [], [], Proposed, []), lines, bs;
    }
    if c == NoTradingDay {
      return Parsed(c, [Event(NoTrading, whole)], whole, Proposed, []), lines, bs;
    }
    var blocks;
    blocks, bs := ParseProviderBlocks(source, lineSpans, p);
    HeadersDecideTiling(bs, boundaries, lines, p);
    r := ParseInstructions(source, lineSpans, c, blocks, preferred, p);
  }

  lemma WholeSlices(source: string, c: Classification)
    ensures var whole := [Span(0, |source|, source)];
            && ResultSlices(Parsed(c, [], [], Proposed, []), source)
            && ResultSlices(Parsed(c, [Event(NoTrading, whole)], whole, Proposed, []), source)
            && Evidenced([Event(NoTrading, whole)], source) && Evidenced([], source)
  {
    assert Span(0, |source|, source).Slices(source);
  }

  lemma HeadersDecideTiling(a: seq<Boundary>, b: seq<Boundary>, lines: seq<LineSpan>, p: Patterns)
    requires Tiles(a, lines, p) && Tiles(b, lines, p)
    ensures a == [] <==> b == []
  {
    assert a != [] ==> BlockOk(a[0], lines, p);
    assert b != [] ==> BlockOk(b[0], lines, p);
  }

  lemma BlocksEvidenced(blocks: seq<Block>, bs: seq<Boundary>, lines: seq<LineSpan>, source: string, p: Patterns)
    requires BlocksOf(blocks, bs, lines, source, p)
    ensures forall block | block in blocks :: BlockEvidenced(block, source)
  {
    forall block | block in blocks
      ensures BlockEvidenced(block, source)
    {
      var i :| 0 <= i < |blocks| && blocks[i] == block;
      assert BlockOf(blocks[i], bs[i], lines, source, p);
    }
  }

  /** The part of `parse` that comes after the messages that ask for nothing. */
  method ParseInstructions(
      source: string, lines: seq<LineSpan>, c: Classification, blocks: seq<Block>, preferred: Option<string>,
      p: Patterns)
    returns (r: Parsed)
    requires LinesOf(lines, source) && p.InLine()
    requires c !in SILENT + {NoTradingDay}
    requires forall block | block in blocks :: BlockEvidenced(block, source)
    ensures r.classification == c && r.blocks == blocks && ResultSlices(r, source)
    ensures var reason := ReviewReason(source, lines, c, blocks, preferred, p);
            && r.evidence == EvidenceShown(source, lines, blocks, preferred, p, reason)
            && (r.status == ReviewRequired <==> reason.Some?)
            && (reason.Some? ==> r.events == [Event(ManualReview(reason.value), r.evidence)])
            && (reason.None? ==>
                  && r.events == Asked(source, lines, blocks, preferred, p) != [] && Evidenced(r.events, source)
                  && (r.status == ContextRequired <==> exists event :: event in r.events && RequiresContext(event)))
  {
    hide AllFound, FindsInLine, LinesOf, StatusEvents, AllSlice, Evidenced, BlockEvidenced, ResultSlices, SortEventsByEvidence, BlockReason,
         SelectedBlocks, BlockEvents, BlockEvidence, EvidenceOf, Mentions;
    BlocksAreEvidenced(blocks, source);
    var selected, unusable := ChooseBlocks(blocks, preferred);
    if unusable.Some? {
      ReviewSlices(c, unusable.value, BlockEvidence(blocks), blocks, source);
      return Review(c, unusable.value, BlockEvidence(blocks), blocks);
    }
    BlocksAreEvidenced(selected, source);
    var status := ParseMessageStatusEvents(source, lines, p);
    if status.review.Some? {
      var shown := if BlockEvidence(selected) != [] then BlockEvidence(selected) else status.review.value.evidence;
      ReviewSlices(c, AMBIGUOUS_DELETE, shown, blocks, source);
      return Review(c, AMBIGUOUS_DELETE, shown, blocks);
    }
    r := Conclude(source, c, blocks, selected, status);
  }

  /** The blocks to use, or why there are none to use. */
  method ChooseBlocks(blocks: seq<Block>, preferred: Option<string>) returns (selected: seq<Block>, unusable: Option<string>)
    ensures unusable == BlockReason(blocks, preferred)
    ensures unusable.None? ==> selected == SelectedBlocks(blocks, preferred)
    ensures forall block | block in selected :: block in blocks
  {
    hide Compatible, OfProvider;
    selected, unusable := [], None;
    if blocks != [] {
      selected := SelectProviderBlocks(blocks, preferred);
      if preferred.Some? && selected == [] {
        unusable := Some(PROVIDER_MISSING);
      } else if preferred.None? && !Compatible(blocks) {
        unusable := Some(BLOCKS_DISAGREE);
      }
    }
  }

  /** What is left when no review was asked for on the way. */
  method Conclude(source: string, c: Classification, blocks: seq<Block>, selected: seq<Block>, status: Status) returns (r: Parsed)
    requires c !in SILENT + {NoTradingDay}
    requires forall block | block in blocks :: BlockEvidenced(block, source)
    requires Evidenced(BlockEvents(selected), source) && AllSlice(BlockEvidence(selected), source)
    requires Evidenced(status.events, source) && AllSlice(status.evidence, source)
    ensures r.classification == c && r.blocks == blocks && ResultSlices(r, source)
    ensures r.evidence == BlockEvidence(selected) + status.evidence
    ensures var events := SortEventsByEvidence(BlockEvents(selected) + status.events);
            && (r.status == ReviewRequired <==> events == [])
            && (events == [] ==> r.events == [Event(ManualReview(NothingFound(c)), r.evidence)])
            && (events != [] ==>
                  && r.events == events && Evidenced(r.events, source)
                  && (r.status == ContextRequired <==> exists event :: event in r.events && RequiresContext(event)))
  {
    hide AllSlice, Evidenced, BlockEvidenced, ResultSlices, SortEventsByEvidence, BlockEvents, BlockEvidence;
    var events, evidence := BlockEvents(selected), BlockEvidence(selected);
    Joins(events, status.events, evidence, status.evidence, source);
    events, evidence := events + status.events, evidence + status.evidence;
    SortedIsEvidenced(events, source);
    events := SortEventsByEvidence(events);
    if events == [] {
      ReviewSlices(c, NothingFound(c), evidence, blocks, source);
      return Review(c, NothingFound(c), evidence, blocks);
    }
    var parseStatus := if exists event :: event in events && RequiresContext(event) then ContextRequired else Proposed;
    r := Parsed(c, events, evidence, parseStatus, blocks);
    EvidencedSlices(r, source);
  }

  /** The reason of the review when a message that could ask for something asks for nothing. */
  function NothingFound(c: Classification): string {
    match c
    case OrderStatus => "order status lacks resolvable target"
    case TradeInstruction => "instruction is malformed or ambiguous"
    case SessionControl => "instruction is malformed or ambiguous"
    case _ => "unsupported or uncertain message"
  }

  lemma ReviewSlices(c: Classification, reason: string, evidence: seq<Span>, blocks: seq<Block>, source: string)
    requires AllSlice(evidence, source) && forall block | block in blocks :: BlockEvidenced(block, source)
    ensures ResultSlices(Review(c, reason, evidence, blocks), source)
  {
    BlocksSlice(blocks, source);
  }

  lemma BlocksSlice(blocks: seq<Block>, source: string)
    requires forall block | block in blocks :: BlockEvidenced(block, source)
    ensures forall block | block in blocks ::
              && Span(block.start, block.end, block.text).Slices(source)
              && AllSlice(block.evidence, source)
              && forall order | order in block.orders :: AllSlice(order.evidence, source)
  {
    forall block | block in blocks
      ensures Span(block.start, block.end, block.text).Slices(source)
    {
      assert BlockEvidenced(block, source);
      assert block.evidence[0] in block.evidence;
    }
  }

  lemma EvidencedSlices(r: Parsed, source: string)
    requires Evidenced(r.events, source) && AllSlice(r.evidence, source)
    requires forall block | block in r.blocks :: BlockEvidenced(block, source)
    ensures ResultSlices(r, source)
  {
    BlocksSlice(r.blocks, source);
  }
}
