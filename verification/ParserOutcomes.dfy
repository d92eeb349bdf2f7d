/**
  What the parser reads: told from the lines and the patterns, and not by the functions that assemble the result.
 */
module ParserOutcomes {
  import opened Wrappers
  import opened LineSpans
  import opened Parser
  import TradingModel

  // ---------- Orders ----------

  type Pattern = string -> Option<Option<int>>

  /** No line that matches is unreadable as a number. */
  ghost predicate IsReadable(section: seq<LineSpan>, pattern: Pattern) {
    forall line | line in section :: pattern(line.text) != Some(None)
  }

  ghost predicate HasMatch(section: seq<LineSpan>, pattern: Pattern) {
    exists line :: line in section && pattern(line.text).Some?
  }

  /** The value of the first line of the section that matches. */
  ghost predicate ReadsFirst(section: seq<LineSpan>, pattern: Pattern, value: int) {
    exists i :: IsFirstMatch(section, pattern, i) && pattern(section[i].text) == Some(Some(value))
  }

  ghost predicate IsFirstMatch(section: seq<LineSpan>, pattern: Pattern, i: int) {
    0 <= i < |section| && pattern(section[i].text).Some? && forall j | 0 <= j < i :: pattern(section[j].text).None?
  }

  /** The values of all the lines that match, in their order: those at these places and no others. */
  ghost predicate ReadsAt(section: seq<LineSpan>, pattern: Pattern, values: seq<int>, places: seq<nat>) {
    && |places| == |values|
    && (forall k | 0 <= k < |places| :: places[k] < |section| && pattern(section[places[k]].text) == Some(Some(values[k])))
    && (forall k, l | 0 <= k < l < |places| :: places[k] < places[l])
    && (forall i | 0 <= i < |section| && pattern(section[i].text).Some? :: i in places)
  }

  ghost predicate ReadsAll(section: seq<LineSpan>, pattern: Pattern, values: seq<int>) {
    exists places :: ReadsAt(section, pattern, values, places)
  }

  /** An entry, a stop loss and a take profit are found, and none that is found is unreadable. */
  ghost predicate IsComplete(section: seq<LineSpan>, p: Patterns) {
    && IsReadable(section, p.entry) && IsReadable(section, p.stopLoss) && IsReadable(section, p.takeProfit)
    && HasMatch(section, p.entry) && HasMatch(section, p.stopLoss) && HasMatch(section, p.takeProfit)
  }

  /** The order says what its section says, and is evidenced by the lines of the section. */
  ghost predicate IsReadFrom(order: Order, section: seq<LineSpan>, instrument: Option<string>, provider: string, p: Patterns) {
    && section != []
    && order.provider == provider && order.instrument == instrument
    && p.side(section[0].text) == Some(order.side)
    && ReadsFirst(section, p.entry, order.entry)
    && ReadsFirst(section, p.stopLoss, order.stopLoss)
    && ReadsAll(section, p.takeProfit, order.takeProfits)
    && |order.evidence| == |section|
    && forall i | 0 <= i < |section| :: order.evidence[i] == Span(section[i].start, section[i].end, section[i].text)
  }

  lemma {:induction false} MatchedAreRead(section: seq<LineSpan>, pattern: Pattern) returns (places: seq<nat>)
    requires IsReadable(section, pattern)
    ensures ReadsAt(section, pattern, MatchedDecimals(section, pattern), places)
  {
    hide ReadsAt;
    if section == [] {
      places := [];
      NothingRead(section, pattern);
    } else {
      var init, last := section[..|section| - 1], section[|section| - 1];
      assert forall line | line in init :: line in section;
      var before := MatchedAreRead(init, pattern);
      assert last in section;
      if pattern(last.text).Some? {
        places := before + [|init|];
        OneMoreRead(section, pattern, MatchedDecimals(init, pattern), before);
      } else {
        places := before;
        NoMoreRead(section, pattern, MatchedDecimals(init, pattern), before);
        assert MatchedDecimals(section, pattern) == MatchedDecimals(init, pattern);
      }
    }
  }

  lemma NothingRead(section: seq<LineSpan>, pattern: Pattern)
    requires section == []
    ensures ReadsAt(section, pattern, [], [])
  {
  }

  lemma OneMoreRead(section: seq<LineSpan>, pattern: Pattern, values: seq<int>, places: seq<nat>)
    requires section != [] && ReadsAt(section[..|section| - 1], pattern, values, places)
    requires pattern(section[|section| - 1].text).Some? && pattern(section[|section| - 1].text).value.Some?
    ensures ReadsAt(section, pattern, values + [pattern(section[|section| - 1].text).value.value], places + [|section| - 1])
  {
    var init, more := section[..|section| - 1], places + [|section| - 1];
    forall i | 0 <= i < |section| && pattern(section[i].text).Some? ensures i in more {
      if i < |init| {
        assert init[i] == section[i] && i in places;
      }
    }
  }

  lemma NoMoreRead(section: seq<LineSpan>, pattern: Pattern, values: seq<int>, places: seq<nat>)
    requires section != [] && ReadsAt(section[..|section| - 1], pattern, values, places)
    requires pattern(section[|section| - 1].text).None?
    ensures ReadsAt(section, pattern, values, places)
  {
    var init := section[..|section| - 1];
    forall i | 0 <= i < |section| && pattern(section[i].text).Some? ensures i in places {
      assert init[i] == section[i];
    }
  }

  lemma {:induction false} DecimalsAreRead(section: seq<LineSpan>, pattern: Pattern)
    ensures Decimals(section, pattern) != [] <==> IsReadable(section, pattern) && HasMatch(section, pattern)
    ensures Decimals(section, pattern) != [] ==>
              ReadsFirst(section, pattern, Decimals(section, pattern)[0]) && ReadsAll(section, pattern, Decimals(section, pattern))
  {
    if IsReadable(section, pattern) {
      var places := MatchedAreRead(section, pattern);
      var values := Decimals(section, pattern);
      assert values == MatchedDecimals(section, pattern);
      if line :| line in section && pattern(line.text).Some? {
        var i :| 0 <= i < |section| && section[i] == line;
        assert i in places;
      }
      if values != [] {
        FirstIsFirst(section, pattern, values, places);
        assert section[places[0]] in section;
      }
    }
  }

  lemma FirstIsFirst(section: seq<LineSpan>, pattern: Pattern, values: seq<int>, places: seq<nat>)
    requires ReadsAt(section, pattern, values, places) && values != []
    ensures IsFirstMatch(section, pattern, places[0]) && pattern(section[places[0]].text) == Some(Some(values[0]))
  {
    assert forall place | place in places :: places[0] <= place;
  }

  /** A section yields an order exactly when it is complete, and the order is read from it. */
  lemma {:induction false} SectionIsRead(instrument: Option<string>, provider: string, section: seq<LineSpan>, p: Patterns)
    requires section != [] && p.side(section[0].text).Some?
    ensures OrderOf(instrument, provider, section, p).Some? <==> IsComplete(section, p)
    ensures OrderOf(instrument, provider, section, p).Some? ==>
              IsReadFrom(OrderOf(instrument, provider, section, p).value, section, instrument, provider, p)
  {
    hide Decimals, ReadsFirst, ReadsAll, IsReadable, HasMatch;
    DecimalsAreRead(section, p.entry);
    DecimalsAreRead(section, p.stopLoss);
    DecimalsAreRead(section, p.takeProfit);
  }

  /** The orders are read from these sections, in their order, and every complete section is among them. */
  ghost predicate AreReadAt(
      orders: seq<Order>, sections: seq<seq<LineSpan>>, instrument: Option<string>, provider: string, p: Patterns, places: seq<nat>) {
    && |places| == |orders|
    && (forall k | 0 <= k < |places| ::
          places[k] < |sections| && IsComplete(sections[places[k]], p) && IsReadFrom(orders[k], sections[places[k]], instrument, provider, p))
    && (forall k, l | 0 <= k < l < |places| :: places[k] < places[l])
    && (forall i | 0 <= i < |sections| && IsComplete(sections[i], p) :: i in places)
  }

  lemma {:induction false} SectionsAreRead(instrument: Option<string>, provider: string, sections: seq<seq<LineSpan>>, p: Patterns)
    returns (places: seq<nat>)
    requires AllStartWithSide(sections, p)
    ensures AreReadAt(OrdersOf(instrument, provider, sections, p), sections, instrument, provider, p, places)
  {
    hide IsComplete, IsReadFrom, OrderOf, AreReadAt, IsSide;
    if sections == [] {
      places := [];
      NoSections(sections, instrument, provider, p);
    } else {
      var init, last := sections[..|sections| - 1], sections[|sections| - 1];
      var before := SectionsAreRead(instrument, provider, init, p);
      StartsWithSide(sections, p);
      SectionIsRead(instrument, provider, last, p);
      if IsComplete(last, p) {
        places := before + [|init|];
        OneSectionMore(OrdersOf(instrument, provider, init, p), sections, instrument, provider, p, before, OrderOf(instrument, provider, last, p).value);
      } else {
        places := before;
        NoSectionMore(OrdersOf(instrument, provider, init, p), sections, instrument, provider, p, before);
        assert OrdersOf(instrument, provider, sections, p) == OrdersOf(instrument, provider, init, p);
      }
    }
  }

  lemma NoSections(sections: seq<seq<LineSpan>>, instrument: Option<string>, provider: string, p: Patterns)
    requires sections == []
    ensures AreReadAt([], sections, instrument, provider, p, [])
  {
  }

  lemma StartsWithSide(sections: seq<seq<LineSpan>>, p: Patterns)
    requires AllStartWithSide(sections, p) && sections != []
    ensures var last := sections[|sections| - 1]; last != [] && p.side(last[0].text).Some?
  {
  }

  lemma OneSectionMore(
      orders: seq<Order>, sections: seq<seq<LineSpan>>, instrument: Option<string>, provider: string, p: Patterns, places: seq<nat>, order: Order)
    requires sections != [] && AreReadAt(orders, sections[..|sections| - 1], instrument, provider, p, places)
    requires IsComplete(sections[|sections| - 1], p) && IsReadFrom(order, sections[|sections| - 1], instrument, provider, p)
    ensures AreReadAt(orders + [order], sections, instrument, provider, p, places + [|sections| - 1])
  {
    hide IsComplete, IsReadFrom;
    var init, more := sections[..|sections| - 1], places + [|sections| - 1];
    forall i | 0 <= i < |sections| && IsComplete(sections[i], p) ensures i in more {
      if i < |init| {
        assert init[i] == sections[i] && i in places;
      }
    }
  }

  lemma NoSectionMore(
      orders: seq<Order>, sections: seq<seq<LineSpan>>, instrument: Option<string>, provider: string, p: Patterns, places: seq<nat>)
    requires sections != [] && AreReadAt(orders, sections[..|sections| - 1], instrument, provider, p, places)
    requires !IsComplete(sections[|sections| - 1], p)
    ensures AreReadAt(orders, sections, instrument, provider, p, places)
  {
    hide IsComplete, IsReadFrom;
    var init := sections[..|sections| - 1];
    forall i | 0 <= i < |sections| && IsComplete(sections[i], p) ensures i in places {
      assert init[i] == sections[i];
    }
  }

  /**
    The orders of a block are those of its complete sections, in their order. Each has the side of the first line of its section, the entry
    and the stop loss of the first lines that match them, and the take profits of all the lines that match, and is evidenced by the
    lines of its section.
   */
  lemma {:induction false} BlockOrdersAreRead(block: Block, b: Boundary, lines: seq<LineSpan>, source: string, p: Patterns)
    returns (places: seq<nat>)
    requires BlockOf(block, b, lines, source, p)
    ensures block.provider == b.provider && b.startLine <= b.endLine <= |lines|
    ensures AreReadAt(block.orders, Sections(lines[b.startLine..b.endLine], p), p.instrument(source), b.provider, p, places)
  {
    hide AreReadAt, OrdersOf;
    places := SectionsAreRead(p.instrument(source), b.provider, Sections(lines[b.startLine..b.endLine], p), p);
  }

  // ---------- Status events ----------

  function PieceOf(line: LineSpan, m: Match): Span
    requires m.start <= m.end <= |line.text|
  {
    Span(line.start + m.start, line.start + m.end, line.text[m.start..m.end])
  }

  /** The pattern matches in the line, and this is the piece it matches and the side it reads. */
  ghost predicate MatchesIn(line: LineSpan, find: string -> seq<Match>, span: Span, side: Side)
    requires FindsInLine(find)
  {
    exists m :: m in find(line.text) && m.side == side && PieceOf(line, m) == span
  }

  ghost predicate Matches(lines: seq<LineSpan>, find: string -> seq<Match>, span: Span, side: Side)
    requires FindsInLine(find)
  {
    exists line :: line in lines && MatchesIn(line, find, span, side)
  }

  ghost predicate MatchesOnly(lines: seq<LineSpan>, find: string -> seq<Match>, spans: seq<Span>)
    requires FindsInLine(find)
  {
    spans != [] && forall span :: span in spans <==> exists side :: Matches(lines, find, span, side)
  }

  lemma LineMatchesLie(line: LineSpan, find: string -> seq<Match>)
    requires FindsInLine(find)
    ensures forall m | m in find(line.text) :: m.start <= m.end <= |line.text|
  {
  }

  lemma FoundInIsMatched(line: LineSpan, find: string -> seq<Match>, found: Found)
    requires FindsInLine(find)
    ensures found in FoundIn(line, find(line.text)) <==> MatchesIn(line, find, found.span, found.side)
  {
    hide FindsInLine;
    var matches := find(line.text);
    LineMatchesLie(line, find);
    var here := FoundIn(line, matches);
    if found in here {
      var k :| 0 <= k < |here| && here[k] == found;
      assert matches[k] in matches && PieceOf(line, matches[k]) == found.span;
    }
    if m :| m in matches && m.side == found.side && PieceOf(line, m) == found.span {
      var k :| 0 <= k < |matches| && matches[k] == m;
      assert here[k] == found;
    }
  }

  lemma {:induction false} FoundIsMatched(lines: seq<LineSpan>, find: string -> seq<Match>, found: Found)
    requires FindsInLine(find)
    ensures found in AllFound(lines, find) <==> Matches(lines, find, found.span, found.side)
  {
    hide MatchesIn, FoundIn, FindsInLine;
    if lines != [] {
      var init, last := lines[..|lines| - 1], lines[|lines| - 1];
      FoundIsMatched(init, find, found);
      FoundInIsMatched(last, find, found);
      assert forall line :: line in lines <==> line in init || line == last;
    }
  }

  lemma {:induction false} SpansAreMatched(lines: seq<LineSpan>, find: string -> seq<Match>)
    requires FindsInLine(find)
    ensures SpansOf(AllFound(lines, find)) != [] ==> MatchesOnly(lines, find, SpansOf(AllFound(lines, find)))
    ensures SpansOf(AllFound(lines, find)) == [] <==> forall span, side :: !Matches(lines, find, span, side)
  {
    hide Matches;
    var found := AllFound(lines, find);
    var spans := SpansOf(found);
    forall span, side ensures Found(span, side) in found <==> Matches(lines, find, span, side) {
      FoundIsMatched(lines, find, Found(span, side));
    }
    forall span ensures span in spans <==> exists side :: Matches(lines, find, span, side) {
      if span in spans {
        var k :| 0 <= k < |spans| && spans[k] == span;
        assert found[k] in found && found[k] == Found(span, found[k].side);
      }
      if side :| Matches(lines, find, span, side) {
        var k :| 0 <= k < |found| && found[k] == Found(span, side);
        assert spans[k] == span;
      }
    }
    if spans != [] {
      assert spans[0] in spans;
    }
  }

  /** What a status event is: a trigger or a cancellation for one match, the end of the session or a break even for all matches together, a
      take profit or a stop loss for the whole text. */
  ghost predicate IsStatus(source: string, lines: seq<LineSpan>, p: Patterns, event: Event)
    requires p.InLine()
  {
    match event.instruction
    case MarkTriggered(side) => |event.evidence| == 1 && Matches(lines, p.triggers, event.evidence[0], side)
    case CancelPending(side) => |event.evidence| == 1 && Matches(lines, p.deletes, event.evidence[0], side)
    case EndOfSession => MatchesOnly(lines, p.ends, event.evidence)
    case TradeResult(TakeProfitHit) => p.tpOnly(source) && event.evidence == [Span(0, |source|, source)]
    case TradeResult(StopLossHit) => p.slOnly(source) && event.evidence == [Span(0, |source|, source)]
    case TradeResult(BreakEven) => MatchesOnly(lines, p.breakEvens, event.evidence)
    case _ => false
  }

  lemma {:induction false} TriggersAreRead(lines: seq<LineSpan>, find: string -> seq<Match>, event: Event)
    requires FindsInLine(find)
    ensures event in TriggerEvents(AllFound(lines, find)) <==>
              event.instruction.MarkTriggered? && |event.evidence| == 1 && Matches(lines, find, event.evidence[0], event.instruction.side)
  {
    hide AllFound, Matches;
    var found := AllFound(lines, find);
    var events := TriggerEvents(found);
    if event in events {
      var k :| 0 <= k < |events| && events[k] == event;
      FoundIsMatched(lines, find, found[k]);
    }
    if event.instruction.MarkTriggered? && |event.evidence| == 1 && Matches(lines, find, event.evidence[0], event.instruction.side) {
      FoundIsMatched(lines, find, Found(event.evidence[0], event.instruction.side));
      var k :| 0 <= k < |found| && found[k] == Found(event.evidence[0], event.instruction.side);
      assert events[k] == event;
    }
  }

  lemma {:induction false} CancelsAreRead(lines: seq<LineSpan>, find: string -> seq<Match>, event: Event)
    requires FindsInLine(find)
    ensures event in CancelEvents(AllFound(lines, find)) <==>
              event.instruction.CancelPending? && |event.evidence| == 1 && Matches(lines, find, event.evidence[0], event.instruction.side)
  {
    hide AllFound, Matches;
    var found := AllFound(lines, find);
    var events := CancelEvents(found);
    if event in events {
      var k :| 0 <= k < |events| && events[k] == event;
      FoundIsMatched(lines, find, found[k]);
    }
    if event.instruction.CancelPending? && |event.evidence| == 1 && Matches(lines, find, event.evidence[0], event.instruction.side) {
      FoundIsMatched(lines, find, Found(event.evidence[0], event.instruction.side));
      var k :| 0 <= k < |found| && found[k] == Found(event.evidence[0], event.instruction.side);
      assert events[k] == event;
    }
  }

  /** An event for all matches of a pattern together, and for them only. */
  lemma {:induction false} TogetherIsRead(lines: seq<LineSpan>, find: string -> seq<Match>, instruction: Instruction)
    requires FindsInLine(find)
    ensures var events := OneEvent(SpansOf(AllFound(lines, find)), instruction);
            && |events| <= 1
            && (events != [] <==> exists span, side :: Matches(lines, find, span, side))
            && (events != [] ==> events[0].instruction == instruction && MatchesOnly(lines, find, events[0].evidence))
  {
    hide AllFound, Matches, MatchesOnly, SpansOf;
    SpansAreMatched(lines, find);
  }

  lemma {:induction false} PartsAreRead(source: string, lines: seq<LineSpan>, p: Patterns, event: Event)
    requires p.InLine()
    ensures event in StatusEvents(source, lines, p) ==> IsStatus(source, lines, p, event)
    ensures (event.instruction.MarkTriggered? || event.instruction.CancelPending?) && IsStatus(source, lines, p, event) ==>
              event in StatusEvents(source, lines, p)
  {
    hide AllFound, Matches, MatchesOnly, FindsInLine, SpansOf, TriggerEvents, CancelEvents;
    TriggersAreRead(lines, p.triggers, event);
    CancelsAreRead(lines, p.deletes, event);
    TogetherIsRead(lines, p.ends, EndOfSession);
    TogetherIsRead(lines, p.breakEvens, TradeResult(TradingModel.BreakEven));
  }

  lemma {:induction false} ResultsAreRead(source: string, lines: seq<LineSpan>, p: Patterns)
    requires p.InLine()
    ensures var events := StatusEvents(source, lines, p);
            && ((exists span, side :: Matches(lines, p.ends, span, side)) ==> Says(events, EndOfSession))
            && ((exists span, side :: Matches(lines, p.breakEvens, span, side)) ==> Says(events, TradeResult(TradingModel.BreakEven)))
            && (p.tpOnly(source) ==> Says(events, TradeResult(TradingModel.TakeProfitHit)))
            && (p.slOnly(source) ==> Says(events, TradeResult(TradingModel.StopLossHit)))
  {
    hide AllFound, Matches, MatchesOnly, FindsInLine, SpansOf, OneEvent, TriggerEvents, CancelEvents;
    var ends, evens := OneEvent(SpansOf(AllFound(lines, p.ends)), EndOfSession), OneEvent(SpansOf(AllFound(lines, p.breakEvens)), TradeResult(TradingModel.BreakEven));
    TogetherIsRead(lines, p.ends, EndOfSession);
    TogetherIsRead(lines, p.breakEvens, TradeResult(TradingModel.BreakEven));
    Together(TriggerEvents(AllFound(lines, p.triggers)), CancelEvents(AllFound(lines, p.deletes)), ends,
             WholeEvent(source, p.tpOnly(source), TradingModel.TakeProfitHit), WholeEvent(source, p.slOnly(source), TradingModel.StopLossHit), evens);
  }

  /** What matches only these pieces matches somewhere. */
  lemma SomethingMatches(lines: seq<LineSpan>, find: string -> seq<Match>, spans: seq<Span>)
    requires FindsInLine(find) && MatchesOnly(lines, find, spans)
    ensures exists span, side :: Matches(lines, find, span, side)
  {
    hide Matches;
    assert spans[0] in spans;
  }

  /** Every status event is one; there is one for every trigger and cancellation, and one for the end, a take profit, a stop loss or a break
      even exactly when the text has it. */
  lemma {:induction false} StatusEventsAreRead(source: string, lines: seq<LineSpan>, p: Patterns)
    requires p.InLine()
    ensures var events := StatusEvents(source, lines, p);
            && (forall event | event in events :: IsStatus(source, lines, p, event))
            && (forall event: Event | (event.instruction.MarkTriggered? || event.instruction.CancelPending?) && IsStatus(source, lines, p, event) :: event in events)
            && (Says(events, EndOfSession) <==> exists span, side :: Matches(lines, p.ends, span, side))
            && (Says(events, TradeResult(TradingModel.BreakEven)) <==> exists span, side :: Matches(lines, p.breakEvens, span, side))
            && (Says(events, TradeResult(TradingModel.TakeProfitHit)) <==> p.tpOnly(source))
            && (Says(events, TradeResult(TradingModel.StopLossHit)) <==> p.slOnly(source))
  {
    hide StatusEvents, Matches, MatchesOnly, FindsInLine;
    var events := StatusEvents(source, lines, p);
    ResultsAreRead(source, lines, p);
    forall event: Event
      ensures event in events ==> IsStatus(source, lines, p, event)
      ensures (event.instruction.MarkTriggered? || event.instruction.CancelPending?) && IsStatus(source, lines, p, event) ==> event in events
    {
      PartsAreRead(source, lines, p, event);
    }
    if event :| event in events && event.instruction == EndOfSession {
      SomethingMatches(lines, p.ends, event.evidence);
    }
    if event :| event in events && event.instruction == TradeResult(TradingModel.BreakEven) {
      SomethingMatches(lines, p.breakEvens, event.evidence);
    }
  }

  /** Some event says this. */
  ghost predicate Says(events: seq<Event>, instruction: Instruction) {
    exists event :: event in events && event.instruction == instruction
  }

  lemma Together(a: seq<Event>, b: seq<Event>, c: seq<Event>, d: seq<Event>, e: seq<Event>, f: seq<Event>)
    ensures forall event :: event in a + b + c + d + e + f <==>
              event in a || event in b || event in c || event in d || event in e || event in f
    ensures c != [] ==> c[0] in a + b + c + d + e + f
    ensures d != [] ==> d[0] in a + b + c + d + e + f
    ensures e != [] ==> e[0] in a + b + c + d + e + f
    ensures f != [] ==> f[0] in a + b + c + d + e + f
  {
  }

  // ---------- Kinds of messages ----------

  /** The kind of a message: the first that applies, in this order. */
  lemma {:induction false} ClassifiesAs(source: string, hasHeader: bool, p: Patterns)
    ensures var c := Classify(source, hasHeader, p);
            var quiet := p.noTrading(source) || p.riskAdvisory(source) || p.promotion(source) || p.educational(source);
            var result := p.tpOnly(source) || p.slOnly(source) || p.breakEven(source);
            && (c == NoTradingDay <==> p.noTrading(source))
            && (c == RiskAdvisory <==> p.riskAdvisory(source) && !p.noTrading(source))
            && (c == Promotion <==> p.promotion(source) && !p.riskAdvisory(source) && !p.noTrading(source))
            && (c == Educational <==> p.educational(source) && !p.promotion(source) && !p.riskAdvisory(source) && !p.noTrading(source))
            && (c == SessionControl <==> !quiet && p.sessionEnd(source))
            && (c == OrderStatus <==> !quiet && !p.sessionEnd(source) && (result || (!hasHeader && p.trigger(source))))
            && (c == TradeInstruction <==>
                  !quiet && !p.sessionEnd(source) && !result && (hasHeader || (!p.trigger(source) && p.deleteOrder(source))))
  {
  }

  /** Why a message that asks for nothing is reviewed. */
  lemma {:induction false} NothingFoundSays(c: Classification)
    ensures c == OrderStatus ==> NothingFound(c) == "order status lacks resolvable target"
    ensures c == TradeInstruction || c == SessionControl ==> NothingFound(c) == "instruction is malformed or ambiguous"
    ensures c == UnknownMessage ==> NothingFound(c) == "unsupported or uncertain message"
  {
  }

  // ---------- What is asked for ----------

  /** The blocks whose orders count: those of the preferred provider, or the first when none is preferred. */
  ghost predicate Counts(blocks: seq<Block>, preferred: Option<string>, block: Block) {
    block in blocks && if preferred.Some? then block.provider == preferred.value else block == blocks[0]
  }

  lemma {:induction false} SelectedCount(blocks: seq<Block>, preferred: Option<string>, block: Block)
    ensures block in SelectedBlocks(blocks, preferred) <==> Counts(blocks, preferred, block)
  {
    if preferred.Some? {
      SelectedAreBlocks(blocks, preferred.value);
      if blocks == [] {
        assert OfProvider(blocks, preferred.value) == [];
      }
    }
  }

  lemma {:induction false} BlockEventsAre(blocks: seq<Block>, event: Event)
    ensures event in BlockEvents(blocks) <==>
              exists block, order :: block in blocks && order in block.orders && event == Event(PlacePending(order), order.evidence)
  {
    if blocks != [] {
      var init, last := blocks[..|blocks| - 1], blocks[|blocks| - 1];
      BlockEventsAre(init, event);
      if event in OrderEvents(last.orders) {
        var k :| 0 <= k < |last.orders| && OrderEvents(last.orders)[k] == event;
        assert last in blocks && last.orders[k] in last.orders;
      }
      if block, order :| block in blocks && order in block.orders && event == Event(PlacePending(order), order.evidence) {
        if block == last {
          var k :| 0 <= k < |last.orders| && last.orders[k] == order;
          assert OrderEvents(last.orders)[k] == event;
        } else {
          assert block in init;
        }
      }
    }
  }

  /** What is asked for: the placement of every order of the blocks that count, and the status events; each as often, and no more. */
  lemma {:induction false} AskedIs(source: string, lines: seq<LineSpan>, blocks: seq<Block>, preferred: Option<string>, p: Patterns, event: Event)
    requires p.InLine()
    ensures event in Asked(source, lines, blocks, preferred, p) <==>
              || event in StatusEvents(source, lines, p)
              || exists block, order :: Counts(blocks, preferred, block) && order in block.orders && event == Event(PlacePending(order), order.evidence)
    ensures |Asked(source, lines, blocks, preferred, p)| == |BlockEvents(SelectedBlocks(blocks, preferred))| + |StatusEvents(source, lines, p)|
  {
    hide StatusEvents, BlockEvents, SelectedBlocks, Counts;
    var selected := SelectedBlocks(blocks, preferred);
    var events := BlockEvents(selected) + StatusEvents(source, lines, p);
    SortedHasTheSame(events, event);
    BlockEventsAre(selected, event);
    forall block ensures block in selected <==> Counts(blocks, preferred, block) {
      SelectedCount(blocks, preferred, block);
    }
  }

  lemma {:induction false} SortedHasTheSame(events: seq<Event>, event: Event)
    ensures event in SortEventsByEvidence(events) <==> event in events
  {
    var order, sorted := SortOrder(events, |events|), SortEventsByEvidence(events);
    SortIsAStablePermutation(events, |events|);
    if event in sorted {
      var i :| 0 <= i < |sorted| && sorted[i] == event;
      assert events[order[i]] == event;
    }
    if k: nat :| k < |events| && events[k] == event {
      assert multiset(order)[k] == 1;
      var i :| 0 <= i < |order| && order[i] == k;
      assert sorted[i] == event;
    }
  }

  /** Two blocks that say the same, but for their provider and their evidence. */
  ghost predicate SayTheSame(a: seq<Order>, b: seq<Order>) {
    && |a| == |b|
    && forall i | 0 <= i < |a| ::
         && a[i].instrument == b[i].instrument && a[i].side == b[i].side && a[i].entry == b[i].entry
         && a[i].stopLoss == b[i].stopLoss && a[i].takeProfits == b[i].takeProfits
  }

  lemma {:induction false} CanonicalIsSaying(a: seq<Order>, b: seq<Order>)
    ensures Canonical(a) == Canonical(b) <==> SayTheSame(a, b)
  {
    var c, d := Canonical(a), Canonical(b);
    if c == d {
      forall i | 0 <= i < |a|
        ensures && a[i].instrument == b[i].instrument && a[i].side == b[i].side && a[i].entry == b[i].entry
                && a[i].stopLoss == b[i].stopLoss && a[i].takeProfits == b[i].takeProfits
      {
        assert c[i] == d[i];
      }
    }
    if SayTheSame(a, b) {
      assert forall i | 0 <= i < |c| :: c[i] == d[i];
      assert c == d;
    }
  }

  /** Blocks are compatible exactly when any two of them say the same. */
  lemma {:induction false} CompatibleBlocksAgree(blocks: seq<Block>)
    ensures Compatible(blocks) <==> forall a, b | a in blocks && b in blocks :: SayTheSame(a.orders, b.orders)
  {
    hide Canonical, SayTheSame;
    var said := set block | block in blocks :: Canonical(block.orders);
    forall a, b ensures Canonical(a) == Canonical(b) <==> SayTheSame(a, b) {
      CanonicalIsSaying(a, b);
    }
    if |said| <= 1 {
      forall a, b | a in blocks && b in blocks ensures SayTheSame(a.orders, b.orders) {
        assert Canonical(a.orders) in said && Canonical(b.orders) in said;
        assert |said - {Canonical(a.orders)}| == 0;
      }
    } else if forall a, b | a in blocks && b in blocks :: SayTheSame(a.orders, b.orders) {
      var x :| x in said;
      assert said == {x};
    }
  }

  // ---------- The order of events ----------

  /** The text of the event's evidence starts here. */
  ghost predicate StartsAt(event: Event, start: nat) {
    && (exists span :: span in event.evidence && span.start == start)
    && (forall span | span in event.evidence :: start <= span.start)
  }

  /** The events in the order of their evidence: each once, the one whose evidence starts first before the others, and of two that start
      at one place the one found first. */
  lemma {:induction false} EventsComeByEvidence(events: seq<Event>) returns (order: seq<nat>)
    requires forall event | event in events :: event.evidence != []
    ensures |order| == |events| && forall i | 0 <= i < |order| :: order[i] < |events|
    ensures forall i, j | 0 <= i < j < |order| :: order[i] != order[j]
    ensures |SortEventsByEvidence(events)| == |events| && forall i | 0 <= i < |order| :: SortEventsByEvidence(events)[i] == events[order[i]]
    ensures forall i, j, a, b | 0 <= i < j < |order| && StartsAt(events[order[i]], a) && StartsAt(events[order[j]], b) ::
              a < b || (a == b && order[i] < order[j])
  {
    order := SortOrder(events, |events|);
    SortIsAStablePermutation(events, |events|);
    forall i, j | 0 <= i < j < |order|
      ensures order[i] != order[j]
      ensures forall a, b | StartsAt(events[order[i]], a) && StartsAt(events[order[j]], b) :: a < b || (a == b && order[i] < order[j])
    {
      assert Before(events, order[i], order[j]);
      EarliestIsStart(events[order[i]]);
      EarliestIsStart(events[order[j]]);
    }
  }

  lemma EarliestIsStart(event: Event)
    requires event.evidence != []
    ensures forall a | StartsAt(event, a) :: a == SortKey(event)
  {
  }

  // ---------- Reviews and contexts ----------

  /** A message needs the context of its session when it places an order without an instrument, or records a result. */
  lemma {:induction false} ContextIsNeeded(event: Event)
    ensures RequiresContext(event) <==>
              match event.instruction
              case PlacePending(order) => order.instrument == None
              case TradeResult(_) => true
              case _ => false
  {
  }

  ghost predicate ProviderIsMissing(blocks: seq<Block>, preferred: Option<string>) {
    blocks != [] && preferred.Some? && forall block | block in blocks :: block.provider != preferred.value
  }

  ghost predicate BlocksDiffer(blocks: seq<Block>, preferred: Option<string>) {
    preferred.None? && exists a, b :: a in blocks && b in blocks && !SayTheSame(a.orders, b.orders)
  }

  ghost predicate DeleteIsAmbiguous(source: string, lines: seq<LineSpan>, p: Patterns)
    requires p.InLine()
  {
    p.mentionsDelete(source) && forall span, side :: !Matches(lines, p.deletes, span, side)
  }

  /** Why a message is reviewed: the first of these that holds, in this order. */
  lemma {:induction false} ReasonsAre(
      source: string, lines: seq<LineSpan>, c: Classification, blocks: seq<Block>, preferred: Option<string>, p: Patterns)
    requires p.InLine()
    ensures ReviewReason(source, lines, c, blocks, preferred, p) ==
              if ProviderIsMissing(blocks, preferred) then Some("configured provider is missing from message")
              else if BlocksDiffer(blocks, preferred) then Some("provider blocks disagree")
              else if DeleteIsAmbiguous(source, lines, p) then Some("delete instruction is ambiguous")
              else if forall event :: event !in Asked(source, lines, blocks, preferred, p) then Some(NothingFound(c))
              else None
  {
    hide Asked, AllFound, Matches, FindsInLine, Compatible, SayTheSame, NothingFound;
    CompatibleBlocksAgree(blocks);
    var asked := Asked(source, lines, blocks, preferred, p);
    assert asked != [] ==> asked[0] in asked;
    SpansAreMatched(lines, p.deletes);
    assert AllFound(lines, p.deletes) == [] <==> SpansOf(AllFound(lines, p.deletes)) == [];
  }

  // ---------- Evidence ----------

  lemma {:induction false} BlockEvidenceIs(blocks: seq<Block>, span: Span)
    ensures span in BlockEvidence(blocks) <==> exists block :: block in blocks && span in block.evidence
  {
    if blocks != [] {
      BlockEvidenceIs(blocks[..|blocks| - 1], span);
      assert forall block :: block in blocks <==> block in blocks[..|blocks| - 1] || block == blocks[|blocks| - 1];
    }
  }

  lemma {:induction false} EvidenceOfIs(events: seq<Event>, span: Span)
    ensures span in EvidenceOf(events) <==> exists event :: event in events && span in event.evidence
  {
    if events != [] {
      EvidenceOfIs(events[..|events| - 1], span);
      assert forall event :: event in events <==> event in events[..|events| - 1] || event == events[|events| - 1];
    }
  }

  lemma {:induction false} MentionsAre(lines: seq<LineSpan>, p: Patterns, span: Span)
    ensures span in Mentions(lines, p) <==>
              exists line :: line in lines && p.mentionsDelete(line.text) && span == Span(line.start, line.end, line.text)
  {
    if lines != [] {
      MentionsAre(lines[..|lines| - 1], p, span);
      assert forall line :: line in lines <==> line in lines[..|lines| - 1] || line == lines[|lines| - 1];
    }
  }

  /** The evidence of a result: of all blocks when these cannot be used; of an ambiguous delete, the blocks that count, or else the lines
      that mention it; and otherwise of the blocks that count and of the status events. */
  lemma {:induction false} EvidenceIs(
      source: string, lines: seq<LineSpan>, c: Classification, blocks: seq<Block>, preferred: Option<string>, p: Patterns, span: Span)
    requires p.InLine()
    ensures var reason := ReviewReason(source, lines, c, blocks, preferred, p);
            var shown := EvidenceShown(source, lines, blocks, preferred, p, reason);
            var counted := exists block :: Counts(blocks, preferred, block) && span in block.evidence;
            if ProviderIsMissing(blocks, preferred) || BlocksDiffer(blocks, preferred) then
              span in shown <==> exists block :: block in blocks && span in block.evidence
            else if DeleteIsAmbiguous(source, lines, p) && (forall block | Counts(blocks, preferred, block) :: block.evidence == []) then
              span in shown <==> exists line :: line in lines && p.mentionsDelete(line.text) && span == Span(line.start, line.end, line.text)
            else if DeleteIsAmbiguous(source, lines, p) then span in shown <==> counted
            else span in shown <==> counted || exists event :: event in StatusEvents(source, lines, p) && span in event.evidence
  {
    hide StatusEvents, BlockEvidence, SelectedBlocks, Counts, EvidenceOf, Mentions, Asked, AllFound, Matches, FindsInLine, Compatible, SayTheSame, NothingFound;
    ReasonsAre(source, lines, c, blocks, preferred, p);
    var selected := SelectedBlocks(blocks, preferred);
    forall block ensures block in selected <==> Counts(blocks, preferred, block) {
      SelectedCount(blocks, preferred, block);
    }
    BlockEvidenceIs(blocks, span);
    BlockEvidenceIs(selected, span);
    EvidenceOfIs(StatusEvents(source, lines, p), span);
    MentionsAre(lines, p, span);
    forall other ensures other in BlockEvidence(selected) <==> exists block :: block in selected && other in block.evidence {
      BlockEvidenceIs(selected, other);
    }
    BlockReasonIs(blocks, preferred);
    NothingFoundIsNoDelete(c);
    assert BlockEvidence(selected) != [] ==> BlockEvidence(selected)[0] in BlockEvidence(selected);
    if block :| Counts(blocks, preferred, block) && block.evidence != [] {
      assert block.evidence[0] in BlockEvidence(selected);
    }
  }

  lemma NothingFoundIsNoDelete(c: Classification)
    ensures NothingFound(c) != AMBIGUOUS_DELETE
  {
    assert |AMBIGUOUS_DELETE| == 31 && |NothingFound(c)| != 31;
  }

  lemma {:induction false} BlockReasonIs(blocks: seq<Block>, preferred: Option<string>)
    ensures BlockReason(blocks, preferred).Some? <==> ProviderIsMissing(blocks, preferred) || BlocksDiffer(blocks, preferred)
    ensures BlockReason(blocks, preferred).Some? ==> BlockReason(blocks, preferred).value in {PROVIDER_MISSING, BLOCKS_DISAGREE}
  {
    hide Compatible, SayTheSame;
    CompatibleBlocksAgree(blocks);
  }
}
