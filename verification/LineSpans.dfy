/** Pieces of a text by their offsets, and the text as lines that know where they are. */
module LineSpans {
  import opened TextLines

  /** A piece of the source text, by its offsets and by itself. */
  datatype Span = Span(start: nat, end: nat, text: string)
  {
    predicate Slices(source: string) {
      start <= end <= |source| && source[start..end] == text
    }
  }

  predicate AllSlice(spans: seq<Span>, source: string) {
    forall span | span in spans :: span.Slices(source)
  }

  datatype LineSpan = LineSpan(start: nat, end: nat, text: string)
  {
    function Whole(): Span {
      Span(start, end, text)
    }
  }

  // ---------- Pieces and lines ----------

  /** `line.rstrip("\r\n")`. */
  function Stripped(line: string): (r: string)
    ensures |r| <= |line| && line[..|r|] == r
  {
    if line != "" && line[|line| - 1] in {'\r', '\n'} then Stripped(line[..|line| - 1]) else line
  }

  /** The lines slice the text, one after the other. */
  ghost predicate LinesOf(lines: seq<LineSpan>, text: string) {
    && (forall i | 0 <= i < |lines| :: lines[i].Whole().Slices(text))
    && (forall i, j | 0 <= i < j < |lines| :: lines[i].start < lines[j].start && lines[i].end <= lines[j].start)
  }

  function Joined<T>(parts: seq<seq<T>>): seq<T> {
    if parts == [] then [] else Joined(parts[..|parts| - 1]) + parts[|parts| - 1]
  }

  /** How long the first line of the text is, with what ends it. */
  function PieceLength(text: string): (length: nat)
    requires text != ""
    ensures 0 < length <= |text|
  {
    var n := LineEnd(text);
    if n == |text| then n else n + BreakLength(text, n)
  }

  /** `text.splitlines(keepends=True)`. */
  function Pieces(text: string): seq<string>
    decreases |text|
  {
    if text == "" then [] else [text[..PieceLength(text)]] + Pieces(text[PieceLength(text)..])
  }

  /** The line that a piece of the text at this offset comes to. */
  function LineOf(start: nat, piece: string): LineSpan {
    LineSpan(start, start + |Stripped(piece)|, Stripped(piece))
  }

  /** The lines are the pieces without the carriage returns and newlines at their ends, each where it is in the text. */
  ghost predicate AreLines(lines: seq<LineSpan>, pieces: seq<string>) {
    |lines| == |pieces| && forall i | 0 <= i < |pieces| :: lines[i] == LineOf(|Joined(pieces[..i])|, pieces[i])
  }

  /** The first `n` pieces are the beginning of the text, and the others are the pieces of the rest. */
  lemma {:induction false} PiecesSplit(text: string, n: nat)
    requires n <= |Pieces(text)|
    ensures var k := |Joined(Pieces(text)[..n])|;
            k <= |text| && Joined(Pieces(text)[..n]) == text[..k] && Pieces(text)[n..] == Pieces(text[k..])
  {
    hide PieceLength;
    var pieces := Pieces(text);
    if n == 0 {
      assert pieces[..0] == [] && text[0..] == text;
    } else {
      PiecesSplit(text, n - 1);
      var before := |Joined(pieces[..n - 1])|;
      var rest := text[before..];
      assert pieces[n - 1..][1..] == pieces[n..] && pieces[n - 1..][0] == pieces[n - 1];
      JoinedNext(pieces, n - 1);
      FirstPiece(rest);
      assert text[before..][PieceLength(rest)..] == text[before + PieceLength(rest)..];
      assert text[..before] + rest[..PieceLength(rest)] == text[..before + PieceLength(rest)];
    }
  }

  lemma FirstPiece(text: string)
    requires Pieces(text) != []
    ensures text != "" && Pieces(text)[0] == text[..PieceLength(text)] && Pieces(text)[1..] == Pieces(text[PieceLength(text)..])
  {
  }

  lemma JoinedNext<T>(parts: seq<seq<T>>, n: nat)
    requires n < |parts|
    ensures Joined(parts[..n + 1]) == Joined(parts[..n]) + parts[n]
  {
    assert parts[..n + 1][..n] == parts[..n];
  }

  lemma {:induction false} NextPiece(text: string, n: nat)
    requires n < |Pieces(text)|
    ensures var k := |Joined(Pieces(text)[..n])|;
            && k < |text|
            && Pieces(text)[n] == text[k..k + PieceLength(text[k..])]
            && Joined(Pieces(text)[..n + 1]) == Joined(Pieces(text)[..n]) + Pieces(text)[n]
  {
    hide PieceLength, Joined;
    var k := |Joined(Pieces(text)[..n])|;
    PiecesSplit(text, n);
    JoinedNext(Pieces(text), n);
    FirstPiece(text[k..]);
    assert Pieces(text)[n..][0] == Pieces(text)[n];
    assert text[k..][..PieceLength(text[k..])] == text[k..k + PieceLength(text[k..])];
  }

  /** The pieces are the whole text. */
  lemma {:induction false} PiecesAreTheText(text: string)
    ensures Joined(Pieces(text)) == text
  {
    var n := |Pieces(text)|;
    PiecesSplit(text, n);
    assert Pieces(text)[..n] == Pieces(text) && Pieces(text)[n..] == [];
  }

  lemma {:induction false} OnlyBreaksAreStripped(piece: string)
    ensures forall i | |Stripped(piece)| <= i < |piece| :: piece[i] in {'\r', '\n'}
  {
    if piece != "" && piece[|piece| - 1] in {'\r', '\n'} {
      OnlyBreaksAreStripped(piece[..|piece| - 1]);
    }
  }

  /** The lines cover the text: what lies in none of them is a carriage return or a newline. */
  lemma {:induction false} LinesCoverTheText(lines: seq<LineSpan>, text: string, n: nat, c: nat)
    requires AreLines(lines, Pieces(text)) && n <= |lines| && c < |Joined(Pieces(text)[..n])|
    ensures |Joined(Pieces(text)[..n])| <= |text|
    ensures text[c] in {'\r', '\n'} || exists i :: 0 <= i < n && lines[i].start <= c < lines[i].end
  {
    NextPiece(text, n - 1);
    var before := |Joined(Pieces(text)[..n - 1])|;
    if c < before {
      LinesCoverTheText(lines, text, n - 1, c);
    } else {
      OnlyBreaksAreStripped(Pieces(text)[n - 1]);
      assert text[c] == Pieces(text)[n - 1][c - before];
    }
  }

  lemma StrippedPiece(text: string)
    requires text != ""
    ensures var n, stripped := LineEnd(text), Stripped(text[..PieceLength(text)]);
            && text[..n] <= stripped && |stripped| <= n + 1
            && (|stripped| == n + 1 ==> stripped[n] in LINE_BREAKS - {'\r', '\n'})
  {
    var n, length := LineEnd(text), PieceLength(text);
    if n < |text| {
      StrippedUnbroken(text[..n]);
      if length == n + 2 {
        assert text[..length][..length - 1] == text[..n + 1];
      }
      assert text[..n + 1][..n] == text[..n];
    } else {
      assert text[..n] == text;
      StrippedUnbroken(text);
    }
  }

  lemma StrippedUnbroken(line: string)
    requires Unbroken(line)
    ensures Stripped(line) == line
  {
    assert line != "" ==> line[|line| - 1] in line;
  }

  /** Line by line these are the lines of `str.splitlines`, except that a line ended by a rarer break keeps it. */
  lemma {:induction false} LinesAreSplitLines(text: string)
    ensures |Pieces(text)| == |SplitLines(text)|
    ensures forall i | 0 <= i < |Pieces(text)| ::
              var line, stripped := SplitLines(text)[i], Stripped(Pieces(text)[i]);
              stripped == line || (|stripped| == |line| + 1 && line <= stripped && stripped[|line|] in LINE_BREAKS - {'\r', '\n'})
    decreases |text|
  {
    if text != "" {
      StrippedPiece(text);
      var rest := text[PieceLength(text)..];
      LinesAreSplitLines(rest);
      assert Pieces(text)[1..] == Pieces(rest);
      if LineEnd(text) == |text| {
        assert rest == "" && text[..|text|] == text;
      } else {
        assert SplitLines(text)[1..] == SplitLines(rest);
      }
      forall i | 0 < i < |Pieces(text)|
        ensures Pieces(text)[i] == Pieces(rest)[i - 1] && (LineEnd(text) < |text| ==> SplitLines(text)[i] == SplitLines(rest)[i - 1])
      {
      }
    }
  }

  /** `_split_lines_with_spans`. */
  method SplitLinesWithSpans(text: string) returns (lines: seq<LineSpan>)
    ensures LinesOf(lines, text)
    ensures AreLines(lines, Pieces(text))
    ensures lines == [] <==> text == ""
    ensures forall c | 0 <= c < |text| :: text[c] in {'\r', '\n'} || exists i :: 0 <= i < |lines| && lines[i].start <= c < lines[i].end
  {
    hide AreLines, Pieces, LineEnd, Stripped, Joined;
    lines := [];
    var start := 0;
    FirstLine(text);
    while start < |text|
      invariant 0 <= start <= |text|
      invariant LinesOf(lines, text)
      invariant forall i | 0 <= i < |lines| :: lines[i].start < start && lines[i].end <= start
      invariant |lines| <= |Pieces(text)| && AreLines(lines, Pieces(text)[..|lines|]) && start == |Joined(Pieces(text)[..|lines|])|
    {
      var n := LineEnd(text[start..]);
      var length := if n == |text| - start then n else n + BreakLength(text[start..], n);
      var stripped := Stripped(text[start..start + length]);
      NextLine(text, lines, start);
      lines := lines + [LineSpan(start, start + |stripped|, stripped)];
      start := start + length;
    }
    LinesAreAll(text, lines);
  }

  lemma FirstLine(text: string)
    ensures AreLines([], Pieces(text)[..0]) && |Joined(Pieces(text)[..0])| == 0
    ensures Pieces(text) == [] <==> text == ""
  {
  }

  lemma {:induction false} NextLine(text: string, lines: seq<LineSpan>, start: nat)
    requires start < |text| && |lines| <= |Pieces(text)| && AreLines(lines, Pieces(text)[..|lines|]) && start == |Joined(Pieces(text)[..|lines|])|
    ensures var piece := text[start..start + PieceLength(text[start..])];
            && |lines| < |Pieces(text)|
            && AreLines(lines + [LineOf(start, piece)], Pieces(text)[..|lines| + 1])
            && |Joined(Pieces(text)[..|lines| + 1])| == start + |piece|
  {
    hide PieceLength, Pieces, LineOf, Joined;
    var pieces, n := Pieces(text), |lines|;
    PiecesAreTheText(text);
    assert pieces[..|pieces|] == pieces;
    NextPiece(text, n);
    OneLineMore(lines, pieces, LineOf(start, pieces[n]));
  }

  lemma OneLineMore(lines: seq<LineSpan>, pieces: seq<string>, line: LineSpan)
    requires |lines| < |pieces| && AreLines(lines, pieces[..|lines|])
    requires line == LineOf(|Joined(pieces[..|lines|])|, pieces[|lines|])
    ensures AreLines(lines + [line], pieces[..|lines| + 1])
  {
    hide LineOf, Joined;
    var n := |lines|;
    forall i | 0 <= i <= n ensures pieces[..n + 1][..i] == pieces[..i] && (i < n ==> pieces[..n][..i] == pieces[..i]) {
    }
  }

  lemma {:induction false} LinesAreAll(text: string, lines: seq<LineSpan>)
    requires |lines| <= |Pieces(text)| && AreLines(lines, Pieces(text)[..|lines|]) && |text| == |Joined(Pieces(text)[..|lines|])|
    ensures AreLines(lines, Pieces(text)) && |lines| == |Pieces(text)|
    ensures forall c | 0 <= c < |text| :: text[c] in {'\r', '\n'} || exists i :: 0 <= i < |lines| && lines[i].start <= c < lines[i].end
  {
    var pieces, n := Pieces(text), |lines|;
    if n < |pieces| {
      NextPiece(text, n);
    }
    assert pieces[..n] == pieces;
    forall c | 0 <= c < |text|
      ensures text[c] in {'\r', '\n'} || exists i :: 0 <= i < |lines| && lines[i].start <= c < lines[i].end
    {
      LinesCoverTheText(lines, text, n, c);
    }
  }
}
