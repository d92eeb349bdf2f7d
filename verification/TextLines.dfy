/** Text as lines: where `str.splitlines` breaks it, and how lines are joined again. */
module TextLines {

  /** The characters at which `str.splitlines` ends a line. */
  const LINE_BREAKS: set<char> := {
    '\n', '\r', '\U{0B}', '\U{0C}', '\U{1C}', '\U{1D}', '\U{1E}', '\U{85}', '\U{2028}', '\U{2029}'
  }

  /** Where the first line of the text ends. */
  function LineEnd(text: string): (n: nat)
    ensures n <= |text|
    ensures forall i | 0 <= i < n :: text[i] !in LINE_BREAKS
    ensures n < |text| ==> text[n] in LINE_BREAKS
  {
    if text == "" || text[0] in LINE_BREAKS then 0 else 1 + LineEnd(text[1..])
  }

  /** A carriage return and the newline after it are one break. */
  function BreakLength(text: string, n: nat): (k: nat)
    requires n < |text|
    ensures 1 <= k <= |text| - n
  {
    if text[n] == '\r' && n + 1 < |text| && text[n + 1] == '\n' then 2 else 1
  }

  /** `str.splitlines`. */
  function SplitLines(text: string): seq<string>
    decreases |text|
  {
    if text == "" then []
    else
      var n := LineEnd(text);
      if n == |text| then [text] else [text[..n]] + SplitLines(text[n + BreakLength(text, n)..])
  }

  predicate Unbroken(line: string) {
    forall c | c in line :: c !in LINE_BREAKS
  }

  /** `"\n".join(lines) + "\n"`, and nothing for no lines. */
  function Unlines(lines: seq<string>): string {
    if lines == [] then "" else lines[0] + "\n" + Unlines(lines[1..])
  }

  lemma {:induction false} SplitLinesAreUnbroken(text: string)
    ensures forall line | line in SplitLines(text) :: Unbroken(line)
    decreases |text|
  {
    if text != "" {
      var n := LineEnd(text);
      if n < |text| {
        SplitLinesAreUnbroken(text[n + BreakLength(text, n)..]);
      }
    }
  }

  lemma LineEndOf(line: string, rest: string)
    requires Unbroken(line)
    ensures LineEnd(line + "\n" + rest) == |line|
  {
    var text := line + "\n" + rest;
    assert text[|line|] == '\n';
    assert forall i | 0 <= i < |line| :: text[i] == line[i] && line[i] in line;
  }

  /** Text written line by line reads back as those lines. */
  lemma {:induction false} LinesRoundTrip(lines: seq<string>)
    requires forall line | line in lines :: Unbroken(line)
    ensures SplitLines(Unlines(lines)) == lines
  {
    if lines != [] {
      var rest := Unlines(lines[1..]);
      var text := Unlines(lines);
      LineEndOf(lines[0], rest);
      LinesRoundTrip(lines[1..]);
      assert text[..|lines[0]|] == lines[0];
      assert text[|lines[0]| + 1..] == rest;
    }
  }
}
