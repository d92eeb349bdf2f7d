/** Merging two copies of an append-only JSONL file: text, lines, and what replay makes of the result. */
module ControlMerge {
  import opened Wrappers
  import opened DispatcherStore
  import opened DispatcherLog
  import opened TextLines

  // ---------- Lines that count ----------

  /** The other characters that `str.strip` removes. */
  const SPACES: set<char> := {
    ' ', '\t', '\U{1F}', '\U{A0}', '\U{1680}', '\U{2000}', '\U{2001}', '\U{2002}', '\U{2003}', '\U{2004}', '\U{2005}',
    '\U{2006}', '\U{2007}', '\U{2008}', '\U{2009}', '\U{200A}', '\U{202F}', '\U{205F}', '\U{3000}'
  }

  predicate IsBlank(line: string) {
    forall c | c in line :: c in LINE_BREAKS || c in SPACES
  }

  function NonBlank(lines: seq<string>): (r: seq<string>)
    ensures forall line | line in r :: line in lines && !IsBlank(line)
  {
    if lines == [] then []
    else if IsBlank(lines[0]) then NonBlank(lines[1..])
    else [lines[0]] + NonBlank(lines[1..])
  }

  /** The lines that count: those of the text that are not blank. */
  function Lines(text: string): seq<string> {
    NonBlank(SplitLines(text))
  }

  lemma {:induction false} NonBlankKeeps(lines: seq<string>)
    requires forall line | line in lines :: !IsBlank(line)
    ensures NonBlank(lines) == lines
  {
    if lines != [] {
      NonBlankKeeps(lines[1..]);
    }
  }

  // ---------- The merge of lines ----------

  /** The elements of `a` that are not in `b`, in their order. */
  function Minus<T(==, !new)>(a: seq<T>, b: seq<T>): (r: seq<T>)
    ensures forall x :: x in r <==> x in a && x !in b
  {
    if a == [] then []
    else if a[0] in b then Minus(a[1..], b)
    else [a[0]] + Minus(a[1..], b)
  }

  /** The remote lines, then the local lines that are not among them. */
  function Merge<T(==, !new)>(remote: seq<T>, local: seq<T>): (r: seq<T>)
    ensures forall x :: x in r <==> x in remote || x in local
  {
    remote + Minus(local, remote)
  }

  lemma {:induction false} MinusConcat<T(!new)>(a: seq<T>, b: seq<T>, c: seq<T>)
    ensures Minus(a + b, c) == Minus(a, c) + Minus(b, c)
  {
    if a == [] {
      assert a + b == b;
    } else {
      assert (a + b)[1..] == a[1..] + b;
      MinusConcat(a[1..], b, c);
      assert Minus(a, c) + Minus(b, c) == (if a[0] in c then [] else [a[0]]) + (Minus(a[1..], c) + Minus(b, c));
    }
  }

  lemma {:induction false} MinusTwice<T(!new)>(a: seq<T>, b: seq<T>, c: seq<T>, d: seq<T>)
    requires forall x :: x in d <==> x in b || x in c
    ensures Minus(Minus(a, b), c) == Minus(a, d)
  {
    if a != [] {
      MinusTwice(a[1..], b, c, d);
      if a[0] !in b {
        assert Minus(a, b)[1..] == Minus(a[1..], b);
      }
    }
  }

  lemma {:induction false} MinusAll<T(!new)>(a: seq<T>, b: seq<T>)
    requires forall x | x in a :: x in b
    ensures Minus(a, b) == []
  {
    if a != [] {
      MinusAll(a[1..], b);
    }
  }

  lemma {:induction false} MinusNone<T(!new)>(a: seq<T>)
    ensures Minus(a, []) == a
  {
    if a != [] {
      MinusNone(a[1..]);
    }
  }

  lemma MergeAssociates<T(!new)>(a: seq<T>, b: seq<T>, c: seq<T>)
    ensures Merge(Merge(a, b), c) == Merge(a, Merge(b, c))
  {
    MinusConcat(b, Minus(c, b), a);
    MinusTwice(c, b, a, Merge(a, b));
    assert a + (Minus(b, a) + Minus(c, Merge(a, b))) == (a + Minus(b, a)) + Minus(c, Merge(a, b));
  }

  /**
    Merging is associative, the empty log is its identity, merging a log again changes nothing, and the remote log stays
    in front: a left regular band.
   */
  lemma MergeIsABand<T(!new)>(a: seq<T>, b: seq<T>, c: seq<T>)
    ensures Merge(Merge(a, b), c) == Merge(a, Merge(b, c))
    ensures Merge(a, []) == a && Merge([], a) == a
    ensures Merge(a, a) == a
    ensures Merge(Merge(a, b), a) == Merge(a, b)
    ensures a <= Merge(a, b)
  {
    MergeAssociates(a, b, c);
    MinusAll(a, a);
    MinusAll(a, Merge(a, b));
    MinusNone(a);
  }

  /** `_merge_jsonl`. */
  method MergeJsonl(remote: string, local: string) returns (merged: string)
    ensures merged == Unlines(Merge(Lines(remote), Lines(local)))
    ensures Lines(merged) == Merge(Lines(remote), Lines(local))
  {
    var remoteLines := Lines(remote);
    var mergedLines := remoteLines;
    var localLines := SplitLines(local);
    for i := 0 to |localLines|
      invariant mergedLines == Merge(remoteLines, NonBlank(localLines[..i]))
    {
      var line := localLines[i];
      MergeGrows(remoteLines, localLines[..i], line);
      assert localLines[..i + 1] == localLines[..i] + [line];
      if !IsBlank(line) && line !in remoteLines {
        mergedLines := mergedLines + [line];
      }
    }
    assert localLines[..|localLines|] == localLines;
    merged := Unlines(mergedLines);
    MergedLinesReadBack(remote, local);
  }

  lemma {:induction false} MinusGrows(lines: seq<string>, line: string, remote: seq<string>)
    ensures Minus(lines + [line], remote) == Minus(lines, remote) + if line in remote then [] else [line]
  {
    MinusConcat(lines, [line], remote);
    assert [line][1..] == [];
  }

  lemma MergeGrows(remote: seq<string>, lines: seq<string>, line: string)
    ensures Merge(remote, NonBlank(lines + [line]))
            == Merge(remote, NonBlank(lines)) + if IsBlank(line) || line in remote then [] else [line]
  {
    hide IsBlank, Minus, NonBlank;
    NonBlankGrows(lines, line);
    MinusGrows(NonBlank(lines), line, remote);
    if IsBlank(line) {
      assert NonBlank(lines) + [] == NonBlank(lines);
    }
  }

  lemma {:induction false} NonBlankGrows(lines: seq<string>, line: string)
    ensures NonBlank(lines + [line]) == NonBlank(lines) + if IsBlank(line) then [] else [line]
  {
    if lines == [] {
      assert lines + [line] == [line];
    } else {
      assert (lines + [line])[1..] == lines[1..] + [line];
      NonBlankGrows(lines[1..], line);
    }
  }

  lemma MergedLinesReadBack(remote: string, local: string)
    ensures Lines(Unlines(Merge(Lines(remote), Lines(local)))) == Merge(Lines(remote), Lines(local))
  {
    var merged := Merge(Lines(remote), Lines(local));
    SplitLinesAreUnbroken(remote);
    SplitLinesAreUnbroken(local);
    LinesRoundTrip(merged);
    NonBlankKeeps(merged);
  }

  // ---------- What replay makes of a merged log ----------

  /** The records of a log's lines; `decode` stands for the JSON decoder. */
  function Records(lines: seq<string>, decode: string -> Record): (r: seq<Record>)
    ensures |r| == |lines| && forall i | 0 <= i < |lines| :: r[i] == decode(lines[i])
  {
    seq(|lines|, i requires 0 <= i < |lines| => decode(lines[i]))
  }

  lemma {:induction false} ReplayedDeliveries(log: seq<Record>, deliveryId: string)
    ensures deliveryId in Replay(log).deliveries <==> exists r :: r in log && r.DeliverySeen? && r.deliveryId == deliveryId
  {
    if log != [] {
      ReplayedDeliveries(log[..|log| - 1], deliveryId);
      assert forall r :: r in log <==> r in log[..|log| - 1] || r == log[|log| - 1];
    }
  }

  lemma {:induction false} ReplayedIds(log: seq<Record>, id: nat)
    ensures id in Replay(log).intents <==> exists r :: r in log && r.Concerns(id)
  {
    if log != [] {
      var init, last := log[..|log| - 1], log[|log| - 1];
      ReplayedIds(init, id);
      assert last in log;
      if r :| r in init && r.Concerns(id) {
        assert r in log;
      }
    }
  }

  lemma RecordsOfMerge(remote: seq<string>, local: seq<string>, decode: string -> Record)
    ensures forall r :: r in Records(Merge(remote, local), decode) <==> r in Records(remote, decode) || r in Records(local, decode)
  {
    var merged := Merge(remote, local);
    forall r
      ensures r in Records(merged, decode) <==> r in Records(remote, decode) || r in Records(local, decode)
    {
      RecordHasLine(merged, decode, r);
      RecordHasLine(remote, decode, r);
      RecordHasLine(local, decode, r);
    }
  }

  lemma RecordHasLine(lines: seq<string>, decode: string -> Record, r: Record)
    ensures r in Records(lines, decode) <==> exists line :: line in lines && decode(line) == r
  {
    var records := Records(lines, decode);
    if r in records {
      var i :| 0 <= i < |records| && records[i] == r;
      assert lines[i] in lines;
    }
    if line :| line in lines && decode(line) == r {
      var i :| 0 <= i < |lines| && lines[i] == line;
      assert Records(lines, decode)[i] == r;
    }
  }

  /** Merging two logs unites what they remember: the deliveries seen and the intents that exist. */
  lemma MergeUnites(remote: seq<string>, local: seq<string>, decode: string -> Record)
    ensures var merged, a, b := Replay(Records(Merge(remote, local), decode)), Replay(Records(remote, decode)), Replay(Records(local, decode));
            merged.deliveries == a.deliveries + b.deliveries && merged.intents.Keys == a.intents.Keys + b.intents.Keys
  {
    var merged, a, b := Records(Merge(remote, local), decode), Records(remote, decode), Records(local, decode);
    RecordsOfMerge(remote, local, decode);
    forall deliveryId
      ensures deliveryId in Replay(merged).deliveries <==> deliveryId in Replay(a).deliveries || deliveryId in Replay(b).deliveries
    {
      ReplayedDeliveries(merged, deliveryId);
      ReplayedDeliveries(a, deliveryId);
      ReplayedDeliveries(b, deliveryId);
    }
    forall id: nat
      ensures id in Replay(merged).intents <==> id in Replay(a).intents || id in Replay(b).intents
    {
      ReplayedIds(merged, id);
      ReplayedIds(a, id);
      ReplayedIds(b, id);
    }
  }

  // ---------- Dedupe keys ----------

  ghost predicate OneIntentPerKey(s: State) {
    forall a, b | a in s.intents && b in s.intents && a != b :: s.intents[a].dedupeKey != s.intents[b].dedupeKey
  }

  /** What holds of logs that grew apart from a common one: an intent in both has the key it was claimed with. */
  ghost predicate SameClaims(a: State, b: State) {
    forall id | id in a.intents && id in b.intents :: a.intents[id].dedupeKey == b.intents[id].dedupeKey
  }

  /** No two claims of one request under different ids. */
  ghost predicate NoRivalClaims(a: State, b: State) {
    forall i, j | i in a.intents && j in b.intents && a.intents[i].dedupeKey == b.intents[j].dedupeKey :: i == j
  }

  /** Every record of an intent carries the dedupe key the log ends with. */
  lemma {:induction false} RecordsCarryKey(log: seq<Record>, r: Record)
    requires GoodLog(log) && r in log && r.IntentRecord?
    ensures r.intent.id in Replay(log).intents && Replay(log).intents[r.intent.id].dedupeKey == r.intent.dedupeKey
  {
    var i :| 0 <= i < |log| && log[i] == r;
    RecordWasLegal(log, i);
    PrefixIsGood(log, i + 1);
    IntentsOnlyMoveForward(log, i + 1, r.intent.id);
  }

  lemma {:induction false} FinalRecord(log: seq<Record>, id: nat)
    requires id in Replay(log).intents
    ensures exists r :: r in log && r.Concerns(id) && r.intent == Replay(log).intents[id]
  {
    var last := log[|log| - 1];
    if last.Concerns(id) {
      assert last in log;
    } else {
      FinalRecord(log[..|log| - 1], id);
      var r :| r in log[..|log| - 1] && r.Concerns(id) && r.intent == Replay(log[..|log| - 1]).intents[id];
      assert r in log;
    }
  }

  lemma MergedKey(remote: seq<string>, local: seq<string>, decode: string -> Record, id: nat)
    requires GoodLog(Records(remote, decode)) && GoodLog(Records(local, decode))
    requires SameClaims(Replay(Records(remote, decode)), Replay(Records(local, decode)))
    requires id in Replay(Records(Merge(remote, local), decode)).intents
    ensures var merged, a, b := Replay(Records(Merge(remote, local), decode)), Replay(Records(remote, decode)), Replay(Records(local, decode));
            && (id in a.intents ==> merged.intents[id].dedupeKey == a.intents[id].dedupeKey)
            && (id in b.intents ==> merged.intents[id].dedupeKey == b.intents[id].dedupeKey)
  {
    var log := Records(Merge(remote, local), decode);
    FinalRecord(log, id);
    var r :| r in log && r.Concerns(id) && r.intent == Replay(log).intents[id];
    RecordsOfMerge(remote, local, decode);
    if r in Records(remote, decode) {
      RecordsCarryKey(Records(remote, decode), r);
    } else {
      RecordsCarryKey(Records(local, decode), r);
    }
  }

  /** The merged log has one intent per request exactly when the two sides did not claim one request apart. */
  lemma MergeKeepsKeysApartExactly(remote: seq<string>, local: seq<string>, decode: string -> Record)
    requires GoodLog(Records(remote, decode)) && GoodLog(Records(local, decode))
    requires SameClaims(Replay(Records(remote, decode)), Replay(Records(local, decode)))
    ensures OneIntentPerKey(Replay(Records(Merge(remote, local), decode)))
            <==> NoRivalClaims(Replay(Records(remote, decode)), Replay(Records(local, decode)))
  {
    var merged, a, b := Replay(Records(Merge(remote, local), decode)), Replay(Records(remote, decode)), Replay(Records(local, decode));
    MergeUnites(remote, local, decode);
    ReplayIsConsistent(Records(remote, decode));
    ReplayIsConsistent(Records(local, decode));
    forall id | id in merged.intents
      ensures id in a.intents ==> merged.intents[id].dedupeKey == a.intents[id].dedupeKey
      ensures id in b.intents ==> merged.intents[id].dedupeKey == b.intents[id].dedupeKey
    {
      MergedKey(remote, local, decode, id);
    }
    KeysApart(merged, a, b);
  }

  lemma KeysApart(merged: State, a: State, b: State)
    requires merged.intents.Keys == a.intents.Keys + b.intents.Keys
    requires forall id | id in a.intents :: merged.intents[id].dedupeKey == a.intents[id].dedupeKey
    requires forall id | id in b.intents :: merged.intents[id].dedupeKey == b.intents[id].dedupeKey
    requires OneIntentPerKey(a) && OneIntentPerKey(b)
    ensures OneIntentPerKey(merged) <==> NoRivalClaims(a, b)
  {
  }

  /** Two copies of an empty log, each claiming the same request: their merge holds both claims. */
  lemma RivalClaimsSurviveTheMerge(decode: string -> Record, key: DedupeKey)
    requires decode("1") == IntentRecord(StatusKind(Claimed), 0, NewIntent(1, 1, key, DispatchTask, None, None, None))
    requires decode("2") == IntentRecord(StatusKind(Claimed), 0, NewIntent(2, 2, key, DispatchTask, None, None, None))
    ensures GoodLog(Records(["1"], decode)) && GoodLog(Records(["2"], decode))
    ensures !OneIntentPerKey(Replay(Records(Merge(["1"], ["2"]), decode)))
  {
    var a, b := Records(["1"], decode), Records(["2"], decode);
    assert a[..|a| - 1] == [] && b[..|b| - 1] == [];
    assert Replay(a[..|a| - 1]) == State({}, map[]) && Replay(b[..|b| - 1]) == State({}, map[]);
    assert Legal(State({}, map[]), a[0]) && Legal(State({}, map[]), b[0]);
    assert Merge(["1"], ["2"]) == ["1", "2"];
    var log := Records(["1", "2"], decode);
    assert log[..1] == a;
    assert 1 in Replay(log).intents && 2 in Replay(log).intents;
  }
}
