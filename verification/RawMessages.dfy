/** Storing the versions of incoming messages: numbered from one, each linked to the one before, none stored twice. */
module RawMessages {
  import opened Wrappers

  /** `contentHash` covers everything of a message but its edit date; `body` stands for the rest of what is stored. */
  datatype RawMessage = RawMessage(channel: int, message: int, date: int, editDate: Option<int>, body: string, contentHash: string)
  {
    predicate SameMessage(other: RawMessage) {
      channel == other.channel && message == other.message
    }

    /** The deduplication key of a message: its edit date, or none, and its content hash. */
    predicate SameVersion(other: RawMessage) {
      SameMessage(other) && editDate == other.editDate && contentHash == other.contentHash
    }
  }

  /** A row; its id is its place in the table, which is in the order of insertion. */
  datatype Stored = Stored(raw: RawMessage, version: nat, previous: Option<nat>)

  /** The row that holds this version of the message. */
  function Existing(rows: seq<Stored>, raw: RawMessage): (id: Option<nat>)
    ensures id.Some? ==> id.value < |rows| && rows[id.value].raw.SameVersion(raw)
    ensures id.None? ==> forall i | 0 <= i < |rows| :: !rows[i].raw.SameVersion(raw)
  {
    if rows == [] then None
    else
      var last := |rows| - 1;
      var earlier := Existing(rows[..last], raw);
      if earlier.Some? then earlier else if rows[last].raw.SameVersion(raw) then Some(last) else None
  }

  /** The row added last among those of the message. */
  function LastOf(rows: seq<Stored>, raw: RawMessage): (id: Option<nat>)
    ensures id.Some? ==> id.value < |rows| && rows[id.value].raw.SameMessage(raw)
    ensures id.Some? ==> forall i | id.value < i < |rows| :: !rows[i].raw.SameMessage(raw)
    ensures id.None? ==> forall i | 0 <= i < |rows| :: !rows[i].raw.SameMessage(raw)
  {
    if rows == [] then None
    else if rows[|rows| - 1].raw.SameMessage(raw) then Some(|rows| - 1)
    else LastOf(rows[..|rows| - 1], raw)
  }

  function NextRow(rows: seq<Stored>, raw: RawMessage): Stored {
    match LastOf(rows, raw)
    case None => Stored(raw, 1, None)
    case Some(id) => Stored(raw, rows[id].version + 1, Some(id))
  }

  function Ingest(rows: seq<Stored>, raw: RawMessage): seq<Stored> {
    if Existing(rows, raw).Some? then rows else rows + [NextRow(rows, raw)]
  }

  function IngestAll(rows: seq<Stored>, raws: seq<RawMessage>): seq<Stored>
    decreases |raws|
  {
    if raws == [] then rows else IngestAll(Ingest(rows, raws[0]), raws[1..])
  }

  /** Every row was the next of its message when it was added, and no version is stored twice. */
  ghost predicate GoodTable(rows: seq<Stored>) {
    && (forall i | 0 <= i < |rows| :: rows[i] == NextRow(rows[..i], rows[i].raw))
    && (forall i, j | 0 <= i < j < |rows| :: !rows[i].raw.SameVersion(rows[j].raw))
  }

  lemma {:induction false} IngestKeepsGood(rows: seq<Stored>, raw: RawMessage)
    requires GoodTable(rows)
    ensures GoodTable(Ingest(rows, raw))
  {
    var next := Ingest(rows, raw);
    assert forall i | 0 <= i < |rows| :: next[..i] == rows[..i];
    if Existing(rows, raw).None? {
      assert next[..|rows|] == rows;
    }
  }

  lemma {:induction false} IngestAllKeepsGood(rows: seq<Stored>, raws: seq<RawMessage>)
    requires GoodTable(rows)
    ensures GoodTable(IngestAll(rows, raws)) && rows <= IngestAll(rows, raws)
    decreases |raws|
  {
    hide GoodTable;
    if raws != [] {
      IngestKeepsGood(rows, raws[0]);
      IngestAllKeepsGood(Ingest(rows, raws[0]), raws[1..]);
    }
  }

  /** How many versions of the message the table holds. */
  function CountOf(rows: seq<Stored>, raw: RawMessage): nat {
    if rows == [] then 0 else CountOf(rows[..|rows| - 1], raw) + if rows[|rows| - 1].raw.SameMessage(raw) then 1 else 0
  }

  lemma {:induction false} PrefixIsGood(rows: seq<Stored>, n: nat)
    requires GoodTable(rows) && n <= |rows|
    ensures GoodTable(rows[..n])
  {
    assert forall i | 0 <= i < n :: rows[..n][..i] == rows[..i];
  }

  lemma {:induction false} LastHasCount(rows: seq<Stored>, raw: RawMessage)
    requires GoodTable(rows)
    ensures NextRow(rows, raw).version == CountOf(rows, raw) + 1
    decreases |rows|
  {
    hide GoodTable;
    if rows != [] {
      var init := rows[..|rows| - 1];
      PrefixIsGood(rows, |init|);
      LastHasCount(init, raw);
      var last := rows[|rows| - 1];
      if last.raw.SameMessage(raw) {
        SameMessageSameCount(init, last.raw, raw);
        LastHasCount(init, last.raw);
        RowOf(rows, |init|);
      } else if LastOf(init, raw).Some? {
        assert rows[LastOf(init, raw).value] == init[LastOf(init, raw).value];
      }
    }
  }

  lemma {:induction false} SameMessageSameCount(rows: seq<Stored>, a: RawMessage, b: RawMessage)
    requires a.SameMessage(b)
    ensures CountOf(rows, a) == CountOf(rows, b)
  {
    if rows != [] {
      SameMessageSameCount(rows[..|rows| - 1], a, b);
    }
  }

  lemma RowOf(rows: seq<Stored>, i: nat)
    requires GoodTable(rows) && i < |rows|
    ensures rows[i] == NextRow(rows[..i], rows[i].raw)
  {
  }

  /** Of the n versions of a message the i-th stored is version i, and is linked to version i - 1. */
  lemma VersionsAreNumberedAndLinked(rows: seq<Stored>, i: nat)
    requires GoodTable(rows) && i < |rows|
    ensures rows[i].version == CountOf(rows[..i + 1], rows[i].raw)
    ensures rows[i].version == 1 <==> rows[i].previous == None
    ensures rows[i].previous.Some? ==>
              var p := rows[i].previous.value;
              p < i && rows[p].raw.SameMessage(rows[i].raw) && rows[p].version == rows[i].version - 1
  {
    hide GoodTable;
    var before := rows[..i];
    assert rows[..i + 1][..i] == before;
    RowOf(rows, i);
    PrefixIsGood(rows, i);
    LastHasCount(before, rows[i].raw);
    if LastOf(before, rows[i].raw).Some? {
      var p := LastOf(before, rows[i].raw).value;
      assert before[..p] == rows[..p] && before[p] == rows[p];
      RowOf(rows, p);
      PrefixIsGood(rows, p);
      LastHasCount(before[..p], before[p].raw);
    }
  }

  lemma {:induction false} CountGrows(rows: seq<Stored>, n: nat, raw: RawMessage)
    requires n <= |rows|
    ensures CountOf(rows[..n], raw) <= CountOf(rows, raw)
    decreases |rows|
  {
    if n == |rows| {
      assert rows[..n] == rows;
    } else {
      assert rows[..|rows| - 1][..n] == rows[..n];
      CountGrows(rows[..|rows| - 1], n, raw);
    }
  }

  /** A later version has a greater number, so no two versions share one. */
  lemma {:induction false} LaterVersionsAreGreater(rows: seq<Stored>, i: nat, j: nat)
    requires GoodTable(rows) && i < j < |rows| && rows[i].raw.SameMessage(rows[j].raw)
    ensures rows[i].version < rows[j].version
  {
    hide GoodTable;
    VersionsAreNumberedAndLinked(rows, i);
    VersionsAreNumberedAndLinked(rows, j);
    assert rows[..j + 1][..j] == rows[..j] && rows[..j][..i + 1] == rows[..i + 1];
    CountGrows(rows[..j], i + 1, rows[j].raw);
    SameMessageSameCount(rows[..i + 1], rows[i].raw, rows[j].raw);
  }

  // ---------- The repository ----------

  datatype IngestError = VersionTaken

  class RawMessageRepository {
    var rows: seq<Stored>

    ghost predicate Valid()
      reads this
    {
      GoodTable(rows)
    }

    constructor ()
      ensures Valid() && rows == []
    {
      rows := [];
    }

    method FindExisting(raw: RawMessage) returns (id: Option<nat>)
      ensures id == Existing(rows, raw)
    {
      for i := 0 to |rows|
        invariant Existing(rows[..i], raw) == None
      {
        assert rows[..i + 1][..i] == rows[..i];
        if rows[i].raw.SameVersion(raw) {
          ExistingStays(rows, i + 1, raw);
          return Some(i);
        }
      }
      assert rows[..|rows|] == rows;
      id := None;
    }

    method FindLatestVersion(raw: RawMessage) returns (id: Option<nat>)
      requires Valid()
      ensures id == LastOf(rows, raw)
    {
      id := None;
      for i := 0 to |rows|
        invariant id == LastOf(rows[..i], raw)
      {
        assert rows[..i + 1][..i] == rows[..i];
        if rows[i].raw.SameMessage(raw) && (id.None? || rows[i].version > rows[id.value].version) {
          id := Some(i);
        } else if rows[i].raw.SameMessage(raw) {
          LaterVersionsAreGreater(rows, id.value, i);
        }
      }
      assert rows[..|rows|] == rows;
    }

    /** An insert, which a unique constraint may refuse. */
    method Insert(row: Stored) returns (inserted: bool)
      modifies this
      ensures inserted <==> forall i | 0 <= i < |old(rows)| ::
                !(old(rows)[i].raw.SameMessage(row.raw) && old(rows)[i].version == row.version) && !old(rows)[i].raw.SameVersion(row.raw)
      ensures rows == if inserted then old(rows) + [row] else old(rows)
    {
      for i := 0 to |rows|
        invariant forall j | 0 <= j < i :: !(rows[j].raw.SameMessage(row.raw) && rows[j].version == row.version) && !rows[j].raw.SameVersion(row.raw)
      {
        if (rows[i].raw.SameMessage(row.raw) && rows[i].version == row.version) || rows[i].raw.SameVersion(row.raw) {
          return false;
        }
      }
      rows := rows + [row];
      inserted := true;
    }

    /**
      `ingest_message`. Between the look-ups and the commit other callers may have ingested `rivals`. The call answers
      with the row that holds its version, and raises exactly when a rival edit took the number.
     */
    method IngestMessage(raw: RawMessage, rivals: seq<RawMessage>) returns (r: Result<(nat, bool), IngestError>)
      requires Valid()
      modifies this
      ensures Valid()
      ensures Existing(old(rows), raw).Some? ==> rows == old(rows) && r == Ok((Existing(rows, raw).value, false))
      ensures Existing(old(rows), raw).None? ==>
                var others := IngestAll(old(rows), rivals);
                if Existing(others, raw).Some? then rows == others && r == Ok((Existing(others, raw).value, false))
                else if LastOf(others, raw) == LastOf(old(rows), raw) then rows == Ingest(others, raw) && r == Ok((|others|, true))
                else rows == others && r == Err(VersionTaken)
      ensures r.Ok? ==> r.value.0 < |rows| && rows[r.value.0].raw.SameVersion(raw)
    {
      hide GoodTable, IngestAll;
      var existing := FindExisting(raw);
      if existing.Some? {
        return Ok((existing.value, false));
      }
      var latest := FindLatestVersion(raw);
      var row := Stored(raw, if latest.None? then 1 else rows[latest.value].version + 1, latest);
      assert row == NextRow(rows, raw);
      IngestAllKeepsGood(rows, rivals);
      CommitConflicts(rows, IngestAll(rows, rivals), raw);
      rows := IngestAll(rows, rivals);
      IngestKeepsGood(rows, raw);
      var inserted := Insert(row);
      if !inserted {
        existing := FindExisting(raw);
        if existing.None? {
          return Err(VersionTaken);
        }
        return Ok((existing.value, false));
      }
      r := Ok((|rows| - 1, true));
    }
  }

  lemma {:induction false} ExistingStays(rows: seq<Stored>, n: nat, raw: RawMessage)
    requires n <= |rows| && Existing(rows[..n], raw).Some?
    ensures Existing(rows, raw) == Existing(rows[..n], raw)
    decreases |rows|
  {
    if n == |rows| {
      assert rows[..n] == rows;
    } else {
      assert rows[..|rows| - 1][..n] == rows[..n];
      ExistingStays(rows[..|rows| - 1], n, raw);
    }
  }

  /** A row prepared from an earlier table meets a constraint exactly when its version, or its number, was taken since. */
  lemma {:induction false} CommitConflicts(rows: seq<Stored>, others: seq<Stored>, raw: RawMessage)
    requires GoodTable(others) && rows <= others && Existing(rows, raw).None?
    ensures LastOf(others, raw) == LastOf(rows, raw) ==>
              && NextRow(others, raw) == NextRow(rows, raw)
              && forall i | 0 <= i < |others| && others[i].raw.SameMessage(raw) :: others[i].version != NextRow(rows, raw).version
    ensures LastOf(others, raw) != LastOf(rows, raw) ==>
              exists i :: 0 <= i < |others| && others[i].raw.SameMessage(raw) && others[i].version == NextRow(rows, raw).version
  {
    hide GoodTable;
    if LastOf(others, raw) == LastOf(rows, raw) {
      forall i | 0 <= i < |others| && others[i].raw.SameMessage(raw)
        ensures others[i].version != NextRow(rows, raw).version
      {
        var last := LastOf(others, raw).value;
        if i < last {
          LaterVersionsAreGreater(others, i, last);
        }
      }
    } else {
      FirstAfter(rows, others, raw);
    }
  }

  /** The first row of the message added since has the number the next one would have had. */
  lemma {:induction false} FirstAfter(rows: seq<Stored>, others: seq<Stored>, raw: RawMessage)
    requires GoodTable(others) && rows <= others && LastOf(others, raw) != LastOf(rows, raw)
    ensures exists i :: |rows| <= i < |others| && others[i].raw.SameMessage(raw) && others[i].version == NextRow(rows, raw).version
    decreases |others|
  {
    hide GoodTable;
    var init := others[..|others| - 1];
    assert |others| == |rows| ==> others == rows;
    if LastOf(init, raw) != LastOf(rows, raw) {
      PrefixIsGood(others, |init|);
      FirstAfter(rows, init, raw);
      var i :| |rows| <= i < |init| && init[i].raw.SameMessage(raw) && init[i].version == NextRow(rows, raw).version;
      assert others[i] == init[i];
    } else {
      RowOf(others, |init|);
      SameMessageSameLast(init, others[|init|].raw, raw);
    }
  }

  lemma {:induction false} SameMessageSameLast(rows: seq<Stored>, a: RawMessage, b: RawMessage)
    requires a.SameMessage(b)
    ensures LastOf(rows, a) == LastOf(rows, b)
  {
    if rows != [] {
      SameMessageSameLast(rows[..|rows| - 1], a, b);
    }
  }
}
