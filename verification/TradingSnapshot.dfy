/** The lists a message works on: rows in an arbitrary order, read and changed one by one. */
module TradingSnapshot {
  import opened Wrappers
  import opened TradingModel

  datatype Item<T> = Item(id: EventKey, row: T)

  ghost predicate DistinctIds<T>(items: seq<Item<T>>) {
    forall i, j | 0 <= i < j < |items| :: items[i].id != items[j].id
  }

  ghost predicate Covers<T>(items: seq<Item<T>>, rows: map<EventKey, T>) {
    forall k | k in rows :: exists i :: 0 <= i < |items| && items[i].id == k
  }

  /** A list of rows holds exactly the rows of a table, each once. */
  ghost predicate Represents<T>(items: seq<Item<T>>, rows: map<EventKey, T>) {
    && DistinctIds(items)
    && (forall i | 0 <= i < |items| :: items[i].id in rows && rows[items[i].id] == items[i].row)
    && Covers(items, rows)
  }

  function Selected<T>(rows: map<EventKey, T>, wanted: T -> bool): map<EventKey, T> {
    map k | k in rows && wanted(rows[k]) :: rows[k]
  }

  /** A query: the wanted rows of a table, in an order nothing depends on. */
  method Select<T>(rows: map<EventKey, T>, wanted: T -> bool) returns (items: seq<Item<T>>)
    ensures Represents(items, Selected(rows, wanted))
  {
    items := [];
    var rest := rows.Keys;
    ghost var done := map[];
    while rest != {}
      invariant rest <= rows.Keys
      invariant Represents(items, done)
      invariant forall k | k in rows :: k in done <==> k !in rest && wanted(rows[k])
      invariant forall k | k in done :: k in rows && done[k] == rows[k]
      decreases rest
    {
      var k :| k in rest;
      if wanted(rows[k]) {
        RepresentsMore(items, done, k, rows[k]);
        items := items + [Item(k, rows[k])];
        done := done[k := rows[k]];
      }
      rest := rest - {k};
    }
    assert done == Selected(rows, wanted);
  }

  lemma RepresentsMore<T>(items: seq<Item<T>>, rows: map<EventKey, T>, k: EventKey, row: T)
    requires Represents(items, rows) && k !in rows
    ensures Represents(items + [Item(k, row)], rows[k := row])
  {
    var next, table := items + [Item(k, row)], rows[k := row];
    forall j | j in table
      ensures exists i :: 0 <= i < |next| && next[i].id == j
    {
      if j == k {
        assert next[|items|].id == k;
      } else {
        var i :| 0 <= i < |items| && items[i].id == j;
        assert next[i].id == j;
      }
    }
  }

  lemma RepresentsUpdate<T>(items: seq<Item<T>>, rows: map<EventKey, T>, i: nat, row: T)
    requires Represents(items, rows) && i < |items|
    ensures Represents(items[i := Item(items[i].id, row)], rows[items[i].id := row])
  {
    var next := items[i := Item(items[i].id, row)];
    forall k | k in rows
      ensures exists j :: 0 <= j < |next| && next[j].id == k
    {
      var j :| 0 <= j < |items| && items[j].id == k;
      assert next[j].id == k;
    }
  }

  function IdsAt<T>(items: seq<Item<T>>, places: seq<nat>): set<EventKey> {
    set i | 0 <= i < |places| && places[i] < |items| :: items[places[i]].id
  }

  /** The places in the list of the rows that match. */
  method Matching<T>(items: seq<Item<T>>, ghost rows: map<EventKey, T>, wanted: T -> bool) returns (matches: seq<nat>)
    requires Represents(items, rows)
    ensures forall i | 0 <= i < |matches| :: matches[i] < |items|
    ensures |matches| == |Selected(rows, wanted).Keys|
    ensures forall i | 0 <= i < |matches| ::
              items[matches[i]].id in Selected(rows, wanted) && rows[items[matches[i]].id] == items[matches[i]].row
    ensures IdsAt(items, matches) == Selected(rows, wanted).Keys
    ensures |matches| == 1 ==> Selected(rows, wanted).Keys == {items[matches[0]].id}
  {
    hide Covers, IdsAt;
    NoIds(items);
    matches := [];
    ghost var found: set<EventKey> := {};
    for i := 0 to |items|
      invariant forall j | 0 <= j < |matches| :: matches[j] < i && items[matches[j]].id in found
      invariant found <= Selected(rows, wanted).Keys
      invariant forall j | i <= j < |items| :: items[j].id !in found
      invariant forall j | 0 <= j < i && wanted(items[j].row) :: items[j].id in found
      invariant |found| == |matches|
      invariant found == IdsAt(items, matches)
    {
      if wanted(items[i].row) {
        IdsGrow(items, matches, i);
        matches := matches + [i];
        found := found + {items[i].id};
      }
    }
    AllFound(items, rows, wanted, found);
    if |matches| == 1 {
      OneId(items, matches[0]);
      assert matches == [matches[0]];
    }
  }

  lemma NoIds<T>(items: seq<Item<T>>)
    ensures IdsAt(items, []) == {}
  {
  }

  lemma OneId<T>(items: seq<Item<T>>, i: nat)
    requires i < |items|
    ensures IdsAt(items, [i]) == {items[i].id}
  {
    NoIds(items);
    IdsGrow(items, [], i);
    assert [] + [i] == [i];
  }

  lemma IdsGrow<T>(items: seq<Item<T>>, places: seq<nat>, i: nat)
    requires i < |items|
    ensures IdsAt(items, places + [i]) == IdsAt(items, places) + {items[i].id}
  {
    var next := places + [i];
    assert next[|places|] == i;
    assert forall j | 0 <= j < |places| :: next[j] == places[j];
  }

  lemma AllFound<T>(items: seq<Item<T>>, rows: map<EventKey, T>, wanted: T -> bool, found: set<EventKey>)
    requires Represents(items, rows) && found <= Selected(rows, wanted).Keys
    requires forall j | 0 <= j < |items| && wanted(items[j].row) :: items[j].id in found
    ensures found == Selected(rows, wanted).Keys
  {
    forall k | k in Selected(rows, wanted)
      ensures k in found
    {
      var j :| 0 <= j < |items| && items[j].id == k;
    }
  }

  /** The first row that matches. */
  method First<T>(items: seq<Item<T>>, ghost rows: map<EventKey, T>, wanted: T -> bool) returns (found: Option<nat>)
    requires Represents(items, rows)
    ensures found.Some? ==>
              found.value < |items|
              && items[found.value].id in Selected(rows, wanted)
              && rows[items[found.value].id] == items[found.value].row
    ensures found.None? <==> Selected(rows, wanted).Keys == {}
  {
    var i := 0;
    while i < |items|
      invariant 0 <= i <= |items|
      invariant forall j | 0 <= j < i :: !wanted(items[j].row)
    {
      if wanted(items[i].row) {
        assert items[i].id in Selected(rows, wanted);
        return Some(i);
      }
      i := i + 1;
    }
    found := None;
    assert forall k | k in rows :: exists j :: 0 <= j < |items| && items[j].id == k;
  }

  /** What writing a list of rows into a table must come to. */
  ghost predicate Targets<T>(rows: map<EventKey, T>, items: seq<Item<T>>, merge: (T, T) -> T, target: map<EventKey, T>) {
    && (forall i, j | 0 <= i < j < |items| :: items[i].id != items[j].id)
    && (forall i | 0 <= i < |items| ::
          && items[i].id in target
          && target[items[i].id] == items[i].row
          && (items[i].id in rows ==> merge(rows[items[i].id], items[i].row) == items[i].row))
    && (forall k | k in rows :: k in target)
    && (forall k | k in target :: (k in rows && rows[k] == target[k]) || exists i :: 0 <= i < |items| && items[i].id == k)
  }

  /** Inserts the new rows of a list and updates the existing ones. */
  method Upsert<T>(rows: map<EventKey, T>, items: seq<Item<T>>, merge: (T, T) -> T, ghost target: map<EventKey, T>)
    returns (next: map<EventKey, T>)
    requires Targets(rows, items, merge, target)
    ensures next == target
  {
    next := rows;
    var i := 0;
    while i < |items|
      invariant 0 <= i <= |items|
      invariant forall k | k in next :: k in target
      invariant forall k | k in rows :: k in next
      invariant forall j | 0 <= j < i :: items[j].id in next && next[items[j].id] == items[j].row
      invariant forall j | i <= j < |items| :: (items[j].id in next <==> items[j].id in rows)
      invariant forall k | k in rows && (forall j | 0 <= j < i :: items[j].id != k) :: next[k] == rows[k]
    {
      var item := items[i];
      if item.id in next {
        next := next[item.id := merge(next[item.id], item.row)];
      } else {
        next := next[item.id := item.row];
      }
      i := i + 1;
    }
    forall k | k in target
      ensures k in next && next[k] == target[k]
    {
      if j :| 0 <= j < |items| && items[j].id == k {
        assert next[items[j].id] == items[j].row;
      }
    }
  }

  function IdsInOrder<T>(items: seq<Item<T>>): (ids: seq<EventKey>)
    ensures |ids| == |items| && forall i | 0 <= i < |items| :: ids[i] == items[i].id
  {
    seq(|items|, i requires 0 <= i < |items| => items[i].id)
  }

  /** The ids of a list are those of its table, each once. */
  lemma IdsOfList<T>(items: seq<Item<T>>, rows: map<EventKey, T>)
    requires Represents(items, rows)
    ensures forall k :: k in IdsInOrder(items) <==> k in rows
    ensures forall i, j | 0 <= i < j < |items| :: items[i].id != items[j].id
  {
    forall k | k in rows
      ensures k in IdsInOrder(items)
    {
      var i :| 0 <= i < |items| && items[i].id == k;
      assert IdsInOrder(items)[i] == k;
    }
  }
}
