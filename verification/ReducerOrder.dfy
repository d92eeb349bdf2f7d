/**
  The reduction of a bag of run events depends on nothing but the set of events in it: not on their
  order of arrival and not on how often each is delivered. Appending a later event is one more step.
 */
module ReducerOrder {
  import opened Wrappers
  import opened TextOrder
  import opened Reducer

  /** No message id is used for two different events. */
  ghost predicate NoConflict(events: seq<RunEvent>) {
    forall a, b | a in events && b in events && a.messageId == b.messageId :: a == b
  }

  ghost predicate Ordered(events: seq<RunEvent>) {
    forall i, j | 0 <= i < j < |events| :: !events[j].Precedes(events[i])
  }

  ghost predicate StrictlyOrdered(events: seq<RunEvent>) {
    forall i, j | 0 <= i < j < |events| :: events[i].Precedes(events[j])
  }

  /** Folding without the duplicate bookkeeping. */
  function Run(events: seq<RunEvent>, p: Projection): (r: Reduction)
    requires WellFormed(p)
    ensures r.Ok? ==> WellFormed(r.value)
    decreases |events|
  {
    if events == [] then Ok(p)
    else
      match Step(p, events[0])
      case Err(error) => Err(error)
      case Ok(q) =>
        StepKeepsWellFormed(p, events[0]);
        Run(events[1..], q)
  }

  /** The first event of every message id that is not in `seen`. */
  function Fresh(events: seq<RunEvent>, seen: set<string>): seq<RunEvent> {
    if events == [] then []
    else if events[0].messageId in seen then Fresh(events[1..], seen)
    else [events[0]] + Fresh(events[1..], seen + {events[0].messageId})
  }

  /** The events the fold really processes, in the order it processes them. */
  function Distinct(events: seq<RunEvent>): seq<RunEvent> {
    Fresh(Sorted(events), {})
  }

  // ---------- The sort ----------

  lemma PrecedesIsTransitive(a: RunEvent, b: RunEvent, c: RunEvent)
    requires a.Precedes(b) && b.Precedes(c)
    ensures a.Precedes(c)
  {
    if Before(a.messageId, b.messageId) && Before(b.messageId, c.messageId) {
      BeforeIsTransitive(a.messageId, b.messageId, c.messageId);
    }
  }

  lemma PrecedesIsTotal(a: RunEvent, b: RunEvent)
    ensures !a.Precedes(a)
    ensures a.Precedes(b) || a.messageId == b.messageId || b.Precedes(a)
  {
    BeforeIsIrreflexive(a.messageId);
    BeforeIsTotal(a.messageId, b.messageId);
  }

  lemma {:induction false} InsertKeepsElements(event: RunEvent, sorted: seq<RunEvent>, x: RunEvent)
    ensures x in Insert(event, sorted) <==> x == event || x in sorted
  {
    if sorted != [] && sorted[0].Precedes(event) {
      InsertKeepsElements(event, sorted[1..], x);
      assert sorted == [sorted[0]] + sorted[1..];
    }
  }

  lemma {:induction false} SortKeepsElements(events: seq<RunEvent>, x: RunEvent)
    ensures x in Sorted(events) <==> x in events
  {
    if events != [] {
      SortKeepsElements(events[1..], x);
      InsertKeepsElements(events[0], Sorted(events[1..]), x);
    }
  }

  lemma {:induction false} InsertKeepsOrder(event: RunEvent, sorted: seq<RunEvent>)
    requires Ordered(sorted)
    ensures Ordered(Insert(event, sorted))
  {
    var r := Insert(event, sorted);
    if sorted != [] && sorted[0].Precedes(event) {
      InsertKeepsOrder(event, sorted[1..]);
      forall j | 0 < j < |r| ensures !r[j].Precedes(r[0]) {
        InsertKeepsElements(event, sorted[1..], r[j]);
        if r[j] == event && event.Precedes(r[0]) {
          PrecedesIsTransitive(r[0], event, r[0]);
          PrecedesIsTotal(r[0], r[0]);
        }
      }
    } else if sorted != [] {
      forall j | 0 < j < |r| ensures !r[j].Precedes(event) {
        if r[j].Precedes(event) {
          NotPrecedingIsTransitive(sorted[0], event, r[j]);
        }
      }
    }
  }

  lemma NotPrecedingIsTransitive(a: RunEvent, b: RunEvent, c: RunEvent)
    requires !a.Precedes(b) && c.Precedes(b)
    ensures c.Precedes(a)
  {
    BeforeIsTotal(a.messageId, b.messageId);
    if c.createdAt == b.createdAt == a.createdAt && Before(b.messageId, a.messageId) {
      BeforeIsTransitive(c.messageId, b.messageId, a.messageId);
    }
  }

  lemma {:induction false} SortIsOrdered(events: seq<RunEvent>)
    ensures Ordered(Sorted(events))
  {
    if events != [] {
      SortIsOrdered(events[1..]);
      InsertKeepsOrder(events[0], Sorted(events[1..]));
    }
  }

  // ---------- The fold ----------

  lemma {:induction false} FoldIsRun(events: seq<RunEvent>, p: Projection, seen: map<string, RunEvent>)
    requires WellFormed(p) && NoConflict(events)
    requires forall e | e in events && e.messageId in seen :: seen[e.messageId] == e
    ensures Fold(events, p, seen) == Run(Fresh(events, seen.Keys), p)
    decreases |events|
  {
    if events != [] {
      var event, rest := events[0], events[1..];
      if event.messageId in seen {
        FoldIsRun(rest, p, seen);
      } else if Step(p, event).Ok? {
        StepKeepsWellFormed(p, event);
        assert seen[event.messageId := event].Keys == seen.Keys + {event.messageId};
        FoldIsRun(rest, Step(p, event).value, seen[event.messageId := event]);
        assert Fresh(events, seen.Keys)[1..] == Fresh(rest, seen.Keys + {event.messageId});
      }
    }
  }

  lemma {:induction false} FoldRefusesConflicts(events: seq<RunEvent>, p: Projection, seen: map<string, RunEvent>)
    requires WellFormed(p) && Fold(events, p, seen).Ok?
    ensures forall e | e in events && e.messageId in seen :: seen[e.messageId] == e
    ensures NoConflict(events)
    decreases |events|
  {
    if events != [] {
      var event, rest := events[0], events[1..];
      if event.messageId in seen {
        FoldRefusesConflicts(rest, p, seen);
      } else {
        StepKeepsWellFormed(p, event);
        FoldRefusesConflicts(rest, Step(p, event).value, seen[event.messageId := event]);
      }
      assert events == [event] + rest;
    }
  }

  lemma {:induction false} FreshElements(events: seq<RunEvent>, seen: set<string>, x: RunEvent)
    requires NoConflict(events)
    ensures x in Fresh(events, seen) <==> x in events && x.messageId !in seen
    decreases |events|
  {
    if events != [] {
      var event, rest := events[0], events[1..];
      assert events == [event] + rest;
      if event.messageId in seen {
        FreshElements(rest, seen, x);
      } else {
        FreshElements(rest, seen + {event.messageId}, x);
      }
    }
  }

  lemma {:induction false} FreshIsStrict(events: seq<RunEvent>, seen: set<string>)
    requires NoConflict(events) && Ordered(events)
    ensures StrictlyOrdered(Fresh(events, seen))
    decreases |events|
  {
    if events != [] {
      var event, rest := events[0], events[1..];
      if event.messageId in seen {
        FreshIsStrict(rest, seen);
      } else {
        var tail := Fresh(rest, seen + {event.messageId});
        FreshIsStrict(rest, seen + {event.messageId});
        forall j | 0 <= j < |tail| ensures event.Precedes(tail[j]) {
          FreshElements(rest, seen + {event.messageId}, tail[j]);
          var k :| 0 <= k < |rest| && rest[k] == tail[j];
          assert events[k + 1] == tail[j];
          PrecedesIsTotal(event, tail[j]);
        }
      }
    }
  }

  /** A reduction succeeds exactly when no message id is contested and the distinct events, in key
      order, form a legal run; its value is what that run produces. */
  lemma ReduceIsRunOfDistinct(events: seq<RunEvent>)
    ensures Reduce(events).Ok? <==> NoConflict(events) && Run(Distinct(events), EMPTY).Ok?
    ensures NoConflict(events) ==> Reduce(events) == Run(Distinct(events), EMPTY)
  {
    forall x ensures x in Sorted(events) <==> x in events {
      SortKeepsElements(events, x);
    }
    if NoConflict(events) {
      var none: map<string, RunEvent> := map[];
      FoldIsRun(Sorted(events), EMPTY, none);
      assert none.Keys == {};
    } else if Reduce(events).Ok? {
      FoldRefusesConflicts(Sorted(events), EMPTY, map[]);
    }
  }

  lemma DistinctIsCanonical(events: seq<RunEvent>)
    requires NoConflict(events)
    ensures StrictlyOrdered(Distinct(events))
    ensures forall x :: x in Distinct(events) <==> x in events
  {
    forall x ensures x in Sorted(events) <==> x in events {
      SortKeepsElements(events, x);
    }
    SortIsOrdered(events);
    FreshIsStrict(Sorted(events), {});
    forall x ensures x in Distinct(events) <==> x in events {
      FreshElements(Sorted(events), {}, x);
    }
  }

  lemma {:induction false} StrictOrderIsUnique(a: seq<RunEvent>, b: seq<RunEvent>)
    requires StrictlyOrdered(a) && StrictlyOrdered(b)
    requires forall x :: x in a <==> x in b
    ensures a == b
  {
    if b != [] { assert b[0] in a; }
    if a != [] {
      assert a[0] in b;
      HeadsAgree(a, b);
      forall x ensures x in a[1..] <==> x in b[1..] {
        TailMembership(a, x);
        TailMembership(b, x);
      }
      StrictOrderIsUnique(a[1..], b[1..]);
      assert a == [a[0]] + a[1..] && b == [b[0]] + b[1..];
    }
  }

  lemma HeadsAgree(a: seq<RunEvent>, b: seq<RunEvent>)
    requires StrictlyOrdered(a) && StrictlyOrdered(b) && a != [] && b != []
    requires a[0] in b && b[0] in a
    ensures a[0] == b[0]
  {
    if a[0] != b[0] {
      PrecedesIsTransitive(a[0], b[0], a[0]);
      PrecedesIsTotal(a[0], a[0]);
    }
  }

  lemma TailMembership(a: seq<RunEvent>, x: RunEvent)
    requires StrictlyOrdered(a) && a != []
    ensures x in a[1..] <==> x in a && x != a[0]
  {
    assert a == [a[0]] + a[1..];
    PrecedesIsTotal(x, x);
  }

  /** Order independence: two bags with the same set of events either both fail or reduce to the same
      projection, whatever their orders and multiplicities. */
  lemma ReductionDependsOnSetOnly(events: seq<RunEvent>, others: seq<RunEvent>)
    requires forall x :: x in events <==> x in others
    ensures Reduce(events).Ok? <==> Reduce(others).Ok?
    ensures Reduce(events).Ok? ==> Reduce(events) == Reduce(others)
  {
    ReduceIsRunOfDistinct(events);
    ReduceIsRunOfDistinct(others);
    if NoConflict(events) {
      assert NoConflict(others);
      DistinctIsCanonical(events);
      DistinctIsCanonical(others);
      StrictOrderIsUnique(Distinct(events), Distinct(others));
    } else {
      assert !NoConflict(others);
    }
  }

  // ---------- Restart safety ----------

  lemma {:induction false} RunAppend(events: seq<RunEvent>, p: Projection, event: RunEvent)
    requires WellFormed(p)
    ensures Run(events + [event], p) ==
            (match Run(events, p) case Err(error) => Err(error) case Ok(q) => Step(q, event))
    decreases |events|
  {
    if events == [] {
      if Step(p, event).Ok? {
        StepKeepsWellFormed(p, event);
        assert ([] + [event])[1..] == [];
      }
    } else {
      assert (events + [event])[1..] == events[1..] + [event];
      if Step(p, events[0]).Ok? {
        StepKeepsWellFormed(p, events[0]);
        RunAppend(events[1..], Step(p, events[0]).value, event);
      }
    }
  }

  lemma DistinctAppend(events: seq<RunEvent>, event: RunEvent)
    requires NoConflict(events + [event])
    requires forall x | x in events :: x.Precedes(event)
    ensures Distinct(events + [event]) == Distinct(events) + [event]
  {
    assert forall x | x in events :: x in events + [event];
    assert NoConflict(events);
    DistinctIsCanonical(events);
    DistinctIsCanonical(events + [event]);
    StrictOrderIsUnique(Distinct(events + [event]), Distinct(events) + [event]);
  }

  /** Restart safety: an event whose key follows every recorded one is one more step from the existing
      projection, so the projection never has to be recomputed from the start. */
  lemma LaterEventIsOneStep(events: seq<RunEvent>, event: RunEvent)
    requires forall x | x in events :: x.Precedes(event)
    ensures Reduce(events).Err? ==> Reduce(events + [event]).Err?
    ensures Reduce(events).Ok? && (exists x :: x in events && x.messageId == event.messageId) ==> Reduce(events + [event]).Err?
    ensures Reduce(events).Ok? && (forall x | x in events :: x.messageId != event.messageId) ==>
              WellFormed(Reduce(events).value) && Reduce(events + [event]) == Step(Reduce(events).value, event)
  {
    var all := events + [event];
    ReduceIsRunOfDistinct(events);
    ReduceIsRunOfDistinct(all);
    assert event in all && forall x | x in events :: x in all;
    if NoConflict(all) {
      DistinctAppend(events, event);
      RunAppend(Distinct(events), EMPTY, event);
    }
    if exists x :: x in events && x.messageId == event.messageId {
      var x :| x in events && x.messageId == event.messageId;
      PrecedesIsTotal(event, event);
      assert x != event && x in all;
    } else {
      assert NoConflict(events) ==> NoConflict(all);
    }
  }
}
