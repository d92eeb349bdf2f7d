/**
  The dispatcher and the reducer together: with one repository and a run log that grows in key order, how
  many dispatch intents can ever be claimed, and what the stop boundary guarantees.
 */
module DispatchBudget {
  import opened Wrappers
  import Reducer
  import ReducerOrder
  import ReducerHistory
  import opened DispatcherStore
  import opened DispatcherLog
  import opened DispatcherWorkers
  import opened DispatcherInvariant

  // ---------- What a read of a prefix of the run log can show ----------

  /** A read of `runLog` shows this key's task ready for dispatch at this attempt on this branch. */
  predicate Binds(runLog: seq<Reducer.RunEvent>, key: DedupeKey) {
    var r := Reducer.Reduce(runLog);
    && key.DispatchKey?
    && r.Ok?
    && key.taskId in r.value.tasks
    && r.value.tasks[key.taskId].state == Reducer.ReadyForCopilot
    && r.value.tasks[key.taskId].branch == key.branch
    && r.value.tasks[key.taskId].currentAttempt == key.attempt
  }

  /** Some read made so far showed it. */
  ghost predicate WasBindable(runLog: seq<Reducer.RunEvent>, key: DedupeKey) {
    exists n :: 0 <= n <= |runLog| && Binds(runLog[..n], key)
  }

  lemma OrderedReduceIsRun(runLog: seq<Reducer.RunEvent>)
    requires ReducerOrder.StrictlyOrdered(runLog) && Reducer.Reduce(runLog).Ok?
    ensures ReducerOrder.Run(runLog, Reducer.EMPTY) == Reducer.Reduce(runLog)
    ensures Reducer.WellFormed(Reducer.Reduce(runLog).value)
  {
    ReducerOrder.ReduceIsRunOfDistinct(runLog);
    ReducerOrder.DistinctIsCanonical(runLog);
    ReducerOrder.StrictOrderIsUnique(ReducerOrder.Distinct(runLog), runLog);
  }

  lemma StepKeepsTasks(p: Reducer.Projection, event: Reducer.RunEvent)
    requires Reducer.WellFormed(p) && Reducer.Step(p, event).Ok?
    ensures var q := Reducer.Step(p, event).value;
            && p.taskOrder <= q.taskOrder
            && forall id | id in p.tasks :: id in q.tasks && q.tasks[id].branch == p.tasks[id].branch
  {
  }

  /** From a shorter to a longer prefix tasks are only added, and a task keeps its branch. */
  lemma {:induction false} LongerPrefixKeepsTasks(runLog: seq<Reducer.RunEvent>, n: nat)
    requires n <= |runLog| && ReducerOrder.Run(runLog, Reducer.EMPTY).Ok?
    ensures ReducerOrder.Run(runLog[..n], Reducer.EMPTY).Ok?
    ensures var p, q := ReducerOrder.Run(runLog[..n], Reducer.EMPTY).value, ReducerOrder.Run(runLog, Reducer.EMPTY).value;
            && p.taskOrder <= q.taskOrder
            && forall id | id in p.tasks :: id in q.tasks && q.tasks[id].branch == p.tasks[id].branch
    decreases |runLog|
  {
    if n == |runLog| {
      assert runLog[..n] == runLog;
    } else {
      var init := runLog[..|runLog| - 1];
      ReducerHistory.RunPeel(runLog, Reducer.EMPTY);
      assert init[..n] == runLog[..n];
      LongerPrefixKeepsTasks(init, n);
      StepKeepsTasks(ReducerOrder.Run(init, Reducer.EMPTY).value, runLog[|runLog| - 1]);
    }
  }

  lemma EmptyLogBindsNothing(runLog: seq<Reducer.RunEvent>, key: DedupeKey)
    ensures Binds(runLog, key) ==> runLog != []
  {
    if runLog == [] {
      assert Reducer.Reduce(runLog) == Ok(Reducer.EMPTY);
    }
  }

  /** The key of the initial task at its `i`-th attempt. */
  function InitialKey(runLog: seq<Reducer.RunEvent>, repository: string, i: int): DedupeKey
    requires runLog != []
  {
    DispatchKey(repository, runLog[0].taskId, runLog[0].attempt + i, runLog[0].branch)
  }

  lemma InitialBranch(runLog: seq<Reducer.RunEvent>)
    requires runLog != [] && ReducerOrder.Run(runLog, Reducer.EMPTY).Ok?
    ensures var p := ReducerOrder.Run(runLog, Reducer.EMPTY).value;
            runLog[0].taskId in p.tasks && p.tasks[runLog[0].taskId].branch == runLog[0].branch
  {
    LongerPrefixKeepsTasks(runLog, 1);
    assert runLog[..1] == [] + [runLog[0]];
    ReducerOrder.RunAppend([], Reducer.EMPTY, runLog[0]);
    ReducerHistory.AttemptsAreNumberedFromCreation(runLog);
  }

  /** A bindable key of the initial task is one of four. */
  lemma InitialKeysAreFour(runLog: seq<Reducer.RunEvent>, key: DedupeKey)
    requires ReducerOrder.StrictlyOrdered(runLog) && runLog != []
    requires WasBindable(runLog, key) && key.taskId == runLog[0].taskId
    ensures exists i :: 0 <= i < 4 && key == InitialKey(runLog, key.repository, i)
  {
    var n :| 0 <= n <= |runLog| && Binds(runLog[..n], key);
    var r := runLog[..n];
    OrderedReduceIsRun(r);
    EmptyLogBindsNothing(r, key);
    assert r[0] == runLog[0];
    ReducerHistory.AttemptsAreNumberedFromCreation(r);
    InitialBranch(r);
    var t := Reducer.Reduce(r).value.tasks[key.taskId];
    assert key == InitialKey(runLog, key.repository, t.repairAttempts);
  }

  /** The follow-up task is bindable only in a stopped log, and under one key only. */
  lemma FollowUpKey(runLog: seq<Reducer.RunEvent>, n: nat, key: DedupeKey)
    requires ReducerOrder.StrictlyOrdered(runLog) && runLog != [] && n <= |runLog|
    requires Binds(runLog[..n], key) && key.taskId != runLog[0].taskId
    ensures ReducerOrder.Run(runLog[..n], Reducer.EMPTY).Ok?
    ensures var p := ReducerOrder.Run(runLog[..n], Reducer.EMPTY).value;
            && |p.taskOrder| == 2 && key.taskId == p.taskOrder[1] && key.attempt == 1
            && key.taskId in p.tasks && key.branch == p.tasks[key.taskId].branch
    ensures StopReached(runLog[..n]) == Some(true)
  {
    var r := runLog[..n];
    OrderedReduceIsRun(r);
    EmptyLogBindsNothing(r, key);
    assert r[0] == runLog[0];
    ReducerHistory.AttemptsAreNumberedFromCreation(r);
    var p := Reducer.Reduce(r).value;
    assert key.taskId in p.taskOrder;
    assert p.taskOrder[0] == runLog[0].taskId;
  }

  lemma FollowUpKeyIsUnique(runLog: seq<Reducer.RunEvent>, n: nat, m: nat, key: DedupeKey, other: DedupeKey)
    requires ReducerOrder.StrictlyOrdered(runLog) && runLog != [] && n <= m <= |runLog|
    requires Binds(runLog[..n], key) && key.taskId != runLog[0].taskId
    requires Binds(runLog[..m], other) && other.taskId != runLog[0].taskId
    requires key.repository == other.repository
    ensures key == other
  {
    FollowUpKey(runLog, n, key);
    FollowUpKey(runLog, m, other);
    LongerPrefixKeepsTasks(runLog[..m], n);
    assert runLog[..m][..n] == runLog[..n];
  }

  /** What a read shows ready is the follow-up task's exactly when that read shows the stop boundary. */
  lemma BehindTheStopOnlyTheFollowUpBinds(runLog: seq<Reducer.RunEvent>, key: DedupeKey)
    requires ReducerOrder.StrictlyOrdered(runLog) && Binds(runLog, key)
    ensures runLog != []
    ensures key.taskId != runLog[0].taskId <==> StopReached(runLog) == Some(true)
  {
    EmptyLogBindsNothing(runLog, key);
    assert runLog[..|runLog|] == runLog;
    if key.taskId != runLog[0].taskId {
      FollowUpKey(runLog, |runLog|, key);
    } else {
      OrderedReduceIsRun(runLog);
      ReducerHistory.AttemptsAreNumberedFromCreation(runLog);
    }
  }

  // ---------- What every claimed intent goes back to ----------

  /** Every event let through by the policy is from the one allowlisted repository. */
  ghost predicate OneRepository(actions: seq<Action>, repository: string) {
    forall a | a in actions && a.Screen? && a.event.admitted :: a.event.repository == repository
  }

  /** Every key in hand or in the store was shown ready by an earlier read, and only dispatches have such keys. */
  ghost predicate KeysBound(w: World) {
    && (forall u | u in w.workers && w.workers[u].Bound? :: WasBindable(w.runLog, w.workers[u].key))
    && (forall id | id in w.State().intents && w.State().intents[id].operation == DispatchTask ::
          WasBindable(w.runLog, w.State().intents[id].dedupeKey))
    && (forall id | id in w.State().intents && w.State().intents[id].operation == CiReady ::
          w.State().intents[id].dedupeKey.CiReadyKey?)
  }

  predicate PcFrom(pc: Pc, repository: string) {
    && (pc.Screened? || pc.Admitted? ==> pc.event.repository == repository)
    && (pc.Bound? && pc.key.DispatchKey? ==> pc.key.repository == repository)
  }

  /** Every event and key in hand and every key in the store is of this repository. */
  ghost predicate KeysFrom(w: World, repository: string) {
    && (forall u | u in w.workers :: PcFrom(w.workers[u], repository))
    && (forall id | id in w.State().intents && w.State().intents[id].dedupeKey.DispatchKey? ::
          w.State().intents[id].dedupeKey.repository == repository)
  }

  lemma BindableStays(runLog: seq<Reducer.RunEvent>, longer: seq<Reducer.RunEvent>, key: DedupeKey)
    requires runLog <= longer && WasBindable(runLog, key)
    ensures WasBindable(longer, key)
  {
    var n :| 0 <= n <= |runLog| && Binds(runLog[..n], key);
    assert longer[..n] == runLog[..n];
  }

  lemma BindingBinds(runLog: seq<Reducer.RunEvent>, event: Event)
    requires BindingHolds(runLog, event)
    ensures Binds(runLog, KeyOf(event)) && WasBindable(runLog, KeyOf(event))
  {
    assert runLog[..|runLog|] == runLog;
  }

  /** The intents after an action are those before it, moved forward, and perhaps one with a bound key. */
  lemma {:induction false} IntentsAfter(w: World, a: Action, e: Effect, id: nat)
    requires Invariant(w) && !a.RecordRunEvent? && KeepsLog(w.State(), e) && Claims(w, a, e)
    requires id in After(w.State(), e).intents
    ensures id in w.State().intents ==> w.State().intents[id].SameIdentity(After(w.State(), e).intents[id])
    ensures id !in w.State().intents ==>
              var intent := After(w.State(), e).intents[id];
              || (intent.operation == CiReady && intent.dedupeKey.CiReadyKey?)
              || (&& a.Claim? && a.freshId == id && a.who in w.workers && w.workers[a.who].Bound?
                  && intent.operation == DispatchTask && intent.dedupeKey == w.workers[a.who].key)
  {
    ReplayIsConsistent(w.log);
    if e.record.Some? && id in w.State().intents {
      LegalRecordMovesForward(w.State(), e.record.value, id);
    }
  }

  lemma {:induction false} EffectKeepsBound(w: World, a: Action, e: Effect)
    requires Invariant(w) && KeysBound(w) && !a.RecordRunEvent?
    requires KeepsLog(w.State(), e) && Enters(w, a, e) && Claims(w, a, e)
    ensures KeysBound(Afterwards(w, a.who, e))
  {
    hide KeepsLog, Claims, BindingHolds, StopReached, WasBindable, GoodLog, Invariant;
    var v := Afterwards(w, a.who, e);
    LogIsKept(w, a.who, e);
    forall id | id in v.State().intents
      ensures v.State().intents[id].operation == DispatchTask ==> WasBindable(v.runLog, v.State().intents[id].dedupeKey)
      ensures v.State().intents[id].operation == CiReady ==> v.State().intents[id].dedupeKey.CiReadyKey?
    {
      IntentsAfter(w, a, e, id);
    }
    if e.next.Some? && e.next.value.Bound? {
      BindingBinds(w.runLog, e.next.value.event);
    }
  }

  lemma {:induction false} EffectKeepsFrom(w: World, a: Action, e: Effect, repository: string)
    requires Invariant(w) && KeysFrom(w, repository) && !a.RecordRunEvent?
    requires a.Screen? && a.event.admitted ==> a.event.repository == repository
    requires KeepsLog(w.State(), e) && Enters(w, a, e) && Claims(w, a, e)
    ensures KeysFrom(Afterwards(w, a.who, e), repository)
  {
    hide KeepsLog, Claims, BindingHolds, StopReached, GoodLog, Invariant;
    var v := Afterwards(w, a.who, e);
    LogIsKept(w, a.who, e);
    forall id | id in v.State().intents && v.State().intents[id].dedupeKey.DispatchKey?
      ensures v.State().intents[id].dedupeKey.repository == repository
    {
      IntentsAfter(w, a, e, id);
    }
  }

  lemma {:induction false} PerformKeepsBound(w: World, a: Action)
    requires Invariant(w) && KeysBound(w)
    ensures KeysBound(Perform(w, a))
  {
    hide EffectOf, KeepsLog, KeepsDriver, NotesFit, Enters, Claims, Invariant, WasBindable;
    if a.RecordRunEvent? {
      forall key | WasBindable(w.runLog, key) ensures WasBindable(Perform(w, a).runLog, key) {
        BindableStays(w.runLog, Perform(w, a).runLog, key);
      }
    } else {
      EffectIsPermitted(w, a, 0);
      if EffectOf(w, a) == Stay(w, a.who) {
        StayingChangesNothing(w, a.who);
      } else {
        EffectKeepsBound(w, a, EffectOf(w, a));
      }
    }
  }

  lemma {:induction false} PerformKeepsFrom(w: World, a: Action, repository: string)
    requires Invariant(w) && KeysFrom(w, repository)
    requires a.Screen? && a.event.admitted ==> a.event.repository == repository
    ensures KeysFrom(Perform(w, a), repository)
  {
    hide EffectOf, KeepsLog, KeepsDriver, NotesFit, Enters, Claims, Invariant;
    if a.RecordRunEvent? {
      assert Perform(w, a).State() == w.State();
    } else {
      EffectIsPermitted(w, a, 0);
      if EffectOf(w, a) == Stay(w, a.who) {
        StayingChangesNothing(w, a.who);
      } else {
        EffectKeepsFrom(w, a, EffectOf(w, a), repository);
      }
    }
  }

  lemma {:induction false} ExecuteKeepsBound(actions: seq<Action>)
    ensures Invariant(Execute(INITIAL, actions)) && KeysBound(Execute(INITIAL, actions))
  {
    ExecuteIsSafe(actions, 0);
    if actions != [] {
      ExecuteKeepsBound(actions[..|actions| - 1]);
      PerformKeepsBound(Execute(INITIAL, actions[..|actions| - 1]), actions[|actions| - 1]);
    }
  }

  lemma {:induction false} ExecuteKeepsFrom(actions: seq<Action>, repository: string)
    requires OneRepository(actions, repository)
    ensures KeysFrom(Execute(INITIAL, actions), repository)
  {
    if actions != [] {
      ExecuteIsSafe(actions[..|actions| - 1], 0);
      ExecuteKeepsFrom(actions[..|actions| - 1], repository);
      PerformKeepsFrom(Execute(INITIAL, actions[..|actions| - 1]), actions[|actions| - 1], repository);
    }
  }

  // ---------- The budget ----------

  ghost function DispatchIntents(s: State, ofInitial: bool, initial: string): set<nat> {
    set id | id in s.intents && s.intents[id].operation == DispatchTask && s.intents[id].dedupeKey.DispatchKey?
             && (s.intents[id].dedupeKey.taskId == initial) == ofInitial
  }

  /** Distinct intents have distinct keys, so a set of intents is no larger than a set holding their keys. */
  lemma {:induction false} KeysCountIntents(s: State, ids: set<nat>, keys: set<DedupeKey>)
    requires forall id | id in ids :: id in s.intents && s.intents[id].dedupeKey in keys
    requires forall a, b | a in ids && b in ids && a != b :: s.intents[a].dedupeKey != s.intents[b].dedupeKey
    ensures |ids| <= |keys|
  {
    if ids != {} {
      var id :| id in ids;
      KeysCountIntents(s, ids - {id}, keys - {s.intents[id].dedupeKey});
    }
  }

  /** At most four dispatch intents are ever claimed for the initial task and at most one for any other:
      the follow-up task. */
  lemma DispatchIntentsAreBounded(actions: seq<Action>, repository: string)
    requires OneRepository(actions, repository)
    requires ReducerOrder.StrictlyOrdered(Execute(INITIAL, actions).runLog) && Execute(INITIAL, actions).runLog != []
    ensures var w := Execute(INITIAL, actions);
            && |DispatchIntents(w.State(), true, w.runLog[0].taskId)| <= 4
            && |DispatchIntents(w.State(), false, w.runLog[0].taskId)| <= 1
  {
    var w := Execute(INITIAL, actions);
    ExecuteKeepsBound(actions);
    ExecuteKeepsFrom(actions, repository);
    ReplayIsConsistent(w.log);
    InitialIntentsAreFour(w, repository);
    FollowUpIntentsAreOne(w, repository);
  }

  lemma InitialIntentsAreFour(w: World, repository: string)
    requires Invariant(w) && KeysBound(w) && KeysFrom(w, repository) && w.runLog != [] && ReducerOrder.StrictlyOrdered(w.runLog)
    ensures |DispatchIntents(w.State(), true, w.runLog[0].taskId)| <= 4
  {
    ReplayIsConsistent(w.log);
    var ids := DispatchIntents(w.State(), true, w.runLog[0].taskId);
    var keys := {InitialKey(w.runLog, repository, 0), InitialKey(w.runLog, repository, 1),
                 InitialKey(w.runLog, repository, 2), InitialKey(w.runLog, repository, 3)};
    forall id | id in ids ensures w.State().intents[id].dedupeKey in keys {
      InitialKeysAreFour(w.runLog, w.State().intents[id].dedupeKey);
    }
    KeysCountIntents(w.State(), ids, keys);
  }

  lemma FollowUpIntentsAreOne(w: World, repository: string)
    requires Invariant(w) && KeysBound(w) && KeysFrom(w, repository) && w.runLog != [] && ReducerOrder.StrictlyOrdered(w.runLog)
    ensures |DispatchIntents(w.State(), false, w.runLog[0].taskId)| <= 1
  {
    ReplayIsConsistent(w.log);
    var ids := DispatchIntents(w.State(), false, w.runLog[0].taskId);
    if ids != {} {
      var one :| one in ids;
      var key := w.State().intents[one].dedupeKey;
      forall id | id in ids ensures w.State().intents[id].dedupeKey in {key} {
        SameFollowUpKey(w, repository, key, w.State().intents[id].dedupeKey);
      }
      KeysCountIntents(w.State(), ids, {key});
    }
  }

  lemma SameFollowUpKey(w: World, repository: string, key: DedupeKey, other: DedupeKey)
    requires w.runLog != [] && ReducerOrder.StrictlyOrdered(w.runLog)
    requires WasBindable(w.runLog, key) && key.repository == repository && key.taskId != w.runLog[0].taskId
    requires WasBindable(w.runLog, other) && other.repository == repository && other.taskId != w.runLog[0].taskId
    ensures key == other
  {
    var n :| 0 <= n <= |w.runLog| && Binds(w.runLog[..n], key);
    var m :| 0 <= m <= |w.runLog| && Binds(w.runLog[..m], other);
    if n <= m {
      FollowUpKeyIsUnique(w.runLog, n, m, key, other);
    } else {
      FollowUpKeyIsUnique(w.runLog, m, n, other, key);
    }
  }

  // ---------- The stop boundary ----------

  /** After the stop boundary the reducer accepts nothing but pauses of the follow-up task. */
  lemma OnlyFollowUpPausesAfterStop(p: Reducer.Projection, event: Reducer.RunEvent)
    requires Reducer.WellFormed(p) && p.stopReason == Some(Reducer.SecondTaskCreated)
    ensures Reducer.Step(p, event).Ok? <==> |p.taskOrder| == 2 && event.eventType == Reducer.TaskPaused && event.taskId == p.taskOrder[1]
    ensures Reducer.Step(p, event).Ok? ==>
              && Reducer.Step(p, event).value.stopReason == Some(Reducer.SecondTaskCreated)
              && Reducer.Step(p, event).value.tasks[event.taskId].state == Reducer.Paused
  {
    assert event.taskId in p.tasks ==> event.taskId == p.taskOrder[0] || event.taskId == p.taskOrder[1];
  }

  /** The stop boundary, once readable, stays: appending later events never reopens it. */
  lemma StopStays(runLog: seq<Reducer.RunEvent>, event: Reducer.RunEvent)
    requires ReducerOrder.StrictlyOrdered(runLog + [event]) && StopReached(runLog) != Some(false)
    ensures StopReached(runLog + [event]) != Some(false)
  {
    assert forall x | x in runLog :: x.Precedes(event) by {
      forall x | x in runLog ensures x.Precedes(event) {
        var i :| 0 <= i < |runLog| && runLog[i] == x;
        assert (runLog + [event])[i] == x && (runLog + [event])[|runLog|] == event;
      }
    }
    ReducerOrder.LaterEventIsOneStep(runLog, event);
    if Reducer.Reduce(runLog).Ok? && Reducer.Reduce(runLog + [event]).Ok? {
      OnlyFollowUpPausesAfterStop(Reducer.Reduce(runLog).value, event);
    }
  }

  /** The workers that may still call the provider: all but those that finish a CI event. */
  function Busy(w: World): set<nat> {
    set u | u in w.workers && !w.workers[u].CiClaimed?
  }

  lemma {:induction false} StoppedStep(w: World, a: Action)
    requires StopReached(w.runLog) != Some(false) && !a.RecordRunEvent?
    ensures Busy(Perform(w, a)) <= Busy(w)
    ensures Perform(w, a).runLog == w.runLog
    ensures Perform(w, a).history == w.history || a.who in Busy(w)
  {
    hide StopReached, BindingHolds, Transitioned;
  }

  /** Once the boundary is projected, whatever happens later: no worker becomes busy that was not, and the
      provider hears only from workers that were busy then. A recovery pass or a handler in flight goes on. */
  lemma {:induction false} NothingIsCalledAfterStop(w: World, later: seq<Action>)
    requires StopReached(w.runLog) != Some(false)
    requires ReducerOrder.StrictlyOrdered(Execute(w, later).runLog)
    ensures StopReached(Execute(w, later).runLog) != Some(false)
    ensures Busy(Execute(w, later)) <= Busy(w)
    ensures forall k | 0 <= k < |later| ::
              || Execute(w, later[..k + 1]).history == Execute(w, later[..k]).history
              || (!later[k].RecordRunEvent? && later[k].who in Busy(w))
  {
    hide Perform, Busy, StopReached;
    if later != [] {
      var init, last := later[..|later| - 1], later[|later| - 1];
      var v := Execute(w, init);
      PerformGrowsRunLog(v, last);
      NothingIsCalledAfterStop(w, init);
      forall k | 0 <= k < |later|
        ensures || Execute(w, later[..k + 1]).history == Execute(w, later[..k]).history
                || (!later[k].RecordRunEvent? && later[k].who in Busy(w))
      {
        if k < |init| {
          assert later[..k + 1] == init[..k + 1] && later[..k] == init[..k] && later[k] == init[k];
        } else {
          assert later[..k + 1] == later && later[..k] == init;
          if !last.RecordRunEvent? {
            StoppedStep(v, last);
          } else {
            RecordingIsQuiet(v, last);
          }
        }
      }
      if last.RecordRunEvent? {
        StopStays(v.runLog, last.runEvent);
        RecordingIsQuiet(v, last);
      } else {
        StoppedStep(v, last);
      }
    }
  }

  lemma RecordingIsQuiet(w: World, a: Action)
    requires a.RecordRunEvent?
    ensures Perform(w, a).history == w.history && Busy(Perform(w, a)) == Busy(w)
  {
  }

  /** With no worker in flight at the boundary, the provider is never called again. */
  lemma {:induction false} SilenceAfterStop(w: World, later: seq<Action>)
    requires StopReached(w.runLog) != Some(false) && Busy(w) == {}
    requires ReducerOrder.StrictlyOrdered(Execute(w, later).runLog)
    ensures Execute(w, later).history == w.history
  {
    hide Perform, Busy, StopReached;
    if later != [] {
      PerformGrowsRunLog(Execute(w, later[..|later| - 1]), later[|later| - 1]);
      SilenceAfterStop(w, later[..|later| - 1]);
      NothingIsCalledAfterStop(w, later);
      assert later[..|later|] == later;
    }
  }

  lemma PerformGrowsRunLog(w: World, a: Action)
    ensures Perform(w, a).runLog == if a.RecordRunEvent? then w.runLog + [a.runEvent] else w.runLog
    ensures ReducerOrder.StrictlyOrdered(Perform(w, a).runLog) ==> ReducerOrder.StrictlyOrdered(w.runLog)
  {
    var v := Perform(w, a);
    assert forall i | 0 <= i < |w.runLog| :: v.runLog[i] == w.runLog[i];
  }

  // ---------- Exactly when the follow-up task is dispatched ----------

  /** The binding that the `i`-th action of the run gave its worker; none unless it is a `Bind` that succeeded. */
  ghost function BindingGiven(actions: seq<Action>, i: nat): Option<Pc>
    requires i < |actions|
  {
    var w := Execute(INITIAL, actions[..i]);
    if actions[i].Bind? && actions[i].who in w.workers && w.workers[actions[i].who].Admitted?
       && BindingHolds(w.runLog, w.workers[actions[i].who].event)
    then Some(Bound(w.workers[actions[i].who].event, KeyOf(w.workers[actions[i].who].event)))
    else None
  }

  /** The `i`-th action reads a binding behind the stop boundary, and the `j`-th lets that worker, which still
      holds it, claim under it. */
  ghost predicate Slips(actions: seq<Action>, i: nat, j: nat) {
    && i < j < |actions|
    && BindingGiven(actions, i).Some? && StopReached(Execute(INITIAL, actions[..i]).runLog) == Some(true)
    && actions[j].Claim? && actions[j].who == actions[i].who
    && Execute(INITIAL, actions[..j]).Standing(actions[j].who) == BindingGiven(actions, i)
    && actions[j].freshId !in Execute(INITIAL, actions[..j]).State().intents
  }

  lemma {:induction false} RunGrows(actions: seq<Action>, n: nat)
    requires n <= |actions|
    ensures Execute(INITIAL, actions[..n]).runLog <= Execute(INITIAL, actions).runLog
    ensures Execute(INITIAL, actions[..n]).log <= Execute(INITIAL, actions).log
    ensures ReducerOrder.StrictlyOrdered(Execute(INITIAL, actions).runLog) ==> ReducerOrder.StrictlyOrdered(Execute(INITIAL, actions[..n]).runLog)
    decreases |actions|
  {
    hide EffectOf;
    if n == |actions| {
      assert actions[..n] == actions;
    } else {
      var init := actions[..|actions| - 1];
      assert init[..n] == actions[..n];
      RunGrows(init, n);
      PerformGrowsRunLog(Execute(INITIAL, init), actions[|init|]);
    }
  }

  /** Where a worker stands after an action that is not its own. */
  lemma {:induction false} OthersStand(w: World, a: Action, who: nat)
    requires a.RecordRunEvent? || a.who != who
    ensures Perform(w, a).Standing(who) == w.Standing(who)
  {
    hide EffectOf;
  }

  /** A worker that holds a binding got it from one `Bind` and holds it as it got it. */
  lemma {:induction false} BindingWasGiven(actions: seq<Action>, who: nat) returns (i: nat)
    requires who in Execute(INITIAL, actions).workers && Execute(INITIAL, actions).workers[who].Bound?
    ensures i < |actions| && !actions[i].RecordRunEvent? && actions[i].who == who
    ensures BindingGiven(actions, i) == Execute(INITIAL, actions).Standing(who)
  {
    hide EffectOf, KeepsLog, KeepsDriver, NotesFit, Claims, Invariant, BindingHolds;
    var init, last := actions[..|actions| - 1], actions[|actions| - 1];
    var w := Execute(INITIAL, init);
    if last.RecordRunEvent? || last.who != who || w.Standing(who) == Execute(INITIAL, actions).Standing(who) {
      if last.RecordRunEvent? || last.who != who {
        OthersStand(w, last, who);
      }
      i := BindingWasGiven(init, who);
      assert init[i] == actions[i] && init[..i] == actions[..i];
    } else {
      ExecuteIsSafe(init, 0);
      EffectIsPermitted(w, last, 0);
      i := |init|;
    }
  }

  /** Every dispatch intent was claimed by a worker holding its key. */
  lemma {:induction false} IntentWasClaimed(actions: seq<Action>, id: nat) returns (j: nat)
    requires var s := Execute(INITIAL, actions).State(); id in s.intents && s.intents[id].operation == DispatchTask
    ensures j < |actions| && actions[j].Claim?
    ensures var w := Execute(INITIAL, actions[..j]);
            && actions[j].freshId !in w.State().intents && actions[j].who in w.workers && w.workers[actions[j].who].Bound?
            && w.workers[actions[j].who].key == Execute(INITIAL, actions).State().intents[id].dedupeKey
  {
    hide EffectOf, KeepsLog, KeepsDriver, NotesFit, Enters, Claims, Invariant;
    var init, last := actions[..|actions| - 1], actions[|actions| - 1];
    var w := Execute(INITIAL, init);
    ExecuteIsSafe(init, 0);
    if id in w.State().intents {
      ActionKeepsIdentity(w, last, id);
      j := IntentWasClaimed(init, id);
      assert init[j] == actions[j] && init[..j] == actions[..j];
    } else {
      assert !last.RecordRunEvent?;
      EffectIsPermitted(w, last, 0);
      var e := EffectOf(w, last);
      if e == Stay(w, last.who) {
        StayingChangesNothing(w, last.who);
      } else {
        LogIsKept(w, last.who, e);
        IntentsAfter(w, last, e, id);
      }
      j := |init|;
    }
  }

  lemma {:induction false} ActionKeepsIdentity(w: World, a: Action, id: nat)
    requires Invariant(w) && id in w.State().intents
    ensures id in Perform(w, a).State().intents && w.State().intents[id].SameIdentity(Perform(w, a).State().intents[id])
  {
    hide EffectOf, KeepsLog, KeepsDriver, NotesFit, Enters, Claims, Invariant;
    if a.RecordRunEvent? {
      assert Perform(w, a).State() == w.State();
    } else {
      EffectIsPermitted(w, a, 0);
      var e := EffectOf(w, a);
      if e == Stay(w, a.who) {
        StayingChangesNothing(w, a.who);
      } else {
        LogIsKept(w, a.who, e);
        IntentsAfter(w, a, e, id);
      }
    }
  }

  /** After an enabled claim some intent has the bound key. */
  lemma {:induction false} ClaimLeavesItsKey(w: World, a: Action) returns (id: nat)
    requires Invariant(w) && a.Claim? && a.who in w.workers && w.workers[a.who].Bound? && a.freshId !in w.State().intents
    ensures id in Perform(w, a).State().intents && Perform(w, a).State().intents[id].dedupeKey == w.workers[a.who].key
  {
    hide GoodLog, Legal;
    var Bound(event, key) := w.workers[a.who];
    var proposed := NewIntent(a.freshId, a.freshCorrelation, key, DispatchTask, event.taskId, event.headSha, event.branch);
    ClaimIsLegal(w.State(), proposed, a.now);
    var (record, intent) := ClaimOutcome(w.State(), proposed, a.now);
    if record.None? {
      id :| id in w.State().intents && w.State().intents[id] == intent;
    } else {
      id := a.freshId;
      assert (w.log + [record.value])[..|w.log|] == w.log;
    }
  }

  lemma {:induction false} SlipDispatchesTheFollowUp(actions: seq<Action>, i: nat, j: nat)
    requires ReducerOrder.StrictlyOrdered(Execute(INITIAL, actions).runLog) && Execute(INITIAL, actions).runLog != []
    requires Slips(actions, i, j)
    ensures var w := Execute(INITIAL, actions); DispatchIntents(w.State(), false, w.runLog[0].taskId) != {}
  {
    hide Perform, StopReached, Invariant, KeysBound, Reducer.Reduce;
    var w, v := Execute(INITIAL, actions[..i]), Execute(INITIAL, actions[..j]);
    var key := v.workers[actions[j].who].key;
    RunGrows(actions, i);
    BindingBinds(w.runLog, w.workers[actions[i].who].event);
    BehindTheStopOnlyTheFollowUpBinds(w.runLog, key);
    ExecuteKeepsBound(actions[..j]);
    var id := ClaimLeavesItsKey(v, actions[j]);
    ExecuteAppend(INITIAL, actions[..j], actions[j]);
    assert actions[..j] + [actions[j]] == actions[..j + 1];
    KeyStays(actions, j + 1, id, key);
    assert w.runLog[0] == Execute(INITIAL, actions).runLog[0];
    assert id in DispatchIntents(Execute(INITIAL, actions).State(), false, w.runLog[0].taskId);
  }

  /** A dispatch key in the store at some moment is the key of a dispatch intent at the end. */
  lemma {:induction false} KeyStays(actions: seq<Action>, n: nat, id: nat, key: DedupeKey)
    requires n <= |actions| && key.DispatchKey?
    requires var s := Execute(INITIAL, actions[..n]).State(); id in s.intents && s.intents[id].dedupeKey == key
    ensures var s := Execute(INITIAL, actions).State();
            id in s.intents && s.intents[id].dedupeKey == key && s.intents[id].operation == DispatchTask
  {
    var w, v := Execute(INITIAL, actions[..n]), Execute(INITIAL, actions);
    RunGrows(actions, n);
    ExecuteKeepsBound(actions);
    assert v.log[..|w.log|] == w.log;
    IntentsOnlyMoveForward(v.log, |w.log|, id);
  }

  lemma {:induction false} FollowUpWasSlipped(actions: seq<Action>, id: nat) returns (i: nat, j: nat)
    requires ReducerOrder.StrictlyOrdered(Execute(INITIAL, actions).runLog) && Execute(INITIAL, actions).runLog != []
    requires var w := Execute(INITIAL, actions); id in DispatchIntents(w.State(), false, w.runLog[0].taskId)
    ensures Slips(actions, i, j)
  {
    hide Perform, StopReached, Reducer.Reduce;
    j := IntentWasClaimed(actions, id);
    i := BindingWasGiven(actions[..j], actions[j].who);
    assert actions[..j][..i] == actions[..i] && actions[..j][i] == actions[i];
    var w := Execute(INITIAL, actions[..i]);
    RunGrows(actions, i);
    BindingBinds(w.runLog, w.workers[actions[i].who].event);
    BehindTheStopOnlyTheFollowUpBinds(w.runLog, KeyOf(w.workers[actions[i].who].event));
  }

  /** The follow-up task is dispatched if and only if some handler read its binding behind the stop boundary, having
      passed the stop check before, and lived to claim. */
  lemma {:induction false} FollowUpIsDispatchedExactlyByASlip(actions: seq<Action>)
    requires ReducerOrder.StrictlyOrdered(Execute(INITIAL, actions).runLog) && Execute(INITIAL, actions).runLog != []
    ensures var w := Execute(INITIAL, actions);
            DispatchIntents(w.State(), false, w.runLog[0].taskId) != {} <==> exists i, j :: Slips(actions, i, j)
  {
    hide Slips, DispatchIntents, Execute;
    var w := Execute(INITIAL, actions);
    if DispatchIntents(w.State(), false, w.runLog[0].taskId) != {} {
      var id :| id in DispatchIntents(w.State(), false, w.runLog[0].taskId);
      var i, j := FollowUpWasSlipped(actions, id);
    }
    if i, j :| Slips(actions, i, j) {
      SlipDispatchesTheFollowUp(actions, i, j);
    }
  }

  /** Without a slip every dispatch intent ever claimed is the initial task's, so there are at most four in all. */
  lemma {:induction false} BeforeTheStopOnlyTheInitialTaskIsDispatched(actions: seq<Action>, repository: string)
    requires OneRepository(actions, repository) && !exists i, j :: Slips(actions, i, j)
    requires ReducerOrder.StrictlyOrdered(Execute(INITIAL, actions).runLog) && Execute(INITIAL, actions).runLog != []
    ensures var w := Execute(INITIAL, actions);
            && DispatchIntents(w.State(), false, w.runLog[0].taskId) == {}
            && |set id | id in w.State().intents && w.State().intents[id].operation == DispatchTask| <= 4
  {
    var w := Execute(INITIAL, actions);
    FollowUpIsDispatchedExactlyByASlip(actions);
    ExecuteKeepsBound(actions);
    ExecuteKeepsFrom(actions, repository);
    InitialIntentsAreFour(w, repository);
    assert (set id | id in w.State().intents && w.State().intents[id].operation == DispatchTask)
        == DispatchIntents(w.State(), true, w.runLog[0].taskId) + DispatchIntents(w.State(), false, w.runLog[0].taskId);
  }

  // ---------- A run in which it slips through ----------

  function Recordings(n: nat): seq<Action> {
    seq(n, i requires 0 <= i => RecordRunEvent(ReducerHistory.LongestEvent(i, "a", "b", "")))
  }

  lemma {:induction false} RecordingsRun(n: nat)
    ensures Execute(INITIAL, Recordings(n)) == World(ReducerHistory.LongestLog(n, "a", "b", ""), [], map[], [])
  {
    if n == 0 {
      assert Recordings(0) == [] && ReducerHistory.LongestLog(0, "a", "b", "") == [];
    } else {
      RecordingsRun(n - 1);
      assert Recordings(n)[..n - 1] == Recordings(n - 1);
      assert ReducerHistory.LongestLog(n, "a", "b", "")
          == ReducerHistory.LongestLog(n - 1, "a", "b", "") + [ReducerHistory.LongestEvent(n - 1, "a", "b", "")];
    }
  }

  function SlippingEvent(): Event {
    Event("d", "r", Some("b"), Some(1), Some(""), None, true)
  }

  /** A handler screened just before the follow-up task is created and bound just after it claims an intent for
      that task and calls the provider, although the boundary is active when it does. */
  function SlippingRun(): seq<Action> {
    Recordings(17)
      + [Screen(0, SlippingEvent())]
      + [Remember(0, 0)]
      + [RecordRunEvent(ReducerHistory.LongestEvent(17, "a", "b", ""))]
      + [Bind(0)]
      + [Claim(0, 0, 0, 0)]
      + [Arm(0, 0)]
      + [Run(0, None)]
  }

  function SlippingIntent(): Intent {
    NewIntent(0, 0, DispatchKey("r", "b", 1, ""), DispatchTask, Some("b"), None, Some(""))
  }

  lemma SlipScreen(runLog: seq<Reducer.RunEvent>)
    requires StopReached(runLog) == Some(false)
    ensures Perform(World(runLog, [], map[], []), Screen(0, SlippingEvent()))
         == World(runLog, [], map[0 := Screened(SlippingEvent())], [])
  {
  }

  lemma SlipRemember(runLog: seq<Reducer.RunEvent>)
    ensures Perform(World(runLog, [], map[0 := Screened(SlippingEvent())], []), Remember(0, 0))
         == World(runLog, [DeliverySeen("d", 0)], map[0 := Pc.Admitted(SlippingEvent())], [])
  {
  }

  lemma SlipBind(runLog: seq<Reducer.RunEvent>)
    requires BindingHolds(runLog, SlippingEvent())
    ensures Perform(World(runLog, [DeliverySeen("d", 0)], map[0 := Pc.Admitted(SlippingEvent())], []), Bind(0))
         == World(runLog, [DeliverySeen("d", 0)], map[0 := Bound(SlippingEvent(), SlippingIntent().dedupeKey)], [])
  {
  }

  lemma SlipClaim(runLog: seq<Reducer.RunEvent>)
    ensures Perform(World(runLog, [DeliverySeen("d", 0)], map[0 := Bound(SlippingEvent(), SlippingIntent().dedupeKey)], []), Claim(0, 0, 0, 0))
         == World(runLog, [DeliverySeen("d", 0), IntentRecord(StatusKind(Claimed), 0, SlippingIntent())],
                  map[0 := HoldsClaim(SlippingIntent())], [])
  {
    var w := World(runLog, [DeliverySeen("d", 0)], map[0 := Bound(SlippingEvent(), SlippingIntent().dedupeKey)], []);
    assert w.log[..0] == [] && w.State() == State({"d"}, map[]);
  }

  lemma SlipArm(runLog: seq<Reducer.RunEvent>)
    ensures var log := [DeliverySeen("d", 0), IntentRecord(StatusKind(Claimed), 0, SlippingIntent())];
            var v := Perform(World(runLog, log, map[0 := HoldsClaim(SlippingIntent())], []), Arm(0, 0));
            && v.runLog == runLog && v.history == []
            && v.workers == map[0 := HandlerArmed(SlippingIntent().(status := Running, version := 2))]
            && v.State() == State({"d"}, map[0 := SlippingIntent().(status := Running, version := 2)])
  {
    var log := [DeliverySeen("d", 0), IntentRecord(StatusKind(Claimed), 0, SlippingIntent())];
    var w := World(runLog, log, map[0 := HoldsClaim(SlippingIntent())], []);
    assert log[..1] == [DeliverySeen("d", 0)] && log[..1][..0] == [];
    assert Replay(log[..1]) == State({"d"}, map[]);
    assert w.State() == State({"d"}, map[0 := SlippingIntent()]);
    assert Perform(w, Arm(0, 0)).log[..2] == log;
  }

  lemma SlipRun(w: World, intent: Intent)
    requires w.workers == map[0 := HandlerArmed(intent)] && w.history == []
    ensures var v := Perform(w, Run(0, None));
            v.runLog == w.runLog && v.log == w.log && v.history == [RunCalled(intent.id), RunRefused(intent.id)]
  {
  }

  lemma SlipRecord(runLog: seq<Reducer.RunEvent>, event: Reducer.RunEvent)
    ensures Perform(World(runLog, [DeliverySeen("d", 0)], map[0 := Pc.Admitted(SlippingEvent())], []), RecordRunEvent(event))
         == World(runLog + [event], [DeliverySeen("d", 0)], map[0 := Pc.Admitted(SlippingEvent())], [])
  {
  }

  /** The run up to the moment the follow-up task exists, the handler already past its stop check. */
  lemma SlipsUpToTheBoundary()
    ensures Execute(INITIAL, Recordings(17) + [Screen(0, SlippingEvent())] + [Remember(0, 0)]
                             + [RecordRunEvent(ReducerHistory.LongestEvent(17, "a", "b", ""))])
         == World(ReducerHistory.LongestLog(18, "a", "b", ""), [DeliverySeen("d", 0)], map[0 := Pc.Admitted(SlippingEvent())], [])
  {
    hide *;
    var open, last := ReducerHistory.LongestLog(17, "a", "b", ""), ReducerHistory.LongestEvent(17, "a", "b", "");
    RecordingsRun(17);
    OpenAtSeventeen();
    SlipScreen(open);
    SlipRemember(open);
    SlipRecord(open, last);
    ExecuteAppend(INITIAL, Recordings(17), Screen(0, SlippingEvent()));
    ExecuteAppend(INITIAL, Recordings(17) + [Screen(0, SlippingEvent())], Remember(0, 0));
    ExecuteAppend(INITIAL, Recordings(17) + [Screen(0, SlippingEvent())] + [Remember(0, 0)], RecordRunEvent(last));
    LongestLogEnds();
  }

  lemma LongestLogEnds()
    ensures ReducerHistory.LongestLog(18, "a", "b", "")
         == ReducerHistory.LongestLog(17, "a", "b", "") + [ReducerHistory.LongestEvent(17, "a", "b", "")]
  {
  }

  lemma {:induction false} OpenAtSeventeen()
    ensures StopReached(ReducerHistory.LongestLog(17, "a", "b", "")) == Some(false)
    ensures StopReached(ReducerHistory.LongestLog(18, "a", "b", "")) == Some(true)
    ensures BindingHolds(ReducerHistory.LongestLog(18, "a", "b", ""), SlippingEvent())
  {
    ReducerHistory.BoundaryOpensAndCloses("a", "b", "");
  }

  /** It does happen: this run dispatches the follow-up task with the boundary active. */
  lemma {:induction false} FollowUpCanSlipThrough()
    ensures OneRepository(SlippingRun(), "r")
    ensures var w := Execute(INITIAL, SlippingRun());
            && ReducerOrder.StrictlyOrdered(w.runLog) && w.runLog != []
            && DispatchIntents(w.State(), false, w.runLog[0].taskId) != {}
            && StopReached(w.runLog) == Some(true)
            && RunCalled(0) in w.history
  {
    hide Execute, Perform, StopReached, BindingHolds, Replay;
    var closed := ReducerHistory.LongestLog(18, "a", "b", "");
    var before := Recordings(17) + [Screen(0, SlippingEvent())] + [Remember(0, 0)]
                  + [RecordRunEvent(ReducerHistory.LongestEvent(17, "a", "b", ""))];
    SlipsUpToTheBoundary();
    OpenAtSeventeen();
    SlipBind(closed);
    SlipClaim(closed);
    SlipArm(closed);
    ExecuteAppend(INITIAL, before, Bind(0));
    ExecuteAppend(INITIAL, before + [Bind(0)], Claim(0, 0, 0, 0));
    ExecuteAppend(INITIAL, before + [Bind(0)] + [Claim(0, 0, 0, 0)], Arm(0, 0));
    SlipRun(Execute(INITIAL, before + [Bind(0)] + [Claim(0, 0, 0, 0)] + [Arm(0, 0)]), SlippingIntent().(status := Running, version := 2));
    ExecuteAppend(INITIAL, before + [Bind(0)] + [Claim(0, 0, 0, 0)] + [Arm(0, 0)], Run(0, None));
    assert Execute(INITIAL, SlippingRun()).runLog == closed;
    ReducerHistory.LongestLogIsStrict(18, "a", "b", "");
    assert 0 in DispatchIntents(Execute(INITIAL, SlippingRun()).State(), false, closed[0].taskId);
  }
}
