/**
  At-most-once dispatch: over every interleaving of event handlers and recovery workers, with crashes
  anywhere, the provider runs an intent at most once more than the number of times the intent was handed
  back after the provider refused it and knew nothing of it.
 */
module DispatcherSafety {
  import opened Wrappers
  import opened DispatcherStore
  import opened DispatcherLog
  import opened DispatcherWorkers
  import opened DispatcherInvariant

  /** At-most-once dispatch, for every run and every intent: the provider is run at most once more than the
      intent was handed back from running to claimed; each hand-back is backed by its own reconciliation that
      found nothing, and each of those by its own ProviderError. */
  lemma {:induction false} AtMostOnceDispatch(actions: seq<Action>, id: nat)
    ensures var w := Execute(INITIAL, actions);
            && Times(w.history, RunCalled(id)) <= 1 + HandBacks(w.log, id)
            && HandBacks(w.log, id) <= Times(w.history, NothingFound(id)) <= Times(w.history, RunRefused(id))
            && Times(w.history, RunCalled(id)) <= 1 + Times(w.history, RunRefused(id))
  {
    ExecuteIsSafe(actions, id);
    ArmingsFollowHandBacks(Execute(INITIAL, actions).log, id);
  }

  /** Nobody can run this intent any more. */
  ghost predicate Settled(w: World, id: nat) {
    && !IdleOrClaimed(w.State(), id)
    && forall u | u in w.workers :: !w.workers[u].MayRerun(id)
  }

  /** A crash of the worker that drives a running intent, at any point from the running record on, settles it. */
  lemma {:induction false} CrashSettles(actions: seq<Action>, who: nat, id: nat)
    requires var w := Execute(INITIAL, actions); who in w.workers && w.workers[who].Drives(id)
    ensures Settled(Execute(INITIAL, actions + [Crash(who)]), id)
  {
    var w := Execute(INITIAL, actions);
    ExecuteIsSafe(actions, id);
    ExecuteAppend(INITIAL, actions, Crash(who));
    assert Execute(INITIAL, actions + [Crash(who)]).workers == w.workers - {who};
    assert forall u | u in w.workers && u != who :: !w.workers[u].Drives(id);
  }

  /** What is permitted never wakes a settled intent: it takes a worker that may run it to call the provider for
      it or to hand it back, and a claimed intent to arm a new one. */
  lemma {:induction false} PermittedStaysSettled(w: World, a: Action, e: Effect, id: nat)
    requires Invariant(w) && Settled(w, id) && !a.RecordRunEvent? && Permitted(w, a, e, id)
    ensures var v := Afterwards(w, a.who, e);
            Settled(v, id) && Times(v.history, RunCalled(id)) == Times(w.history, RunCalled(id))
  {
    hide GoodLog, Enters, Claims, BindingHolds, StopReached;
    if e == Stay(w, a.who) {
      StayingChangesNothing(w, a.who);
    } else {
      LogIsKept(w, a.who, e);
      TimesConcat(w.history, e.noted, RunCalled(id));
      if e.noted != [] {
        TimesOfNotes(w.workers[a.who].intent.id, RunCalled(id));
      }
    }
  }

  lemma {:induction false} PerformStaysSettled(w: World, a: Action, id: nat)
    requires Invariant(w) && Settled(w, id)
    ensures Settled(Perform(w, a), id) && Times(Perform(w, a).history, RunCalled(id)) == Times(w.history, RunCalled(id))
  {
    hide EffectOf, Permitted, Invariant;
    if a.RecordRunEvent? {
      assert Perform(w, a).State() == w.State();
    } else {
      EffectIsPermitted(w, a, id);
      PermittedStaysSettled(w, a, EffectOf(w, a), id);
    }
  }

  /** An intent left running by a crash of its driver is never run again, whatever happens afterwards. */
  lemma {:induction false} CrashedIntentIsNeverRunAgain(actions: seq<Action>, who: nat, id: nat, later: seq<Action>)
    requires var w := Execute(INITIAL, actions); who in w.workers && w.workers[who].Drives(id)
    ensures var crashed, after := Execute(INITIAL, actions + [Crash(who)]), Execute(INITIAL, actions + [Crash(who)] + later);
            && Settled(after, id)
            && Times(after.history, RunCalled(id)) == Times(crashed.history, RunCalled(id))
    decreases |later|
  {
    var start := actions + [Crash(who)];
    if later == [] {
      CrashSettles(actions, who, id);
      assert start + later == start;
    } else {
      var init, last := later[..|later| - 1], later[|later| - 1];
      CrashedIntentIsNeverRunAgain(actions, who, id, init);
      ExecuteIsSafe(start + init, id);
      PerformStaysSettled(Execute(INITIAL, start + init), last, id);
      assert start + later == (start + init) + [last];
      ExecuteAppend(INITIAL, start + init, last);
    }
  }
}