/**
 * The invariants of the sequencer's bookkeeping, stated on values: the record
 * list, the host's armed timers and next timer id, and the executor's running
 * transitions. One lemma per step of the `Laser` class (appending a record,
 * `play`, a fired offset timer, the `complete` callback, scheduling `stop`,
 * the stop sweep) shows the step keeps them.
 */
module Lifecycle {
  import opened Records
  import opened JsArray

  /**
   * Structural well-formedness: ids are list positions, every armed timer id is
   * below the next one handed out, an offset timer names an existing record,
   * and a running transition runs on its record's element.
   */
  ghost predicate WellFormed(anims: seq<Animation>, timers: map<TimerId, Timer>, next: TimerId, running: seq<Transition>) {
    && IdsAreIndices(anims)
    && (forall t :: t in timers ==> t < next)
    && (forall t :: t in timers && timers[t].Offset? ==> timers[t].record < |anims|)
    && (forall x :: x in running ==> x.record < |anims| && x.elem == anims[x.record].elem)
  }

  /** Timer t is the current offset timer of the `ON_STACK` record j. */
  ghost predicate ArmedFor(anims: seq<Animation>, j: nat, t: TimerId) {
    j < |anims| && anims[j].state == OnStack && anims[j].timeout == Some(t)
  }

  /**
   * The accounting invariant: `remaining` = #ON_STACK + #STOPPED; each armed
   * offset timer is its `ON_STACK` record's current timer; each running
   * transition belongs to an `ON_STACK` record whose timer has fired; no record
   * has two transitions running. Hence an `ON_STACK` record completes at most once.
   */
  ghost predicate Accounted(anims: seq<Animation>, remaining: int, timers: map<TimerId, Timer>, running: seq<Transition>) {
    && remaining == Count(anims, OnStack) + Count(anims, Stopped)
    && (forall t :: t in timers && timers[t].Offset? ==> ArmedFor(anims, timers[t].record, t))
    && (forall x :: x in running ==> x.record < |anims| && anims[x.record].state == OnStack)
    && (forall t, x :: t in timers && timers[t].Offset? && x in running ==> x.record != timers[t].record)
    && DistinctRecords(running)
  }

  /** No record has two transitions in the list. */
  ghost predicate DistinctRecords(running: seq<Transition>) {
    forall a, b :: 0 <= a < b < |running| ==> running[a].record != running[b].record
  }

  /** Taking one transition out of a list without repeated records leaves none for its record. */
  lemma RemoveAtDistinct(running: seq<Transition>, k: nat)
    requires k < |running| && DistinctRecords(running)
    ensures var left := running[..k] + running[k + 1..];
      && DistinctRecords(left)
      && forall y :: y in left ==> y in running && y.record != running[k].record
  {
    var left := running[..k] + running[k + 1..];
    forall m | 0 <= m < |left|
      ensures left[m] == running[if m < k then m else m + 1]
    {
    }
  }

  /** Nothing pending: no offset timer armed and no transition running. */
  ghost predicate Quiet(timers: map<TimerId, Timer>, running: seq<Transition>) {
    (forall t :: t in timers ==> timers[t].Sweep?) && running == []
  }

  /** `add` appends an unset record with the next id: both invariants are kept. */
  lemma AppendKeeps(anims: seq<Animation>, timers: map<TimerId, Timer>, next: TimerId,
                    running: seq<Transition>, remaining: int, rec: Animation)
    requires WellFormed(anims, timers, next, running)
    requires rec.id == |anims| && rec.state == Unset
    ensures WellFormed(anims + [rec], timers, next, running)
    ensures Accounted(anims, remaining, timers, running) ==> Accounted(anims + [rec], remaining, timers, running)
  {
    var s := anims + [rec];
    assert forall j :: 0 <= j < |anims| ==> s[j] == anims[j];
    CountAppend(anims, rec, OnStack);
    CountAppend(anims, rec, Stopped);
  }

  /** The timer table after `play`: the old timers, plus record j's offset timer under id next + j. */
  lemma PlayArmed(anims: seq<Animation>, timers: map<TimerId, Timer>, next: TimerId)
    ensures var ot := OffsetTimers(anims, next, |anims|);
      forall t :: t in timers + ot ==>
        if t in ot then next <= t < next + |anims| && (timers + ot)[t] == Offset(t - next, anims[t - next].when)
        else (timers + ot)[t] == timers[t]
  {
    var ot := OffsetTimers(anims, next, |anims|);
    OffsetTimersAt(anims, next, |anims|);
    forall t | t in ot
      ensures (timers + ot)[t] == Offset(t - next, anims[t - next].when)
    {
      var j := t - next;
      assert ot[next + j] == Offset(j, anims[j].when);
    }
  }

  /**
   * `play` dispatches every record with consecutive timer ids. Started from a
   * quiet state, with `remaining` = n, the accounting invariant holds.
   */
  lemma PlayKeeps(anims: seq<Animation>, timers: map<TimerId, Timer>, next: TimerId, running: seq<Transition>)
    requires WellFormed(anims, timers, next, running)
    ensures var played := DispatchedAll(anims, next);
      var armed := timers + OffsetTimers(anims, next, |anims|);
      && WellFormed(played, armed, next + |anims|, running)
      && (Quiet(timers, running) ==> Accounted(played, |anims|, armed, running))
  {
    var played := DispatchedAll(anims, next);
    var armed := timers + OffsetTimers(anims, next, |anims|);
    PlayArmed(anims, timers, next);
    OffsetTimersAt(anims, next, |anims|);
    assert WellFormed(played, armed, next + |anims|, running);
    if Quiet(timers, running) {
      PlayAccounted(anims, timers, next);
    }
  }

  /** The accounting half of `PlayKeeps`: from no pending offset timer, every record is armed by its own. */
  lemma PlayAccounted(anims: seq<Animation>, timers: map<TimerId, Timer>, next: TimerId)
    requires forall t :: t in timers ==> timers[t].Sweep?
    ensures var played := DispatchedAll(anims, next);
      Accounted(played, |anims|, timers + OffsetTimers(anims, next, |anims|), [])
  {
    var played := DispatchedAll(anims, next);
    var offsets := OffsetTimers(anims, next, |anims|);
    var armed := timers + offsets;
    OffsetTimersAt(anims, next, |anims|);
    CountAll(played, OnStack);
    CountZero(played, Stopped);
    forall t | t in armed && armed[t].Offset?
      ensures ArmedFor(played, armed[t].record, t)
    {
      assert t in offsets;
      assert armed[t] == offsets[t] == Offset(t - next, anims[t - next].when);
    }
  }

  /**
   * A record's offset timer t fires: t is disarmed and one transition for its
   * record starts running. Both invariants are kept.
   */
  lemma FireKeeps(anims: seq<Animation>, timers: map<TimerId, Timer>, next: TimerId,
                  running: seq<Transition>, remaining: int, t: TimerId)
    requires WellFormed(anims, timers, next, running) && t in timers && timers[t].Offset?
    ensures var i := timers[t].record;
      var started := running + [Transition(i, anims[i].elem)];
      && WellFormed(anims, timers - {t}, next, started)
      && (Accounted(anims, remaining, timers, running) ==> Accounted(anims, remaining, timers - {t}, started))
  {
    var i := timers[t].record;
    var started := running + [Transition(i, anims[i].elem)];
    if Accounted(anims, remaining, timers, running) {
      forall a, b | 0 <= a < b < |started|
        ensures started[a].record != started[b].record
      {
        if b == |running| {
          assert started[a] in running;
        } else {
          assert started[a] == running[a] && started[b] == running[b];
        }
      }
      forall t', x | t' in timers - {t} && timers[t'].Offset? && x in started
        ensures x.record != timers[t'].record
      {
        if x !in running {
          assert ArmedFor(anims, i, t) && ArmedFor(anims, timers[t'].record, t');
        }
      }
    }
  }

  /**
   * The `complete` callback for record i: the record becomes `COMPLETE`, its
   * running transition ends and its timer is cleared. The structure stays well formed.
   */
  lemma CompleteKeeps(anims: seq<Animation>, timers: map<TimerId, Timer>, next: TimerId,
                      running: seq<Transition>, i: nat)
    requires WellFormed(anims, timers, next, running)
    requires i < |anims| && Transition(i, anims[i].elem) in running
    ensures WellFormed(anims[i := anims[i].(state := Complete)], Cleared(timers, anims[i].timeout),
                       next, Without(running, Transition(i, anims[i].elem)))
  {
    WithoutMembers(running, Transition(i, anims[i].elem));
  }

  /**
   * The accounting side of the `complete` callback: with `remaining` dropping
   * by one the invariant is kept, and while some record is `STOPPED` the new
   * `remaining` is still positive, so `sequence:completed` cannot fire. When it
   * does reach 0, nothing is left pending.
   */
  lemma CompleteAccounted(anims: seq<Animation>, timers: map<TimerId, Timer>, next: TimerId,
                          running: seq<Transition>, remaining: int, i: nat)
    requires WellFormed(anims, timers, next, running) && Accounted(anims, remaining, timers, running)
    requires i < |anims| && Transition(i, anims[i].elem) in running
    ensures Accounted(anims[i := anims[i].(state := Complete)], remaining - 1,
                      Cleared(timers, anims[i].timeout), Without(running, Transition(i, anims[i].elem)))
    ensures Count(anims, Stopped) > 0 ==> remaining - 1 > 0
    ensures remaining - 1 == 0 ==>
      Quiet(Cleared(timers, anims[i].timeout), Without(running, Transition(i, anims[i].elem)))
  {
    var done := anims[i := anims[i].(state := Complete)];
    assert anims[i].state == OnStack;
    CountUpdate(anims, i, done[i], OnStack);
    CountUpdate(anims, i, done[i], Stopped);
    CompleteArmed(anims, timers, i);
    CompleteRunning(anims, running, i);
    if remaining - 1 == 0 {
      ZeroMeansNothingPending(done, Cleared(timers, anims[i].timeout), Without(running, Transition(i, anims[i].elem)));
    }
  }

  /** The completed record's timer is cleared; every other armed offset timer still names its record. */
  lemma CompleteArmed(anims: seq<Animation>, timers: map<TimerId, Timer>, i: nat)
    requires i < |anims|
    requires forall t :: t in timers && timers[t].Offset? ==> ArmedFor(anims, timers[t].record, t)
    ensures var done := anims[i := anims[i].(state := Complete)];
      var cleared := Cleared(timers, anims[i].timeout);
      && (forall t :: t in cleared ==> t in timers && cleared[t] == timers[t])
      && (forall t :: t in cleared && cleared[t].Offset? ==> ArmedFor(done, cleared[t].record, t))
  {
    var done := anims[i := anims[i].(state := Complete)];
    var cleared := Cleared(timers, anims[i].timeout);
    forall t | t in cleared && cleared[t].Offset?
      ensures ArmedFor(done, cleared[t].record, t)
    {
      assert ArmedFor(anims, timers[t].record, t);
    }
  }

  /** The completed record's transition leaves; the others still run on `ON_STACK` records, one each. */
  lemma CompleteRunning(anims: seq<Animation>, running: seq<Transition>, i: nat)
    requires i < |anims| && Transition(i, anims[i].elem) in running
    requires forall x :: x in running ==> x.record < |anims| && anims[x.record].state == OnStack
    requires DistinctRecords(running)
    ensures var done := anims[i := anims[i].(state := Complete)];
      var left := Without(running, Transition(i, anims[i].elem));
      && (forall y :: y in left ==> y in running)
      && (forall y :: y in left ==> y.record < |done| && done[y.record].state == OnStack)
      && DistinctRecords(left)
  {
    var x := Transition(i, anims[i].elem);
    var done := anims[i := anims[i].(state := Complete)];
    var left := Without(running, x);
    WithoutPresent(running, x);
    RemoveAtDistinct(running, IndexOf(running, x));
    forall y | y in left
      ensures y.record < |done| && done[y.record].state == OnStack
    {
      assert y in running && y.record != i;
    }
  }

  /**
   * Under the accounting invariant, `remaining` = 0 leaves nothing pending: no
   * transition runs and only sweep timers are armed. So neither an offset timer
   * nor a completion callback can follow, and `sequence:completed` fires at most
   * once per `play`.
   */
  lemma ZeroMeansNothingPending(anims: seq<Animation>, timers: map<TimerId, Timer>, running: seq<Transition>)
    requires Accounted(anims, 0, timers, running)
    ensures running == [] && Quiet(timers, running)
  {
    assert running == [] || running[0] in running;
    CountZero(anims, OnStack);
  }

  /** `stop` only arms the sweep timer: both invariants are kept. */
  lemma ScheduleKeeps(anims: seq<Animation>, timers: map<TimerId, Timer>, next: TimerId,
                      running: seq<Transition>, remaining: int, delay: int)
    requires WellFormed(anims, timers, next, running)
    ensures WellFormed(anims, timers[next := Sweep(delay)], next + 1, running)
    ensures Accounted(anims, remaining, timers, running) ==> Accounted(anims, remaining, timers[next := Sweep(delay)], running)
  {
  }

  /**
   * The stop sweep t over the `ON_STACK` selection: records stopped, their
   * timers cleared, their elements halted. Both invariants are kept, with
   * `remaining` unchanged, and nothing is left pending.
   */
  lemma SweepKeeps(anims: seq<Animation>, timers: map<TimerId, Timer>, next: TimerId,
                   running: seq<Transition>, remaining: int, t: TimerId)
    requires WellFormed(anims, timers, next, running) && t in timers && timers[t].Sweep?
    ensures var sel := Where(anims, OnStack);
      var cleared := timers - {t} - TimeoutSet(sel);
      var left := Halted(running, ElemSet(sel));
      && WellFormed(StopAll(anims), cleared, next, left)
      && (Accounted(anims, remaining, timers, running) ==>
            Accounted(StopAll(anims), remaining, cleared, left) && Quiet(cleared, left))
  {
    var sel := Where(anims, OnStack);
    var cleared := timers - {t} - TimeoutSet(sel);
    var left := Halted(running, ElemSet(sel));
    var stopped := StopAll(anims);
    assert WellFormed(stopped, cleared, next, left);
    if Accounted(anims, remaining, timers, running) {
      WhereComplete(anims, OnStack);
      StopAllCounts(anims);
      forall t' | t' in cleared
        ensures cleared[t'].Sweep?
      {
        assert !timers[t'].Offset?;
      }
      forall y | y in running
        ensures y.elem in ElemSet(sel)
      {
        assert anims[y.record] in sel;
      }
      HaltedAll(running, ElemSet(sel));
    }
  }

  /**
   * Why `PlayKeeps` needs a quiet start: a second `play` before the first one's
   * offset timer fires re-dispatches the record with a new timer and overwrites
   * its `timeout`, so the first timer stays armed but is no longer the record's
   * current one. The accounting invariant fails, and the stop sweep, which
   * clears only the records' current timers, leaves the stale timer armed for a
   * record it has just marked `STOPPED`; when it fires, that record's
   * completion callback still decrements `remaining`.
   */
  lemma {:induction false} ReplayLeavesStaleTimer(rec: Animation)
    ensures var once := DispatchedAll([rec], 0);
      var twice := DispatchedAll(once, 1);
      var armed := OffsetTimers([rec], 0, 1) + OffsetTimers(once, 1, 1);
      var swept := armed - TimeoutSet(Where(twice, OnStack));
      && armed == map[0 := Offset(0, rec.when), 1 := Offset(0, rec.when)]
      && !Accounted(twice, 1, armed, [])
      && swept == map[0 := Offset(0, rec.when)]
      && StopAll(twice)[0].state == Stopped
  {
    var once := DispatchedAll([rec], 0);
    assert once == [Dispatched(rec, 0)];
    var twice := DispatchedAll(once, 1);
    assert twice == [Dispatched(rec, 1)];
    var first := OffsetTimers([rec], 0, 1);
    var second := OffsetTimers(once, 1, 1);
    OffsetTimersAt([rec], 0, 1);
    OffsetTimersAt(once, 1, 1);
    assert first.Keys == {0} && first[0] == Offset(0, rec.when);
    assert second.Keys == {1} && second[1] == Offset(0, rec.when);
    var armed := first + second;
    assert armed == map[0 := Offset(0, rec.when), 1 := Offset(0, rec.when)];
    assert !ArmedFor(twice, 0, 0);
    assert Where(twice, OnStack) == [twice[0]];
    assert TimeoutSet([twice[0]]) == {1} by {
      assert [twice[0]][..0] == [];
    }
    assert armed - {1} == map[0 := Offset(0, rec.when)];
  }
}
