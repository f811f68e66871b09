/**
 * The `Laser` sequencer of src/laser.js as a class whose fields are those of
 * the JavaScript instance (`cache`, `listeners`, `animations`, `remaining`,
 * `startedAt`, `finishedAt`). What the instance reaches outside itself is
 * explicit state: the process-wide easing dictionaries (`EasingRegistry`) and
 * the host (`Host`): armed `setTimeout` timers, the transitions the animation
 * executor is running, and the ordered log of effects the world observes.
 * The asynchronous parts are step methods the host invokes: `FireOffsetTimer`
 * (a record's offset timer), `Complete` (the executor's completion callback)
 * and `StopSweep` (the delayed body of `stop`). Clock readings are parameters.
 */
module Sequencer {
  import opened Records
  import opened JsArray
  import opened Lifecycle

  /** `$.cssEase` and `$.easing`, shared by every instance, and whether jQuery transit is loaded. */
  class EasingRegistry {
    var cssEase: map<string, string>
    var easing: map<string, Easing>
    const transit: bool

    constructor (transit: bool, cssEase: map<string, string>, easing: map<string, Easing>)
      ensures this.transit == transit && this.cssEase == cssEase && this.easing == easing
    {
      this.transit := transit;
      this.cssEase := cssEase;
      this.easing := easing;
    }

    /**
     * `_isValidEasing(alias)`: with transit the alias must be a cubic-bezier in
     * `$.cssEase`, otherwise a defined entry of `$.easing`.
     */
    predicate IsValidEasing(alias: string): (ok: bool)
      reads this
      ensures transit ==> (ok <==> alias in cssEase)
      ensures !transit ==> (ok <==> alias in easing && easing[alias] != Undefined)
    {
      if transit then alias in cssEase else alias in easing && easing[alias] != Undefined
    }
  }

  /** The event loop's timers, the animation executor's running transitions, and the effect log. */
  class Host {
    var timers: map<TimerId, Timer>
    var nextTimer: TimerId
    var running: seq<Transition>
    var log: seq<Effect>

    constructor ()
      ensures timers == map[] && nextTimer == 0 && running == [] && log == []
    {
      timers := map[];
      nextTimer := 0;
      running := [];
      log := [];
    }

    /** `setTimeout`: arms a timer under a fresh id. */
    method SetTimeout(timer: Timer) returns (t: TimerId)
      modifies this`timers, this`nextTimer
      ensures t == old(nextTimer) && nextTimer == t + 1
      ensures timers == old(timers)[t := timer]
    {
      t := nextTimer;
      timers := timers[t := timer];
      nextTimer := nextTimer + 1;
    }

    /** `clearTimeout(h)`: disarms timer h if it is still armed; `undefined` is ignored. */
    method ClearTimeout(h: Option<TimerId>)
      modifies this`timers
      ensures timers == Cleared(old(timers), h)
    {
      if h.Some? {
        timers := timers - {h.value};
      }
    }

    /** Records one observable effect. */
    method Emit(e: Effect)
      modifies this`log
      ensures log == old(log) + [e]
    {
      log := log + [e];
    }
  }

  class Laser {
    const registry: EasingRegistry
    const host: Host
    var cache: map<string, Handle>
    var listeners: map<string, seq<ListenerId>>
    var animations: seq<Animation>
    var remaining: int
    var startedAt: int
    var finishedAt: int

    /** The structural invariant (`WellFormed`) of the instance and its host. */
    ghost predicate Valid()
      reads this`animations, host`timers, host`nextTimer, host`running
    {
      WellFormed(animations, host.timers, host.nextTimer, host.running)
    }

    /** The accounting invariant (`Accounted`) on top of `Valid`. */
    ghost predicate Tracked()
      reads this`animations, this`remaining, host`timers, host`nextTimer, host`running
    {
      Valid() && Accounted(animations, remaining, host.timers, host.running)
    }

    /** Nothing pending: no offset timer armed and no transition running. */
    ghost predicate Idle()
      reads host`timers, host`running
    {
      Quiet(host.timers, host.running)
    }

    /** `new Laser()`: empty cache, listeners and animations. */
    constructor (registry: EasingRegistry)
      ensures this.registry == registry && fresh(host)
      ensures cache == map[] && listeners == map[] && animations == []
      ensures remaining == 0 && startedAt == 0 && finishedAt == 0
      ensures host.timers == map[] && host.running == [] && host.log == []
      ensures Tracked() && Idle()
    {
      this.registry := registry;
      host := new Host();
      cache := map[];
      listeners := map[];
      animations := [];
      remaining := 0;
      startedAt := 0;
      finishedAt := 0;
    }

    /** `get('animations', where)`: all records, or those whose state matches the filter. */
    function Get(where: Option<State>): (r: seq<Animation>)
      reads this`animations
      ensures where.None? ==> r == animations
      ensures forall x :: x in r ==> x in animations
      ensures where.Some? ==> forall x :: x in r ==> x.state == where.value
      ensures where.Some? ==> forall x :: x in animations && x.state == where.value ==> x in r
      ensures where.Some? && Ascending(animations) ==> Ascending(r)
    {
      if where.None? then animations
      else
        WhereComplete(animations, where.value);
        assert Ascending(animations) ==> Ascending(Where(animations, where.value)) by {
          if Ascending(animations) {
            WhereAscending(animations, where.value);
          }
        }
        Where(animations, where.value)
    }

    /** `getCache(s)`: the handle cached for selector s, if any. */
    function GetCache(s: string): (r: Option<Handle>)
      reads this`cache
      ensures r.Some? <==> s in cache
      ensures r.Some? ==> r.value == cache[s]
    {
      if s in cache then Some(cache[s]) else None
    }

    /** `id()`: the id the next record gets, unused by every existing record. */
    function NextId(): (r: nat)
      reads this`animations
      requires IdsAreIndices(animations)
      ensures forall x :: x in animations ==> x.id < r
    {
      |animations|
    }

    /** `this.listeners[n]`, with an absent list read as empty. */
    function ListenersOf(n: string): seq<ListenerId>
      reads this`listeners
    {
      if n in listeners then listeners[n] else []
    }

    /**
     * `setCache(s)`: memoised resolution. A cached handle is returned as is and
     * the resolver is not consulted; otherwise `$(s)` is looked up and stored.
     */
    method SetCache(s: string, resolve: string -> Handle) returns (h: Handle)
      modifies this`cache, host`log
      ensures s in old(cache) ==> h == old(cache[s]) && host.log == old(host.log)
      ensures s !in old(cache) ==> h == resolve(s) && host.log == old(host.log) + [Lookup(s)]
      ensures cache == old(cache)[s := h]
    {
      var cached := GetCache(s);
      if cached.Some? {
        h := cached.value;
      } else {
        host.Emit(Lookup(s));
        h := resolve(s);
      }
      cache := cache[s := h];
    }

    /** `on(n, fn)`: appends fn to n's list, creating it; duplicates are kept. */
    method On(n: string, fn: ListenerId)
      modifies this`listeners
      ensures listeners == old(listeners)[n := old(ListenersOf(n)) + [fn]]
    {
      var ls := if n in listeners then listeners[n] else [];
      listeners := listeners[n := ls + [fn]];
    }

    /**
     * `off(n, fn)`: nothing for an unknown n; otherwise `splice(indexOf(fn), 1)`,
     * which removes the first fn, or the LAST listener when fn is not registered.
     */
    method Off(n: string, fn: ListenerId)
      modifies this`listeners
      ensures n !in old(listeners) ==> listeners == old(listeners)
      ensures n in old(listeners) ==> listeners == old(listeners)[n := Without(old(listeners[n]), fn)]
    {
      if n in listeners {
        listeners := listeners[n := Without(listeners[n], fn)];
      }
    }

    /** `trigger(n, args...)`: calls every listener of n in registration order with args. */
    method Trigger(n: string, args: seq<int>)
      modifies host`log
      ensures host.log == old(host.log) + Calls(ListenersOf(n), n, args)
    {
      if n in listeners {
        var ls := listeners[n];
        var k := 0;
        while k < |ls|
          invariant k <= |ls|
          invariant host.log == old(host.log) + Calls(ls[..k], n, args)
        {
          host.Emit(Call(n, ls[k], args));
          assert ls[..k + 1][..k] == ls[..k];
          k := k + 1;
        }
        assert ls[..k] == ls;
      }
    }

    /**
     * `addEasing(alias, easing)`: a string goes to `$.cssEase`, anything else to
     * `$.easing`. `$.cssEase` is defined by jQuery transit, so without transit
     * storing a string throws a TypeError and nothing changes. The alias becomes
     * valid (or not) only when the dictionary it lands in is the one validation
     * reads; no other alias changes.
     */
    method AddEasing(alias: string, e: Easing) returns (r: Result<Laser>)
      modifies registry
      ensures e.Curve? && !registry.transit ==>
        && r == Err(CssEaseMissing)
        && registry.cssEase == old(registry.cssEase) && registry.easing == old(registry.easing)
      ensures e.Curve? && registry.transit ==>
        && r == Ok(this)
        && registry.cssEase == old(registry.cssEase)[alias := e.css] && registry.easing == old(registry.easing)
      ensures !e.Curve? ==>
        && r == Ok(this)
        && registry.easing == old(registry.easing)[alias := e] && registry.cssEase == old(registry.cssEase)
      ensures e.Curve? == registry.transit ==> (registry.IsValidEasing(alias) <==> e != Undefined)
      ensures e.Curve? != registry.transit ==> (registry.IsValidEasing(alias) <==> old(registry.IsValidEasing(alias)))
      ensures forall a :: a != alias ==> (registry.IsValidEasing(a) <==> old(registry.IsValidEasing(a)))
    {
      if e.Curve? {
        if !registry.transit {
          r := Err(CssEaseMissing);
          return;
        }
        registry.cssEase := registry.cssEase[alias := e.css];
      } else {
        registry.easing := registry.easing[alias := e];
      }
      r := Ok(this);
    }

    /**
     * `add(s, p, o)`: caches the element first, then validates the (defaulted)
     * easing; an unknown alias throws, appending nothing and firing nothing.
     * Otherwise one unset record with id = the previous length is appended.
     */
    method Add(s: string, p: Params, o: AddOptions, resolve: string -> Handle) returns (r: Result<Laser>)
      requires Valid()
      modifies this`cache, this`animations, host`log
      ensures Valid()
      ensures s in old(cache) ==> cache == old(cache) && host.log == old(host.log)
      ensures s !in old(cache) ==> cache == old(cache)[s := resolve(s)] && host.log == old(host.log) + [Lookup(s)]
      ensures var opts := Normalised(o);
        if registry.IsValidEasing(opts.easing) then
          && r == Ok(this)
          && animations == old(animations) + [Animation(|old(animations)|, WhenOf(o), p, opts, cache[s], Unset, None)]
        else
          && r == Err(EasingErrorPrefix + opts.easing)
          && animations == old(animations)
      ensures old(Tracked()) ==> Tracked()
    {
      var i := NextId();
      var e := SetCache(s, resolve);
      var w := WhenOf(o);
      var opts := Normalised(o);
      if !registry.IsValidEasing(opts.easing) {
        r := Err(EasingErrorPrefix + opts.easing);
        return;
      }
      var record := Animation(i, w, p, opts, e, Unset, None);
      AppendKeeps(animations, host.timers, host.nextTimer, host.running, remaining, record);
      animations := animations + [record];
      r := Ok(this);
    }

    /**
     * The record's `fn` closure: arms its offset timer for `when` and marks it
     * `ON_STACK` at once, before the timer fires.
     */
    method Dispatch(k: nat)
      requires k < |animations|
      modifies this`animations, host`timers, host`nextTimer
      ensures host.nextTimer == old(host.nextTimer) + 1
      ensures host.timers == old(host.timers)[old(host.nextTimer) := Offset(k, old(animations[k]).when)]
      ensures animations == old(animations)[k := Dispatched(old(animations[k]), old(host.nextTimer))]
    {
      var item := animations[k];
      var t := host.SetTimeout(Offset(k, item.when));
      animations := animations[k := item.(timeout := Some(t), state := OnStack)];
    }

    /** The `_.each` of `play`: every record's `fn`, in index order, each arming the next timer id. */
    method DispatchAll()
      modifies this`animations, host`timers, host`nextTimer
      ensures animations == DispatchedAll(old(animations), old(host.nextTimer))
      ensures host.timers == old(host.timers) + OffsetTimers(old(animations), old(host.nextTimer), |old(animations)|)
      ensures host.nextTimer == old(host.nextTimer) + |old(animations)|
    {
      var stack := Get(None);
      ghost var base, armed := host.nextTimer, host.timers;
      var k := 0;
      while k < |stack|
        invariant k <= |stack|
        invariant host.nextTimer == base + k
        invariant animations == DispatchedAll(stack[..k], base) + stack[k..]
        invariant host.timers == armed + OffsetTimers(stack, base, k)
      {
        ghost var before := host.timers;
        assert animations[k] == stack[k];
        DispatchedStep(stack, base, k);
        Dispatch(k);
        assert host.timers == before[base + k := Offset(k, stack[k].when)];
        ArmedStep(armed, stack, base, k);
        k := k + 1;
      }
      assert stack[..k] == stack && stack[k..] == [];
    }

    /**
     * `play()`: stamps the start, sets `remaining` to the number of records,
     * fires `sequence:started(n)`, then dispatches every record in index order.
     * From an idle state this establishes the accounting invariant.
     */
    method Play(now: int) returns (self: Laser)
      requires Valid()
      modifies this`startedAt, this`remaining, this`animations, host`timers, host`nextTimer, host`log
      ensures self == this && Valid()
      ensures startedAt == now && remaining == |old(animations)|
      ensures animations == DispatchedAll(old(animations), old(host.nextTimer))
      ensures host.timers == old(host.timers) + OffsetTimers(old(animations), old(host.nextTimer), |old(animations)|)
      ensures host.nextTimer == old(host.nextTimer) + |old(animations)|
      ensures host.log == old(host.log) + Calls(ListenersOf(SequenceStarted), SequenceStarted, [|old(animations)|])
      ensures old(Idle()) ==> Tracked()
    {
      var stack := Get(None);
      startedAt := now;
      remaining := |stack|;
      Trigger(SequenceStarted, [|stack|]);
      PlayKeeps(stack, host.timers, host.nextTimer, host.running);
      DispatchAll();
      self := this;
    }

    /**
     * A record's offset timer fires: it leaves the timer table and the record
     * is handed to the executor (`.transition` with transit, else `.animate`).
     * The record's state is not touched.
     */
    method FireOffsetTimer(t: TimerId)
      requires Valid() && t in host.timers && host.timers[t].Offset?
      modifies host`timers, host`running, host`log
      ensures Valid()
      ensures var a := animations[old(host.timers[t]).record];
        && host.timers == old(host.timers) - {t}
        && host.running == old(host.running) + [Transition(a.id, a.elem)]
        && host.log == old(host.log) + [Start(a.elem, a.params, a.options, registry.transit)]
      ensures old(Tracked()) ==> Tracked()
    {
      var i := host.timers[t].record;
      var a := animations[i];
      FireKeeps(animations, host.timers, host.nextTimer, host.running, remaining, t);
      host.timers := host.timers - {t};
      host.Emit(Start(a.elem, a.params, a.options, registry.transit));
      host.running := host.running + [Transition(i, a.elem)];
    }

    /**
     * The events of the `complete` callback once `remaining` is decremented: at
     * exactly zero, `finishedAt` is stamped and `sequence:completed(elapsed)`
     * fires; then, in every case, `animation:completed(id)`.
     */
    method Announce(id: nat, now: int)
      modifies this`finishedAt, host`log
      ensures finishedAt == if remaining == 0 then now else old(finishedAt)
      ensures host.log == old(host.log)
        + (if remaining == 0 then Calls(ListenersOf(SequenceCompleted), SequenceCompleted, [now - startedAt]) else [])
        + Calls(ListenersOf(AnimationCompleted), AnimationCompleted, [id])
    {
      if remaining == 0 {
        finishedAt := now;
        var elapsed := finishedAt - startedAt;
        Trigger(SequenceCompleted, [elapsed]);
      }
      Trigger(AnimationCompleted, [id]);
    }

    /**
     * The record's `complete` callback, invoked by the executor when record i's
     * transition ends at time now: the transition ends, the record is
     * `COMPLETE`, `remaining` is decremented; at exactly zero `finishedAt` is
     * stamped and `sequence:completed(elapsed)` fires, and only then
     * `animation:completed(id)`; finally the record's timer is cleared.
     */
    method Finish(i: nat, now: int)
      requires i < |animations| && Transition(i, animations[i].elem) in host.running
      modifies this`animations, this`remaining, this`finishedAt, host`timers, host`running, host`log
      ensures animations == old(animations)[i := old(animations[i]).(state := State.Complete)]
      ensures remaining == old(remaining) - 1
      ensures finishedAt == if remaining == 0 then now else old(finishedAt)
      ensures host.running == Without(old(host.running), Transition(i, old(animations[i]).elem))
      ensures host.timers == Cleared(old(host.timers), old(animations[i]).timeout)
      ensures host.log == old(host.log)
        + (if remaining == 0 then Calls(ListenersOf(SequenceCompleted), SequenceCompleted, [now - startedAt]) else [])
        + Calls(ListenersOf(AnimationCompleted), AnimationCompleted, [old(animations[i]).id])
    {
      var item := animations[i];
      host.running := Without(host.running, Transition(i, item.elem));
      animations := animations[i := item.(state := State.Complete)];
      remaining := remaining - 1;
      Announce(item.id, now);
      host.ClearTimeout(item.timeout);
    }

    /**
     * `Finish` on a well-formed instance whose record i has a running
     * transition: the invariants are kept, and while some record is `STOPPED`
     * `remaining` stays positive, so `sequence:completed` does not fire. When
     * it does fire, nothing of the sequence is left pending.
     */
    method Complete(i: nat, now: int)
      requires Valid() && i < |animations| && Transition(i, animations[i].elem) in host.running
      modifies this`animations, this`remaining, this`finishedAt, host`timers, host`running, host`log
      ensures Valid()
      ensures animations == old(animations)[i := old(animations[i]).(state := State.Complete)]
      ensures remaining == old(remaining) - 1
      ensures finishedAt == if remaining == 0 then now else old(finishedAt)
      ensures host.running == Without(old(host.running), Transition(i, old(animations[i]).elem))
      ensures host.timers == Cleared(old(host.timers), old(animations[i]).timeout)
      ensures host.log == old(host.log)
        + (if remaining == 0 then Calls(ListenersOf(SequenceCompleted), SequenceCompleted, [now - startedAt]) else [])
        + Calls(ListenersOf(AnimationCompleted), AnimationCompleted, [i])
      ensures old(Tracked()) ==> Tracked()
      ensures old(Tracked()) && old(Count(animations, Stopped)) > 0 ==> remaining > 0 && finishedAt == old(finishedAt)
      ensures old(Tracked()) && remaining == 0 ==> Idle()
    {
      assert animations[i].id == i;
      CompleteKeeps(animations, host.timers, host.nextTimer, host.running, i);
      ghost var tracked := Tracked();
      if tracked {
        CompleteAccounted(animations, host.timers, host.nextTimer, host.running, remaining, i);
      }
      Finish(i, now);
    }

    /** `stop(when)`: only schedules the sweep after `when || 0` milliseconds. */
    method Stop(when: Option<int>) returns (self: Laser)
      requires Valid()
      modifies host`timers, host`nextTimer
      ensures self == this && Valid()
      ensures host.nextTimer == old(host.nextTimer) + 1
      ensures host.timers == old(host.timers)[old(host.nextTimer) := Sweep(when.GetOr(0))]
      ensures old(Tracked()) ==> Tracked()
    {
      ScheduleKeeps(animations, host.timers, host.nextTimer, host.running, remaining, when.GetOr(0));
      var t := host.SetTimeout(Sweep(when.GetOr(0)));
      self := this;
    }

    /**
     * One iteration of the stop sweep for the selected record `item`: clear its
     * timer, halt its element, mark it `STOPPED`, fire `animation:stopped(id)`.
     */
    method HaltRecord(item: Animation)
      requires item.id < |animations|
      modifies this`animations, host`timers, host`running, host`log
      ensures animations == old(animations)[item.id := old(animations[item.id]).(state := Stopped)]
      ensures host.timers == Cleared(old(host.timers), item.timeout)
      ensures host.running == Halted(old(host.running), {item.elem})
      ensures host.log == old(host.log) + SweepStep(item, ListenersOf(AnimationStopped))
    {
      host.ClearTimeout(item.timeout);
      host.Emit(Halt(item.elem));
      host.running := Halted(host.running, {item.elem});
      animations := animations[item.id := animations[item.id].(state := Stopped)];
      Trigger(AnimationStopped, [item.id]);
      AppendAssoc(old(host.log), [Halt(item.elem)], Calls(ListenersOf(AnimationStopped), AnimationStopped, [item.id]));
    }

    /**
     * The `_.each` over the selected records: `HaltRecord` for each, in order.
     */
    method HaltAll(sel: seq<Animation>)
      requires IdsBelow(sel, |animations|)
      modifies this`animations, host`timers, host`running, host`log
      ensures animations == StopEach(old(animations), sel)
      ensures host.timers == old(host.timers) - TimeoutSet(sel)
      ensures host.running == Halted(old(host.running), ElemSet(sel))
      ensures host.log == old(host.log) + SweepEffects(sel, ListenersOf(AnimationStopped))
    {
      ghost var before, armed, running, logged := animations, host.timers, host.running, host.log;
      ghost var ls := ListenersOf(AnimationStopped);
      HaltedNone(running);
      var k := 0;
      while k < |sel|
        invariant k <= |sel| && IdsBelow(sel[..k], |before|)
        invariant animations == StopEach(before, sel[..k])
        invariant host.timers == armed - TimeoutSet(sel[..k])
        invariant host.running == Halted(running, ElemSet(sel[..k]))
        invariant host.log == logged + SweepEffects(sel[..k], ls)
      {
        var item := sel[k];
        StopEachStep(before, sel, k);
        assert sel[..k + 1][..k] == sel[..k];
        ClearedStep(armed, sel, k);
        HaltedTwice(running, ElemSet(sel[..k]), item.elem);
        SweepEffectsStep(logged, sel, k, ls);
        HaltRecord(item);
        k := k + 1;
      }
      assert sel[..k] == sel;
    }

    /**
     * The delayed body of `stop`: selects the `ON_STACK` records
     * (`get('animations', { state : 'ON_STACK' })`) and, in index order, clears
     * each one's timer, halts its element in place, marks it `STOPPED` and
     * fires `animation:stopped(id)`. `COMPLETE` records and `remaining` are
     * untouched; afterwards nothing of the sequence is pending.
     */
    method StopSweep(t: TimerId)
      requires Valid() && t in host.timers && host.timers[t].Sweep?
      modifies this`animations, host`timers, host`running, host`log
      ensures Valid()
      ensures var sel := Where(old(animations), OnStack);
        && animations == StopAll(old(animations))
        && host.timers == old(host.timers) - {t} - TimeoutSet(sel)
        && host.running == Halted(old(host.running), ElemSet(sel))
        && host.log == old(host.log) + SweepEffects(sel, ListenersOf(AnimationStopped))
      ensures old(Tracked()) ==> Tracked() && Idle()
    {
      ghost var before, timers0, running := animations, host.timers, host.running;
      SweepOnStack(t);
      SweepKeeps(before, timers0, host.nextTimer, running, remaining, t);
    }

    /** The sweep's steps: its own timer is gone, then `HaltAll` over `get('animations', { state: ON_STACK })`. */
    method SweepOnStack(t: TimerId)
      requires IdsAreIndices(animations)
      modifies this`animations, host`timers, host`running, host`log
      ensures var sel := Where(old(animations), OnStack);
        && animations == StopAll(old(animations))
        && host.timers == old(host.timers) - {t} - TimeoutSet(sel)
        && host.running == Halted(old(host.running), ElemSet(sel))
        && host.log == old(host.log) + SweepEffects(sel, ListenersOf(AnimationStopped))
    {
      ghost var before := animations;
      host.ClearTimeout(Some(t));
      var sel := Get(Some(OnStack));
      StopEachWhere(before);
      HaltAll(sel);
    }
  }
}
