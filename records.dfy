/**
 * Values of the laser.js sequencer (src/laser.js): the animation record with its
 * four-state lifecycle, the normalised jQuery options, the host timers and
 * executor transitions the record refers to, and the observable effects
 * (listener calls, element lookups, executor calls). The pure functions here
 * are the specifications the `Laser` class in module Sequencer is proved against.
 */
module Records {

  datatype Option<T> = None | Some(value: T) {
    function GetOr(default: T): T {
      match this
      case Some(v) => v
      case None => default
    }
  }

  /** `this`, or the error `add` or `addEasing` throws. */
  datatype Result<T> = Ok(value: T) | Err(message: string)

  /** A resolved element, as `$(selector)` returns it; only its identity matters here. */
  type Handle = nat
  /** A listener function, identified as `indexOf` identifies it (by reference). */
  type ListenerId = nat
  /** The id `setTimeout` returns. */
  type TimerId = nat
  /** The jQuery property map of an animation (`{ left : 500 }`), passed through untouched. */
  type Params = map<string, string>

  /** The record's `state` property; `Unset` is a record that `play` has not dispatched yet. */
  datatype State = Unset | OnStack | Complete | Stopped

  /** The options object a record keeps once `add` has normalised it. */
  datatype Options = Options(duration: int, easing: string, queue: bool)

  /** The options object the caller passes to `add`; an absent key is `None`. */
  datatype AddOptions = AddOptions(when: Option<int>, duration: Option<int>, easing: Option<string>)

  /** What `addEasing` may store: a CSS cubic-bezier string, or any non-string value. */
  datatype Easing = Curve(css: string) | Function(ref: nat) | Undefined

  /** One animation record of `this.animations`. */
  datatype Animation = Animation(
    id: nat,
    when: int,
    params: Params,
    options: Options,
    elem: Handle,
    state: State,
    timeout: Option<TimerId>)

  /** An armed `setTimeout`: a record's offset timer, or the delayed body of `stop`. */
  datatype Timer = Offset(record: nat, delay: int) | Sweep(delay: int)

  /** A transition the executor is running for a record on its element. */
  datatype Transition = Transition(record: nat, elem: Handle)

  /** What the outside world observes, in order. */
  datatype Effect =
    | Call(event: string, listener: ListenerId, args: seq<int>)
    | Lookup(selector: string)
    | Start(elem: Handle, params: Params, options: Options, transit: bool)
    | Halt(elem: Handle)

  const DefaultEasing := "easeOutExpo"
  const DefaultDuration := 500
  const EasingErrorPrefix := "Easing method not defined! - "
  /** What `$.cssEase[alias] = easing` throws when jQuery transit, which defines `$.cssEase`, is absent. */
  const CssEaseMissing := "TypeError: $.cssEase is undefined"

  const SequenceStarted := "sequence:started"
  const SequenceCompleted := "sequence:completed"
  const AnimationCompleted := "animation:completed"
  const AnimationStopped := "animation:stopped"

  /** `o.when || 0`: the start offset, 0 when absent. */
  function WhenOf(o: AddOptions): (w: int)
    ensures o.when.Some? ==> w == o.when.value
    ensures o.when.None? ==> w == 0
  {
    o.when.GetOr(0)
  }

  /**
   * The options `add` stores: `queue` forced off, `easing` defaulted when absent or
   * empty, `duration` defaulted when absent or 0 (the `||` of the source).
   */
  function Normalised(o: AddOptions): (r: Options)
    ensures !r.queue
    ensures r.easing != "" && r.duration != 0
    ensures o.easing.Some? && o.easing.value != "" ==> r.easing == o.easing.value
    ensures o.easing.None? || o.easing.value == "" ==> r.easing == DefaultEasing
    ensures o.duration.Some? && o.duration.value != 0 ==> r.duration == o.duration.value
    ensures o.duration.None? || o.duration.value == 0 ==> r.duration == DefaultDuration
  {
    var easing := if o.easing.Some? && o.easing.value != "" then o.easing.value else DefaultEasing;
    var duration := if o.duration.Some? && o.duration.value != 0 then o.duration.value else DefaultDuration;
    Options(duration, easing, false)
  }

  /** Every record's id is its index in the list. */
  ghost predicate IdsAreIndices(s: seq<Animation>) {
    forall j :: 0 <= j < |s| ==> s[j].id == j
  }

  /** Ids strictly increase along the list. */
  ghost predicate Ascending(s: seq<Animation>) {
    forall i, j :: 0 <= i < j < |s| ==> s[i].id < s[j].id
  }

  // ----- the `where` filter of `get` -----

  /** `_.where(animations, { state : st })`: the records in state st, in list order. */
  function Where(s: seq<Animation>, st: State): (r: seq<Animation>)
    ensures |r| <= |s|
    ensures forall x :: x in r ==> x in s && x.state == st
  {
    if s == [] then []
    else (if s[0].state == st then [s[0]] else []) + Where(s[1..], st)
  }

  /** No record in state st is left out by the filter. */
  lemma {:induction false} WhereComplete(s: seq<Animation>, st: State)
    ensures forall x :: x in s && x.state == st ==> x in Where(s, st)
  {
    if s != [] {
      WhereComplete(s[1..], st);
      forall x | x in s && x.state == st
        ensures x in Where(s, st)
      {
        if x != s[0] {
          assert x in s[1..];
        }
      }
    }
  }

  /** The filter keeps list order: ascending ids stay ascending. */
  lemma {:induction false} WhereAscending(s: seq<Animation>, st: State)
    requires Ascending(s)
    ensures Ascending(Where(s, st))
  {
    if s != [] {
      WhereAscending(s[1..], st);
      var rest := Where(s[1..], st);
      forall x | x in rest
        ensures s[0].id < x.id
      {
        var j :| 0 <= j < |s[1..]| && s[1..][j] == x;
        assert s[j + 1] == x;
      }
      if s[0].state == st {
        AscendingCons(s[0], rest);
      }
    }
  }

  /** A record below every record of an ascending list can go in front of it. */
  lemma AscendingCons(a: Animation, rest: seq<Animation>)
    requires Ascending(rest)
    requires forall x :: x in rest ==> a.id < x.id
    ensures Ascending([a] + rest)
  {
    var r := [a] + rest;
    forall i, j | 0 <= i < j < |r|
      ensures r[i].id < r[j].id
    {
      assert r[j] == rest[j - 1] && r[j] in rest;
      if i > 0 {
        assert r[i] == rest[i - 1];
      }
    }
  }

  /** With ids equal to indices, the filtered records are exactly the indices in state st. */
  lemma WhereIndices(s: seq<Animation>, st: State)
    requires IdsAreIndices(s)
    ensures forall x :: x in Where(s, st) ==> x.id < |s| && s[x.id] == x
    ensures forall j :: 0 <= j < |s| && s[j].state == st ==> s[j] in Where(s, st)
    ensures Ascending(Where(s, st))
  {
    WhereComplete(s, st);
    WhereAscending(s, st);
    forall x | x in Where(s, st)
      ensures x.id < |s| && s[x.id] == x
    {
      var j :| 0 <= j < |s| && s[j] == x;
    }
  }

  // ----- counting records by state -----

  /** The number of records in state st. */
  function Count(s: seq<Animation>, st: State): (c: nat)
    ensures c <= |s|
  {
    if s == [] then 0
    else Count(s[..|s| - 1], st) + (if s[|s| - 1].state == st then 1 else 0)
  }

  /** Appending a record adds one to its own state's count only. */
  lemma CountAppend(s: seq<Animation>, x: Animation, st: State)
    ensures Count(s + [x], st) == Count(s, st) + (if x.state == st then 1 else 0)
  {
    assert (s + [x])[..|s|] == s;
  }

  /** Replacing one record moves one unit of count from its old state to its new one. */
  lemma {:induction false} CountUpdate(s: seq<Animation>, i: nat, x: Animation, st: State)
    requires i < |s|
    ensures Count(s[i := x], st)
         == Count(s, st) - (if s[i].state == st then 1 else 0) + (if x.state == st then 1 else 0)
  {
    var n := |s| - 1;
    if i < n {
      CountUpdate(s[..n], i, x, st);
      assert s[i := x][..n] == s[..n][i := x];
    } else {
      assert s[i := x][..n] == s[..n];
    }
  }

  /** Every record is in exactly one of the four states. */
  lemma {:induction false} CountPartition(s: seq<Animation>)
    ensures Count(s, Unset) + Count(s, OnStack) + Count(s, Complete) + Count(s, Stopped) == |s|
  {
    if s != [] {
      CountPartition(s[..|s| - 1]);
    }
  }

  /** A state's count is zero exactly when no record is in that state. */
  lemma {:induction false} CountZero(s: seq<Animation>, st: State)
    ensures Count(s, st) == 0 <==> forall j :: 0 <= j < |s| ==> s[j].state != st
  {
    if s != [] {
      var n := |s| - 1;
      CountZero(s[..n], st);
      assert forall j :: 0 <= j < n ==> s[..n][j] == s[j];
    }
  }

  /** When every record is in state st, the count is the whole length. */
  lemma {:induction false} CountAll(s: seq<Animation>, st: State)
    requires forall j :: 0 <= j < |s| ==> s[j].state == st
    ensures Count(s, st) == |s|
  {
    if s != [] {
      CountAll(s[..|s| - 1], st);
    }
  }

  // ----- what `play` and the stop sweep do to the records -----

  /** A record after `fn` ran for it with timer id t: `ON_STACK`, holding t. */
  function Dispatched(a: Animation, t: TimerId): Animation {
    a.(state := OnStack, timeout := Some(t))
  }

  /** The records after `play` dispatched them all, the k-th armed with timer base + k. */
  function DispatchedAll(s: seq<Animation>, base: TimerId): (r: seq<Animation>)
    ensures |r| == |s|
    ensures forall j :: 0 <= j < |s| ==> r[j] == Dispatched(s[j], base + j)
  {
    if s == [] then [] else DispatchedAll(s[..|s| - 1], base) + [Dispatched(s[|s| - 1], base + |s| - 1)]
  }

  /** Dispatching record k after the first k extends the dispatched prefix by one record. */
  lemma DispatchedStep(s: seq<Animation>, base: TimerId, k: nat)
    requires k < |s|
    ensures (DispatchedAll(s[..k], base) + s[k..])[k := Dispatched(s[k], base + k)]
         == DispatchedAll(s[..k + 1], base) + s[k + 1..]
  {
    var done := DispatchedAll(s[..k], base);
    assert s[..k + 1][..k] == s[..k];
    assert DispatchedAll(s[..k + 1], base) == done + [Dispatched(s[k], base + k)];
    assert s[k..] == [s[k]] + s[k + 1..];
  }

  /** The offset timers `play` arms for the first k records, ids base, base + 1, .... */
  function OffsetTimers(s: seq<Animation>, base: TimerId, k: nat): map<TimerId, Timer>
    requires k <= |s|
  {
    if k == 0 then map[] else OffsetTimers(s, base, k - 1)[base + k - 1 := Offset(k - 1, s[k - 1].when)]
  }

  /** Timer base + j is the offset timer of record j, and no other timer is armed. */
  lemma {:induction false} OffsetTimersAt(s: seq<Animation>, base: TimerId, k: nat)
    requires k <= |s|
    ensures forall t :: t in OffsetTimers(s, base, k) <==> base <= t < base + k
    ensures forall j :: 0 <= j < k ==> OffsetTimers(s, base, k)[base + j] == Offset(j, s[j].when)
  {
    if k > 0 {
      OffsetTimersAt(s, base, k - 1);
    }
  }

  /** Arming record k's offset timer on top of the first k extends the armed table by one timer. */
  lemma ArmedStep(armed: map<TimerId, Timer>, s: seq<Animation>, base: TimerId, k: nat)
    requires k < |s|
    ensures (armed + OffsetTimers(s, base, k))[base + k := Offset(k, s[k].when)]
         == armed + OffsetTimers(s, base, k + 1)
  {
  }

  /** The timer table after `clearTimeout(h)`; `undefined` clears nothing. */
  function Cleared(timers: map<TimerId, Timer>, h: Option<TimerId>): (r: map<TimerId, Timer>)
    ensures r.Keys == if h.Some? then timers.Keys - {h.value} else timers.Keys
    ensures forall t :: t in r ==> r[t] == timers[t]
  {
    if h.Some? then timers - {h.value} else timers
  }

  /** A record as the stop sweep leaves it: `ON_STACK` becomes `STOPPED`, nothing else changes. */
  function StopOne(a: Animation): Animation {
    if a.state == OnStack then a.(state := Stopped) else a
  }

  /** The records after the stop sweep. */
  function StopAll(s: seq<Animation>): (r: seq<Animation>)
    ensures |r| == |s|
    ensures forall j :: 0 <= j < |s| ==> r[j] == StopOne(s[j])
  {
    seq(|s|, j requires 0 <= j < |s| => StopOne(s[j]))
  }

  /** Every record of sel names a position below n. */
  ghost predicate IdsBelow(sel: seq<Animation>, n: nat) {
    forall m :: 0 <= m < |sel| ==> sel[m].id < n
  }

  /** The records after marking each record of sel, one after another, `STOPPED` at its id. */
  function StopEach(s: seq<Animation>, sel: seq<Animation>): (r: seq<Animation>)
    requires IdsBelow(sel, |s|)
    ensures |r| == |s|
  {
    if sel == [] then s
    else
      var x := sel[|sel| - 1];
      var r0 := StopEach(s, sel[..|sel| - 1]);
      r0[x.id := r0[x.id].(state := Stopped)]
  }

  /** Stopping one more selected record extends the prefix's result by one update. */
  lemma StopEachStep(s: seq<Animation>, sel: seq<Animation>, k: nat)
    requires IdsBelow(sel, |s|) && k < |sel|
    ensures IdsBelow(sel[..k], |s|) && IdsBelow(sel[..k + 1], |s|)
    ensures var r0 := StopEach(s, sel[..k]);
      StopEach(s, sel[..k + 1]) == r0[sel[k].id := r0[sel[k].id].(state := Stopped)]
  {
    forall m | 0 <= m <= k
      ensures sel[..k + 1][m].id < |s| && (m < k ==> sel[..k][m].id < |s|)
    {
      assert sel[..k + 1][m] == sel[m];
      if m < k {
        assert sel[..k][m] == sel[m];
      }
    }
    assert sel[..k + 1][..k] == sel[..k];
  }

  /** Exactly the positions some selected record names end up `STOPPED`; the others are untouched. */
  lemma {:induction false} StopEachAt(s: seq<Animation>, sel: seq<Animation>, j: nat)
    requires IdsBelow(sel, |s|)
    requires j < |s|
    ensures StopEach(s, sel)[j] == if exists m :: 0 <= m < |sel| && sel[m].id == j then s[j].(state := Stopped) else s[j]
  {
    if sel != [] {
      var n := |sel| - 1;
      StopEachAt(s, sel[..n], j);
      if exists m :: 0 <= m < n && sel[..n][m].id == j {
        var m :| 0 <= m < n && sel[..n][m].id == j;
        assert sel[m].id == j;
      }
    }
  }

  /** Stopping every `ON_STACK` record by its id is `StopAll`. */
  lemma StopEachWhere(s: seq<Animation>)
    requires IdsAreIndices(s)
    ensures IdsBelow(Where(s, OnStack), |s|)
    ensures StopEach(s, Where(s, OnStack)) == StopAll(s)
  {
    var sel := Where(s, OnStack);
    WhereIndices(s, OnStack);
    assert forall m :: 0 <= m < |sel| ==> sel[m] in sel;
    forall j | 0 <= j < |s|
      ensures StopEach(s, sel)[j] == StopAll(s)[j]
    {
      StopEachAt(s, sel, j);
      if s[j].state == OnStack {
        assert s[j] in sel;
        var m :| 0 <= m < |sel| && sel[m] == s[j];
      }
    }
  }

  /**
   * The sweep turns every `ON_STACK` into `STOPPED` and touches no `COMPLETE` or
   * unset record, so `ON_STACK` + `STOPPED` is unchanged.
   */
  lemma {:induction false} StopAllCounts(s: seq<Animation>)
    ensures Count(StopAll(s), OnStack) == 0
    ensures Count(StopAll(s), Stopped) == Count(s, OnStack) + Count(s, Stopped)
    ensures Count(StopAll(s), Complete) == Count(s, Complete)
    ensures Count(StopAll(s), Unset) == Count(s, Unset)
  {
    if s != [] {
      var n := |s| - 1;
      StopAllCounts(s[..n]);
      assert StopAll(s)[..n] == StopAll(s[..n]);
    }
  }

  // ----- the accounting of `remaining` -----

  /**
   * With `remaining` = #ON_STACK + #STOPPED, it is zero exactly when every
   * record is complete or not yet dispatched.
   */
  lemma RemainingZeroIff(s: seq<Animation>, remaining: int)
    requires remaining == Count(s, OnStack) + Count(s, Stopped)
    ensures remaining == 0 <==> forall j :: 0 <= j < |s| ==> s[j].state == Unset || s[j].state == Complete
  {
    CountZero(s, OnStack);
    CountZero(s, Stopped);
  }

  /** Once every record has been dispatched, `remaining` = n - #COMPLETE. */
  lemma RemainingIsUncompleted(s: seq<Animation>, remaining: int)
    requires remaining == Count(s, OnStack) + Count(s, Stopped)
    requires forall j :: 0 <= j < |s| ==> s[j].state != Unset
    ensures remaining == |s| - Count(s, Complete)
  {
    CountZero(s, Unset);
    CountPartition(s);
  }

  // ----- listener calls -----

  /** The calls `trigger(n, args...)` makes: each listener of the list, in order, with args. */
  function Calls(ls: seq<ListenerId>, n: string, args: seq<int>): (r: seq<Effect>)
    ensures |r| == |ls|
    ensures forall k :: 0 <= k < |ls| ==> r[k] == Call(n, ls[k], args)
  {
    if ls == [] then [] else Calls(ls[..|ls| - 1], n, args) + [Call(n, ls[|ls| - 1], args)]
  }

  /** A listener registered last is called last, after every earlier one. */
  lemma CallsAppend(ls: seq<ListenerId>, fn: ListenerId, n: string, args: seq<int>)
    ensures Calls(ls + [fn], n, args) == Calls(ls, n, args) + [Call(n, fn, args)]
  {
    assert (ls + [fn])[..|ls|] == ls;
  }

  // ----- what the stop sweep clears, halts and reports -----

  /** The timer ids held by the records of s. */
  function TimeoutSet(s: seq<Animation>): (ts: set<TimerId>)
    ensures forall x :: x in s && x.timeout.Some? ==> x.timeout.value in ts
  {
    if s == [] then {}
    else
      var x := s[|s| - 1];
      TimeoutSet(s[..|s| - 1]) + (if x.timeout.Some? then {x.timeout.value} else {})
  }

  /** Conversely, every id in the set is the timer of some record of s. */
  lemma {:induction false} TimeoutSetOnly(s: seq<Animation>, t: TimerId)
    requires t in TimeoutSet(s)
    ensures exists j :: 0 <= j < |s| && s[j].timeout == Some(t)
  {
    var n := |s| - 1;
    if t in TimeoutSet(s[..n]) {
      TimeoutSetOnly(s[..n], t);
      var j :| 0 <= j < n && s[..n][j].timeout == Some(t);
      assert s[j] == s[..n][j];
    } else {
      assert s[n].timeout == Some(t);
    }
  }

  /** Clearing the timers of one more record: the next step of clearing those of a prefix. */
  lemma ClearedStep(m: map<TimerId, Timer>, sel: seq<Animation>, k: nat)
    requires k < |sel|
    ensures m - TimeoutSet(sel[..k + 1]) == Cleared(m - TimeoutSet(sel[..k]), sel[k].timeout)
  {
    assert sel[..k + 1][..k] == sel[..k];
  }

  /** The elements of the records of s. */
  function ElemSet(s: seq<Animation>): (hs: set<Handle>)
    ensures forall x :: x in s ==> x.elem in hs
  {
    if s == [] then {} else ElemSet(s[..|s| - 1]) + {s[|s| - 1].elem}
  }

  /** Conversely, every element in the set is the element of some record of s. */
  lemma {:induction false} ElemSetOnly(s: seq<Animation>, h: Handle)
    requires h in ElemSet(s)
    ensures exists j :: 0 <= j < |s| && s[j].elem == h
  {
    var n := |s| - 1;
    if h in ElemSet(s[..n]) {
      ElemSetOnly(s[..n], h);
      var j :| 0 <= j < n && s[..n][j].elem == h;
      assert s[j] == s[..n][j];
    } else {
      assert s[n].elem == h;
    }
  }

  /** The transitions still running once the elements hs are halted, in order. */
  function Halted(fl: seq<Transition>, hs: set<Handle>): (r: seq<Transition>)
    ensures |r| <= |fl|
    ensures forall x :: x in r <==> x in fl && x.elem !in hs
  {
    if fl == [] then []
    else Halted(fl[..|fl| - 1], hs) + (if fl[|fl| - 1].elem in hs then [] else [fl[|fl| - 1]])
  }

  /** Halting distributes over concatenation: the survivors keep their order. */
  lemma {:induction false} HaltedAppend(a: seq<Transition>, b: seq<Transition>, hs: set<Handle>)
    ensures Halted(a + b, hs) == Halted(a, hs) + Halted(b, hs)
  {
    if b == [] {
      assert a + b == a;
    } else {
      var n := |b| - 1;
      var front, x, tail := b[..n], b[n], HaltedOneOf(b[n], hs);
      assert b == front + [x];
      assert a + b == (a + front) + [x];
      HaltedAppend(a, front, hs);
      HaltedSnoc(a + front, x, hs);
      HaltedSnoc(front, x, hs);
      AppendAssoc(Halted(a, hs), Halted(front, hs), tail);
    }
  }

  /** What halting leaves of a single transition. */
  function HaltedOneOf(x: Transition, hs: set<Handle>): seq<Transition>
  {
    if x.elem in hs then [] else [x]
  }

  /** Unfolds `Halted` at its last element. */
  lemma HaltedSnoc(s: seq<Transition>, x: Transition, hs: set<Handle>)
    ensures Halted(s + [x], hs) == Halted(s, hs) + HaltedOneOf(x, hs)
  {
    assert (s + [x])[..|s|] == s;
  }

  /** A single transition survives exactly when its element is not halted. */
  lemma HaltedOne(x: Transition, hs: set<Handle>)
    ensures Halted([x], hs) == if x.elem in hs then [] else [x]
  {
    assert [x][..0] == [];
  }

  /** Halting no element leaves every transition running. */
  lemma {:induction false} HaltedNone(fl: seq<Transition>)
    ensures Halted(fl, {}) == fl
  {
    if fl != [] {
      HaltedNone(fl[..|fl| - 1]);
      assert fl[..|fl| - 1] + [fl[|fl| - 1]] == fl;
    }
  }

  /** Halting every element that runs a transition leaves none running. */
  lemma {:induction false} HaltedAll(fl: seq<Transition>, hs: set<Handle>)
    requires forall x :: x in fl ==> x.elem in hs
    ensures Halted(fl, hs) == []
  {
    if fl != [] {
      HaltedAll(fl[..|fl| - 1], hs);
    }
  }

  /** Halting elements one after another is halting them all at once. */
  lemma {:induction false} HaltedTwice(fl: seq<Transition>, hs: set<Handle>, h: Handle)
    ensures Halted(Halted(fl, hs), {h}) == Halted(fl, hs + {h})
  {
    if fl != [] {
      var n := |fl| - 1;
      var last := fl[n];
      HaltedTwice(fl[..n], hs, h);
      var inner := Halted(fl[..n], hs);
      if last.elem in hs {
        assert Halted(fl, hs) == inner;
      } else {
        var once := inner + [last];
        assert Halted(fl, hs) == once;
        assert once[..|once| - 1] == inner;
        assert Halted(once, {h}) == Halted(inner, {h}) + (if last.elem in {h} then [] else [last]);
      }
    }
  }

  /**
   * The effects of the stop sweep over the selected records: per record, the
   * element is halted, then `animation:stopped(id)` goes to each listener.
   */
  function SweepEffects(sel: seq<Animation>, ls: seq<ListenerId>): (r: seq<Effect>)
    ensures forall e :: e in r ==> e.Halt? || (e.Call? && e.event == AnimationStopped)
  {
    if sel == [] then [] else SweepEffects(sel[..|sel| - 1], ls) + SweepStep(sel[|sel| - 1], ls)
  }

  /** The sweep's effects for one more selected record extend those of the prefix. */
  lemma SweepEffectsStep(logged: seq<Effect>, sel: seq<Animation>, k: nat, ls: seq<ListenerId>)
    requires k < |sel|
    ensures logged + SweepEffects(sel[..k + 1], ls) == logged + SweepEffects(sel[..k], ls) + SweepStep(sel[k], ls)
  {
    var prefix := SweepEffects(sel[..k], ls);
    assert sel[..k + 1][..k] == sel[..k];
    assert SweepEffects(sel[..k + 1], ls) == prefix + SweepStep(sel[k], ls);
    AppendAssoc(logged, prefix, SweepStep(sel[k], ls));
  }

  /** Concatenation is associative. */
  lemma AppendAssoc<T>(a: seq<T>, b: seq<T>, c: seq<T>)
    ensures a + (b + c) == a + b + c
  {
  }

  /** The effects of the sweep for one record: halt its element, then `animation:stopped(id)` to each listener. */
  function SweepStep(x: Animation, ls: seq<ListenerId>): (r: seq<Effect>)
    ensures |r| == 1 + |ls| && r[0] == Halt(x.elem)
    ensures forall k :: 0 <= k < |ls| ==> r[1 + k] == Call(AnimationStopped, ls[k], [x.id])
  {
    [Halt(x.elem)] + Calls(ls, AnimationStopped, [x.id])
  }
}
