# laser.js sequencer in Dafny

laser.js (`src/laser.js`) is a small animation sequencer on top of jQuery. A
`Laser` instance keeps:

- an ordered list of animation records: id, start offset `when`, jQuery
  property map, normalised options, cached element, state and offset timer;
- a selector → element cache;
- a map from event names to listener lists;
- the sequence's `remaining`, `startedAt` and `finishedAt`.

The main operations:

- `add` appends a record after validating its easing against the process-wide
  easing dictionaries.
- `play` dispatches every record. Each record's `fn` closure arms a `setTimeout`
  for the record's offset and marks it `ON_STACK`.
- When the timer fires, the record is handed to the animation executor
  (`.transition` or `.animate`). The executor's completion callback marks the
  record `COMPLETE`, counts `remaining` down and fires the events.
- `stop(when)` schedules a sweep. The sweep clears the timer of every
  `ON_STACK` record, halts its element, marks it `STOPPED` and fires
  `animation:stopped`.

The project is in four modules:

- `JsArray` (`js_array.dfy`) holds the two Array primitives the listener
  registry relies on, with their ECMAScript meaning: `indexOf`, and
  `splice(k, 1)` with a negative start.
- `Records` (`records.dfy`) holds the values and the pure functions the class is
  specified by:
  - the record, state, options, timer, transition and effect datatypes;
  - the `where` filter of `get`;
  - counting records by state;
  - what `play` does to the records and the timer table;
  - what the stop sweep does to the records, timers, running transitions and
    the effect log.
- `Lifecycle` (`lifecycle.dfy`) states the sequencer's invariants on values:
  - `WellFormed`: ids are positions, timers name existing records, and a
    running transition runs on its record's element;
  - `Accounted`: `remaining` = #`ON_STACK` + #`STOPPED`, every armed offset
    timer is its `ON_STACK` record's current one, and no record has two
    transitions running.

  It proves that each step of the sequencer keeps them.
- `Sequencer` (`sequencer.dfy`) holds three classes:
  - `EasingRegistry`: `$.cssEase`, `$.easing`, and whether jQuery transit is
    loaded;
  - `Host`: the event loop's armed timers, the executor's running transitions,
    and the ordered log of what the outside world observes (listener calls,
    element lookups, executor starts and halts);
  - `Laser`: the instance, with one method per source method. The asynchronous
    parts are separate step methods the host invokes:
    - `FireOffsetTimer`, for a record's offset timer;
    - `Complete`, for the completion callback;
    - `StopSweep`, for the delayed body of `stop`.

  Clock readings are parameters. Each method's `ensures` gives the whole new
  state as a function of the old one. `Valid` (structure) and `Tracked`
  (accounting) are preserved invariants.

Consequences proved about the accounting. Each one holds only while the
accounting invariant `Tracked` holds, which is when `play` ran from an idle
state: no offset timer armed and no transition running.

- After such a `play`, `remaining` equals the number of records that are
  dispatched but not completed.
- While any record is `STOPPED`, the completion callback never brings
  `remaining` to zero. So after a stop, `sequence:completed` never fires.
- After a sweep, no offset timer is armed and no transition is running.
- When `remaining` reaches 0, no offset timer is armed and no transition is
  running, so `sequence:completed` fires at most once per `play`.

A second `play` issued before the first one's offset timers have fired breaks
the invariant. Each record's `fn` overwrites `timeout` with its new timer
(src/laser.js:193, 264-266). The first timer stays armed, and the stop sweep
clears only the current one (src/laser.js:280). Lemma
`Lifecycle.ReplayLeavesStaleTimer` shows this for one record: the stale timer
survives the sweep, which has marked its record `STOPPED`. When that timer
fires, the record's transition starts, and its completion callback still
decrements `remaining`, so `sequence:completed` can fire after a stop.

These guarantees also rest on two assumptions about the animation executor,
listed under "## Left out".

Two operations do less than their names and doc comments suggest, and the
model follows the code:

- `off(n, fn)`, documented as "remove event listener" (src/laser.js:135),
  removes the LAST listener when fn is not registered, because
  `splice(-1, 1)` does that. It is not a no-op.
- `addEasing(alias, string)`, documented as adding a css3 cubic-bezier ease
  (src/laser.js:207), writes to `$.cssEase`, which only jQuery transit
  defines. Without transit the write throws a TypeError and nothing is
  registered, so a string easing can only be used with transit.

Three more behaviours of the code that the model keeps:

- In the completion callback, `sequence:completed` fires before the last
  record's `animation:completed` (src/laser.js:181-186).
- A record becomes `ON_STACK` when `play` dispatches it, not when its offset
  timer fires (src/laser.js:200). There is no separate pending state after
  `play`: a `stop(0)` issued right after `play` stops every record, including
  those whose offsets have not elapsed.
- A `STOPPED` record stays counted in `remaining`: the stop sweep never
  decrements it (src/laser.js:279-284). `remaining` is therefore not the
  number of records still to finish. After a `play` from an idle state, once
  a record is stopped `sequence:completed` does not fire for that `play`.

## Model

| member | source | states |
|---|---|---|
| JsArray.IndexOf | src/laser.js:140 | `indexOf`: -1 exactly when x is absent, otherwise the first position holding x |
| JsArray.SpliceStart | src/laser.js:140 | the start index `splice` uses: a negative start counts back from the end, clamped to the array |
| JsArray.SpliceOne | src/laser.js:140 | `splice(start, 1)` at the clamped start a: when a is a position, the elements before a stay, those after it move down by one, and exactly one copy of `s[a]` leaves the multiset; otherwise the array is unchanged |
| JsArray.Without | src/laser.js:138-142 | `splice(indexOf(fn), 1)` shortens a non-empty list by one and never adds an element |
| JsArray.WithoutPresent | src/laser.js:138-142 | for a registered fn, `off` removes exactly its first occurrence and keeps the others in order (multiset minus one copy) |
| JsArray.WithoutAbsent | src/laser.js:138-142 | for an unregistered fn, `off` drops the last listener of a non-empty list |
| JsArray.WithoutMembers | src/laser.js:138-142 | removing a present element keeps every other element and introduces none |
| Records.WhenOf | src/laser.js:232 | the record's `when`: the given offset, or 0 when absent |
| Records.Normalised | src/laser.js:232-240 | `add`'s options: `queue` off, easing defaulted when absent or empty, duration defaulted when absent or 0, given values kept otherwise |
| Records.Where | src/laser.js:67-73 | `_.where` on state returns only records of the list that are in that state |
| Records.WhereComplete | src/laser.js:67-73 | `_.where` on state misses no record in that state |
| Records.WhereAscending | src/laser.js:67-73 | the filter keeps list order |
| Records.WhereIndices | src/laser.js:279 | with ids equal to positions, the `ON_STACK` selection is exactly the `ON_STACK` positions, in ascending id order |
| Records.CountAppend | src/laser.js:242-250 | appending a record raises only its own state's count |
| Records.CountUpdate | src/laser.js:180-181 | changing one record's state moves one unit between the two states' counts |
| Records.CountPartition | src/laser.js:180 | the four state counts sum to the number of records |
| Records.CountZero | src/laser.js:182 | a state's count is zero iff no record is in that state |
| Records.CountAll | src/laser.js:262 | when all records share a state its count is the list length |
| Records.DispatchedAll | src/laser.js:264-266 | after `play`, record j is `ON_STACK` holding timer id base + j |
| Records.OffsetTimersAt | src/laser.js:193-199 | `play` arms exactly the ids base .. base + n - 1, id base + j being record j's offset timer with delay `when` |
| Records.Cleared | src/laser.js:188 | `clearTimeout(h)` removes h and keeps every other timer with its value; `undefined` removes nothing |
| Records.StopAll | src/laser.js:279-284 | the sweep turns each `ON_STACK` record `STOPPED` and leaves every other record as it was |
| Records.StopEachAt | src/laser.js:279-284 | after stopping a selection by id, exactly the positions named by the selection are `STOPPED` |
| Records.StopEachWhere | src/laser.js:279-284 | stopping the `ON_STACK` selection one by one equals `StopAll` |
| Records.StopAllCounts | src/laser.js:279-284 | the sweep moves every `ON_STACK` to `STOPPED`, so #`ON_STACK` + #`STOPPED` is unchanged and `COMPLETE`/unset counts are untouched |
| Records.RemainingZeroIff | src/laser.js:181-182 | under the accounting invariant, `remaining` is 0 iff every record is complete or undispatched |
| Records.RemainingIsUncompleted | src/laser.js:262 | once every record is dispatched, `remaining` = n - #`COMPLETE` |
| Records.Calls | src/laser.js:150-157 | `trigger` calls each listener of the list once, in list order, with the given arguments |
| Records.CallsAppend | src/laser.js:126-129 | a listener added last by `on` is called last |
| Records.TimeoutSet | src/laser.js:280 | every timer a selected record holds is among the timer ids the sweep clears |
| Records.TimeoutSetOnly | src/laser.js:280 | every timer id the sweep clears is held by some selected record; with `TimeoutSet` the set is exactly the held timers |
| Records.ElemSet | src/laser.js:281 | every selected record's element is among the elements the sweep halts |
| Records.ElemSetOnly | src/laser.js:281 | every element the sweep halts belongs to some selected record; with `ElemSet` the set is exactly the selected elements |
| Records.Halted | src/laser.js:281 | `.stop(true, false)` ends exactly the running transitions whose element is halted |
| Records.HaltedAppend | src/laser.js:281 | halting distributes over concatenation, so the survivors keep their order |
| Records.HaltedOne | src/laser.js:281 | a single transition survives iff its element is not halted; with `HaltedAppend` this fixes `Halted` completely |
| Records.HaltedNone | src/laser.js:281 | halting nothing leaves every transition running |
| Records.HaltedAll | src/laser.js:281 | halting every element that runs a transition leaves none running |
| Records.HaltedTwice | src/laser.js:279-284 | halting elements one at a time is halting them together |
| Records.SweepEffects | src/laser.js:279-284 | the sweep emits only halts and `animation:stopped` calls |
| Records.SweepStep | src/laser.js:280-283 | per record: first the element halt, then `animation:stopped(id)` to each listener in order |
| Lifecycle.ReplayLeavesStaleTimer | src/laser.js:193-199 | a second `play` before the first one's offset timer fires leaves that stale timer armed, so the accounting invariant fails and the sweep leaves the timer armed for a record it marks `STOPPED` |
| Lifecycle.AppendKeeps | src/laser.js:242-250 | appending an unset record with id = length keeps the structural and accounting invariants |
| Lifecycle.PlayKeeps | src/laser.js:259-268 | `play` keeps the structure, and from an idle state with `remaining` = n establishes the accounting invariant |
| Lifecycle.PlayArmed | src/laser.js:264-266 | after `play` each timer id is either a new offset timer base + j with record j's delay `when`, or an old timer kept with its value |
| Lifecycle.PlayAccounted | src/laser.js:259-268 | when only sweep timers were armed, `play` with `remaining` = n establishes the accounting invariant |
| Lifecycle.FireKeeps | src/laser.js:193-199 | a fired offset timer starts one transition for its record and keeps both invariants |
| Lifecycle.CompleteArmed | src/laser.js:187 | clearing the completed record's timer keeps every other timer, and each armed offset timer still names its own record |
| Lifecycle.CompleteRunning | src/laser.js:179-180 | after the callback the other running transitions still run on `ON_STACK` records, one per record |
| Lifecycle.CompleteKeeps | src/laser.js:179-189 | the completion callback keeps the structural invariant |
| Lifecycle.CompleteAccounted | src/laser.js:179-189 | the completion callback keeps `remaining` = #`ON_STACK` + #`STOPPED`; with a `STOPPED` record present the new `remaining` stays positive; when it reaches 0, nothing is left pending |
| Lifecycle.ZeroMeansNothingPending | src/laser.js:180-184 | under the accounting invariant, `remaining` = 0 means no transition runs and no offset timer is armed, so no offset timer or completion callback can follow and `sequence:completed` fires at most once per `play` |
| Lifecycle.ScheduleKeeps | src/laser.js:276-287 | arming the sweep timer keeps both invariants |
| Lifecycle.SweepKeeps | src/laser.js:276-287 | the sweep keeps both invariants and leaves no offset timer armed and no transition running |
| Sequencer.EasingRegistry.IsValidEasing | src/laser.js:32-52 | `_isValidEasing`: with transit loaded (`_isTransition`), the alias must be a key of `$.cssEase`; otherwise it must be a defined entry of `$.easing` |
| Sequencer.Host.SetTimeout | src/laser.js:193 | `setTimeout` arms the timer under a fresh id |
| Sequencer.Host.ClearTimeout | src/laser.js:188 | `clearTimeout` removes the given timer if armed; `undefined` is ignored |
| Sequencer.Laser.constructor | src/laser.js:19-24 | a new instance has an empty cache, no listeners, no records; it is tracked and idle |
| Sequencer.Laser.Get | src/laser.js:67-73 | `get('animations')` returns the list; with a state filter, exactly the records of the list in that state, in list order when ids ascend |
| Sequencer.Laser.GetCache | src/laser.js:102-104 | the cached handle, present iff the selector was cached |
| Sequencer.Laser.NextId | src/laser.js:166-168 | `id()` is above every existing record's id |
| Sequencer.Laser.SetCache | src/laser.js:114-117 | a cached handle is returned without a lookup; otherwise `$(s)` is looked up once and stored |
| Sequencer.Laser.On | src/laser.js:126-129 | `on` appends fn to the event's list, creating it; duplicates kept |
| Sequencer.Laser.Off | src/laser.js:138-142 | `off` leaves unknown events alone and otherwise splices at `indexOf(fn)` |
| Sequencer.Laser.Trigger | src/laser.js:150-157 | the log gains one call per listener of the event, in order, with the arguments |
| Sequencer.Laser.AddEasing | src/laser.js:210-217 | a string goes to `$.cssEase` (a TypeError and no change without transit), anything else to `$.easing`, returning `this`; the alias becomes valid iff it lands in the dictionary validation reads and is defined; no other alias changes |
| Sequencer.Laser.Add | src/laser.js:229-252 | caches the element first; an invalid easing returns the thrown error and appends nothing; otherwise appends one unset record with id = old length, the offset `when` (0 when absent) and normalised options; invariants kept |
| Sequencer.Laser.Dispatch | src/laser.js:191-201 | `fn` arms an offset timer with delay `when` and marks the record `ON_STACK` holding that timer |
| Sequencer.Laser.DispatchAll | src/laser.js:264-266 | every record's `fn` is called in index order: records and timer table as `DispatchedAll`/`OffsetTimers` say |
| Sequencer.Laser.Play | src/laser.js:259-268 | stamps `startedAt`, sets `remaining` = n, fires `sequence:started(n)`, dispatches all; from idle the accounting invariant holds |
| Sequencer.Laser.FireOffsetTimer | src/laser.js:193-199 | the fired timer is disarmed and the record's element starts one transition with its params and options; state untouched; invariants kept |
| Sequencer.Laser.Announce | src/laser.js:182-187 | at `remaining` = 0, `finishedAt` is stamped and `sequence:completed(elapsed)` fires, before `animation:completed(id)` in every case |
| Sequencer.Laser.Finish | src/laser.js:179-189 | the callback, for a record whose transition is running: record `COMPLETE`, `remaining` - 1, events as in `Announce`, then the record's timer cleared |
| Sequencer.Laser.Complete | src/laser.js:179-189 | the callback on a record with a running transition keeps both invariants; when the accounting invariant held, a `STOPPED` record present means it neither stamps `finishedAt` nor fires `sequence:completed`, and a callback that brings `remaining` to 0 leaves nothing pending |
| Sequencer.Laser.Stop | src/laser.js:276-287 | `stop(when)` only arms a sweep timer with delay `when`, or 0 when absent; invariants kept |
| Sequencer.Laser.HaltRecord | src/laser.js:280-283 | one swept record: timer cleared, element halted, `STOPPED`, `animation:stopped(id)` fired |
| Sequencer.Laser.HaltAll | src/laser.js:279-284 | the selection is swept in order: records, timers, transitions and log as `StopEach`, `TimeoutSet`, `Halted` and `SweepEffects` say |
| Sequencer.Laser.SweepOnStack | src/laser.js:278-284 | the sweep's steps: its own timer cleared, then every `ON_STACK` record `STOPPED`, its timer cleared and its element halted, with the `animation:stopped` calls in order; nothing else changes |
| Sequencer.Laser.StopSweep | src/laser.js:277-285 | the sweep clears its own timer and stops exactly the `ON_STACK` records; `COMPLETE` records and `remaining` untouched; afterwards nothing is pending |

## Left out

- jQuery itself: `$(s)` is a resolver parameter of `add`/`setCache`. `.transition`, `.animate` and `.stop(true, false)` are effects in the log, and running transitions are tracked by element. Easing curves and the interpolation itself are not modelled, nor is floating point.
- Timers and the clock: `setTimeout`/`clearTimeout` act on a timer table in `Host`. `new Date().getTime()` is a parameter of `Play` and `Complete`. The host picks which armed timer fires and when a transition ends, so no firing order by delay is modelled and the clock is not assumed monotonic.
- `set` (src/laser.js:83-93) is not modelled: it writes to the undefined names `result`, `ctx` and `obj`, so it throws on any match.
- `_.extend(this, params)` in the constructor is not modelled: arbitrary extra instance properties have no typed counterpart.
- Sequencer.Laser.AddEasing: `$.cssEase` is taken to exist exactly when jQuery transit is loaded, because transit is the plugin that defines it. Another plugin defining `$.cssEase` without `.transition` is not modelled.
- Sequencer.Laser.Get: models `get('animations', where)` only, with a state-only filter. Other attribute names and other `_.where` keys are not modelled.
- Sequencer.Laser.Add: the caller's options object is not mutated in place (the source deletes `when` and writes `queue`, `easing` and `duration` into it). Options are a fixed record of `when`, `duration` and `easing`, and other jQuery options are dropped. Each `add` is assumed to get its own options object. The record keeps a reference to the caller's object (src/laser.js:248), and the completion callback is written into it (src/laser.js:179). So when several `add`s share one object, the transition of every record sharing it runs the callback of the last record added with it: that record is marked `COMPLETE`, its pending offset timer is cleared, and the others stay `ON_STACK`. A later `add` with the shared object also finds `when` already deleted (src/laser.js:233), so its offset is 0. The model binds each transition to its own record, so none of this is modelled.
- Records.Normalised: `||` defaults are modelled for absent, empty-string and zero values. JavaScript's other falsy values (`NaN`, `null`, `false`) and non-numeric durations are not.
- The executor calls back once per transition: each executor start adds one running transition, and `Complete` needs one. jQuery's `.animate` (src/laser.js:197) calls `options.complete` once per matched element, so a selector matching k elements would decrement `remaining` k times. This is not modelled: a selector resolves to one element. "Completes at most once" and the accounting invariant rest on this assumption.
- A halted transition never calls back: the sweep removes the element's running transitions, so no `Complete` can follow for them. jQuery guarantees this for `.stop(true, false)` on `.animate`. For `.transition` (src/laser.js:195) it is an assumption about the transit plugin. "After a stop, `sequence:completed` never fires" rests on it.
- Listener functions are identities (`ListenerId`). A listener that calls back into the instance, or throws, is not modelled: the log records each call in order.
- `remaining`, `startedAt` and `finishedAt` are `undefined` before the first `play`. The model starts them at 0. This is unobservable, because a completion callback needs a running transition, which only `play` creates.
- Keys that collide with `Object.prototype` names are not modelled: the cache, the listener registry and the easing dictionaries are plain maps. In JavaScript `cache['constructor']` and `listeners['toString']` are found without being set, and an easing alias such as `toString` passes `_isValidEasing` (src/laser.js:47, 50) while `IsValidEasing` rejects it.
- The demo wiring (`demo/js/src/basic.js`, `js/src/page.js`) and the DOM test harness (`test/js/vendor/kale.js`, `test/js/spec/basic.js`) are outside the core: they only build DOM boxes and check rendered positions.
