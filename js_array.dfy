/**
 * The two JavaScript Array operations the sequencer's listener registry relies
 * on, with their ECMAScript semantics: `indexOf` (strict equality, -1 when
 * absent) and `splice(start, 1)` (a negative start counts from the end).
 */
module JsArray {

  /** `s.indexOf(x)`: the first position holding x, or -1 when x does not occur. */
  function IndexOf<T(==)>(s: seq<T>, x: T): (r: int)
    ensures -1 <= r < |s|
    ensures r == -1 <==> x !in s
    ensures 0 <= r ==> s[r] == x && x !in s[..r]
  {
    if s == [] then -1
    else if s[0] == x then 0
    else
      var k := IndexOf(s[1..], x);
      if k == -1 then -1
      else
        assert s[..k + 1] == [s[0]] + s[1..][..k];
        k + 1
  }

  /** The position `splice` starts at: a negative start counts back from the end, clamped to [0, |s|]. */
  function SpliceStart(len: nat, start: int): (a: nat)
    ensures a <= len
    ensures 0 <= start ==> a == (if start < len then start else len)
    ensures start < 0 ==> a == (if len + start < 0 then 0 else len + start)
  {
    if start < 0 then (if len + start < 0 then 0 else len + start)
    else if start < len then start
    else len
  }

  /**
   * `s.splice(start, 1)`: with a = the clamped start, when a is a position the
   * element there is removed, those before it stay put and those after it move
   * down by one; otherwise the array is unchanged.
   */
  function SpliceOne<T>(s: seq<T>, start: int): (r: seq<T>)
    ensures var a := SpliceStart(|s|, start);
      if a < |s| then
        && |r| == |s| - 1
        && (forall j :: 0 <= j < a ==> r[j] == s[j])
        && (forall j :: a <= j < |r| ==> r[j] == s[j + 1])
        && multiset(r) == multiset(s) - multiset{s[a]}
      else r == s
  {
    var a := SpliceStart(|s|, start);
    if a < |s| then
      RemoveAtMultiset(s, a);
      s[..a] + s[a + 1..]
    else s
  }

  /** `s.splice(s.indexOf(x), 1)`: the idiom laser.js uses to unregister a listener. */
  function Without<T(==)>(s: seq<T>, x: T): (r: seq<T>)
    ensures |r| == if s == [] then 0 else |s| - 1
    ensures multiset(r) <= multiset(s)
  {
    SpliceOne(s, IndexOf(s, x))
  }

  /** When x is present, `Without` removes its first occurrence and keeps the rest in order. */
  lemma WithoutPresent<T>(s: seq<T>, x: T)
    requires x in s
    ensures var k := IndexOf(s, x);
      0 <= k < |s| && s[k] == x && x !in s[..k] && Without(s, x) == s[..k] + s[k + 1..]
    ensures multiset(Without(s, x)) == multiset(s) - multiset{x}
  {
    var k := IndexOf(s, x);
    assert SpliceStart(|s|, k) == k;
    var r := Without(s, x);
    assert r == s[..k] + s[k + 1..];
  }

  /** Taking out position k removes exactly one copy of s[k] from the multiset of elements. */
  lemma RemoveAtMultiset<T>(s: seq<T>, k: nat)
    requires k < |s|
    ensures multiset(s[..k] + s[k + 1..]) == multiset(s) - multiset{s[k]}
  {
    var front, back := s[..k], s[k + 1..];
    assert s == front + [s[k]] + back;
    assert multiset(s) == multiset(front) + multiset{s[k]} + multiset(back);
  }

  /**
   * When x is absent, `indexOf` is -1 and `splice(-1, 1)` drops the LAST element
   * of a non-empty array; an empty array is left alone.
   */
  lemma WithoutAbsent<T>(s: seq<T>, x: T)
    requires x !in s
    ensures Without(s, x) == if s == [] then [] else s[..|s| - 1]
  {
    if s != [] {
      assert s[..|s| - 1] + s[|s|..] == s[..|s| - 1];
    }
  }

  /** Removing the first occurrence of x leaves every other position in place, so no duplicates arise. */
  lemma WithoutMembers<T>(s: seq<T>, x: T)
    requires x in s
    ensures forall y :: y in Without(s, x) ==> y in s
    ensures forall y :: y in s && y != x ==> y in Without(s, x)
  {
    WithoutPresent(s, x);
    var k := IndexOf(s, x);
    assert s == s[..k] + [x] + s[k + 1..];
  }
}
