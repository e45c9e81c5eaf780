/**
 * Small helpers shared by the three games: an Option type for lookups that may
 * find nothing, Python's numeric conversions (int() on a float, round()), and an
 * order-preserving filter over sequences.
 */
module Common {

  datatype Option<T> = None | Some(value: T)

  function Abs(r: real): real { if r < 0.0 then -r else r }

  function MaxInt(a: int, b: int): int { if a < b then b else a }

  function MinInt(a: int, b: int): int { if a < b then a else b }

  /** Truncation toward zero: Python's int(x) on a float, and the C cast pygame
      applies when a float is stored into an integer Rect field. */
  function Trunc(r: real): (n: int)
    ensures r >= 0.0 ==> 0 <= n && n as real <= r < n as real + 1.0
    ensures r < 0.0 ==> n <= 0 && n as real - 1.0 < r <= n as real
  {
    if r >= 0.0 then r.Floor else -((-r).Floor)
  }

  /** list.remove(x) where x is first found at index i: the list without that element. */
  function RemoveAt<T>(s: seq<T>, i: nat): (r: seq<T>)
    requires i < |s|
    ensures |r| == |s| - 1
    ensures multiset(r) + multiset{s[i]} == multiset(s)
  {
    assert s == s[..i] + [s[i]] + s[i + 1..];
    s[..i] + s[i + 1..]
  }

  lemma TruncOfInt(n: int)
    ensures Trunc(n as real) == n
  {
  }

  /** Python 3's round(x) for a float: nearest integer, ties to the even one. */
  function RoundHalfEven(r: real): (n: int)
    ensures Abs(r - n as real) <= 0.5
    ensures Abs(r - n as real) == 0.5 ==> n % 2 == 0
  {
    var f := r.Floor;
    var d := r - f as real;
    if d < 0.5 then f
    else if d > 0.5 then f + 1
    else if f % 2 == 0 then f else f + 1
  }

  /** The elements of s that satisfy p, in their original order (the effect of a
      Python loop over a copy of a list that removes the others from it). */
  function Filter<T>(p: T -> bool, s: seq<T>): (r: seq<T>)
    ensures |r| <= |s|
    ensures forall x :: x in r ==> x in s && p(x)
  {
    if s == [] then []
    else if p(s[|s| - 1]) then Filter(p, s[..|s| - 1]) + [s[|s| - 1]]
    else Filter(p, s[..|s| - 1])
  }

  lemma {:induction false} FilterKeepsExactly<T>(p: T -> bool, s: seq<T>, x: T)
    ensures x in Filter(p, s) <==> x in s && p(x)
  {
    if s != [] {
      var init := s[..|s| - 1];
      assert s == init + [s[|s| - 1]];
      FilterKeepsExactly(p, init, x);
    }
  }

  lemma {:induction false} FilterAllKept<T>(p: T -> bool, s: seq<T>)
    requires forall i :: 0 <= i < |s| ==> p(s[i])
    ensures Filter(p, s) == s
  {
    if s != [] {
      var init := s[..|s| - 1];
      assert s == init + [s[|s| - 1]];
      FilterAllKept(p, init);
    }
  }

  lemma FilterStep<T>(p: T -> bool, s: seq<T>, i: nat)
    requires i < |s|
    ensures Filter(p, s[..i + 1]) == if p(s[i]) then Filter(p, s[..i]) + [s[i]] else Filter(p, s[..i])
  {
    assert s[..i + 1][..i] == s[..i];
  }
}
