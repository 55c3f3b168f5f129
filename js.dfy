/**
 * The JavaScript array built-ins the driver calls, on sequences: `slice`,
 * `indexOf` and `splice(start, 1)`. A negative position counts from the end,
 * as in ECMAScript.
 */
module Js {
  import opened Base

  /** A relative position resolved against a length, as `slice` and `splice` do. */
  function Clamp(rel: int, len: nat): (r: nat)
    ensures r <= len
    ensures 0 <= rel <= len ==> r == rel
    ensures rel > len ==> r == len
    ensures rel < 0 ==> r == (if len + rel < 0 then 0 else len + rel)
  {
    if rel < 0 then (if len + rel < 0 then 0 else len + rel)
    else if rel > len then len
    else rel
  }

  /** `s.slice(start, end)` */
  function Slice<X>(s: seq<X>, start: int, end: int): (r: seq<X>)
    ensures |r| <= |s|
    ensures 0 <= start <= |s| && start <= end ==> r == s[start..Min(end, |s|)]
    ensures start > |s| ==> r == []
    ensures start == 0 && end < 0 ==> r == s[..Clamp(end, |s|)]
  {
    var from, to := Clamp(start, |s|), Clamp(end, |s|);
    if from < to then s[from..to] else []
  }

  /** `s.indexOf(x)`: the first position of `x`, or -1. */
  function IndexOf<X(==)>(s: seq<X>, x: X): (r: int)
    ensures -1 <= r < |s|
    ensures r == -1 <==> x !in s
    ensures 0 <= r ==> s[r] == x && x !in s[..r]
  {
    if s == [] then -1
    else if s[0] == x then 0
    else
      var k := IndexOf(s[1..], x);
      assert s[1..][..if k < 0 then 0 else k] == s[1..if k < 0 then 1 else k + 1];
      if k < 0 then -1 else k + 1
  }

  /** The first occurrence of `x` is where it follows a prefix without it. */
  lemma {:induction false} IndexOfFirst<X>(before: seq<X>, x: X, rest: seq<X>)
    requires x !in before
    ensures IndexOf(before + [x] + rest, x) == |before|
  {
    var s := before + [x] + rest;
    if before == [] {
      assert s[0] == x;
    } else {
      assert s[0] == before[0];
      assert s[1..] == before[1..] + [x] + rest;
      assert x !in before[1..] by {
        forall i | 0 <= i < |before| - 1 ensures before[1..][i] != x {
          assert before[1..][i] == before[i + 1];
        }
      }
      IndexOfFirst(before[1..], x, rest);
    }
  }

  /** `s.splice(start, 1)`, as the array that remains. */
  function SpliceOne<X>(s: seq<X>, start: int): (r: seq<X>)
    ensures 0 <= start < |s| ==> r == s[..start] + s[start + 1..]
    ensures start == -1 && s != [] ==> r == s[..|s| - 1]
    ensures start >= |s| ==> r == s
    ensures s == [] ==> r == []
  {
    var k := Clamp(start, |s|);
    if k < |s| then s[..k] + s[k + 1..] else s
  }
}
