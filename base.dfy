/**
 * Small shared vocabulary: optional values (JavaScript `undefined`/`null`
 * results), how a promise returned by the driver settles, and a few
 * sequence helpers.
 */
module Base {

  datatype Option<+T> = None | Some(value: T)

  /** Why a promise returned by the driver was rejected. */
  datatype Failure =
    | IndexUnreadable   // JSON.parse of the index text threw
    | ComparatorThrew   // the sort comparator's `reduce` ran on an empty array

  /**
   * How a promise returned by the driver settles. `Pending` is a promise that
   * is never resolved nor rejected.
   */
  datatype Outcome<+V> = Resolved(value: V) | Rejected(failure: Failure) | Pending

  /** `xs.map(f)` */
  function MapAll<A, B>(f: A -> B, xs: seq<A>): (r: seq<B>)
    ensures |r| == |xs|
    ensures forall k :: 0 <= k < |xs| ==> r[k] == f(xs[k])
  {
    if xs == [] then [] else MapAll(f, xs[..|xs| - 1]) + [f(xs[|xs| - 1])]
  }

  function Min(a: int, b: int): int
  {
    if a < b then a else b
  }

  /** No element occurs twice. */
  ghost predicate NoDup<X>(s: seq<X>)
  {
    forall i, j :: 0 <= i < j < |s| ==> s[i] != s[j]
  }

  /** The elements of `s` that satisfy `p`, in order. */
  function Filter<X>(s: seq<X>, p: X -> bool): (r: seq<X>)
    ensures |r| <= |s|
  {
    if s == [] then []
    else Filter(s[..|s| - 1], p) + (if p(s[|s| - 1]) then [s[|s| - 1]] else [])
  }

  /** An element survives the filter exactly when it is there and satisfies `p`. */
  lemma {:induction false} FilterMembers<X>(s: seq<X>, p: X -> bool)
    ensures forall x :: x in Filter(s, p) <==> x in s && p(x)
  {
    if s != [] {
      var init, y := s[..|s| - 1], s[|s| - 1];
      FilterMembers(init, p);
      assert s == init + [y];
    }
  }

  /** Filtering never introduces a duplicate. */
  lemma {:induction false} FilterNoDup<X>(s: seq<X>, p: X -> bool)
    requires NoDup(s)
    ensures NoDup(Filter(s, p))
  {
    if s != [] {
      var init, y := s[..|s| - 1], s[|s| - 1];
      assert NoDup(init);
      FilterNoDup(init, p);
      FilterMembers(init, p);
      assert y !in init by {
        forall i | 0 <= i < |init| ensures init[i] != y {
          assert init[i] == s[i];
        }
      }
      var a := Filter(init, p);
      if p(y) {
        var r := a + [y];
        forall i, j | 0 <= i < j < |r| ensures r[i] != r[j] {
          if j == |a| { assert r[i] in a; }
        }
      }
    }
  }
}
