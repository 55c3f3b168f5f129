/**
 * The sort step of `findAll` (CapacitorPreferencesDriver.ts, the comparator
 * built from `options.sort` and the `Array.prototype.sort` call): each sort
 * key contributes `res1 - res2` for numbers, `res1.localeCompare(res2)` for
 * strings and 0 otherwise, with the operands swapped when the direction is
 * not positive; the contributions are added by `reduce`. `sort` itself is
 * modelled as a stable insertion sort, which for a consistent comparator is
 * the order every stable sort yields.
 */
module Sorting {
  import opened Base
  import opened Json

  /** One `[path, direction]` entry of `options.sort`. */
  datatype SortKey = SortKey(path: string, direction: int)

  /**
   * The foreign helpers the comparator calls: `getValueFromPath(obj, path)[1]`
   * (None is `undefined`) and `String.prototype.localeCompare`.
   */
  datatype QueryEnv = QueryEnv(
    valueAt: (Json, string) -> Option<Json>,
    localeCompare: (string, string) -> int)

  /** What one key contributes when comparing `a` with `b`; None is NaN. */
  function Contribution(env: QueryEnv, key: SortKey, a: Json, b: Json): Option<int>
  {
    var res1 := env.valueAt(if key.direction > 0 then a else b, key.path);
    var res2 := env.valueAt(if key.direction > 0 then b else a, key.path);
    match res1
    case Some(JNum(n)) =>
      (match ToNumber(res2)
       case Some(m) => Some(n - m)
       case None => None)
    case Some(JStr(s)) => Some(env.localeCompare(s, ToText(res2)))
    case _ => Some(0)
  }

  /** Number addition, where NaN (None) absorbs. */
  function AddNumbers(x: Option<int>, y: Option<int>): Option<int>
  {
    if x.Some? && y.Some? then Some(x.value + y.value) else None
  }

  /** `.reduce((a, b) => a + b)` over the contributions of the first `n` keys. */
  function SumContributions(keys: seq<SortKey>, env: QueryEnv, a: Json, b: Json, n: nat): Option<int>
    requires 0 < n <= |keys|
  {
    if n == 1 then Contribution(env, keys[0], a, b)
    else AddNumbers(SumContributions(keys, env, a, b, n - 1), Contribution(env, keys[n - 1], a, b))
  }

  /**
   * The comparator's result as `sort` uses it: NaN counts as 0
   * (ECMAScript's SortCompare). With no keys `reduce` throws instead; the
   * value 0 given here is never consulted (see SortOutcome).
   */
  function Compare(keys: seq<SortKey>, env: QueryEnv, a: Json, b: Json): int
  {
    if keys == [] then 0
    else match SumContributions(keys, env, a, b, |keys|)
      case Some(v) => v
      case None => 0
  }

  function CompareBy(keys: seq<SortKey>, env: QueryEnv): (Json, Json) -> int
  {
    (a: Json, b: Json) => Compare(keys, env, a, b)
  }

  // ---------------------------------------------------------------------
  // The sort

  /**
   * Where a stable insertion places `x` in `t`: in front of the first
   * element that compares greater than `x`, or at the end.
   */
  function InsertPoint<X>(x: X, t: seq<X>, cmp: (X, X) -> int): (k: nat)
    ensures k <= |t|
    ensures forall i :: 0 <= i < k ==> cmp(t[i], x) <= 0
    ensures k < |t| ==> cmp(t[k], x) > 0
  {
    if t == [] then 0
    else if cmp(t[0], x) > 0 then 0
    else 1 + InsertPoint(x, t[1..], cmp)
  }

  function InsertSorted<X>(x: X, t: seq<X>, cmp: (X, X) -> int): seq<X>
  {
    var k := InsertPoint(x, t, cmp);
    t[..k] + [x] + t[k..]
  }

  /** `data.sort(cmp)`: the elements are inserted one by one, in array order. */
  function SortBy<X>(s: seq<X>, cmp: (X, X) -> int): seq<X>
  {
    if s == [] then []
    else InsertSorted(s[|s| - 1], SortBy(s[..|s| - 1], cmp), cmp)
  }

  /**
   * What `data.sort(comparator)` yields for the sort keys of a query; None
   * when the comparator throws, which it does as soon as it is called, that
   * is for an empty key list and at least two elements.
   */
  function SortOutcome(keys: seq<SortKey>, env: QueryEnv, data: seq<Json>): (r: Option<seq<Json>>)
    ensures r.None? <==> keys == [] && |data| >= 2
    ensures r.Some? ==> multiset(r.value) == multiset(data)
  {
    SortByPermutation(data, CompareBy(keys, env));
    if keys == [] && |data| >= 2 then None else Some(SortBy(data, CompareBy(keys, env)))
  }

  // ---------------------------------------------------------------------
  // What the sort guarantees

  /** `cmp` orders the elements of `s` as the integer rank `K` does. */
  ghost predicate RankedBy<X>(cmp: (X, X) -> int, K: X -> int, s: seq<X>)
  {
    forall a, b :: a in s && b in s ==> (cmp(a, b) > 0 <==> K(a) > K(b))
  }

  ghost predicate SortedBy<X>(s: seq<X>, K: X -> int)
  {
    forall i, j :: 0 <= i < j < |s| ==> K(s[i]) <= K(s[j])
  }

  /** The elements of rank `v`. */
  function HasRank<X>(K: X -> int, v: int): X -> bool
  {
    (x: X) => K(x) == v
  }

  lemma InsertSortedPermutation<X>(x: X, t: seq<X>, cmp: (X, X) -> int)
    ensures multiset(InsertSorted(x, t, cmp)) == multiset(t) + multiset{x}
  {
    var k := InsertPoint(x, t, cmp);
    assert t == t[..k] + t[k..];
  }

  /** Sorting rearranges the elements and neither adds nor drops one. */
  lemma {:induction false} SortByPermutation<X>(s: seq<X>, cmp: (X, X) -> int)
    ensures multiset(SortBy(s, cmp)) == multiset(s)
    ensures |SortBy(s, cmp)| == |s|
  {
    if s != [] {
      var init, x := s[..|s| - 1], s[|s| - 1];
      SortByPermutation(init, cmp);
      InsertSortedPermutation(x, SortBy(init, cmp), cmp);
      MultisetInit(s);
    }
  }

  lemma MultisetInit<X>(s: seq<X>)
    requires s != []
    ensures multiset(s) == multiset(s[..|s| - 1]) + multiset{s[|s| - 1]}
  {
    assert s == s[..|s| - 1] + [s[|s| - 1]];
  }

  /** Every element of a sorted prefix comes from the whole sequence. */
  lemma SortedInitMembers<X>(s: seq<X>, cmp: (X, X) -> int)
    requires s != []
    ensures forall e :: e in SortBy(s[..|s| - 1], cmp) ==> e in s
  {
    var init := s[..|s| - 1];
    SortByPermutation(init, cmp);
    forall e | e in SortBy(init, cmp) ensures e in s {
      assert e in multiset(SortBy(init, cmp));
      assert e in multiset(init);
      var i :| 0 <= i < |init| && init[i] == e;
      assert s[i] == e;
    }
  }

  /** Dropping the last element keeps a rank agreement. */
  lemma RankedByInit<X>(cmp: (X, X) -> int, K: X -> int, s: seq<X>)
    requires s != [] && RankedBy(cmp, K, s)
    ensures RankedBy(cmp, K, s[..|s| - 1])
    ensures forall e :: e in s[..|s| - 1] ==> e in s
  {
    var init := s[..|s| - 1];
    forall a | a in init ensures a in s {
      var i :| 0 <= i < |init| && init[i] == a;
      assert s[i] == a;
    }
  }

  /** The rank of every element from the insertion point on exceeds that of `x`. */
  lemma InsertPointRank<X>(x: X, t: seq<X>, cmp: (X, X) -> int, K: X -> int, s: seq<X>)
    requires SortedBy(t, K) && RankedBy(cmp, K, s)
    requires x in s && forall e :: e in t ==> e in s
    ensures forall i :: 0 <= i < InsertPoint(x, t, cmp) ==> K(t[i]) <= K(x)
    ensures forall i :: InsertPoint(x, t, cmp) <= i < |t| ==> K(x) < K(t[i])
  {
    var k := InsertPoint(x, t, cmp);
    forall i | 0 <= i < k ensures K(t[i]) <= K(x) {
      RankedPair(cmp, K, s, t[i], x);
    }
    if k < |t| {
      RankedPair(cmp, K, s, t[k], x);
      forall i | k <= i < |t| ensures K(x) < K(t[i]) {
        assert K(t[k]) <= K(t[i]);
      }
    }
  }

  lemma RankedPair<X>(cmp: (X, X) -> int, K: X -> int, s: seq<X>, a: X, b: X)
    requires RankedBy(cmp, K, s) && a in s && b in s
    ensures cmp(a, b) > 0 <==> K(a) > K(b)
  {
  }

  lemma InsertSortedSorted<X>(x: X, t: seq<X>, cmp: (X, X) -> int, K: X -> int, s: seq<X>)
    requires SortedBy(t, K) && RankedBy(cmp, K, s)
    requires x in s && forall e :: e in t ==> e in s
    ensures SortedBy(InsertSorted(x, t, cmp), K)
  {
    var k := InsertPoint(x, t, cmp);
    var r := InsertSorted(x, t, cmp);
    InsertPointRank(x, t, cmp, K, s);
    assert |r| == |t| + 1;
    assert forall i :: 0 <= i < k ==> r[i] == t[i];
    assert r[k] == x;
    assert forall i :: k < i < |r| ==> r[i] == t[i - 1];
    forall i, j | 0 <= i < j < |r| ensures K(r[i]) <= K(r[j]) {
      if j < k {
        assert K(t[i]) <= K(t[j]);
      } else if i > k {
        assert K(t[i - 1]) <= K(t[j - 1]);
      }
    }
  }

  /** When `cmp` agrees with a rank, the sorted elements are in rank order. */
  lemma {:induction false} SortBySorted<X>(s: seq<X>, cmp: (X, X) -> int, K: X -> int)
    requires RankedBy(cmp, K, s)
    ensures SortedBy(SortBy(s, cmp), K)
  {
    if s != [] {
      var init, x := s[..|s| - 1], s[|s| - 1];
      RankedByInit(cmp, K, s);
      SortBySorted(init, cmp, K);
      SortedInitMembers(s, cmp);
      InsertSortedSorted(x, SortBy(init, cmp), cmp, K, s);
    }
  }

  lemma {:induction false} FilterAppend<X>(a: seq<X>, b: seq<X>, p: X -> bool)
    ensures Filter(a + b, p) == Filter(a, p) + Filter(b, p)
    decreases |b|
  {
    if b == [] {
      assert a + b == a;
    } else {
      var b', y := b[..|b| - 1], b[|b| - 1];
      var tail := if p(y) then [y] else [];
      FilterAppend(a, b', p);
      assert (a + b)[..|a + b| - 1] == a + b';
      assert (a + b)[|a + b| - 1] == y;
      assert Filter(a + b, p) == Filter(a + b', p) + tail;
      assert Filter(b, p) == Filter(b', p) + tail;
    }
  }

  lemma {:induction false} FilterNone<X>(s: seq<X>, p: X -> bool)
    requires forall i :: 0 <= i < |s| ==> !p(s[i])
    ensures Filter(s, p) == []
  {
    if s != [] {
      FilterNone(s[..|s| - 1], p);
    }
  }

  lemma FilterInsert<X>(left: seq<X>, x: X, right: seq<X>, p: X -> bool)
    ensures Filter(left + [x] + right, p)
         == Filter(left, p) + (if p(x) then [x] else []) + Filter(right, p)
  {
    FilterAppend(left + [x], right, p);
    FilterAppend(left, [x], p);
    assert [x][..0] == [];
  }

  /** Inserting `x` where nothing after it satisfies `p` appends it to the filtered elements. */
  lemma FilterInsertAt<X>(t: seq<X>, k: nat, x: X, p: X -> bool)
    requires k <= |t|
    requires p(x) ==> forall i :: k <= i < |t| ==> !p(t[i])
    ensures Filter(t[..k] + [x] + t[k..], p) == Filter(t, p) + (if p(x) then [x] else [])
  {
    var left, right := t[..k], t[k..];
    FilterInsert(left, x, right, p);
    if p(x) {
      forall i | 0 <= i < |right| ensures !p(right[i]) {
        assert right[i] == t[k + i];
      }
      FilterNone(right, p);
    }
    FilterSplit(t, k, p);
    JoinThree(Filter(left, p), if p(x) then [x] else [], Filter(right, p));
  }

  lemma FilterSplit<X>(t: seq<X>, k: nat, p: X -> bool)
    requires k <= |t|
    ensures Filter(t, p) == Filter(t[..k], p) + Filter(t[k..], p)
  {
    var left, right := t[..k], t[k..];
    TakeDropJoin(t, k);
    FilterAppend(left, right, p);
  }

  lemma TakeDropJoin<X>(t: seq<X>, k: nat)
    requires k <= |t|
    ensures t[..k] + t[k..] == t
  {
  }

  /** Moving a middle part that is empty or comes before an empty end. */
  lemma JoinThree<X>(a: seq<X>, m: seq<X>, c: seq<X>)
    requires m == [] || c == []
    ensures a + m + c == (a + c) + m
  {
  }

  lemma InsertSortedStable<X>(x: X, t: seq<X>, cmp: (X, X) -> int, K: X -> int, s: seq<X>, v: int)
    requires SortedBy(t, K) && RankedBy(cmp, K, s)
    requires x in s && forall e :: e in t ==> e in s
    ensures Filter(InsertSorted(x, t, cmp), HasRank(K, v))
         == Filter(t, HasRank(K, v)) + (if K(x) == v then [x] else [])
  {
    var p := HasRank(K, v);
    var k := InsertPoint(x, t, cmp);
    InsertPointRank(x, t, cmp, K, s);
    assert p(x) ==> forall i :: k <= i < |t| ==> !p(t[i]);
    FilterInsertAt(t, k, x, p);
  }

  /**
   * Sorting is stable: the elements of any one rank keep their relative
   * order, so ties stay in index order.
   */
  lemma {:induction false} SortByStable<X>(s: seq<X>, cmp: (X, X) -> int, K: X -> int, v: int)
    requires RankedBy(cmp, K, s)
    ensures Filter(SortBy(s, cmp), HasRank(K, v)) == Filter(s, HasRank(K, v))
  {
    if s != [] {
      var init, x := s[..|s| - 1], s[|s| - 1];
      RankedByInit(cmp, K, s);
      SortByStable(init, cmp, K, v);
      SortBySorted(init, cmp, K);
      SortedInitMembers(s, cmp);
      InsertSortedStable(x, SortBy(init, cmp), cmp, K, s, v);
    }
  }

  lemma {:induction false} FilterSame<X>(s: seq<X>, p: X -> bool, q: X -> bool)
    requires forall x :: p(x) == q(x)
    ensures Filter(s, p) == Filter(s, q)
  {
    if s != [] {
      FilterSame(s[..|s| - 1], p, q);
    }
  }

  // ---------------------------------------------------------------------
  // The comparator on one key

  function Negated<X>(K: X -> int): X -> int
  {
    (x: X) => -K(x)
  }

  /**
   * With one numeric key, the comparator orders by that number for a
   * positive direction and by its negation otherwise.
   */
  lemma NumericKeyRanks(path: string, direction: int, env: QueryEnv, s: seq<Json>, K: Json -> int)
    requires forall x :: x in s ==> env.valueAt(x, path) == Some(JNum(K(x)))
    ensures direction > 0 ==> RankedBy(CompareBy([SortKey(path, direction)], env), K, s)
    ensures direction <= 0 ==> RankedBy(CompareBy([SortKey(path, direction)], env), Negated(K), s)
  {
    var keys := [SortKey(path, direction)];
    forall a, b | a in s && b in s
      ensures Compare(keys, env, a, b) == if direction > 0 then K(a) - K(b) else K(b) - K(a)
    {
      assert SumContributions(keys, env, a, b, 1) == Contribution(env, keys[0], a, b);
    }
  }

  /** A comparator that ranks by the negation of `K` sorts by `K` descending, stably. */
  lemma SortByDescending<X>(s: seq<X>, cmp: (X, X) -> int, K: X -> int, v: int)
    requires RankedBy(cmp, Negated(K), s)
    ensures var r := SortBy(s, cmp);
      && (forall i, j :: 0 <= i < j < |r| ==> K(r[i]) >= K(r[j]))
      && Filter(r, HasRank(K, v)) == Filter(s, HasRank(K, v))
  {
    var r := SortBy(s, cmp);
    SortBySorted(s, cmp, Negated(K));
    assert forall i, j :: 0 <= i < j < |r| ==> Negated(K)(r[i]) <= Negated(K)(r[j]);
    SortByStable(s, cmp, Negated(K), -v);
    FilterSame(r, HasRank(Negated(K), -v), HasRank(K, v));
    FilterSame(s, HasRank(Negated(K), -v), HasRank(K, v));
  }

  /**
   * `sort: [[path, 1]]` on numbers sorts ascending and `[[path, -1]]`
   * descending; elements with equal numbers keep their index order.
   */
  lemma NumericKeyOrder(path: string, direction: int, env: QueryEnv, s: seq<Json>, K: Json -> int, v: int)
    requires forall x :: x in s ==> env.valueAt(x, path) == Some(JNum(K(x)))
    ensures var r := SortBy(s, CompareBy([SortKey(path, direction)], env));
      && multiset(r) == multiset(s)
      && (direction > 0 ==> forall i, j :: 0 <= i < j < |r| ==> K(r[i]) <= K(r[j]))
      && (direction <= 0 ==> forall i, j :: 0 <= i < j < |r| ==> K(r[i]) >= K(r[j]))
      && Filter(r, HasRank(K, v)) == Filter(s, HasRank(K, v))
  {
    var cmp := CompareBy([SortKey(path, direction)], env);
    NumericKeyRanks(path, direction, env, s, K);
    SortByPermutation(s, cmp);
    if direction > 0 {
      SortBySorted(s, cmp, K);
      SortByStable(s, cmp, K, v);
    } else {
      SortByDescending(s, cmp, K, v);
    }
  }

  /**
   * With one string key in ascending direction, the comparator orders by
   * `localeCompare`, here any comparison that agrees with a rank `R`.
   */
  lemma StringKeyOrder(path: string, env: QueryEnv, s: seq<Json>, N: Json -> string, R: string -> int, v: int)
    requires forall x :: x in s ==> env.valueAt(x, path) == Some(JStr(N(x)))
    requires forall u, w :: env.localeCompare(u, w) > 0 <==> R(u) > R(w)
    ensures var r := SortBy(s, CompareBy([SortKey(path, 1)], env));
      var K := (x: Json) => R(N(x));
      && multiset(r) == multiset(s)
      && (forall i, j :: 0 <= i < j < |r| ==> K(r[i]) <= K(r[j]))
      && Filter(r, HasRank(K, v)) == Filter(s, HasRank(K, v))
  {
    var keys := [SortKey(path, 1)];
    var cmp := CompareBy(keys, env);
    var K := (x: Json) => R(N(x));
    forall a, b | a in s && b in s ensures cmp(a, b) > 0 <==> K(a) > K(b) {
      assert SumContributions(keys, env, a, b, 1) == Contribution(env, keys[0], a, b);
      assert ToText(Some(JStr(N(b)))) == N(b);
    }
    SortByPermutation(s, cmp);
    SortBySorted(s, cmp, K);
    SortByStable(s, cmp, K, v);
  }

  /**
   * The display-name test: two objects named "Test" inserted before one
   * named "Maxim". Sorting by name puts "Maxim" first and keeps the two
   * "Test" objects in insertion order, so the later one comes last.
   */
  lemma ExampleDisplayNameOrder(env: QueryEnv, o1: Json, o2: Json, o3: Json)
    requires env.valueAt(o1, "displayName") == Some(JStr("Test"))
    requires env.valueAt(o2, "displayName") == Some(JStr("Test"))
    requires env.valueAt(o3, "displayName") == Some(JStr("Maxim"))
    requires env.localeCompare("Test", "Test") == 0
    requires env.localeCompare("Test", "Maxim") > 0
    ensures SortBy([o1, o2, o3], CompareBy([SortKey("displayName", 1)], env)) == [o3, o1, o2]
  {
    var keys := [SortKey("displayName", 1)];
    var cmp := CompareBy(keys, env);
    assert cmp(o1, o2) == 0 by {
      assert SumContributions(keys, env, o1, o2, 1) == Contribution(env, keys[0], o1, o2);
    }
    assert cmp(o1, o3) > 0 && cmp(o2, o3) > 0 by {
      assert SumContributions(keys, env, o1, o3, 1) == Contribution(env, keys[0], o1, o3);
      assert SumContributions(keys, env, o2, o3, 1) == Contribution(env, keys[0], o2, o3);
    }
    var s := [o1, o2, o3];
    assert s[..2] == [o1, o2] && s[..2][..1] == [o1] && [o1][..0] == [];
    assert SortBy([o1], cmp) == [o1];
    assert InsertPoint(o2, [o1], cmp) == 1;
    assert SortBy([o1, o2], cmp) == [o1, o2];
    assert InsertPoint(o3, [o1, o2], cmp) == 0;
  }

  // ---------------------------------------------------------------------
  // A secondary key can outweigh the primary one

  /** `obj[path]` for the objects of the examples below. */
  function FieldOf(j: Json, path: string): Option<Json>
  {
    if j.JObj? && path in j.fields then Some(j.fields[path]) else None
  }

  const FieldEnv: QueryEnv := QueryEnv(FieldOf, (u: string, w: string) => 0)

  /** One ascending key on a number: the comparator subtracts the other value coerced to a number. */
  lemma OneNumericKey(env: QueryEnv, key: SortKey, a: Json, b: Json, n: int)
    requires key.direction > 0 && env.valueAt(a, key.path) == Some(JNum(n))
    ensures Compare([key], env, a, b) == match ToNumber(env.valueAt(b, key.path))
      case Some(m) => n - m
      case None => 0
  {
    assert SumContributions([key], env, a, b, 1) == Contribution(env, key, a, b);
  }

  /**
   * `res1 - res2` coerces a non-number `res2` as JavaScript does: a numeric
   * string or a one-element array gives its number, the empty string and
   * the empty array give 0, and an object gives NaN, which counts as 0.
   */
  lemma ExampleNumericCoercion()
    ensures var env := QueryEnv((j: Json, p: string) => Some(j), (x: string, y: string) => 0);
      var key := SortKey("t", 1);
      && Compare([key], env, JNum(5), JStr("3")) == 2
      && Compare([key], env, JNum(5), JStr(" -3 ")) == 8
      && Compare([key], env, JNum(5), JStr("")) == 5
      && Compare([key], env, JNum(5), JArr([])) == 5
      && Compare([key], env, JNum(5), JArr([JNum(3)])) == 2
      && Compare([key], env, JNum(5), JStr("3a")) == 0
      && Compare([key], env, JNum(5), JObj(map[])) == 0
  {
    var env := QueryEnv((j: Json, p: string) => Some(j), (x: string, y: string) => 0);
    var key := SortKey("t", 1);
    ExampleNumericText();
    ExampleEmptyAndArray();
    ExampleNotANumber();
    var others := [JStr("3"), JStr(" -3 "), JStr(""), JArr([]), JArr([JNum(3)]), JStr("3a"), JObj(map[])];
    forall b | b in others
      ensures Compare([key], env, JNum(5), b) == match ToNumber(Some(b)) case Some(m) => 5 - m case None => 0
    {
      OneNumericKey(env, key, JNum(5), b, 5);
    }
  }

  /**
   * As written, the contributions of all keys are added, so with keys
   * `a` then `b` (both ascending) the object with the smaller `a` can sort
   * after the other one because its `b` is much larger.
   */
  lemma SumOverridesPrimaryKey()
    ensures var x := JObj(map["a" := JNum(1), "b" := JNum(10)]);
      var y := JObj(map["a" := JNum(2), "b" := JNum(0)]);
      var keys := [SortKey("a", 1), SortKey("b", 1)];
      && Compare(keys, FieldEnv, x, y) == 9
      && SortBy([x, y], CompareBy(keys, FieldEnv)) == [y, x]
  {
    var x := JObj(map["a" := JNum(1), "b" := JNum(10)]);
    var y := JObj(map["a" := JNum(2), "b" := JNum(0)]);
    var keys := [SortKey("a", 1), SortKey("b", 1)];
    assert FieldOf(x, "a") == Some(JNum(1)) && FieldOf(y, "a") == Some(JNum(2));
    assert FieldOf(x, "b") == Some(JNum(10)) && FieldOf(y, "b") == Some(JNum(0));
    assert Contribution(FieldEnv, keys[0], x, y) == Some(-1);
    assert Contribution(FieldEnv, keys[1], x, y) == Some(10);
    assert SumContributions(keys, FieldEnv, x, y, 2) == Some(9);
    var cmp := CompareBy(keys, FieldEnv);
    assert [x, y][..1] == [x] && [x][..0] == [];
    assert SortBy([x], cmp) == [x];
    assert InsertPoint(y, [x], cmp) == 0;
  }

  function NaNAsZero(v: Option<int>): int
  {
    match v
    case Some(n) => n
    case None => 0
  }

  /**
   * The evidently intended multi-key order: the first key whose
   * contribution is non-zero decides, later keys only break ties.
   */
  function CascadeCompare(keys: seq<SortKey>, env: QueryEnv, a: Json, b: Json): int
  {
    if keys == [] then 0
    else
      var c := NaNAsZero(Contribution(env, keys[0], a, b));
      if c != 0 then c else CascadeCompare(keys[1..], env, a, b)
  }

  function CascadeBy(keys: seq<SortKey>, env: QueryEnv): (Json, Json) -> int
  {
    (a: Json, b: Json) => CascadeCompare(keys, env, a, b)
  }

  /**
   * Under the cascade, distinct numbers under the primary key decide the
   * order whatever the later keys hold.
   */
  lemma CascadePrimaryDecides(keys: seq<SortKey>, env: QueryEnv, a: Json, b: Json, n: int, m: int)
    requires keys != [] && keys[0].direction > 0
    requires env.valueAt(a, keys[0].path) == Some(JNum(n))
    requires env.valueAt(b, keys[0].path) == Some(JNum(m))
    ensures n < m ==> CascadeCompare(keys, env, a, b) < 0 && CascadeCompare(keys, env, b, a) > 0
    ensures n > m ==> CascadeCompare(keys, env, a, b) > 0 && CascadeCompare(keys, env, b, a) < 0
  {
  }

  /** On a single key the cascade and the sum agree. */
  lemma CascadeAgreesOnOneKey(key: SortKey, env: QueryEnv, a: Json, b: Json)
    ensures CascadeCompare([key], env, a, b) == Compare([key], env, a, b)
  {
    assert [key][1..] == [];
    assert SumContributions([key], env, a, b, 1) == Contribution(env, key, a, b);
  }

  /** On the example above the cascade keeps the primary key's order. */
  lemma CascadeFixesExample()
    ensures var x := JObj(map["a" := JNum(1), "b" := JNum(10)]);
      var y := JObj(map["a" := JNum(2), "b" := JNum(0)]);
      SortBy([x, y], CascadeBy([SortKey("a", 1), SortKey("b", 1)], FieldEnv)) == [x, y]
  {
    var x := JObj(map["a" := JNum(1), "b" := JNum(10)]);
    var y := JObj(map["a" := JNum(2), "b" := JNum(0)]);
    var keys := [SortKey("a", 1), SortKey("b", 1)];
    CascadePrimaryDecides(keys, FieldEnv, x, y, 1, 2);
    var cmp := CascadeBy(keys, FieldEnv);
    assert [x, y][..1] == [x] && [x][..0] == [];
    assert SortBy([x], cmp) == [x];
    assert InsertPoint(y, [x], cmp) == 1;
  }
}
