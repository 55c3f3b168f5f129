/**
 * What `count`, `findAll` and `findOne` settle to, as functions of the
 * substrate (CapacitorPreferencesDriver.ts lines 56-76 and 119-178). The
 * query and filter predicates (`MemoryQueryEvaluator.evaluate`) are
 * parameters of type `Option<Json> -> bool`.
 */
module Query {
  import opened Base
  import opened Json
  import opened Js
  import opened Keys
  import opened Codec
  import opened Sorting
  import opened Store

  /** The documents of `ids`, each read as `_findByUID` reads it. */
  function Docs<T>(store: Substrate, cfg: Config<T>, ids: seq<Id>): (r: seq<Option<Json>>)
    ensures |r| == |ids|
    ensures forall i :: 0 <= i < |ids| ==> r[i] == ReadDoc(store, cfg, ids[i])
  {
    if ids == [] then [] else Docs(store, cfg, ids[..|ids| - 1]) + [ReadDoc(store, cfg, ids[|ids| - 1])]
  }

  /** The number of values that `f` matches (`count++` in `count`). */
  function CountWhere(values: seq<Option<Json>>, f: Option<Json> -> bool): (r: nat)
    ensures r <= |values|
  {
    if values == [] then 0
    else CountWhere(values[..|values| - 1], f) + (if f(values[|values| - 1]) then 1 else 0)
  }

  /** `value && MemoryQueryEvaluator.evaluate(value, query)` */
  predicate Selected(v: Option<Json>, query: Option<Json> -> bool)
  {
    Truthy(v) && query(v)
  }

  /** The values `findAll` pushes into `data`, in scan order. */
  function Collect(values: seq<Option<Json>>, query: Option<Json> -> bool): (r: seq<Json>)
    ensures |r| <= |values|
  {
    if values == [] then []
    else
      var v := values[|values| - 1];
      Collect(values[..|values| - 1], query) + (if Selected(v, query) then [v.value] else [])
  }

  /** `options.limit || items.length` */
  function EffectiveLimit(limit: Option<int>, len: nat): (r: int)
    ensures limit.None? || limit.value == 0 ==> r == len
    ensures limit.Some? && limit.value != 0 ==> r == limit.value
  {
    if limit.Some? && limit.value != 0 then limit.value else len
  }

  /**
   * `options.limit` once `findAll` has read the index: the assignment
   * `options.limit = options.limit || items.length` writes the effective
   * limit back into the caller's options object.
   */
  function LimitAfter<T>(store: Substrate, cfg: Config<T>, limit: Option<int>): (r: Option<int>)
    ensures ReadIndex(store, cfg).None? ==> r == limit
    ensures ReadIndex(store, cfg).Some? ==> r.Some? && r.value == EffectiveLimit(limit, |ReadIndex(store, cfg).value|)
  {
    match ReadIndex(store, cfg)
    case None => limit
    case Some(items) => Some(EffectiveLimit(limit, |items|))
  }

  /**
   * A caller that passes the same options object again keeps the limit the
   * first call wrote: without a limit, a later call on a non-empty index is
   * limited to that index's old length, whatever the index holds by then.
   */
  lemma ReusedOptionsKeepOldLength<T>(store: Substrate, cfg: Config<T>, limit: Option<int>, len: nat)
    requires ReadIndex(store, cfg).Some? && |ReadIndex(store, cfg).value| > 0
    ensures limit.None? ==> EffectiveLimit(LimitAfter(store, cfg, limit), len) == |ReadIndex(store, cfg).value|
    ensures EffectiveLimit(LimitAfter(store, cfg, limit), len) == EffectiveLimit(limit, |ReadIndex(store, cfg).value|)
  {
  }

  /**
   * The number of matches at which the unsorted scan returns: the length
   * test runs only after a push, so a limit below 1 stops at the first one.
   */
  function Threshold(limit: int): (r: nat)
    ensures r >= 1 && r >= limit
    ensures limit >= 1 ==> r == limit
  {
    if limit < 1 then 1 else limit
  }

  /** The matching values of a scan over `items`. */
  function Matches<T>(store: Substrate, cfg: Config<T>, items: seq<Id>, query: Option<Json> -> bool): seq<Json>
  {
    Collect(Docs(store, cfg, items), query)
  }

  /**
   * How `findAll(query, { limit, sort })` settles. Unsorted, the scan
   * stops at the `Threshold`-th match with a bare `return`, which leaves the
   * promise pending; otherwise every match is collected. Sorted, the matches
   * are sorted and cut with `slice(0, limit)`. The results are deserialized.
   */
  function FindAllSpec<T>(store: Substrate, cfg: Config<T>, query: Option<Json> -> bool,
                          limit: Option<int>, sort: Option<seq<SortKey>>, env: QueryEnv): Outcome<seq<T>>
  {
    match ReadIndex(store, cfg)
    case None => Rejected(IndexUnreadable)
    case Some(items) =>
      var lim := EffectiveLimit(limit, |items|);
      var matches := Matches(store, cfg, items, query);
      match sort
      case None =>
        if |matches| >= Threshold(lim) then Pending
        else Resolved(MapAll(cfg.codec.deserialize, matches))
      case Some(keys) =>
        match SortOutcome(keys, env, matches)
        case None => Rejected(ComparatorThrew)
        case Some(sorted) => Resolved(MapAll(cfg.codec.deserialize, Slice(sorted, 0, lim)))
  }

  /** `findOne(query, { sort })`: `findAll` with limit 1, then the first result or `undefined`. */
  function FindOneSpec<T>(store: Substrate, cfg: Config<T>, query: Option<Json> -> bool,
                          sort: Option<seq<SortKey>>, env: QueryEnv): Outcome<Option<T>>
  {
    match FindAllSpec(store, cfg, query, Some(1), sort, env)
    case Resolved(results) => Resolved(if |results| > 0 then Some(results[0]) else None)
    case Rejected(e) => Rejected(e)
    case Pending => Pending
  }

  /**
   * How `count(filter)` settles. Without a filter it is the index length;
   * with one, the number of listed documents the filter matches. A failed
   * index read is not caught, so the promise stays pending.
   */
  function CountSpec<T>(store: Substrate, cfg: Config<T>, filter: Option<Option<Json> -> bool>): Outcome<nat>
  {
    match ReadIndex(store, cfg)
    case None => Pending
    case Some(items) =>
      match filter
      case None => Resolved(|items|)
      case Some(f) => Resolved(CountWhere(Docs(store, cfg, items), f))
  }

  // ---------------------------------------------------------------------
  // The scan

  lemma {:induction false} CollectAppend(a: seq<Option<Json>>, b: seq<Option<Json>>, query: Option<Json> -> bool)
    ensures Collect(a + b, query) == Collect(a, query) + Collect(b, query)
    decreases |b|
  {
    if b == [] {
      assert a + b == a;
    } else {
      var b', v := b[..|b| - 1], b[|b| - 1];
      CollectAppend(a, b', query);
      assert (a + b)[..|a + b| - 1] == a + b';
      assert (a + b)[|a + b| - 1] == v;
    }
  }

  /**
   * Only truthy values the query matches are collected, every one of them
   * is, and they keep their scan order.
   */
  lemma {:induction false} CollectSelects(values: seq<Option<Json>>, query: Option<Json> -> bool)
    ensures forall j :: j in Collect(values, query) ==> Some(j) in values && Selected(Some(j), query)
    ensures forall i :: 0 <= i < |values| && Selected(values[i], query) ==> values[i].value in Collect(values, query)
  {
    if values != [] {
      var init, v := values[..|values| - 1], values[|values| - 1];
      CollectSelects(init, query);
      forall i | 0 <= i < |values| - 1 ensures values[i] == init[i] {
      }
    }
  }

  lemma {:induction false} CountWhereNone(values: seq<Option<Json>>, f: Option<Json> -> bool)
    requires forall i :: 0 <= i < |values| ==> !f(values[i])
    ensures CountWhere(values, f) == 0
  {
    if values != [] {
      CountWhereNone(values[..|values| - 1], f);
    }
  }

  /** The unsorted scan stops after the first `Threshold` matches. */
  function EarlyStop(matches: seq<Json>, limit: int): seq<Json>
    requires |matches| >= Threshold(limit)
  {
    matches[..Threshold(limit)]
  }

  // ---------------------------------------------------------------------
  // findAll

  /**
   * Unsorted, `findAll` settles only when fewer values match than the
   * effective limit, and then to all of them in index order; otherwise it
   * never settles.
   */
  lemma FindAllUnsorted<T>(store: Substrate, cfg: Config<T>, query: Option<Json> -> bool, limit: Option<int>, env: QueryEnv)
    requires ReadIndex(store, cfg).Some?
    ensures var items := ReadIndex(store, cfg).value;
      var matches := Matches(store, cfg, items, query);
      var lim := EffectiveLimit(limit, |items|);
      var out := FindAllSpec(store, cfg, query, limit, None, env);
      && (out == Pending <==> |matches| >= Threshold(lim))
      && (out != Pending ==> out == Resolved(MapAll(cfg.codec.deserialize, matches)) && |matches| < Threshold(lim))
  {
  }

  /** A limit of 0 behaves as no limit: `limit || items.length`. */
  lemma LimitZeroMeansAll<T>(store: Substrate, cfg: Config<T>, query: Option<Json> -> bool,
                             sort: Option<seq<SortKey>>, env: QueryEnv)
    ensures FindAllSpec(store, cfg, query, Some(0), sort, env) == FindAllSpec(store, cfg, query, None, sort, env)
  {
  }

  /**
   * Without a limit (or with 0) the effective limit is the index length,
   * which the match count cannot exceed: an unsorted `findAll` then never
   * settles exactly when the index is non-empty and every listed document
   * matches, and otherwise resolves to all matches.
   */
  lemma FindAllUnlimitedUnsorted<T>(store: Substrate, cfg: Config<T>, query: Option<Json> -> bool, env: QueryEnv)
    requires ReadIndex(store, cfg).Some?
    ensures var items := ReadIndex(store, cfg).value;
      var matches := Matches(store, cfg, items, query);
      var out := FindAllSpec(store, cfg, query, None, None, env);
      && |matches| <= |items|
      && (out == Pending <==> |items| > 0 && |matches| == |items|)
      && (out != Pending ==> out == Resolved(MapAll(cfg.codec.deserialize, matches)))
  {
  }

  /** `slice(0, lim)` with a non-negative `lim` keeps the first `lim` elements. */
  lemma SlicePrefix<X>(s: seq<X>, lim: int)
    ensures lim >= 0 ==> Slice(s, 0, lim) == s[..Min(lim, |s|)]
    ensures lim >= 0 ==> multiset(Slice(s, 0, lim)) <= multiset(s)
    ensures lim >= |s| ==> Slice(s, 0, lim) == s
  {
    if lim >= 0 {
      var k := Min(lim, |s|);
      assert s == s[..k] + s[k..];
      assert multiset(s) == multiset(s[..k]) + multiset(s[k..]);
    }
    if lim >= |s| {
      assert s[..|s|] == s;
    }
  }

  /**
   * Sorted with at least one key, `findAll` resolves to the first
   * `limit` matches in sorted order: as many as the limit allows, each a
   * match, none twice more often than it matches.
   */
  lemma FindAllSorted<T>(store: Substrate, cfg: Config<T>, query: Option<Json> -> bool,
                         limit: Option<int>, keys: seq<SortKey>, env: QueryEnv)
    requires ReadIndex(store, cfg).Some? && keys != []
    ensures var items := ReadIndex(store, cfg).value;
      var matches := Matches(store, cfg, items, query);
      var lim := EffectiveLimit(limit, |items|);
      var sorted := SortBy(matches, CompareBy(keys, env));
      && FindAllSpec(store, cfg, query, limit, Some(keys), env)
           == Resolved(MapAll(cfg.codec.deserialize, Slice(sorted, 0, lim)))
      && |sorted| == |matches| && multiset(sorted) == multiset(matches)
      && (lim >= 0 ==> Slice(sorted, 0, lim) == sorted[..Min(lim, |matches|)])
      && (lim >= 0 ==> multiset(Slice(sorted, 0, lim)) <= multiset(matches))
      && (limit.None? ==> Slice(sorted, 0, lim) == sorted)
  {
    var items := ReadIndex(store, cfg).value;
    var matches := Matches(store, cfg, items, query);
    var lim := EffectiveLimit(limit, |items|);
    var sorted := SortBy(matches, CompareBy(keys, env));
    SortByPermutation(matches, CompareBy(keys, env));
    SlicePrefix(sorted, lim);
    if limit.None? {
      assert |matches| <= |items|;
    }
  }

  /** Sorting with an empty key list rejects as soon as two values match. */
  lemma EmptySortRejects<T>(store: Substrate, cfg: Config<T>, query: Option<Json> -> bool, limit: Option<int>, env: QueryEnv)
    requires ReadIndex(store, cfg).Some?
    requires |Matches(store, cfg, ReadIndex(store, cfg).value, query)| >= 2
    ensures FindAllSpec(store, cfg, query, limit, Some([]), env) == Rejected(ComparatorThrew)
  {
  }

  // ---------------------------------------------------------------------
  // findOne

  /**
   * As written, an unsorted `findOne` never resolves to a value: with a
   * match the early `return` leaves it pending, without one it resolves to
   * `undefined`.
   */
  lemma FindOneUnsortedNeverFinds<T>(store: Substrate, cfg: Config<T>, query: Option<Json> -> bool, env: QueryEnv)
    requires ReadIndex(store, cfg).Some?
    ensures var matches := Matches(store, cfg, ReadIndex(store, cfg).value, query);
      var out := FindOneSpec(store, cfg, query, None, env);
      && (|matches| > 0 <==> out == Pending)
      && (|matches| == 0 <==> out == Resolved(None))
  {
  }

  /** Sorted, `findOne` resolves to the first match in sorted order, or `undefined`. */
  lemma FindOneSorted<T>(store: Substrate, cfg: Config<T>, query: Option<Json> -> bool, keys: seq<SortKey>, env: QueryEnv)
    requires ReadIndex(store, cfg).Some? && keys != []
    ensures var matches := Matches(store, cfg, ReadIndex(store, cfg).value, query);
      var sorted := SortBy(matches, CompareBy(keys, env));
      FindOneSpec(store, cfg, query, Some(keys), env)
        == if |matches| == 0 then Resolved(None) else Resolved(Some(cfg.codec.deserialize(sorted[0])))
  {
    var matches := Matches(store, cfg, ReadIndex(store, cfg).value, query);
    SortByPermutation(matches, CompareBy(keys, env));
  }

  /**
   * The evidently intended unsorted `findAll`: once `limit` values match,
   * the scan stops and the promise resolves to them.
   */
  function FindAllIntended<T>(store: Substrate, cfg: Config<T>, query: Option<Json> -> bool, limit: Option<int>): Outcome<seq<T>>
  {
    match ReadIndex(store, cfg)
    case None => Rejected(IndexUnreadable)
    case Some(items) =>
      var lim := EffectiveLimit(limit, |items|);
      var matches := Matches(store, cfg, items, query);
      Resolved(MapAll(cfg.codec.deserialize, matches[..Min(Threshold(lim), |matches|)]))
  }

  /**
   * The intended `findAll` always settles on a readable index, to the
   * first matches in index order, at most `limit` of them and all of them
   * when fewer match; it agrees with the code whenever the code settles.
   */
  lemma FindAllIntendedSettles<T>(store: Substrate, cfg: Config<T>, query: Option<Json> -> bool, limit: Option<int>, env: QueryEnv)
    requires ReadIndex(store, cfg).Some?
    ensures var items := ReadIndex(store, cfg).value;
      var matches := Matches(store, cfg, items, query);
      var lim := EffectiveLimit(limit, |items|);
      var out := FindAllIntended(store, cfg, query, limit);
      && out.Resolved?
      && |out.value| == Min(Threshold(lim), |matches|)
      && (lim >= 1 ==> |out.value| <= lim)
      && (forall i :: 0 <= i < |out.value| ==> out.value[i] == cfg.codec.deserialize(matches[i]))
      && (FindAllSpec(store, cfg, query, limit, None, env) != Pending ==> FindAllSpec(store, cfg, query, limit, None, env) == out)
  {
    var items := ReadIndex(store, cfg).value;
    var matches := Matches(store, cfg, items, query);
    var lim := EffectiveLimit(limit, |items|);
    if |matches| < Threshold(lim) {
      assert matches[..|matches|] == matches;
    }
  }

  /** The intended `findOne` resolves to the first match in index order, or `undefined`. */
  lemma FindOneIntendedFirst<T>(store: Substrate, cfg: Config<T>, query: Option<Json> -> bool)
    requires ReadIndex(store, cfg).Some?
    ensures var matches := Matches(store, cfg, ReadIndex(store, cfg).value, query);
      var out := FindAllIntended(store, cfg, query, Some(1));
      && out.Resolved?
      && (|matches| == 0 ==> out.value == [])
      && (|matches| > 0 ==> out.value == [cfg.codec.deserialize(matches[0])])
  {
  }

  // ---------------------------------------------------------------------
  // count, and count after the state-changing operations

  /** The number of listed documents a filter matches, counted per id, is what `DeleteAll` deletes. */
  lemma {:induction false} CountKept<T>(store: Substrate, cfg: Config<T>, items: seq<Id>, f: Option<Json> -> bool)
    ensures |Filter(items, KeptBy(store, cfg, f))| + CountWhere(Docs(store, cfg, items), f) == |items|
  {
    if items != [] {
      var init := items[..|items| - 1];
      CountKept(store, cfg, init, f);
      assert Docs(store, cfg, items)[..|items| - 1] == Docs(store, cfg, init);
    }
  }

  /**
   * After a filtered `deleteAll` on a coherent collection, `count(f)` is 0
   * and `count()` is the former count less the deleted ids.
   */
  lemma CountAfterDeleteAll<T>(store: Substrate, cfg: Config<T>, f: Option<Json> -> bool)
    requires Lawful(cfg.codec) && Coherent(store, cfg)
    ensures var after := DeleteAllEffect(store, cfg, Some(f));
      var items := ReadIndex(store, cfg).value;
      && CountSpec(after, cfg, Some(f)) == Resolved(0)
      && CountSpec(after, cfg, None) == Resolved(|items| - CountWhere(Docs(store, cfg, items), f))
  {
    var after := DeleteAllEffect(store, cfg, Some(f));
    var items := ReadIndex(store, cfg).value;
    DeleteAllMatching(store, cfg, f);
    var left := ReadIndex(after, cfg).value;
    var docs := Docs(after, cfg, left);
    forall i | 0 <= i < |docs| ensures !f(docs[i]) {
      assert left[i] in left;
    }
    CountWhereNone(docs, f);
    CountKept(store, cfg, items, f);
  }

  /** After `deleteAll()` every count is 0. */
  lemma CountAfterClear<T>(store: Substrate, cfg: Config<T>, filter: Option<Option<Json> -> bool>)
    ensures CountSpec(DeleteAllEffect(store, cfg, None), cfg, filter) == Resolved(0)
  {
  }

  /**
   * On a coherent collection, `insert` of a new id adds one to `count()`
   * and `insert` of a listed id leaves it as it was.
   */
  lemma CountAfterInsert<T>(store: Substrate, cfg: Config<T>, id: Id, doc: T)
    requires Lawful(cfg.codec) && ReadIndex(store, cfg).Some?
    ensures var items := ReadIndex(store, cfg).value;
      CountSpec(InsertEffect(store, cfg, id, doc).0, cfg, None)
        == Resolved(if id in items then |items| else |items| + 1)
  {
    InsertThenRead(store, cfg, id, doc);
  }
}
