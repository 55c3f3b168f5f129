/**
 * `CapacitorPreferencesDriver` (CapacitorPreferencesDriver.ts): the driver
 * object owns its resolved options and works on the substrate, held here as
 * the field `store`. Each method is one sequential step that awaits
 * everything it starts; its `ensures` ties the outcome and the new
 * substrate to the specifications of the Store and Query modules.
 */
module Driver {
  import opened Base
  import opened Json
  import opened Js
  import opened Keys
  import opened Codec
  import opened Sorting
  import opened Store
  import opened Query

  /** The options the constructor reads; `serialize`/`deserialize` are in the codec. */
  datatype Options = Options(
    namespace: Option<string>,
    chunkSize: Option<int>,
    compress: bool,
    prefix: Option<string>)

  /** The count after the scan has read the first `n` ids. */
  function Counted<T>(store: Substrate, cfg: Config<T>, items: seq<Id>, f: Option<Json> -> bool, n: nat): nat
    requires n <= |items|
  {
    if n == 0 then 0
    else Counted(store, cfg, items, f, n - 1) + (if f(ReadDoc(store, cfg, items[n - 1])) then 1 else 0)
  }

  /** The count after `n` ids is the count over their documents. */
  lemma {:induction false} CountedIsCountWhere<T>(store: Substrate, cfg: Config<T>, items: seq<Id>, f: Option<Json> -> bool, n: nat)
    requires n <= |items|
    ensures Counted(store, cfg, items, f, n) == CountWhere(Docs(store, cfg, items)[..n], f)
  {
    if n > 0 {
      CountedIsCountWhere(store, cfg, items, f, n - 1);
      var values := Docs(store, cfg, items);
      assert values[..n][..n - 1] == values[..n - 1];
    }
  }

  /** The matches `findAll` has pushed after reading the first `n` ids. */
  function Gathered<T>(store: Substrate, cfg: Config<T>, items: seq<Id>, query: Option<Json> -> bool, n: nat): seq<Json>
    requires n <= |items|
  {
    if n == 0 then []
    else
      var value := ReadDoc(store, cfg, items[n - 1]);
      Gathered(store, cfg, items, query, n - 1) + (if Selected(value, query) then [value.value] else [])
  }

  /** The matches pushed after `n` ids are the matches among their documents. */
  lemma {:induction false} GatheredIsCollect<T>(store: Substrate, cfg: Config<T>, items: seq<Id>, query: Option<Json> -> bool, n: nat)
    requires n <= |items|
    ensures Gathered(store, cfg, items, query, n) == Collect(Docs(store, cfg, items)[..n], query)
  {
    if n > 0 {
      GatheredIsCollect(store, cfg, items, query, n - 1);
      var values := Docs(store, cfg, items);
      assert values[..n][..n - 1] == values[..n - 1];
    }
  }

  /** One more scanned id is deleted from `cur` when its current document matches `f`. */
  lemma DeleteEachStep<T>(store: Substrate, cfg: Config<T>, ids: seq<Id>, f: Option<Json> -> bool, n: nat, cur: Substrate)
    requires n < |ids| && cur == DeleteEach(store, cfg, ids[..n], f)
    ensures DeleteEach(store, cfg, ids[..n + 1], f)
         == if f(ReadDoc(cur, cfg, ids[n])) then DeleteEffect(cur, cfg, ids[n]).0 else cur
  {
    assert ids[..n + 1][..n] == ids[..n];
  }

  class PreferencesDriver<T> {
    var store: Substrate
    const namespace: string
    const cfg: Config<T>

    /**
     * `new CapacitorPreferencesDriver(dataType, options)`: namespace
     * defaults to "default", chunk size to 10 (also when 0), and the
     * prefix is the lower-cased `namespace.(prefix || type name)`.
     */
    constructor (typeName: string, options: Options, codec: Codec<T>, substrate: Substrate)
      requires options.chunkSize.Some? ==> options.chunkSize.value >= 0
      ensures namespace == EffectiveNamespace(options.namespace)
      ensures cfg.prefix == DerivePrefix(namespace, options.prefix, typeName)
      ensures cfg.chunkSize == EffectiveChunkSize(options.chunkSize)
      ensures cfg.compress == options.compress && cfg.codec == codec
      ensures store == substrate
    {
      var ns := EffectiveNamespace(options.namespace);
      namespace := ns;
      cfg := Config(DerivePrefix(ns, options.prefix, typeName), EffectiveChunkSize(options.chunkSize),
                    options.compress, codec);
      store := substrate;
    }

    /** `count(filter)`: the chunked scan counting the documents `filter` matches. */
    method Count(filter: Option<Option<Json> -> bool>) returns (r: Outcome<nat>)
      ensures r == CountSpec(store, cfg, filter)
    {
      var index := ReadIndex(store, cfg);
      if index.None? {
        return Pending;
      }
      var items := index.value;
      if filter.None? {
        return Resolved(|items|);
      }
      var count := CountScan(filter.value, items);
      r := Resolved(count);
    }

    /** The outer loop of `count(filter)` over the chunks of `items`. */
    method CountScan(f: Option<Json> -> bool, items: seq<Id>) returns (count: nat)
      ensures count == CountWhere(Docs(store, cfg, items), f)
    {
      var size := cfg.chunkSize;
      count := 0;
      var i := 0;
      while i <= |items|
        invariant 0 <= i <= |items| + size
        invariant count == Counted(store, cfg, items, f, Min(i, |items|))
        decreases |items| + size - i
      {
        var keys := Slice(items, i, i + size);
        assert i + |keys| == Min(i + size, |items|);
        count := CountChunk(f, items, i, keys, count);
        i := i + size;
      }
      CountedIsCountWhere(store, cfg, items, f, |items|);
      assert Docs(store, cfg, items)[..|items|] == Docs(store, cfg, items);
    }

    /** The inner loop of `count` over one chunk `keys`, the ids from position `i` on. */
    method CountChunk(f: Option<Json> -> bool, items: seq<Id>, i: nat, keys: seq<Id>, count: nat) returns (out: nat)
      requires i + |keys| <= |items| && keys == items[i..i + |keys|]
      requires count == Counted(store, cfg, items, f, i)
      ensures out == Counted(store, cfg, items, f, i + |keys|)
    {
      out := count;
      var j := 0;
      while j < |keys|
        invariant 0 <= j <= |keys|
        invariant out == Counted(store, cfg, items, f, i + j)
      {
        assert keys[j] == items[i + j];
        var value := ReadDoc(store, cfg, keys[j]);
        if f(value) {
          out := out + 1;
        }
        j := j + 1;
      }
    }

    /**
     * `findAll(query, { limit, sort })`. On the path where the unsorted
     * scan returns early, the promise stays pending and `collected` is what
     * had been gathered: the first `Threshold` matches.
     */
    method FindAll(query: Option<Json> -> bool, limit: Option<int>, sort: Option<seq<SortKey>>, env: QueryEnv)
      returns (r: Outcome<seq<T>>, collected: seq<Json>, limitAfter: Option<int>)
      ensures r == FindAllSpec(store, cfg, query, limit, sort, env)
      ensures limitAfter == LimitAfter(store, cfg, limit)
      ensures ReadIndex(store, cfg).Some? && sort.None? && r == Pending ==>
        var items := ReadIndex(store, cfg).value;
        collected == EarlyStop(Matches(store, cfg, items, query), EffectiveLimit(limit, |items|))
    {
      collected, limitAfter := [], limit;
      var index := ReadIndex(store, cfg);
      if index.None? {
        return Rejected(IndexUnreadable), collected, limitAfter;
      }
      var items := index.value;
      var lim := EffectiveLimit(limit, |items|);
      limitAfter := Some(lim);
      var data, stopped, n := Scan(query, items, sort.None?, lim);
      if stopped {
        EarlyReturn(store, cfg, query, limit, env, items, n, data);
        return Pending, data, limitAfter;
      }
      ScanDone(store, cfg, query, limit, sort, env, data);
      if sort.None? {
        return Resolved(MapAll(cfg.codec.deserialize, data)), collected, limitAfter;
      }
      var keys := sort.value;
      if keys == [] && |data| >= 2 {
        return Rejected(ComparatorThrew), collected, limitAfter;
      }
      var sorted := SortBy(data, CompareBy(keys, env));
      r := Resolved(MapAll(cfg.codec.deserialize, Slice(sorted, 0, lim)));
    }

    /**
     * The outer loop of `findAll` over the chunks of `items`. When
     * `unsorted`, it stops (`stopped`) as soon as the matches reach `lim`,
     * after `n` ids; otherwise it collects every match.
     */
    method Scan(query: Option<Json> -> bool, items: seq<Id>, unsorted: bool, lim: int)
      returns (data: seq<Json>, stopped: bool, ghost n: nat)
      ensures stopped ==> unsorted && n <= |items| && data == Gathered(store, cfg, items, query, n)
      ensures stopped ==> |data| >= 1 && |data| >= lim && |data| - 1 < Threshold(lim)
      ensures !stopped ==> data == Matches(store, cfg, items, query)
      ensures !stopped && unsorted ==> |data| < Threshold(lim)
    {
      var size := cfg.chunkSize;
      data, stopped, n := [], false, 0;
      var i := 0;
      while i <= |items|
        invariant 0 <= i <= |items| + size
        invariant data == Gathered(store, cfg, items, query, Min(i, |items|))
        invariant unsorted ==> |data| < Threshold(lim)
        decreases |items| + size - i
      {
        var keys := Slice(items, i, i + size);
        assert i + |keys| == Min(i + size, |items|);
        data, stopped, n := CollectChunk(query, items, i, keys, data, unsorted, lim);
        if stopped {
          return;
        }
        i := i + size;
      }
      GatheredIsCollect(store, cfg, items, query, |items|);
      assert Docs(store, cfg, items)[..|items|] == Docs(store, cfg, items);
    }

    /**
     * The inner loop of `findAll` over one chunk `keys`, the ids from
     * position `i` on. When `unsorted`, the scan stops (`stopped`) right
     * after the push that brings the matches to `lim`; `n` is then the
     * number of ids scanned in all.
     */
    method CollectChunk(query: Option<Json> -> bool, items: seq<Id>, i: nat, keys: seq<Id>, data: seq<Json>,
                        unsorted: bool, lim: int)
      returns (out: seq<Json>, stopped: bool, ghost n: nat)
      requires i + |keys| <= |items| && keys == items[i..i + |keys|]
      requires data == Gathered(store, cfg, items, query, i)
      requires unsorted ==> |data| < Threshold(lim)
      ensures i <= n <= i + |keys| && out == Gathered(store, cfg, items, query, n)
      ensures stopped ==> unsorted && i < n && |out| >= 1 && |out| >= lim && |out| - 1 < Threshold(lim)
      ensures !stopped ==> n == i + |keys| && (unsorted ==> |out| < Threshold(lim))
    {
      out, stopped := data, false;
      ghost var t := Threshold(lim);
      var j := 0;
      while j < |keys|
        invariant 0 <= j <= |keys|
        invariant out == Gathered(store, cfg, items, query, i + j)
        invariant unsorted ==> |out| < t
      {
        assert keys[j] == items[i + j];
        var value := ReadDoc(store, cfg, keys[j]);
        if Selected(value, query) {
          out := out + [value.value];
          if unsorted && |out| >= lim {
            return out, true, i + j + 1;
          }
        }
        j := j + 1;
      }
      n := i + j;
    }

    /** `findOne(query, { sort })`: `findAll` with limit 1 and its first result. */
    method FindOne(query: Option<Json> -> bool, sort: Option<seq<SortKey>>, env: QueryEnv)
      returns (r: Outcome<Option<T>>)
      ensures r == FindOneSpec(store, cfg, query, sort, env)
    {
      var results, _, _ := FindAll(query, Some(1), sort, env);
      match results
      case Resolved(rs) =>
        if |rs| > 0 { r := Resolved(Some(rs[0])); } else { r := Resolved(None); }
      case Rejected(e) => r := Rejected(e);
      case Pending => r := Pending;
    }

    /** `insert(id, object)` */
    method Insert(id: Id, doc: T) returns (r: Outcome<T>)
      modifies this
      ensures (store, r) == InsertEffect(old(store), cfg, id, doc)
    {
      store := store[DocKey(cfg.prefix, id) := Encode(cfg, doc)];
      var index := ReadIndex(store, cfg);
      if index.None? {
        return Rejected(IndexUnreadable);
      }
      var items := index.value;
      if id !in items {
        items := items + [id];
        store := store[IndexKey(cfg.prefix) := cfg.codec.stringifyIds(items)];
      }
      r := Resolved(doc);
    }

    /** `delete(id)` */
    method Delete(id: Id) returns (r: Outcome<()>)
      modifies this
      ensures (store, r) == DeleteEffect(old(store), cfg, id)
    {
      var index := ReadIndex(store, cfg);
      if index.None? {
        return Rejected(IndexUnreadable);
      }
      var items := index.value;
      items := SpliceOne(items, IndexOf(items, id));
      store := store[IndexKey(cfg.prefix) := cfg.codec.stringifyIds(items)];
      store := store - {DocKey(cfg.prefix, id)};
      r := Resolved(());
    }

    /** `deleteAll(filter)`: `clear()` without a filter, else a chunked scan issuing deletes. */
    method DeleteAll(filter: Option<Option<Json> -> bool>) returns (r: Outcome<()>)
      modifies this
      ensures store == DeleteAllEffect(old(store), cfg, filter)
      ensures r == Resolved(())
    {
      r := Resolved(());
      if filter.None? {
        store := map[];
        return;
      }
      var f := filter.value;
      var index := ReadIndex(store, cfg);
      if index.None? {
        return;
      }
      DeleteScan(f, index.value);
    }

    /** The outer loop of `deleteAll(filter)` over the chunks of `items`. */
    method DeleteScan(f: Option<Json> -> bool, items: seq<Id>)
      modifies this
      ensures store == DeleteEach(old(store), cfg, items, f)
    {
      ghost var start := store;
      var size := cfg.chunkSize;
      var i := 0;
      while i <= |items|
        invariant 0 <= i <= |items| + size
        invariant store == DeleteEach(start, cfg, items[..Min(i, |items|)], f)
        decreases |items| + size - i
      {
        var keys := Slice(items, i, i + size);
        assert i + |keys| == Min(i + size, |items|);
        DeleteChunk(f, items, i, keys, start);
        i := i + size;
      }
      assert items[..|items|] == items;
    }

    /**
     * The inner loop of `deleteAll(filter)` over one chunk `keys`, the ids
     * from position `i` on: each matching document is deleted in turn.
     */
    method DeleteChunk(f: Option<Json> -> bool, items: seq<Id>, i: nat, keys: seq<Id>, ghost start: Substrate)
      modifies this
      requires i + |keys| <= |items| && keys == items[i..i + |keys|]
      requires store == DeleteEach(start, cfg, items[..i], f)
      ensures store == DeleteEach(start, cfg, items[..i + |keys|], f)
    {
      var j := 0;
      while j < |keys|
        invariant 0 <= j <= |keys|
        invariant store == DeleteEach(start, cfg, items[..i + j], f)
      {
        var key := keys[j];
        assert key == items[i + j];
        var value := ReadDoc(store, cfg, key);
        DeleteEachStep(start, cfg, items, f, i + j, store);
        if f(value) {
          var _ := Delete(key);
        }
        j := j + 1;
      }
    }
  }

  /**
   * The matches gathered after scanning the first `n` ids are a prefix of
   * all matches.
   */
  lemma ScanPrefix<T>(store: Substrate, cfg: Config<T>, items: seq<Id>, query: Option<Json> -> bool, n: nat)
    requires n <= |items|
    ensures var gathered := Gathered(store, cfg, items, query, n);
      var matches := Matches(store, cfg, items, query);
      |gathered| <= |matches| && matches[..|gathered|] == gathered
  {
    GatheredIsCollect(store, cfg, items, query, n);
    var all := Docs(store, cfg, items);
    assert all == all[..n] + all[n..];
    CollectAppend(all[..n], all[n..], query);
  }

  /**
   * The unsorted scan returns once the matches gathered from the first `n`
   * ids reach the limit; the promise then stays pending.
   */
  lemma EarlyReturn<T>(store: Substrate, cfg: Config<T>, query: Option<Json> -> bool, limit: Option<int>, env: QueryEnv,
                       items: seq<Id>, n: nat, gathered: seq<Json>)
    requires ReadIndex(store, cfg) == Some(items) && n <= |items|
    requires gathered == Gathered(store, cfg, items, query, n)
    requires var lim := EffectiveLimit(limit, |items|);
      |gathered| >= 1 && |gathered| >= lim && |gathered| - 1 < Threshold(lim)
    ensures FindAllSpec(store, cfg, query, limit, None, env) == Pending
    ensures gathered == EarlyStop(Matches(store, cfg, items, query), EffectiveLimit(limit, |items|))
  {
    ScanPrefix(store, cfg, items, query, n);
  }

  /** Once every id is scanned without the early return, the gathered matches decide the outcome. */
  lemma ScanDone<T>(store: Substrate, cfg: Config<T>, query: Option<Json> -> bool, limit: Option<int>,
                    sort: Option<seq<SortKey>>, env: QueryEnv, data: seq<Json>)
    requires ReadIndex(store, cfg).Some?
    requires data == Matches(store, cfg, ReadIndex(store, cfg).value, query)
    requires sort.None? ==> |data| < Threshold(EffectiveLimit(limit, |ReadIndex(store, cfg).value|))
    ensures var lim := EffectiveLimit(limit, |ReadIndex(store, cfg).value|);
      FindAllSpec(store, cfg, query, limit, sort, env)
        == if sort.None? then Resolved(MapAll(cfg.codec.deserialize, data))
           else if sort.value == [] && |data| >= 2 then Rejected(ComparatorThrew)
           else Resolved(MapAll(cfg.codec.deserialize, Slice(SortBy(data, CompareBy(sort.value, env)), 0, lim)))
  {
  }
}
