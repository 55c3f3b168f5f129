/**
 * The substrate (Capacitor Preferences: a flat string-to-string map) as the
 * driver reads and writes it, and the effect of each state-changing
 * operation on it (CapacitorPreferencesDriver.ts `_findAll`, `_findByUID`,
 * `insert`, `delete`, `deleteAll`). Each operation is one sequential step:
 * the writes `insert` and `deleteAll` do not await are taken to have
 * completed before the next operation starts.
 */
module Store {
  import opened Base
  import opened Json
  import opened Js
  import opened Keys
  import opened Codec

  type Substrate = map<string, string>

  /** `Preferences.get({ key })`: None is the `null` value of a missing key. */
  function Get(store: Substrate, key: string): Option<string>
  {
    if key in store then Some(store[key]) else None
  }

  /** `_findAll()`: the ids in the index, or None when the promise rejects. */
  function ReadIndex<T>(store: Substrate, cfg: Config<T>): Option<seq<Id>>
  {
    DecodeIndex(cfg, Get(store, IndexKey(cfg.prefix)))
  }

  /** `_findByUID(id)`: the parsed document, None for `undefined`. */
  function ReadDoc<T>(store: Substrate, cfg: Config<T>, id: Id): Option<Json>
  {
    DecodeDocument(cfg, Get(store, DocKey(cfg.prefix, id)))
  }

  /** The index text the driver writes for `items`. */
  function WriteIndex<T>(store: Substrate, cfg: Config<T>, items: seq<Id>): Substrate
  {
    store[IndexKey(cfg.prefix) := cfg.codec.stringifyIds(items)]
  }

  // ---------------------------------------------------------------------
  // The index list

  /** `if (!items.includes(id)) items.push(id)` */
  function AddId(items: seq<Id>, id: Id): (r: seq<Id>)
    ensures id in r
    ensures forall x :: x in r <==> x in items || x == id
    ensures |items| <= |r| <= |items| + 1 && r[..|items|] == items
    ensures NoDup(items) ==> NoDup(r)
  {
    if id in items then items else items + [id]
  }

  /** `items.splice(items.indexOf(id), 1)`, as the array that remains. */
  function RemoveId(items: seq<Id>, id: Id): (r: seq<Id>)
    ensures id in items ==>
      var k := IndexOf(items, id);
      && 0 <= k && items[k] == id && id !in items[..k]
      && r == items[..k] + items[k + 1..]
      && multiset(r) == multiset(items) - multiset{id}
    ensures id !in items && items != [] ==> r == items[..|items| - 1]
    ensures items == [] ==> r == []
  {
    var k := IndexOf(items, id);
    assert 0 <= k ==> items == items[..k] + [items[k]] + items[k + 1..];
    SpliceOne(items, k)
  }

  /** Removing a present id from a duplicate-free index removes exactly that id. */
  lemma RemovePresentId(items: seq<Id>, id: Id)
    requires NoDup(items) && id in items
    ensures NoDup(RemoveId(items, id))
    ensures forall x :: x in RemoveId(items, id) <==> x in items && x != id
  {
    var k := IndexOf(items, id);
    var r := RemoveId(items, id);
    assert r == items[..k] + items[k + 1..];
    forall i | 0 <= i < |r| ensures r[i] == items[if i < k then i else i + 1] {
    }
    forall i, j | 0 <= i < j < |r| ensures r[i] != r[j] {
      assert r[i] == items[if i < k then i else i + 1];
      assert r[j] == items[if j < k then j else j + 1];
    }
    forall x ensures x in r <==> x in items && x != id {
      if x in r {
        var i :| 0 <= i < |r| && r[i] == x;
        assert items[if i < k then i else i + 1] == x;
      }
      if x in items && x != id {
        var i :| 0 <= i < |items| && items[i] == x;
        assert r[if i < k then i else i - 1] == x;
      }
    }
  }

  /** Removing an unlisted id from a non-empty index drops its last id. */
  lemma RemoveAbsentDropsLast(items: seq<Id>, id: Id)
    requires id !in items && items != []
    ensures RemoveId(items, id) == items[..|items| - 1]
    ensures NoDup(items) ==> items[|items| - 1] !in RemoveId(items, id)
  {
    if NoDup(items) {
      var init := items[..|items| - 1];
      forall i | 0 <= i < |init| ensures init[i] != items[|items| - 1] {
        assert init[i] == items[i];
      }
    }
  }

  // ---------------------------------------------------------------------
  // Effects of the state-changing operations

  /**
   * `insert(id, object)`: the document is written first; then the index is
   * read, and the id is appended and the index rewritten only when absent.
   * The promise rejects when the index cannot be read, after the document
   * was written.
   */
  function InsertEffect<T>(store: Substrate, cfg: Config<T>, id: Id, doc: T): (Substrate, Outcome<T>)
  {
    var written := store[DocKey(cfg.prefix, id) := Encode(cfg, doc)];
    match ReadIndex(written, cfg)
    case None => (written, Rejected(IndexUnreadable))
    case Some(items) =>
      if id in items then (written, Resolved(doc))
      else (WriteIndex(written, cfg, AddId(items, id)), Resolved(doc))
  }

  /**
   * `delete(id)`: the index is read, the id spliced out and the index
   * rewritten, then the document removed. The promise rejects, and nothing
   * changes, when the index cannot be read.
   */
  function DeleteEffect<T>(store: Substrate, cfg: Config<T>, id: Id): (Substrate, Outcome<()>)
  {
    match ReadIndex(store, cfg)
    case None => (store, Rejected(IndexUnreadable))
    case Some(items) =>
      (WriteIndex(store, cfg, RemoveId(items, id)) - {DocKey(cfg.prefix, id)}, Resolved(()))
  }

  /**
   * The deletes a filtered `deleteAll` issues, one per scanned id in index
   * order: an id is deleted when its current document matches `f`.
   */
  function DeleteEach<T>(store: Substrate, cfg: Config<T>, ids: seq<Id>, f: Option<Json> -> bool): Substrate
    decreases |ids|
  {
    if ids == [] then store
    else
      var before := DeleteEach(store, cfg, ids[..|ids| - 1], f);
      var id := ids[|ids| - 1];
      if f(ReadDoc(before, cfg, id)) then DeleteEffect(before, cfg, id).0 else before
  }

  /**
   * `deleteAll(filter)`: without a filter the whole substrate is cleared
   * (every key, not only this collection's); with one, the matching ids are
   * deleted. The promise always resolves.
   */
  function DeleteAllEffect<T>(store: Substrate, cfg: Config<T>, filter: Option<Option<Json> -> bool>): Substrate
  {
    match filter
    case None => map[]
    case Some(f) =>
      match ReadIndex(store, cfg)
      case None => store
      case Some(items) => DeleteEach(store, cfg, items, f)
  }

  // ---------------------------------------------------------------------
  // A coherent collection

  /**
   * The index can be read, lists no id twice, and lists exactly the ids
   * that have a document.
   */
  ghost predicate Coherent<T>(store: Substrate, cfg: Config<T>)
  {
    && ReadIndex(store, cfg).Some?
    && NoDup(ReadIndex(store, cfg).value)
    && forall id :: id in ReadIndex(store, cfg).value <==> DocKey(cfg.prefix, id) in store
  }

  /** The index the driver writes is the one it reads back. */
  lemma ReadWrittenIndex<T>(store: Substrate, cfg: Config<T>, items: seq<Id>)
    requires Lawful(cfg.codec)
    ensures ReadIndex(WriteIndex(store, cfg, items), cfg) == Some(items)
  {
    assert cfg.codec.parseIds(cfg.codec.stringifyIds(items)) == Some(items);
  }

  /** An empty substrate holds an empty, coherent collection. */
  lemma EmptyIsCoherent<T>(cfg: Config<T>)
    ensures ReadIndex(map[], cfg) == Some([])
    ensures Coherent(map[], cfg)
  {
  }

  /**
   * After `insert`, the document reads back as the serialized object, the
   * index holds the id once (added only when it was absent) and no other key
   * changed; the promise resolves to the object exactly when the index was
   * readable.
   */
  lemma InsertThenRead<T>(store: Substrate, cfg: Config<T>, id: Id, doc: T)
    requires Lawful(cfg.codec)
    ensures var (after, outcome) := InsertEffect(store, cfg, id, doc);
      && ReadDoc(after, cfg, id) == Some(cfg.codec.serialize(doc))
      && (outcome == Resolved(doc) <==> ReadIndex(store, cfg).Some?)
      && (outcome.Rejected? <==> ReadIndex(store, cfg).None?)
      && (ReadIndex(store, cfg).Some? ==> ReadIndex(after, cfg) == Some(AddId(ReadIndex(store, cfg).value, id)))
      && (forall k :: k != DocKey(cfg.prefix, id) && k != IndexKey(cfg.prefix) ==> Get(after, k) == Get(store, k))
  {
    var written := store[DocKey(cfg.prefix, id) := Encode(cfg, doc)];
    IndexKeyIsNotDocKey(cfg.prefix, id);
    assert ReadIndex(written, cfg) == ReadIndex(store, cfg);
    DecodeEncode(cfg, doc);
    if ReadIndex(store, cfg).Some? {
      var items := ReadIndex(store, cfg).value;
      ReadWrittenIndex(written, cfg, AddId(items, id));
    }
  }

  /** Inserting the same id again changes the index no further. */
  lemma InsertTwiceSameIndex<T>(store: Substrate, cfg: Config<T>, id: Id, doc1: T, doc2: T)
    requires Lawful(cfg.codec)
    ensures var once := InsertEffect(store, cfg, id, doc1).0;
      var twice := InsertEffect(once, cfg, id, doc2).0;
      ReadIndex(twice, cfg) == ReadIndex(once, cfg)
  {
    var once := InsertEffect(store, cfg, id, doc1).0;
    InsertThenRead(store, cfg, id, doc1);
    InsertThenRead(once, cfg, id, doc2);
  }

  /** `insert` keeps a collection coherent. */
  lemma InsertKeepsCoherent<T>(store: Substrate, cfg: Config<T>, id: Id, doc: T)
    requires Lawful(cfg.codec) && Coherent(store, cfg)
    ensures Coherent(InsertEffect(store, cfg, id, doc).0, cfg)
  {
    var after := InsertEffect(store, cfg, id, doc).0;
    var items := ReadIndex(store, cfg).value;
    InsertThenRead(store, cfg, id, doc);
    forall x ensures x in AddId(items, id) <==> DocKey(cfg.prefix, x) in after {
      IndexKeyIsNotDocKey(cfg.prefix, x);
      DocKeyInjective(cfg.prefix, x, id);
      assert Get(after, DocKey(cfg.prefix, x)) == Get(store, DocKey(cfg.prefix, x)) || x == id;
    }
  }

  /**
   * After `delete` of a listed id, the index holds the remaining ids in
   * their order, the document is gone and no other key changed; a coherent
   * collection stays coherent.
   */
  lemma DeletePresent<T>(store: Substrate, cfg: Config<T>, id: Id)
    requires Lawful(cfg.codec) && Coherent(store, cfg)
    requires id in ReadIndex(store, cfg).value
    ensures var (after, outcome) := DeleteEffect(store, cfg, id);
      var items := ReadIndex(store, cfg).value;
      && outcome == Resolved(())
      && ReadIndex(after, cfg) == Some(RemoveId(items, id))
      && DocKey(cfg.prefix, id) !in after
      && (forall k :: k != DocKey(cfg.prefix, id) && k != IndexKey(cfg.prefix) ==> Get(after, k) == Get(store, k))
      && Coherent(after, cfg)
  {
    var items := ReadIndex(store, cfg).value;
    var after := DeleteEffect(store, cfg, id).0;
    IndexKeyIsNotDocKey(cfg.prefix, id);
    ReadWrittenIndex(store, cfg, RemoveId(items, id));
    assert ReadIndex(after, cfg) == ReadIndex(WriteIndex(store, cfg, RemoveId(items, id)), cfg);
    RemovePresentId(items, id);
    forall x ensures x in RemoveId(items, id) <==> DocKey(cfg.prefix, x) in after {
      IndexKeyIsNotDocKey(cfg.prefix, x);
      DocKeyInjective(cfg.prefix, x, id);
    }
  }

  /**
   * As written, `delete` of an id the index does not list drops the last
   * listed id instead (`splice(-1, 1)`) and leaves that id's document in
   * place, so the collection is no longer coherent.
   */
  lemma DeleteAbsentOrphansLast<T>(store: Substrate, cfg: Config<T>, id: Id)
    requires Lawful(cfg.codec) && Coherent(store, cfg)
    requires id !in ReadIndex(store, cfg).value && ReadIndex(store, cfg).value != []
    ensures var after := DeleteEffect(store, cfg, id).0;
      var items := ReadIndex(store, cfg).value;
      var last := items[|items| - 1];
      && ReadIndex(after, cfg) == Some(items[..|items| - 1])
      && DocKey(cfg.prefix, last) in after
      && !Coherent(after, cfg)
  {
    var items := ReadIndex(store, cfg).value;
    var last := items[|items| - 1];
    var after := DeleteEffect(store, cfg, id).0;
    ReadWrittenIndex(store, cfg, RemoveId(items, id));
    assert ReadIndex(after, cfg) == ReadIndex(WriteIndex(store, cfg, RemoveId(items, id)), cfg);
    RemoveAbsentDropsLast(items, id);
    assert last in items;
    IndexKeyIsNotDocKey(cfg.prefix, last);
    DocKeyInjective(cfg.prefix, last, id);
    assert DocKey(cfg.prefix, last) in after;
  }

  /** `delete` rewrites the index without the id's first occurrence. */
  lemma DeleteRewritesIndex<T>(store: Substrate, cfg: Config<T>, id: Id)
    requires Lawful(cfg.codec) && ReadIndex(store, cfg).Some?
    ensures ReadIndex(DeleteEffect(store, cfg, id).0, cfg) == Some(RemoveId(ReadIndex(store, cfg).value, id))
  {
    var written := WriteIndex(store, cfg, RemoveId(ReadIndex(store, cfg).value, id));
    ReadWrittenIndex(store, cfg, RemoveId(ReadIndex(store, cfg).value, id));
    IndexKeyIsNotDocKey(cfg.prefix, id);
    assert Get(written - {DocKey(cfg.prefix, id)}, IndexKey(cfg.prefix)) == Get(written, IndexKey(cfg.prefix));
  }

  /** `delete` on an empty index leaves it empty. */
  lemma DeleteFromEmpty<T>(store: Substrate, cfg: Config<T>, id: Id)
    requires Lawful(cfg.codec) && ReadIndex(store, cfg) == Some([])
    ensures ReadIndex(DeleteEffect(store, cfg, id).0, cfg) == Some([])
  {
    ReadWrittenIndex(store, cfg, []);
    IndexKeyIsNotDocKey(cfg.prefix, id);
    assert ReadIndex(DeleteEffect(store, cfg, id).0, cfg) == ReadIndex(WriteIndex(store, cfg, []), cfg);
  }

  /** The evidently intended `delete`: the index changes only when it lists the id. */
  function DeleteIntendedEffect<T>(store: Substrate, cfg: Config<T>, id: Id): (Substrate, Outcome<()>)
  {
    match ReadIndex(store, cfg)
    case None => (store, Rejected(IndexUnreadable))
    case Some(items) =>
      var remaining := if id in items then RemoveId(items, id) else items;
      (WriteIndex(store, cfg, remaining) - {DocKey(cfg.prefix, id)}, Resolved(()))
  }

  /** The intended `delete` keeps every coherent collection coherent, and removes the id. */
  lemma DeleteIntendedKeepsCoherent<T>(store: Substrate, cfg: Config<T>, id: Id)
    requires Lawful(cfg.codec) && Coherent(store, cfg)
    ensures var after := DeleteIntendedEffect(store, cfg, id).0;
      && Coherent(after, cfg)
      && id !in ReadIndex(after, cfg).value
      && DocKey(cfg.prefix, id) !in after
  {
    var items := ReadIndex(store, cfg).value;
    if id in items {
      DeletePresent(store, cfg, id);
      RemovePresentId(items, id);
    } else {
      var after := DeleteIntendedEffect(store, cfg, id).0;
      ReadWrittenIndex(store, cfg, items);
      IndexKeyIsNotDocKey(cfg.prefix, id);
      assert ReadIndex(after, cfg) == ReadIndex(WriteIndex(store, cfg, items), cfg);
      forall x ensures x in items <==> DocKey(cfg.prefix, x) in after {
        IndexKeyIsNotDocKey(cfg.prefix, x);
        DocKeyInjective(cfg.prefix, x, id);
      }
    }
  }

  // ---------------------------------------------------------------------
  // A filtered deleteAll

  /** The ids a filtered `deleteAll` keeps: those whose document does not match. */
  function KeptBy<T>(store: Substrate, cfg: Config<T>, f: Option<Json> -> bool): Id -> bool
  {
    (id: Id) => !f(ReadDoc(store, cfg, id))
  }

  /** The document keys of the ids among `ids` that `f` matches in `store`. */
  ghost function MatchedKeys<T>(store: Substrate, cfg: Config<T>, ids: seq<Id>, f: Option<Json> -> bool): set<string>
  {
    set id | id in ids && f(ReadDoc(store, cfg, id)) :: DocKey(cfg.prefix, id)
  }

  /** Splicing out an id at its first occurrence. */
  lemma RemoveIdAt(before: seq<Id>, id: Id, rest: seq<Id>)
    requires id !in before
    ensures RemoveId(before + [id] + rest, id) == before + rest
  {
    var s := before + [id] + rest;
    IndexOfFirst(before, id, rest);
    var k := |before|;
    assert s[k] == id;
    assert s[..k] == before && s[k + 1..] == rest;
  }

  /**
   * The state after the deletes for the first `n` ids: the index lists the
   * kept ids among them followed by the ids not yet scanned, the documents
   * of the matched ids are gone and every other key except the index is as
   * it was in `store`.
   */
  ghost predicate ScannedState<T>(store: Substrate, cfg: Config<T>, items: seq<Id>, f: Option<Json> -> bool, n: nat, cur: Substrate)
    requires n <= |items|
  {
    && ReadIndex(cur, cfg) == Some(Filter(items[..n], KeptBy(store, cfg, f)) + items[n..])
    && (forall k :: k in MatchedKeys(store, cfg, items[..n], f) ==> k !in cur)
    && (forall k :: k != IndexKey(cfg.prefix) && k !in MatchedKeys(store, cfg, items[..n], f) ==>
          Get(cur, k) == Get(store, k))
  }

  lemma MatchedKeysStep<T>(store: Substrate, cfg: Config<T>, items: seq<Id>, f: Option<Json> -> bool, n: nat)
    requires n < |items|
    ensures MatchedKeys(store, cfg, items[..n + 1], f)
         == MatchedKeys(store, cfg, items[..n], f)
          + (if f(ReadDoc(store, cfg, items[n])) then {DocKey(cfg.prefix, items[n])} else {})
  {
    assert items[..n + 1] == items[..n] + [items[n]];
  }

  lemma FilterStep<X>(items: seq<X>, p: X -> bool, n: nat)
    requires n < |items|
    ensures Filter(items[..n + 1], p) == Filter(items[..n], p) + (if p(items[n]) then [items[n]] else [])
  {
    assert items[..n + 1][..n] == items[..n];
  }

  /** A not yet scanned id of a duplicate-free index still has its document. */
  lemma ScannedDocUntouched<T>(store: Substrate, cfg: Config<T>, items: seq<Id>, f: Option<Json> -> bool, n: nat, cur: Substrate)
    requires NoDup(items) && n < |items| && ScannedState(store, cfg, items, f, n, cur)
    ensures ReadDoc(cur, cfg, items[n]) == ReadDoc(store, cfg, items[n])
    ensures items[n] !in items[..n]
  {
    var id := items[n];
    assert id !in items[..n] by {
      forall i | 0 <= i < n ensures items[..n][i] != id {
        assert items[..n][i] == items[i];
      }
    }
    forall j | j in items[..n] ensures DocKey(cfg.prefix, j) != DocKey(cfg.prefix, id) {
      DocKeyInjective(cfg.prefix, j, id);
    }
    IndexKeyIsNotDocKey(cfg.prefix, id);
  }

  /** One delete of a filtered `deleteAll`, seen on the index. */
  lemma ScanStepIndex<T>(store: Substrate, cfg: Config<T>, items: seq<Id>, f: Option<Json> -> bool, n: nat, cur: Substrate)
    requires Lawful(cfg.codec) && NoDup(items) && n < |items| && ScannedState(store, cfg, items, f, n, cur)
    requires f(ReadDoc(store, cfg, items[n]))
    ensures ReadIndex(DeleteEffect(cur, cfg, items[n]).0, cfg)
         == Some(Filter(items[..n + 1], KeptBy(store, cfg, f)) + items[n + 1..])
  {
    var id := items[n];
    var kept := KeptBy(store, cfg, f);
    var p := Filter(items[..n], kept);
    ScannedDocUntouched(store, cfg, items, f, n, cur);
    FilterMembers(items[..n], kept);
    FilterStep(items, kept, n);
    assert !kept(id);
    assert Filter(items[..n + 1], kept) == p;
    assert items[n..] == [id] + items[n + 1..];
    assert p + items[n..] == p + [id] + items[n + 1..];
    RemoveIdAt(p, id, items[n + 1..]);
    DeleteRewritesIndex(cur, cfg, id);
  }

  /** One delete of a filtered `deleteAll`, seen on the other keys. */
  lemma ScanStepKeys<T>(store: Substrate, cfg: Config<T>, items: seq<Id>, f: Option<Json> -> bool, n: nat, cur: Substrate)
    requires n < |items| && ScannedState(store, cfg, items, f, n, cur)
    requires f(ReadDoc(store, cfg, items[n]))
    ensures var after := DeleteEffect(cur, cfg, items[n]).0;
      var matched := MatchedKeys(store, cfg, items[..n + 1], f);
      && (forall k :: k in matched ==> k !in after)
      && (forall k :: k != IndexKey(cfg.prefix) && k !in matched ==> Get(after, k) == Get(store, k))
  {
    var id := items[n];
    var after := DeleteEffect(cur, cfg, id).0;
    var old_matched := MatchedKeys(store, cfg, items[..n], f);
    MatchedKeysStep(store, cfg, items, f, n);
    assert MatchedKeys(store, cfg, items[..n + 1], f) == old_matched + {DocKey(cfg.prefix, id)};
    match ReadIndex(cur, cfg)
    case Some(index) =>
      assert after == WriteIndex(cur, cfg, RemoveId(index, id)) - {DocKey(cfg.prefix, id)};
      forall k | k in old_matched ensures k !in after {
        var j :| j in items[..n] && f(ReadDoc(store, cfg, j)) && DocKey(cfg.prefix, j) == k;
        IndexKeyIsNotDocKey(cfg.prefix, j);
      }
  }

  /** One step of a filtered `deleteAll` keeps the scanned state. */
  lemma ScanStep<T>(store: Substrate, cfg: Config<T>, items: seq<Id>, f: Option<Json> -> bool, n: nat, cur: Substrate)
    requires Lawful(cfg.codec) && NoDup(items) && n < |items| && ScannedState(store, cfg, items, f, n, cur)
    ensures var id := items[n];
      ScannedState(store, cfg, items, f, n + 1,
        if f(ReadDoc(cur, cfg, id)) then DeleteEffect(cur, cfg, id).0 else cur)
  {
    var id := items[n];
    ScannedDocUntouched(store, cfg, items, f, n, cur);
    if f(ReadDoc(store, cfg, id)) {
      ScanStepIndex(store, cfg, items, f, n, cur);
      ScanStepKeys(store, cfg, items, f, n, cur);
    } else {
      ScanStepSkip(store, cfg, items, f, n, cur);
    }
  }

  /** An id whose document does not match is skipped, and nothing changes. */
  lemma ScanStepSkip<T>(store: Substrate, cfg: Config<T>, items: seq<Id>, f: Option<Json> -> bool, n: nat, cur: Substrate)
    requires n < |items| && ScannedState(store, cfg, items, f, n, cur)
    requires !f(ReadDoc(store, cfg, items[n]))
    ensures ScannedState(store, cfg, items, f, n + 1, cur)
  {
    var id := items[n];
    MatchedKeysStep(store, cfg, items, f, n);
    FilterStep(items, KeptBy(store, cfg, f), n);
    var p := Filter(items[..n], KeptBy(store, cfg, f));
    assert Filter(items[..n + 1], KeptBy(store, cfg, f)) == p + [id];
    assert items[n..] == [id] + items[n + 1..];
    assert Filter(items[..n + 1], KeptBy(store, cfg, f)) + items[n + 1..] == p + items[n..];
    assert MatchedKeys(store, cfg, items[..n + 1], f) == MatchedKeys(store, cfg, items[..n], f);
  }

  /** Before the scan, nothing is matched and the index is as read. */
  lemma ScanStart<T>(store: Substrate, cfg: Config<T>, items: seq<Id>, f: Option<Json> -> bool)
    requires ReadIndex(store, cfg) == Some(items)
    ensures ScannedState(store, cfg, items, f, 0, store)
  {
    assert items[..0] == [] && items[0..] == items;
    assert Filter([], KeptBy(store, cfg, f)) == [];
    assert Filter(items[..0], KeptBy(store, cfg, f)) + items[0..] == items;
    assert MatchedKeys(store, cfg, items[..0], f) == {};
  }

  /** The state after the deletes for the first `n` ids of a duplicate-free index. */
  lemma {:induction false} DeleteEachState<T>(store: Substrate, cfg: Config<T>, items: seq<Id>, f: Option<Json> -> bool, n: nat)
    requires Lawful(cfg.codec)
    requires ReadIndex(store, cfg) == Some(items) && NoDup(items) && n <= |items|
    ensures ScannedState(store, cfg, items, f, n, DeleteEach(store, cfg, items[..n], f))
  {
    if n == 0 {
      assert items[..0] == [];
      ScanStart(store, cfg, items, f);
    } else {
      DeleteEachState(store, cfg, items, f, n - 1);
      ScanStep(store, cfg, items, f, n - 1, DeleteEach(store, cfg, items[..n - 1], f));
      assert items[..n][..n - 1] == items[..n - 1];
    }
  }

  /** The scanned state once every listed id was scanned. */
  lemma DeleteAllScanned<T>(store: Substrate, cfg: Config<T>, f: Option<Json> -> bool)
    requires Lawful(cfg.codec) && Coherent(store, cfg)
    ensures var after := DeleteAllEffect(store, cfg, Some(f));
      var items := ReadIndex(store, cfg).value;
      var matched := MatchedKeys(store, cfg, items, f);
      && ReadIndex(after, cfg) == Some(Filter(items, KeptBy(store, cfg, f)))
      && (forall k :: k in matched ==> k !in after)
      && (forall k :: k != IndexKey(cfg.prefix) && k !in matched ==> Get(after, k) == Get(store, k))
  {
    var items := ReadIndex(store, cfg).value;
    DeleteEachState(store, cfg, items, f, |items|);
    assert items[..|items|] == items;
    assert Filter(items, KeptBy(store, cfg, f)) + items[|items|..] == Filter(items, KeptBy(store, cfg, f));
  }

  /** A kept id's document is not among the matched keys. */
  lemma KeptNotMatched<T>(store: Substrate, cfg: Config<T>, items: seq<Id>, f: Option<Json> -> bool, id: Id)
    requires !f(ReadDoc(store, cfg, id))
    ensures DocKey(cfg.prefix, id) !in MatchedKeys(store, cfg, items, f)
    ensures IndexKey(cfg.prefix) != DocKey(cfg.prefix, id)
  {
    IndexKeyIsNotDocKey(cfg.prefix, id);
    forall j | j in items && f(ReadDoc(store, cfg, j)) ensures DocKey(cfg.prefix, j) != DocKey(cfg.prefix, id) {
      DocKeyInjective(cfg.prefix, j, id);
    }
  }

  /** A matched listed id's document is among the matched keys. */
  lemma MatchedIn<T>(store: Substrate, cfg: Config<T>, items: seq<Id>, f: Option<Json> -> bool, id: Id)
    requires id in items && f(ReadDoc(store, cfg, id))
    ensures DocKey(cfg.prefix, id) in MatchedKeys(store, cfg, items, f)
  {
  }

  /**
   * A filtered `deleteAll` on a coherent collection deletes exactly the ids
   * whose documents match: the index then lists the others in their order,
   * their documents are unchanged, and the collection stays coherent.
   */
  lemma DeleteAllMatching<T>(store: Substrate, cfg: Config<T>, f: Option<Json> -> bool)
    requires Lawful(cfg.codec) && Coherent(store, cfg)
    ensures var after := DeleteAllEffect(store, cfg, Some(f));
      var items := ReadIndex(store, cfg).value;
      && ReadIndex(after, cfg) == Some(Filter(items, KeptBy(store, cfg, f)))
      && (forall id :: id in ReadIndex(after, cfg).value <==> id in items && !f(ReadDoc(store, cfg, id)))
      && (forall id :: id in ReadIndex(after, cfg).value ==> ReadDoc(after, cfg, id) == ReadDoc(store, cfg, id))
      && Coherent(after, cfg)
  {
    var items := ReadIndex(store, cfg).value;
    var kept := KeptBy(store, cfg, f);
    var after := DeleteAllEffect(store, cfg, Some(f));
    var matched := MatchedKeys(store, cfg, items, f);
    DeleteAllScanned(store, cfg, f);
    FilterMembers(items, kept);
    FilterNoDup(items, kept);
    var left := Filter(items, kept);
    forall id | id in left ensures Get(after, DocKey(cfg.prefix, id)) == Get(store, DocKey(cfg.prefix, id)) {
      KeptNotMatched(store, cfg, items, f, id);
    }
    forall id ensures id in left <==> DocKey(cfg.prefix, id) in after {
      if f(ReadDoc(store, cfg, id)) {
        if id in items { MatchedIn(store, cfg, items, f, id); }
        else {
          IndexKeyIsNotDocKey(cfg.prefix, id);
          if DocKey(cfg.prefix, id) !in matched {
            assert Get(after, DocKey(cfg.prefix, id)) == Get(store, DocKey(cfg.prefix, id));
          }
        }
      } else {
        KeptNotMatched(store, cfg, items, f, id);
        assert Get(after, DocKey(cfg.prefix, id)) == Get(store, DocKey(cfg.prefix, id));
      }
    }
  }

  /** `deleteAll()` without a filter leaves an empty, coherent substrate. */
  lemma ClearEmpties<T>(store: Substrate, cfg: Config<T>)
    ensures DeleteAllEffect(store, cfg, None) == map[]
    ensures ReadIndex(DeleteAllEffect(store, cfg, None), cfg) == Some([])
    ensures Coherent(DeleteAllEffect(store, cfg, None), cfg)
  {
    EmptyIsCoherent(cfg);
  }
}
