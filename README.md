# CapacitorPreferencesDriver in Dafny

This project models `CapacitorPreferencesDriver`, the document store of
openhps-capacitor that keeps a collection of data objects in Capacitor's
`Preferences` key-value store. A collection is one namespace-and-type prefix.
Under that prefix the driver keeps:

- one index key, `${prefix}_keys`, holding the JSON array of document ids in
  insertion order;
- one key per document, `${prefix}.${id}`, holding the document's JSON text,
  optionally compressed with lz-string.

On top of those keys the driver offers:

- `insert`, `delete` and `deleteAll(filter)`;
- `count(filter)`, `findAll(query, { limit, sort })` and `findOne`.

The scans run over the index in chunks of `chunkSize` ids.

## Files

- `base.dfy`: `Option`, `Outcome` (how a promise settles), `MapAll`, `Filter`, `NoDup`.
- `json.dfy`: JSON values, JavaScript truthiness, and the `ToNumber` and
  `String` coercions the comparator applies.
- `js.dfy`: `Array.prototype.slice`, `indexOf` and `splice(start, 1)` with
  JavaScript's clamping rules.
- `keys.dfy`: the defaults the constructor applies, `toLowerCase`, and the
  prefix, index and document keys.
- `codec.dfy`: how documents and the index are stored as text and read back.
  The serializer, `JSON.stringify`/`JSON.parse` and lz-string are fields of
  `Codec`. `Lawful` states the round-trips the driver relies on.
- `chunks.dfy`: the chunked loop
  `for (i = 0; i <= n; i += size) slice(i, i + size)`, stated as the list of
  slices it takes. This is a separate formulation of the loop: the loops in
  `driver.dfy` prove their own coverage of the index in their invariants and
  do not use it.
- `sorting.dfy`: the `findAll` comparator and its properties. It also holds
  the finding about summed sort keys.
- `store.dfy`: the substrate as `map<string, string>`, and the effects of
  `insert`, `delete` and `deleteAll` as functions. It also defines the
  coherence invariant: the index lists an id exactly when its document key is
  present, and lists no id twice.
- `query.dfy`: what `count`, `findAll` and `findOne` settle to, as functions
  of the substrate, and the lemmas about them.
- `driver.dfy`: the class `PreferencesDriver` with the substrate as its field
  `store`:
  - the methods are the driver's operations, with the source's nested
    chunk loops;
  - each method's `ensures` ties its outcome and new state to the functions
    in `store.dfy` and `query.dfy`.

A promise is modelled as an `Outcome`:

- `Resolved(v)`;
- `Rejected(reason)`;
- `Pending`, for a promise that never settles.

`Pending` matters in two places:

- the unsorted `findAll` returns from its `.then` callback (line 139)
  without calling `resolve` (line 149);
- `count` has no `catch` for a failing index read.

The query and filter (`MemoryQueryEvaluator.evaluate`) are parameters of
type `Option<Json> -> bool`. `None` stands for `undefined`. `getValueFromPath`
and `localeCompare` are fields of `QueryEnv`.

Some behaviour of the code is easy to misread; the model follows the code:

- The code takes no lock around the read-modify-write of the index in
  `insert` and `delete`.
- The unsorted early `return` (line 149) leaves the promise pending.
- Strings are compared with `localeCompare`, which is kept abstract here.
- A filtered `deleteAll` resolves at line 246, before its deletes run; they
  are not awaited. The model resolves `deleteAll` and applies the deletes
  sequentially.
- `options.limit = options.limit || items.length` (line 140) writes the
  effective limit back into the caller's options object. `FindAll` returns
  that value as `limitAfter`.

## Model

| member | source | states |
|---|---|---|
| Base.MapAll | modules/capacitor-preferences/src/CapacitorPreferencesDriver.ts:173 | `data.map(deserialize)`: one result per element, the k-th being the function applied to the k-th element |
| Json.TextToNumber | modules/capacitor-preferences/src/CapacitorPreferencesDriver.ts:162 | text that is empty after trimming white space coerces to 0 |
| Json.TextToNumberIntText | modules/capacitor-preferences/src/CapacitorPreferencesDriver.ts:162 | `res1 - res2` reads the decimal text of an integer back as that integer |
| Json.ExampleNumericText | modules/capacitor-preferences/src/CapacitorPreferencesDriver.ts:162 | a numeric string, with blanks around it, coerces to its number |
| Json.ExampleEmptyAndArray | modules/capacitor-preferences/src/CapacitorPreferencesDriver.ts:162 | the empty string and the empty array coerce to 0, a one-element array to its element |
| Json.ExampleNotANumber | modules/capacitor-preferences/src/CapacitorPreferencesDriver.ts:162 | non-numeric text and an object coerce to NaN |
| Js.Slice | modules/capacitor-preferences/src/CapacitorPreferencesDriver.ts:62 | `slice(start, end)` keeps the elements from `start` up to `end` with both bounds clamped; a start past the end gives `[]`; a negative end counts from the end |
| Js.IndexOf | modules/capacitor-preferences/src/CapacitorPreferencesDriver.ts:209 | `indexOf` is -1 exactly when the element is absent; otherwise it is the first position holding it |
| Js.IndexOfFirst | modules/capacitor-preferences/src/CapacitorPreferencesDriver.ts:209 | an element found after a prefix that lacks it is found at the prefix's length |
| Js.SpliceOne | modules/capacitor-preferences/src/CapacitorPreferencesDriver.ts:209 | `splice(start, 1)` removes the element at an in-range start; a start of -1 removes the last element; a start past the end and an empty array change nothing |
| Keys.EffectiveNamespace | modules/capacitor-preferences/src/CapacitorPreferencesDriver.ts:19 | the namespace is the option when it is given and non-empty, otherwise "default"; it is never empty |
| Keys.EffectiveChunkSize | modules/capacitor-preferences/src/CapacitorPreferencesDriver.ts:20 | the chunk size is the option when it is non-zero, otherwise 10; it is always positive |
| Keys.LowerIsLowerCase | modules/capacitor-preferences/src/CapacitorPreferencesDriver.ts:21 | `toLowerCase` leaves no upper-case letter, fixes text without one, and applied twice changes nothing more |
| Keys.LowerAppend | modules/capacitor-preferences/src/CapacitorPreferencesDriver.ts:21 | lower-casing a concatenation lower-cases each part |
| Keys.DerivePrefix | modules/capacitor-preferences/src/CapacitorPreferencesDriver.ts:21 | the prefix is `namespace.(prefix or type name)` lower-cased, so it holds no upper-case letter |
| Keys.DocKeyInjective | modules/capacitor-preferences/src/CapacitorPreferencesDriver.ts:93 | two ids have the same document key exactly when they are equal |
| Keys.IndexKeyIsNotDocKey | modules/capacitor-preferences/src/CapacitorPreferencesDriver.ts:81 | the index key is never the document key of any id |
| Keys.KeysStartWithPrefix | modules/capacitor-preferences/src/CapacitorPreferencesDriver.ts:81 | the index key and every document key start with the collection prefix |
| Keys.ExampleTestPrefix | modules/capacitor-preferences/test/specs/service.dataobject.spec.ts:33-35 | the key-value test's driver (type `String`, prefix "test", no namespace) has prefix "default.test" |
| Codec.DecodeIndex | modules/capacitor-preferences/src/CapacitorPreferencesDriver.ts:84 | a missing index key reads as the empty index (`JSON.parse(null) \|\| []`) |
| Codec.DecodeIndexRoundTrip | modules/capacitor-preferences/src/CapacitorPreferencesDriver.ts:84 | an index written with `JSON.stringify` reads back as the same ids |
| Codec.DecodeEncode | modules/capacitor-preferences/src/CapacitorPreferencesDriver.ts:96-98 | a stored document reads back as its serialized JSON; compression does not change what is read |
| Codec.MissingDocumentIsFalsy | modules/capacitor-preferences/src/CapacitorPreferencesDriver.ts:96-100 | a missing document reads as `null` without compression and as `undefined` with it (`JSON.parse("")` throws); both are falsy |
| Chunks.ChunksFromCover | modules/capacitor-preferences/src/CapacitorPreferencesDriver.ts:61-62 | the slices taken from position `from` on concatenate to the rest of the index |
| Chunks.ChunksFromShape | modules/capacitor-preferences/src/CapacitorPreferencesDriver.ts:61-62 | there are (length - from) / size + 1 slices; all are full except the last, which holds the remainder |
| Chunks.ChunkedIteration | modules/capacitor-preferences/src/CapacitorPreferencesDriver.ts:142-143 | the chunked loop visits every id exactly once in index order; the `<=` bound adds one empty slice exactly when the length is a multiple of the chunk size |
| Sorting.InsertPoint | modules/capacitor-preferences/src/CapacitorPreferencesDriver.ts:155-156 | a value is inserted after every element that does not compare above it and before the first one that does |
| Sorting.SortOutcome | modules/capacitor-preferences/src/CapacitorPreferencesDriver.ts:154-171 | sorting fails exactly when the key list is empty and at least two values match (`reduce` of an empty array throws); otherwise it gives a permutation |
| Sorting.SortByPermutation | modules/capacitor-preferences/src/CapacitorPreferencesDriver.ts:155-156 | `sort` returns a permutation of its input |
| Sorting.SortBySorted | modules/capacitor-preferences/src/CapacitorPreferencesDriver.ts:155-156 | when the comparator orders values by a rank, the result is sorted by that rank |
| Sorting.SortByStable | modules/capacitor-preferences/src/CapacitorPreferencesDriver.ts:155-156 | values of equal rank keep their input order |
| Sorting.NumericKeyRanks | modules/capacitor-preferences/src/CapacitorPreferencesDriver.ts:159-162 | with one numeric key, the comparator is positive exactly when the first number is larger (direction > 0) or smaller (direction <= 0) |
| Sorting.SortByDescending | modules/capacitor-preferences/src/CapacitorPreferencesDriver.ts:159-162 | a comparator that ranks by the negated number sorts descending and stably |
| Sorting.NumericKeyOrder | modules/capacitor-preferences/src/CapacitorPreferencesDriver.ts:159-162 | `sort: [[path, 1]]` on numbers sorts ascending and `[[path, -1]]` descending; both give a permutation and are stable |
| Sorting.StringKeyOrder | modules/capacitor-preferences/src/CapacitorPreferencesDriver.ts:163-164 | one string key sorts by `localeCompare`, as a permutation and stably |
| Sorting.ExampleDisplayNameOrder | modules/capacitor-preferences/test/specs/service.dataobject.spec.ts:117-131 | sorting the three test objects by `displayName` puts "Maxim" first and keeps the two "Test" objects in insertion order |
| Sorting.OneNumericKey | modules/capacitor-preferences/src/CapacitorPreferencesDriver.ts:159-162 | with one ascending key whose first value is a number, the comparator is that number minus the other value coerced by `ToNumber`, or 0 when the coercion gives NaN |
| Sorting.ExampleNumericCoercion | modules/capacitor-preferences/src/CapacitorPreferencesDriver.ts:159-162 | against the number 5, the strings "3", " -3 " and "", the arrays `[]` and `[3]` contribute 2, 8, 5, 5 and 2; "3a" and an object give NaN, which counts as 0 |
| Sorting.SumOverridesPrimaryKey | modules/capacitor-preferences/src/CapacitorPreferencesDriver.ts:158-169 | under the summed comparator, a difference of 10 on the second key outweighs the primary key, so `{a: 2}` sorts before `{a: 1}` |
| Sorting.CascadePrimaryDecides | modules/capacitor-preferences/src/CapacitorPreferencesDriver.ts:158-169 | under the cascading comparator, a difference on the first numeric key decides the order, in both argument orders |
| Sorting.CascadeAgreesOnOneKey | modules/capacitor-preferences/src/CapacitorPreferencesDriver.ts:158-169 | with one key, the cascading comparator is the code's comparator |
| Sorting.CascadeFixesExample | modules/capacitor-preferences/src/CapacitorPreferencesDriver.ts:158-169 | the cascading comparator sorts the counterexample by its primary key |
| Store.AddId | modules/capacitor-preferences/src/CapacitorPreferencesDriver.ts:192-193 | `includes`/`push` adds the id at the end only when it is absent: the old index is a prefix of the new one, and no duplicate appears |
| Store.RemoveId | modules/capacitor-preferences/src/CapacitorPreferencesDriver.ts:209 | `splice(indexOf(id), 1)` removes the first occurrence of a listed id (one fewer in the multiset); for an unlisted id it removes the last id |
| Store.RemovePresentId | modules/capacitor-preferences/src/CapacitorPreferencesDriver.ts:209 | in a duplicate-free index, removing a listed id leaves exactly the other ids, still without duplicates |
| Store.RemoveAbsentDropsLast | modules/capacitor-preferences/src/CapacitorPreferencesDriver.ts:209 | removing an unlisted id drops the last id from a non-empty index |
| Store.ReadWrittenIndex | modules/capacitor-preferences/src/CapacitorPreferencesDriver.ts:194-197 | the index the driver writes is the index it reads back |
| Store.EmptyIsCoherent | modules/capacitor-preferences/src/CapacitorPreferencesDriver.ts:84 | an empty substrate reads as an empty collection, which is coherent |
| Store.InsertThenRead | modules/capacitor-preferences/src/CapacitorPreferencesDriver.ts:180-203 | after `insert` the document reads back as serialized; the promise resolves exactly when the index is readable and is rejected otherwise; the index gains the id; no other key changes |
| Store.InsertTwiceSameIndex | modules/capacitor-preferences/src/CapacitorPreferencesDriver.ts:192-198 | inserting an id a second time leaves the index unchanged |
| Store.InsertKeepsCoherent | modules/capacitor-preferences/src/CapacitorPreferencesDriver.ts:180-203 | `insert` keeps a coherent collection coherent |
| Store.DeletePresent | modules/capacitor-preferences/src/CapacitorPreferencesDriver.ts:205-225 | deleting a listed id resolves, removes it from the index and its document from the substrate, touches no other key, and keeps the collection coherent |
| Store.DeleteRewritesIndex | modules/capacitor-preferences/src/CapacitorPreferencesDriver.ts:207-213 | `delete` rewrites the index as `splice(indexOf(id), 1)` leaves it |
| Store.DeleteFromEmpty | modules/capacitor-preferences/src/CapacitorPreferencesDriver.ts:209 | deleting from an empty index leaves it empty |
| Store.DeleteAbsentOrphansLast | modules/capacitor-preferences/src/CapacitorPreferencesDriver.ts:209 | deleting an unlisted id drops the last listed id from the index while its document stays, so the collection is no longer coherent |
| Store.DeleteIntendedKeepsCoherent | modules/capacitor-preferences/src/CapacitorPreferencesDriver.ts:205-225 | the corrected `delete`, which changes the index only when it lists the id, keeps every coherent collection coherent and removes the id and its document |
| Store.DeleteEachState | modules/capacitor-preferences/src/CapacitorPreferencesDriver.ts:234-241 | after the deletes for the first n ids, the index lists the kept ids among them followed by the unscanned ones; the matched documents are gone; every other key is unchanged |
| Store.DeleteAllMatching | modules/capacitor-preferences/src/CapacitorPreferencesDriver.ts:227-248 | a filtered `deleteAll` leaves exactly the unmatched ids, in their order, with their documents unchanged, and keeps the collection coherent |
| Store.ClearEmpties | modules/capacitor-preferences/src/CapacitorPreferencesDriver.ts:229-230 | an unfiltered `deleteAll` clears the whole substrate, leaving an empty and coherent collection |
| Query.Docs | modules/capacitor-preferences/src/CapacitorPreferencesDriver.ts:63-64 | the scan reads one document per id, each as `_findByUID` reads it |
| Query.CountWhere | modules/capacitor-preferences/src/CapacitorPreferencesDriver.ts:65-67 | the count never exceeds the number of scanned values |
| Query.Collect | modules/capacitor-preferences/src/CapacitorPreferencesDriver.ts:146-147 | the scan never pushes more values than it reads |
| Query.CollectAppend | modules/capacitor-preferences/src/CapacitorPreferencesDriver.ts:142-153 | scanning two runs of values one after the other collects the two runs' matches in order |
| Query.CollectSelects | modules/capacitor-preferences/src/CapacitorPreferencesDriver.ts:146-147 | a value is collected exactly when it is truthy and the query matches it |
| Query.CountWhereNone | modules/capacitor-preferences/src/CapacitorPreferencesDriver.ts:65-67 | when the filter matches no value, the count is 0 |
| Query.EffectiveLimit | modules/capacitor-preferences/src/CapacitorPreferencesDriver.ts:140 | the limit is the option when it is non-zero, otherwise the index length |
| Query.LimitAfter | modules/capacitor-preferences/src/CapacitorPreferencesDriver.ts:140 | once the index is read, the caller's `options.limit` holds the effective limit; an unreadable index leaves it as it was |
| Query.ReusedOptionsKeepOldLength | modules/capacitor-preferences/src/CapacitorPreferencesDriver.ts:140 | a reused options object keeps the limit the first call wrote: with no limit given, later calls are limited to the old index length |
| Query.Threshold | modules/capacitor-preferences/src/CapacitorPreferencesDriver.ts:148 | the length test runs after a push, so the scan stops at the limit or, for a limit below 1, at the first match |
| Query.FindAllUnsorted | modules/capacitor-preferences/src/CapacitorPreferencesDriver.ts:140-153 | an unsorted `findAll` stays pending exactly when at least `Threshold(limit)` values match; otherwise it resolves to all matches in index order |
| Query.LimitZeroMeansAll | modules/capacitor-preferences/src/CapacitorPreferencesDriver.ts:140 | a limit of 0 behaves as no limit |
| Query.FindAllUnlimitedUnsorted | modules/capacitor-preferences/src/CapacitorPreferencesDriver.ts:140-150 | without a limit or a sort, `findAll` stays pending exactly when every listed document matches a non-empty index |
| Query.SlicePrefix | modules/capacitor-preferences/src/CapacitorPreferencesDriver.ts:171 | `slice(0, limit)` with a non-negative limit keeps the first `limit` elements (a sub-multiset), and keeps all of them when the limit reaches the length |
| Query.FindAllSorted | modules/capacitor-preferences/src/CapacitorPreferencesDriver.ts:154-174 | a sorted `findAll` resolves to the first `limit` values of the sorted matches, which are a permutation of the matches; without a limit it resolves to all of them |
| Query.EmptySortRejects | modules/capacitor-preferences/src/CapacitorPreferencesDriver.ts:156-169 | `sort: []` rejects as soon as two values match |
| Query.FindOneUnsortedNeverFinds | modules/capacitor-preferences/src/CapacitorPreferencesDriver.ts:119-134 | an unsorted `findOne` stays pending exactly when some value matches, and resolves to `undefined` exactly when none does |
| Query.FindOneSorted | modules/capacitor-preferences/src/CapacitorPreferencesDriver.ts:119-134 | a sorted `findOne` resolves to the first sorted match, or to `undefined` when nothing matches |
| Query.FindAllIntendedSettles | modules/capacitor-preferences/src/CapacitorPreferencesDriver.ts:140-153 | the corrected unsorted `findAll` always resolves, to the first matches in index order, at most `limit` of them; it agrees with the code whenever the code settles |
| Query.FindOneIntendedFirst | modules/capacitor-preferences/src/CapacitorPreferencesDriver.ts:119-134 | with the corrected `findAll`, `findOne` finds the first match in index order |
| Query.CountKept | modules/capacitor-preferences/src/CapacitorPreferencesDriver.ts:60-70 | the ids the filter keeps and the ids it counts add up to the index length |
| Query.CountAfterDeleteAll | modules/capacitor-preferences/test/specs/service.dataobject.spec.ts:445-470 | after a filtered `deleteAll`, `count(filter)` is 0 and `count()` is the old count minus the matches |
| Query.CountAfterClear | modules/capacitor-preferences/src/CapacitorPreferencesDriver.ts:229-230 | after an unfiltered `deleteAll`, every `count` resolves to 0 |
| Query.CountAfterInsert | modules/capacitor-preferences/src/CapacitorPreferencesDriver.ts:192-193 | after `insert`, `count()` grows by one exactly when the id was not listed |
| Driver.PreferencesDriver.constructor | modules/capacitor-preferences/src/CapacitorPreferencesDriver.ts:17-21 | the driver starts with the default namespace and chunk size and the lower-cased prefix |
| Driver.PreferencesDriver.Count | modules/capacitor-preferences/src/CapacitorPreferencesDriver.ts:56-76 | `count` settles as `CountSpec`: pending on an unreadable index, the index length without a filter, and the number of matching documents with one |
| Driver.CountedIsCountWhere | modules/capacitor-preferences/src/CapacitorPreferencesDriver.ts:61-69 | the running count after the first `n` ids equals the number of matching documents among those ids |
| Driver.GatheredIsCollect | modules/capacitor-preferences/src/CapacitorPreferencesDriver.ts:142-153 | the matches pushed after the first `n` ids are exactly the matching documents among those ids, in index order |
| Driver.PreferencesDriver.CountScan | modules/capacitor-preferences/src/CapacitorPreferencesDriver.ts:61-69 | the chunked loop counts the matching documents of the whole index |
| Driver.PreferencesDriver.CountChunk | modules/capacitor-preferences/src/CapacitorPreferencesDriver.ts:63-68 | one chunk's loop adds that chunk's matches to the count of the ids before it |
| Driver.PreferencesDriver.FindAll | modules/capacitor-preferences/src/CapacitorPreferencesDriver.ts:136-178 | `findAll` settles as `FindAllSpec`; when it stays pending, what it had gathered is the first `Threshold(limit)` matches; `limitAfter` is the caller's `options.limit` after the call, as `LimitAfter` |
| Driver.PreferencesDriver.Scan | modules/capacitor-preferences/src/CapacitorPreferencesDriver.ts:142-153 | the chunked loop collects every match, or returns early once an unsorted scan reaches the limit |
| Driver.PreferencesDriver.CollectChunk | modules/capacitor-preferences/src/CapacitorPreferencesDriver.ts:144-152 | one chunk's loop pushes that chunk's matches and stops right after the push that reaches the limit of an unsorted scan |
| Driver.PreferencesDriver.FindOne | modules/capacitor-preferences/src/CapacitorPreferencesDriver.ts:119-134 | `findOne` settles as `findAll` with limit 1, giving its first result or `undefined` |
| Driver.PreferencesDriver.Insert | modules/capacitor-preferences/src/CapacitorPreferencesDriver.ts:180-203 | `insert` writes the document, then appends the id to the index if absent, as `InsertEffect` |
| Driver.PreferencesDriver.Delete | modules/capacitor-preferences/src/CapacitorPreferencesDriver.ts:205-225 | `delete` rewrites the index, then removes the document, as `DeleteEffect` |
| Driver.PreferencesDriver.DeleteAll | modules/capacitor-preferences/src/CapacitorPreferencesDriver.ts:227-248 | `deleteAll` always resolves; it clears the substrate without a filter and deletes the matching ids with one, as `DeleteAllEffect` |
| Driver.PreferencesDriver.DeleteScan | modules/capacitor-preferences/src/CapacitorPreferencesDriver.ts:234-242 | the chunked loop deletes each listed id whose current document matches, in index order |
| Driver.PreferencesDriver.DeleteChunk | modules/capacitor-preferences/src/CapacitorPreferencesDriver.ts:236-241 | one chunk's loop applies the deletes for that chunk's ids |
| Driver.EarlyReturn | modules/capacitor-preferences/src/CapacitorPreferencesDriver.ts:148-149 | when the gathered matches reach the limit, the promise stays pending, and what was gathered is the first `Threshold(limit)` matches |
| Driver.ScanDone | modules/capacitor-preferences/src/CapacitorPreferencesDriver.ts:154-174 | after a full scan, `findAll` resolves to the deserialized matches (unsorted); rejects for an empty key list with two or more matches; otherwise resolves to the sorted matches cut to the limit |

## Left out

- `findByUID` (lines 107-117) is not modelled. It passes a promise to
  `deserialize` and is not part of the scans.
- `_initialize` and `createIndex` (lines 26-54) are not modelled. They write
  empty secondary-index keys that nothing reads.
- Concurrency and the un-awaited writes are not modelled. These are the
  index `Preferences.set` in `insert` (line 194) and `this.delete(key)` in
  `deleteAll` (line 239). Every operation is one sequential step in the
  model.
- Substrate I/O failures are not modelled: the substrate is a total map.
  The only rejections modelled are an unreadable index and a sort comparator
  that throws.
- Numbers are integers, not IEEE doubles. `res1 - res2` coerces `res2` with
  `ToNumber`: `null` is 0, booleans are 0 or 1, and `undefined` is NaN.
  Strings are trimmed and parsed, and arrays and objects are first turned
  into text. The model represents NaN as no value. A NaN comparator result
  counts as 0, as ECMAScript's `SortCompare` treats it.
- Json.TextToNumber: parses only an optionally signed run of decimal digits.
  Hexadecimal, binary and octal literals, exponents, decimal points and
  `Infinity` are read as NaN, because numbers here are integers.
- `toLowerCase` is modelled on ASCII letters only.
- Keys.DocKeyInjective: ids are modelled as strings. The source's id type
  is a generic `I` that is only interpolated into `${prefix}.${id}`. Two ids
  of different types with the same text, such as 1 and "1", are different
  ids to `includes`, yet they share a document key. The coherence lemmas in
  `store.dfy` rely on `DocKeyInjective` and hold for string ids only.
- `chunkSize` must be non-negative (`EffectiveChunkSize`). A negative chunk
  size makes the source's loop run forever.
- The index is taken to parse to an array of ids or to fail. A non-array
  JSON value in the index key is not modelled.
- `localeCompare`, `getValueFromPath` and `MemoryQueryEvaluator.evaluate`
  are parameters of the model.
- `Array.prototype.sort` is modelled as a stable insertion sort. The
  engine's algorithm is not part of this model.
- Driver.PreferencesDriver.DeleteAll: does not model that the promise
  resolves before the deletes run, because the model has no interleaving.
- The sensor adapters, the other Capacitor plugins and the app are not part
  of this model.

## Findings

| source | as written | input that shows it | evidently intended | confidence | as-written member | corrected member |
|---|---|---|---|---|---|---|
| modules/capacitor-preferences/src/CapacitorPreferencesDriver.ts:148-149 | the unsorted scan leaves with a bare `return` once `limit` values match, so the promise never settles | `findOne(query)` without `sort` on a collection where one document matches: `findAll` with limit 1 returns at the first match, and `findOne` never settles | resolve with the values gathered so far | high (not executed) | Query.FindOneUnsortedNeverFinds | Query.FindAllIntendedSettles |
| modules/capacitor-preferences/src/CapacitorPreferencesDriver.ts:209 | `items.splice(items.indexOf(id), 1)` with an id that is not listed gives `splice(-1, 1)`, which drops the last listed id | `delete("z")` on index `["a", "b"]`: the index becomes `["a"]` while the document of "b" stays | leave the index unchanged when it does not list the id | high (not executed) | Store.DeleteAbsentOrphansLast | Store.DeleteIntendedKeepsCoherent |
| modules/capacitor-preferences/src/CapacitorPreferencesDriver.ts:158-169 | the comparator sums the contributions of all sort keys | `sort: [["a", 1], ["b", 1]]` with `{a: 1, b: 10}` and `{a: 2, b: 0}`: the sum is 9, so `{a: 2}` sorts first | the first key that differs decides | medium (not executed) | Sorting.SumOverridesPrimaryKey | Sorting.CascadePrimaryDecides |

For each finding, the driver class models the code as written. The
corrected definitions (`FindAllIntended`, `DeleteIntendedEffect`,
`CascadeCompare`) stand beside the as-written ones, and lemmas compare the
two:

- `FindAllIntendedSettles` shows the corrected `findAll` agrees with the
  code whenever the code settles.
- `CascadeAgreesOnOneKey` shows the corrected comparator agrees with the
  code's for a single key.
