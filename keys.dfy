/**
 * The driver's configuration defaults and its key scheme
 * (CapacitorPreferencesDriver.ts, constructor and the key templates):
 * `prefix = lower(namespace + "." + (prefix || typeName))`, the index under
 * `prefix + "_keys"` and every document under `prefix + "." + id`.
 * `toLowerCase` is modelled on ASCII letters only.
 */
module Keys {
  import opened Base

  type Id = string

  const DefaultNamespace: string := "default"
  const DefaultChunkSize: int := 10

  function LowerChar(c: char): char
  {
    if 'A' <= c <= 'Z' then (c as int + 32) as char else c
  }

  /** `s.toLowerCase()` on ASCII letters. */
  function Lower(s: string): (r: string)
    ensures |r| == |s|
  {
    if s == [] then [] else [LowerChar(s[0])] + Lower(s[1..])
  }

  predicate NoUpper(s: string)
  {
    forall i :: 0 <= i < |s| ==> !('A' <= s[i] <= 'Z')
  }

  /** Lower-casing leaves no upper-case letter and changes nothing else. */
  lemma {:induction false} LowerIsLowerCase(s: string)
    ensures NoUpper(Lower(s))
    ensures NoUpper(s) ==> Lower(s) == s
    ensures Lower(Lower(s)) == Lower(s)
  {
    if s != [] {
      LowerIsLowerCase(s[1..]);
      var r := Lower(s);
      assert r == [LowerChar(s[0])] + Lower(s[1..]);
      assert r[1..] == Lower(s[1..]);
      assert NoUpper(s) ==> NoUpper(s[1..]) by {
        if NoUpper(s) {
          forall i | 0 <= i < |s[1..]| ensures !('A' <= s[1..][i] <= 'Z') {
            assert s[1..][i] == s[i + 1];
          }
        }
      }
      forall i | 0 <= i < |r| ensures !('A' <= r[i] <= 'Z') {
        if i > 0 { assert r[i] == Lower(s[1..])[i - 1]; }
      }
      assert Lower(r) == [LowerChar(r[0])] + Lower(r[1..]);
    }
  }

  /** Lower-casing distributes over concatenation. */
  lemma {:induction false} LowerAppend(a: string, b: string)
    ensures Lower(a + b) == Lower(a) + Lower(b)
  {
    if a == [] {
      assert a + b == b;
    } else {
      var t := a + b;
      assert t[0] == a[0] && t[1..] == a[1..] + b;
      LowerAppend(a[1..], b);
    }
  }

  /** `options.namespace || 'default'` */
  function EffectiveNamespace(option: Option<string>): (r: string)
    ensures r != ""
    ensures option.Some? && option.value != "" ==> r == option.value
    ensures option.None? || option.value == "" ==> r == DefaultNamespace
  {
    if option.Some? && option.value != "" then option.value else DefaultNamespace
  }

  /**
   * `options.chunkSize || 10`. A negative chunk size makes every scan loop
   * forever, so it is excluded.
   */
  function EffectiveChunkSize(option: Option<int>): (r: int)
    requires option.Some? ==> option.value >= 0
    ensures r > 0
    ensures option.Some? && option.value != 0 ==> r == option.value
    ensures option.None? || option.value == 0 ==> r == DefaultChunkSize
  {
    if option.Some? && option.value != 0 then option.value else DefaultChunkSize
  }

  /** `options.prefix || dataType.name` */
  function CollectionName(prefix: Option<string>, typeName: string): string
  {
    if prefix.Some? && prefix.value != "" then prefix.value else typeName
  }

  /** `${namespace}.${prefix || dataType.name}`.toLowerCase() */
  function DerivePrefix(namespace: string, prefix: Option<string>, typeName: string): (r: string)
    ensures NoUpper(r)
    ensures r == Lower(namespace) + "." + Lower(CollectionName(prefix, typeName))
    ensures |r| == |namespace| + 1 + |CollectionName(prefix, typeName)|
  {
    var name := CollectionName(prefix, typeName);
    LowerAppend(namespace + ".", name);
    LowerAppend(namespace, ".");
    assert Lower(".") == ".";
    LowerIsLowerCase(namespace + "." + name);
    Lower(namespace + "." + name)
  }

  /** `${this.prefix}_keys`: where the list of live ids is stored. */
  function IndexKey(prefix: string): string
  {
    prefix + "_keys"
  }

  /** `${this.prefix}.${id}`: where the document `id` is stored. */
  function DocKey(prefix: string, id: Id): string
  {
    prefix + "." + id
  }

  /** Distinct ids of one collection are stored under distinct keys. */
  lemma DocKeyInjective(prefix: string, a: Id, b: Id)
    ensures DocKey(prefix, a) == DocKey(prefix, b) <==> a == b
  {
    if DocKey(prefix, a) == DocKey(prefix, b) {
      assert a == DocKey(prefix, a)[|prefix| + 1..];
      assert b == DocKey(prefix, b)[|prefix| + 1..];
    }
  }

  /** The index key of a collection is never one of its document keys. */
  lemma IndexKeyIsNotDocKey(prefix: string, id: Id)
    ensures IndexKey(prefix) != DocKey(prefix, id)
  {
    assert IndexKey(prefix)[|prefix|] == '_';
    assert DocKey(prefix, id)[|prefix|] == '.';
  }

  /** Every key a collection uses starts with its prefix. */
  lemma KeysStartWithPrefix(prefix: string, id: Id)
    ensures IndexKey(prefix)[..|prefix|] == prefix
    ensures DocKey(prefix, id)[..|prefix|] == prefix
  {
    assert IndexKey(prefix)[..|prefix|] == (prefix + "_keys")[..|prefix|];
    assert DocKey(prefix, id)[..|prefix|] == (prefix + ("." + id))[..|prefix|];
  }

  /** The key-value test's collection: type `String`, prefix option "test". */
  lemma ExampleTestPrefix()
    ensures DerivePrefix(EffectiveNamespace(None), Some("test"), "String") == "default.test"
  {
    assert EffectiveNamespace(None) == "default";
    assert Lower("default") == "default";
    assert Lower("test") == "test";
  }
}
