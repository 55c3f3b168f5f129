/**
 * How documents and the index are written to and read back from the
 * substrate's string values (CapacitorPreferencesDriver.ts, `_findAll`,
 * `_findByUID` and the first lines of `insert`). The foreign pieces (the
 * serializer of the data service, `JSON.stringify`/`JSON.parse` and
 * lz-string's UTF-16 compressor) are the fields of a `Codec`; `Lawful` states
 * what the driver relies on about them.
 */
module Codec {
  import opened Base
  import opened Json
  import opened Keys

  datatype Codec<!T> = Codec(
    serialize: T -> Json,                   // options.serialize
    deserialize: Json -> T,                 // options.deserialize
    stringify: Json -> string,              // JSON.stringify
    parse: string -> Option<Json>,          // JSON.parse; None when it throws
    stringifyIds: seq<Id> -> string,        // JSON.stringify of the id array
    parseIds: string -> Option<seq<Id>>,    // JSON.parse(text) || []; None when it throws
    compress: string -> string,             // compressToUTF16
    decompress: string -> Option<string>)   // decompressFromUTF16; None when it returns null

  /**
   * Parsing undoes stringifying, decompression undoes compression, and the
   * empty text is not JSON.
   */
  ghost predicate Lawful<T>(c: Codec<T>)
  {
    && (forall j :: c.parse(c.stringify(j)) == Some(j))
    && (forall ids :: c.parseIds(c.stringifyIds(ids)) == Some(ids))
    && (forall s :: c.decompress(c.compress(s)) == Some(s))
    && c.parse("") == None
  }

  type ChunkSize = n: int | n > 0 witness DefaultChunkSize

  /** The resolved options the driver works with. */
  datatype Config<!T> = Config(prefix: string, chunkSize: ChunkSize, compress: bool, codec: Codec<T>)

  /** The text `insert` stores for `object`. */
  function Encode<T>(cfg: Config<T>, doc: T): string
  {
    var text := cfg.codec.stringify(cfg.codec.serialize(doc));
    if cfg.compress then cfg.codec.compress(text) else text
  }

  /**
   * What `_findByUID` resolves to for the stored value `raw` (None: the key
   * is absent, which the substrate reports as `null`). `JSON.parse(null)`
   * yields `null`; `decompressFromUTF16(null)` yields "", which does not
   * parse. A parse failure resolves to `undefined` (None) and never rejects.
   */
  function DecodeDocument<T>(cfg: Config<T>, raw: Option<string>): Option<Json>
  {
    var text: Option<string> :=
      if !cfg.compress then raw
      else match raw
        case None => Some("")
        case Some(s) => cfg.codec.decompress(s);
    match text
    case None => Some(JNull)
    case Some(s) => cfg.codec.parse(s)
  }

  /**
   * What `_findAll` resolves to for the stored index text `raw`; None is the
   * rejection that a parse failure causes.
   */
  function DecodeIndex<T>(cfg: Config<T>, raw: Option<string>): (r: Option<seq<Id>>)
    ensures raw.None? ==> r == Some([])
  {
    match raw
    case None => Some([])
    case Some(s) => cfg.codec.parseIds(s)
  }

  /**
   * Reading back what `insert` wrote yields the serialized object, with or
   * without compression.
   */
  lemma DecodeEncode<T>(cfg: Config<T>, doc: T)
    requires Lawful(cfg.codec)
    ensures DecodeDocument(cfg, Some(Encode(cfg, doc))) == Some(cfg.codec.serialize(doc))
    ensures DecodeDocument(cfg.(compress := !cfg.compress), Some(Encode(cfg.(compress := !cfg.compress), doc)))
         == DecodeDocument(cfg, Some(Encode(cfg, doc)))
  {
    var c := cfg.codec;
    var text := c.stringify(c.serialize(doc));
    assert c.parse(text) == Some(c.serialize(doc));
    assert c.decompress(c.compress(text)) == Some(text);
  }

  /** An absent document reads as a falsy value, never as a document. */
  lemma MissingDocumentIsFalsy<T>(cfg: Config<T>)
    requires Lawful(cfg.codec)
    ensures !Truthy(DecodeDocument(cfg, None))
    ensures DecodeDocument(cfg, None) == if cfg.compress then None else Some(JNull)
  {
  }

  /** The index text the driver writes reads back as the same ids. */
  lemma DecodeIndexRoundTrip<T>(cfg: Config<T>, ids: seq<Id>)
    requires Lawful(cfg.codec)
    ensures DecodeIndex(cfg, Some(cfg.codec.stringifyIds(ids))) == Some(ids)
  {
  }
}
