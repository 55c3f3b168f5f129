/**
 * The chunked iteration shared by `count`, `findAll` and `deleteAll`:
 * `for (i = 0; i <= items.length; i += chunkSize) items.slice(i, i + chunkSize)`.
 */
module Chunks {
  import opened Base
  import opened Js

  /** The slices the loop takes, starting at position `from`. */
  function ChunksFrom<X>(items: seq<X>, size: int, from: nat): seq<seq<X>>
    requires size > 0
    decreases |items| + 1 - from
  {
    if from > |items| then []
    else [Slice(items, from, from + size)] + ChunksFrom(items, size, from + size)
  }

  function Chunks<X>(items: seq<X>, size: int): seq<seq<X>>
    requires size > 0
  {
    ChunksFrom(items, size, 0)
  }

  function Flatten<X>(chunks: seq<seq<X>>): seq<X>
  {
    if chunks == [] then [] else chunks[0] + Flatten(chunks[1..])
  }

  lemma {:induction false} ChunksFromCover<X>(items: seq<X>, size: int, from: nat)
    requires size > 0 && from <= |items|
    ensures Flatten(ChunksFrom(items, size, from)) == items[from..]
    decreases |items| - from
  {
    var cs := ChunksFrom(items, size, from);
    var head := Slice(items, from, from + size);
    assert cs == [head] + ChunksFrom(items, size, from + size);
    if from + size > |items| {
      assert head == items[from..];
      assert cs == [head];
      assert Flatten(cs) == head + Flatten([]);
    } else {
      var rest := ChunksFrom(items, size, from + size);
      ChunksFromCover(items, size, from + size);
      assert cs[1..] == rest;
      assert Flatten(cs) == head + Flatten(rest);
      assert items[from..] == items[from..from + size] + items[from + size..];
    }
  }

  lemma {:induction false} ChunksFromShape<X>(items: seq<X>, size: int, from: nat)
    requires size > 0 && from <= |items|
    ensures var cs := ChunksFrom(items, size, from);
      && |cs| > 0
      && (forall k :: 0 <= k < |cs| - 1 ==> |cs[k]| == size)
      && |cs| == (|items| - from) / size + 1
      && |cs[|cs| - 1]| == (|items| - from) % size
    decreases |items| - from
  {
    var cs := ChunksFrom(items, size, from);
    var head := Slice(items, from, from + size);
    assert cs == [head] + ChunksFrom(items, size, from + size);
    if from + size > |items| {
      assert cs == [head];
      DivUnique(|items| - from, size, 0, |items| - from);
    } else {
      var rest := ChunksFrom(items, size, from + size);
      ChunksFromShape(items, size, from + size);
      assert cs[1..] == rest;
      forall k | 0 <= k < |cs| - 1 ensures |cs[k]| == size {
        if k > 0 { assert cs[k] == rest[k - 1]; }
      }
      DivStep(|items| - from, size);
    }
  }

  /** A non-zero multiple of `d` is at least `d` away from zero. */
  lemma {:induction false} MulSign(e: int, d: int)
    requires d > 0
    ensures e >= 1 ==> e * d >= d
    ensures e <= -1 ==> e * d <= -d
    decreases if e >= 0 then e else -e
  {
    if e >= 2 {
      MulSign(e - 1, d);
      assert e * d == (e - 1) * d + d;
    } else if e <= -2 {
      MulSign(e + 1, d);
      assert e * d == (e + 1) * d - d;
    }
  }

  /** Euclidean division has one quotient and remainder. */
  lemma DivUnique(n: int, d: int, q: int, r: int)
    requires d > 0 && n == q * d + r && 0 <= r < d
    ensures n / d == q && n % d == r
  {
    var q', r' := n / d, n % d;
    assert n == q' * d + r' && 0 <= r' < d;
    var e := q' - q;
    assert e * d == q' * d - q * d;
    assert e * d == r - r';
    MulSign(e, d);
  }

  /** Taking one chunk off the front leaves the same remainder and one chunk fewer. */
  lemma DivStep(n: int, size: int)
    requires size > 0 && n >= size
    ensures (n - size) / size + 1 == n / size
    ensures (n - size) % size == n % size
  {
    var q, r := (n - size) / size, (n - size) % size;
    assert n - size == q * size + r;
    assert n == (q + 1) * size + r;
    DivUnique(n, size, q + 1, r);
  }

  /**
   * The chunked loop visits every id exactly once and in index order: the
   * slices concatenate to the index, every slice but the last is full, and
   * the last is short, so the `<=` bound adds at most one empty slice,
   * exactly when the length is a multiple of the chunk size.
   */
  lemma ChunkedIteration<X>(items: seq<X>, size: int)
    requires size > 0
    ensures Flatten(Chunks(items, size)) == items
    ensures var cs := Chunks(items, size);
      && |cs| > 0
      && (forall k :: 0 <= k < |cs| - 1 ==> |cs[k]| == size)
      && (forall k :: 0 <= k < |cs| - 1 ==> cs[k] != [])
      && |cs| == |items| / size + 1
      && (cs[|cs| - 1] == [] <==> |items| % size == 0)
  {
    ChunksFromCover(items, size, 0);
    ChunksFromShape(items, size, 0);
  }
}
