/** `utils._chunk` and `utils.as_chunks`: split an iterable into lists of at
    most `max_size` items. */
module Chunks {
  import opened Wrappers
  import Seqs

  /** Every chunk is non-empty and, for a positive size, all chunks but the
      last are full and the last is at most full. */
  ghost predicate WellChunked<T>(chunks: seq<seq<T>>, maxSize: int) {
    && (forall k :: 0 <= k < |chunks| ==> |chunks[k]| > 0)
    && (maxSize > 0 ==> forall k :: 0 <= k < |chunks| ==> |chunks[k]| <= maxSize)
    && (maxSize > 0 ==> forall k :: 0 <= k < |chunks| - 1 ==> |chunks[k]| == maxSize)
  }

  /** The generator `_chunk`, run to exhaustion. The counter `n` is compared
      with `==`, so a size of 0 or less never closes a chunk and everything
      ends up in one chunk (`as_chunks` rejects such sizes first). */
  method Chunk<T>(xs: seq<T>, maxSize: int) returns (chunks: seq<seq<T>>)
    ensures Seqs.Flatten(chunks) == xs
    ensures WellChunked(chunks, maxSize)
    ensures maxSize <= 0 ==> chunks == (if xs == [] then [] else [xs])
  {
    var ret: seq<T> := [];
    var n := 0;
    chunks := [];
    for i := 0 to |xs|
      invariant Seqs.Flatten(chunks) + ret == xs[..i]
      invariant n == |ret|
      invariant forall k :: 0 <= k < |chunks| ==> |chunks[k]| > 0
      invariant maxSize > 0 ==> n < maxSize && forall k :: 0 <= k < |chunks| ==> |chunks[k]| == maxSize
      invariant maxSize <= 0 ==> chunks == [] && ret == xs[..i]
    {
      assert xs[..i + 1] == xs[..i] + [xs[i]];
      ret := ret + [xs[i]];
      n := n + 1;
      if n == maxSize {
        Seqs.FlattenAppend(chunks, ret);
        chunks := chunks + [ret];
        ret := [];
        n := 0;
      }
    }
    assert xs[..|xs|] == xs;
    if ret != [] {
      Seqs.FlattenAppend(chunks, ret);
      chunks := chunks + [ret];
    }
  }

  /** `as_chunks` on a synchronous iterable: `ValueError` for a size of 0 or
      less, otherwise the chunks of `_chunk`. */
  method AsChunks<T>(xs: seq<T>, maxSize: int) returns (r: Result<seq<seq<T>>>)
    ensures r.Failure? <==> maxSize <= 0
    ensures r.Failure? ==> r.error == ValueError
    ensures r.Success? ==> Seqs.Flatten(r.value) == xs && WellChunked(r.value, maxSize)
    ensures r.Success? ==> |r.value| == (|xs| + maxSize - 1) / maxSize
  {
    if maxSize <= 0 {
      return Failure(ValueError);
    }
    var chunks := Chunk(xs, maxSize);
    ChunkCount(chunks, maxSize);
    return Success(chunks);
  }

  /** A well-chunked split of `xs` has `ceil(|xs| / maxSize)` chunks. */
  lemma {:induction false} ChunkCount<T>(chunks: seq<seq<T>>, maxSize: int)
    requires maxSize > 0 && WellChunked(chunks, maxSize)
    ensures |chunks| == (|Seqs.Flatten(chunks)| + maxSize - 1) / maxSize
    decreases |chunks|
  {
    if chunks == [] {
      DivExact(0, maxSize - 1, maxSize);
    } else {
      var rest := chunks[1..];
      assert Seqs.Flatten(chunks) == chunks[0] + Seqs.Flatten(rest);
      if rest == [] {
        DivExact(1, |chunks[0]| - 1, maxSize);
      } else {
        assert WellChunked(rest, maxSize) by {
          forall k | 0 <= k < |rest| ensures rest[k] == chunks[k + 1] {
          }
        }
        ChunkCount(rest, maxSize);
        var n := |Seqs.Flatten(rest)|;
        assert |Seqs.Flatten(chunks)| + maxSize - 1 == (n + maxSize - 1) + maxSize;
        DivAddOne(n + maxSize - 1, maxSize);
      }
    }
  }

  lemma DivAddOne(x: int, d: int)
    requires d > 0
    ensures (x + d) / d == x / d + 1
  {
    DivExact(x / d + 1, x % d, d);
    assert x + d == (x / d + 1) * d + x % d;
  }

  lemma DivExact(q: int, r: int, d: int)
    requires d > 0 && 0 <= r < d
    ensures (q * d + r) / d == q
  {
    var x := q * d + r;
    var q', r' := x / d, x % d;
    assert x == q' * d + r';
    var k := q - q';
    assert k * d == r' - r by {
      assert k * d == q * d - q' * d;
    }
  }
}
