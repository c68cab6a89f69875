// src/utils/arrays.ts (and its copies utils/arrays.ts, utils/arrays.js):
// grouping an array into a keyed object, and cutting it into chunks.
module Arrays {
  import opened Common

  /**
   * `groupBy(source, transform)`: a left fold that stores each item under its
   * key, so a later item replaces an earlier one with the same key.
   */
  function GroupBy<T>(source: seq<T>, key: T -> string): (r: map<string, T>)
    ensures r.Keys == set x | x in source :: key(x)
    ensures |source| == 0 ==> r == map[]
    decreases |source|
  {
    if |source| == 0 then map[]
    else
      var init := source[..|source| - 1];
      var last := source[|source| - 1];
      assert source == init + [last];
      GroupBy(init, key)[key(last) := last]
  }

  /** Each key holds the last item carrying it. */
  lemma {:induction false} GroupByLastWins<T>(source: seq<T>, key: T -> string, i: nat)
    requires i < |source|
    requires forall j :: i < j < |source| ==> key(source[j]) != key(source[i])
    ensures key(source[i]) in GroupBy(source, key)
    ensures GroupBy(source, key)[key(source[i])] == source[i]
    decreases |source|
  {
    var n := |source|;
    if i < n - 1 {
      var init := source[..n - 1];
      assert forall j :: i < j < |init| ==> init[j] == source[j];
      GroupByLastWins(init, key, i);
      assert init[i] == source[i];
    }
  }

  /** There are never more keys than items. */
  lemma {:induction false} GroupBySize<T>(source: seq<T>, key: T -> string)
    ensures |GroupBy(source, key)| <= |source|
    decreases |source|
  {
    if |source| > 0 {
      var init := source[..|source| - 1];
      GroupBySize(init, key);
      var last := source[|source| - 1];
      assert GroupBy(source, key).Keys == GroupBy(init, key).Keys + {key(last)};
    }
  }

  function Flatten<T>(chunks: seq<seq<T>>): seq<T>
  {
    if |chunks| == 0 then [] else chunks[0] + Flatten(chunks[1..])
  }

  /** `Math.ceil(n / size)` for a positive size. */
  function CeilDiv(n: nat, size: nat): (c: nat)
    requires size >= 1
    ensures (c - 1) * size < n <= c * size || (n == 0 && c == 0)
  {
    (n + size - 1) / size
  }

  /** `input.slice(start, end)` for non-negative bounds. */
  function Slice<T>(input: seq<T>, start: nat, end: nat): (r: seq<T>)
    ensures |r| == if start <= end && start <= |input| then (if end <= |input| then end else |input|) - start else 0
  {
    var e := if end <= |input| then end else |input|;
    if start <= e then input[start..e] else []
  }

  /**
   * `chunkArray(input, size)` for an integral size. A negative size, or
   * size zero with an empty input, gives no chunks (`Array.from` clamps the
   * length to zero); a zero size with items gives an infinite length, and
   * `Array.from` throws: `None`.
   */
  function ChunkArray<T>(input: seq<T>, size: int): (r: Option<seq<seq<T>>>)
    ensures r.None? <==> size == 0 && |input| > 0
    ensures r.Some? && (size < 0 || |input| == 0) ==> r.value == []
    ensures r.Some? && size >= 1 ==> |r.value| == CeilDiv(|input|, size)
  {
    if size == 0 && |input| > 0 then None
    else if size <= 0 then Some([])
    else Some(seq(CeilDiv(|input|, size), i requires 0 <= i < CeilDiv(|input|, size) => Slice(input, i * size, i * size + size)))
  }

  /** Every chunk but the last is full; the last holds between 1 and `size` items. */
  lemma ChunkLengths<T>(input: seq<T>, size: int)
    requires size >= 1
    ensures var chunks := ChunkArray(input, size).value;
      && (forall i :: 0 <= i < |chunks| - 1 ==> |chunks[i]| == size)
      && (|chunks| > 0 ==> 1 <= |chunks[|chunks| - 1]| <= size)
  {
    var chunks := ChunkArray(input, size).value;
    var c := |chunks|;
    forall i | 0 <= i < c - 1
      ensures |chunks[i]| == size
    {
      assert (i + 1) * size <= (c - 1) * size by {
        MulMono(i + 1, c - 1, size);
      }
    }
    if c > 0 {
      assert (c - 1) * size < |input|;
    }
  }

  /** A chunk that exists starts inside the input, and the next one starts `size` later. */
  lemma ChunkStarts(n: nat, size: nat, i: nat, start: nat)
    requires size >= 1 && i < CeilDiv(n, size) && start == i * size
    ensures start < n && (i + 1) * size == start + size
  {
    MulMono(i, CeilDiv(n, size) - 1, size);
  }

  lemma MulMono(a: nat, b: nat, k: nat)
    requires a <= b
    ensures a * k <= b * k
  {
  }

  /** Concatenating the chunks gives back the input. */
  lemma ChunkFlatten<T>(input: seq<T>, size: int)
    requires size >= 1
    ensures Flatten(ChunkArray(input, size).value) == input
  {
    var chunks := ChunkArray(input, size).value;
    FlattenFrom(input, size, chunks, 0, 0);
    assert chunks[0..] == chunks;
  }

  /** The chunks from index `i` on concatenate to the input from `start == i * size` on. */
  lemma {:induction false} FlattenFrom<T>(input: seq<T>, size: nat, chunks: seq<seq<T>>, i: nat, start: nat)
    requires size >= 1 && i <= |chunks| && start == i * size
    requires |chunks| == CeilDiv(|input|, size)
    requires forall k :: 0 <= k < |chunks| ==> chunks[k] == Slice(input, k * size, k * size + size)
    ensures Flatten(chunks[i..]) == SubstringFrom(input, start)
    decreases |chunks| - i
  {
    if i == |chunks| {
      assert chunks[i..] == [];
      assert |input| <= start;
    } else {
      ChunkStarts(|input|, size, i, start);
      FlattenFrom(input, size, chunks, i + 1, start + size);
      var e := if start + size <= |input| then start + size else |input|;
      SliceStep(input, start, e, chunks[i], SubstringFrom(input, start + size));
      assert chunks[i..] == [chunks[i]] + chunks[i + 1..];
    }
  }

  lemma SliceStep<T>(input: seq<T>, start: nat, e: nat, chunk: seq<T>, rest: seq<T>)
    requires start <= e <= |input| && chunk == input[start..e] && rest == input[e..]
    ensures chunk + rest == SubstringFrom(input, start)
  {
    assert input[start..] == input[start..e] + input[e..];
  }
}
