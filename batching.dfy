/**
  The batch planner: `[cpfs[i:i+lote_size] for i in range(0, len(cpfs), lote_size)]`
  splits the valid-CPF list into contiguous slices of `lote_size`.
*/
module Batching {

  function Min(a: int, b: int): int {
    if a <= b then a else b
  }

  /** The slices of `xs` of length `size`, in order; the last one may be shorter. */
  function Chunk<T>(xs: seq<T>, size: nat): (bs: seq<seq<T>>)
    requires size > 0
    ensures |xs| <= |bs| * size < |xs| + size
    ensures forall i :: 0 <= i < |bs| ==> 0 < |bs[i]| <= size
    ensures forall i :: 0 <= i < |bs| - 1 ==> |bs[i]| == size
    decreases |xs|
  {
    if xs == [] then []
    else if |xs| <= size then [xs]
    else
      var rest := Chunk(xs[size..], size);
      assert (|rest| + 1) * size == |rest| * size + size;
      [xs[..size]] + rest
  }

  /** The concatenation of a list of lists. */
  function Flatten<T>(bs: seq<seq<T>>): seq<T> {
    if bs == [] then [] else bs[0] + Flatten(bs[1..])
  }

  lemma {:induction false} FlattenAppend<T>(a: seq<seq<T>>, b: seq<seq<T>>)
    ensures Flatten(a + b) == Flatten(a) + Flatten(b)
  {
    if a == [] {
      assert a + b == b;
    } else {
      assert (a + b)[1..] == a[1..] + b;
      FlattenAppend(a[1..], b);
    }
  }

  lemma {:induction false} FlattenMember<T>(bs: seq<seq<T>>, i: nat, x: T)
    requires i < |bs| && x in bs[i]
    ensures x in Flatten(bs)
  {
    if i > 0 {
      FlattenMember(bs[1..], i - 1, x);
    }
  }

  /** Concatenating the batches gives back the CPF list, in order. */
  lemma {:induction false} ChunkFlatten<T>(xs: seq<T>, size: nat)
    requires size > 0
    ensures Flatten(Chunk(xs, size)) == xs
    decreases |xs|
  {
    if xs != [] && |xs| > size {
      ChunkFlatten(xs[size..], size);
      assert xs == xs[..size] + xs[size..];
    }
  }

  /** Batch `j` is exactly the slice `xs[j*size : (j+1)*size]` of the comprehension. */
  lemma {:induction false} ChunkAt<T>(xs: seq<T>, size: nat, j: nat)
    requires size > 0 && j < |Chunk(xs, size)|
    ensures j * size < |xs|
    ensures Chunk(xs, size)[j] == xs[j * size .. Min((j + 1) * size, |xs|)]
    decreases |xs|
  {
    if j > 0 {
      var tail := xs[size..];
      assert Chunk(xs, size) == [xs[..size]] + Chunk(tail, size);
      ChunkAt(tail, size, j - 1);
      SuccMul(j - 1, size);
      SuccMul(j, size);
      SliceShift(xs, size, (j - 1) * size, Min(j * size, |tail|));
    }
  }

  /** A slice of a suffix is a slice of the whole list, shifted by where the suffix starts. */
  lemma SliceShift<T>(xs: seq<T>, d: nat, lo: nat, hi: nat)
    requires d <= |xs| && lo <= hi <= |xs| - d
    ensures xs[d..][lo..hi] == xs[lo + d..hi + d]
  {
  }

  lemma SuccMul(j: nat, size: nat)
    ensures j * size + size == (j + 1) * size
  {
  }

  /** Every element of every batch comes from the list. */
  lemma ChunkMember<T>(xs: seq<T>, size: nat, i: nat, x: T)
    requires size > 0 && i < |Chunk(xs, size)| && x in Chunk(xs, size)[i]
    ensures x in xs
  {
    FlattenMember(Chunk(xs, size), i, x);
    ChunkFlatten(xs, size);
  }
}
