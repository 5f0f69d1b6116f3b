/** The sliding-window cache: a ring buffer that always holds the last tokens, each in its own slot. */
module RingCache {
  import opened Arithmetic
  import opened Slices

  /** The key and value vectors of one token. */
  datatype Vectors = Vectors(key: seq<real>, value: seq<real>)

  function SlotOf(i: nat, size: nat): (slot: nat)
    requires size > 0
    ensures slot < size
  {
    i % size
  }

  /** Tokens less than a window apart have different slots. */
  lemma {:induction false} SlotsDiffer(i: nat, j: nat, size: nat)
    requires size > 0 && i < j < i + size
    ensures SlotOf(i, size) != SlotOf(j, size)
  {
    if SlotOf(i, size) == SlotOf(j, size) {
      var a, b := i / size, j / size;
      assert i == a * size + SlotOf(i, size) && j == b * size + SlotOf(j, size);
      if b <= a {
        MulLe(b, a, size);
      } else {
        MulLe(a + 1, b, size);
        MulAdd(a, 1, size);
      }
    }
  }

  /** Overwriting a row leaves the others. */
  lemma {:induction false} OtherRow(before: seq<real>, after: seq<real>, dim: nat, slot: nat, other: nat)
    requires |before| == |after| && slot * dim + dim <= |before| && other * dim + dim <= |before| && slot != other
    requires after[..slot * dim] == before[..slot * dim] && after[slot * dim + dim..] == before[slot * dim + dim..]
    ensures Chunk(after, dim, other) == Chunk(before, dim, other)
  {
    if other < slot {
      ChunkFits(slot, dim, other);
      SliceBefore(before, after, slot * dim, other * dim, dim);
    } else {
      ChunkFits(other, dim, slot);
      SliceAfter(before, after, slot * dim + dim, other * dim, dim);
    }
  }

  method CopyFromSlice(dst: array<real>, offset: nat, src: seq<real>)
    requires offset + |src| <= dst.Length
    modifies dst
    ensures dst[offset..offset + |src|] == src
    ensures dst[..offset] == old(dst[..offset]) && dst[offset + |src|..] == old(dst[offset + |src|..])
  {
    for k := 0 to |src|
      invariant dst[offset..offset + k] == src[..k]
      invariant dst[..offset] == old(dst[..offset]) && dst[offset + k..] == old(dst[offset + k..])
    {
      ghost var tail := dst[offset + k..];
      dst[offset + k] := src[k];
      assert dst[offset + (k + 1)..] == tail[1..];
      assert old(dst[offset + (k + 1)..]) == old(dst[offset + k..])[1..];
    }
  }

  /** `x` has been written from `at` on, and nothing else has changed. */
  predicate WrittenAt(before: seq<real>, after: seq<real>, at: nat, x: seq<real>) {
    && at + |x| <= |before| == |after|
    && forall a | 0 <= a < |after| :: after[a] == if at <= a < at + |x| then x[a - at] else before[a]
  }

  /** `buffer` holds `column` of the last tokens of `history`. */
  ghost predicate Holds(buffer: seq<real>, column: seq<seq<real>>, size: nat, dim: nat)
    requires size > 0 && |buffer| == size * dim
  {
    forall i: nat | i < |column| && |column| <= i + size :: HoldsAt(buffer, column, size, dim, i)
  }

  ghost predicate HoldsAt(buffer: seq<real>, column: seq<seq<real>>, size: nat, dim: nat, i: nat)
    requires size > 0 && |buffer| == size * dim && i < |column|
  {
    ChunkFits(size, dim, SlotOf(i, size));
    Chunk(buffer, dim, SlotOf(i, size)) == column[i]
  }

  lemma {:induction false} HoldsNext(before: seq<real>, after: seq<real>, column: seq<seq<real>>, size: nat, dim: nat,
                                     x: seq<real>)
    requires size > 0 && |before| == |after| == size * dim && Holds(before, column, size, dim)
    requires SlotOf(|column|, size) * dim + dim <= size * dim && Chunk(after, dim, SlotOf(|column|, size)) == x
    requires after[..SlotOf(|column|, size) * dim] == before[..SlotOf(|column|, size) * dim]
    requires after[SlotOf(|column|, size) * dim + dim..] == before[SlotOf(|column|, size) * dim + dim..]
    ensures Holds(after, column + [x], size, dim)
  {
    var n, column' := |column|, column + [x];
    forall i: nat | i < |column'| && |column'| <= i + size ensures HoldsAt(after, column', size, dim, i) {
      if i < n {
        SlotsDiffer(i, n, size);
        ChunkFits(size, dim, SlotOf(i, size));
        OtherRow(before, after, dim, SlotOf(n, size), SlotOf(i, size));
        assert HoldsAt(before, column, size, dim, i);
      }
    }
  }

  class KvCache {
    const maxSeqLen: nat
    const headDim: nat
    const keys: array<real>
    const values: array<real>
    var currentSeqLen: nat
    /** Every key and every value ever appended. */
    ghost var allKeys: seq<seq<real>>
    ghost var allValues: seq<seq<real>>

    /** The buffers hold the last `maxSeqLen` tokens, or all if there were fewer. */
    ghost predicate Valid()
      reads this, keys, values
    {
      && maxSeqLen > 0 && keys != values && keys.Length == values.Length == maxSeqLen * headDim
      && currentSeqLen == |allKeys| == |allValues|
      && Holds(keys[..], allKeys, maxSeqLen, headDim) && Holds(values[..], allValues, maxSeqLen, headDim)
    }

    constructor (size: nat, dim: nat)
      requires size > 0
      ensures Valid() && fresh(keys) && fresh(values) && allKeys == [] && allValues == []
      ensures maxSeqLen == size && headDim == dim
    {
      maxSeqLen, headDim := size, dim;
      keys := new real[size * dim](_ => 0.0);
      values := new real[size * dim](_ => 0.0);
      currentSeqLen, allKeys, allValues := 0, [], [];
    }

    /** Appends a token, in place of the oldest once the window is full. */
    method Update(newK: seq<real>, newV: seq<real>)
      requires Valid() && |newK| == headDim && |newV| == headDim
      modifies this, keys, values
      ensures Valid() && allKeys == old(allKeys) + [newK] && allValues == old(allValues) + [newV]
      ensures WrittenAt(old(keys[..]), keys[..], old(currentSeqLen) % maxSeqLen * headDim, newK)
      ensures WrittenAt(old(values[..]), values[..], old(currentSeqLen) % maxSeqLen * headDim, newV)
      ensures currentSeqLen == old(currentSeqLen) + 1
    {
      var physicalIndex := SlotOf(currentSeqLen, maxSeqLen);
      var offset := physicalIndex * headDim;
      ChunkFits(maxSeqLen, headDim, physicalIndex);
      ghost var k0, v0 := keys[..], values[..];
      CopyFromSlice(keys, offset, newK);
      CopyFromSlice(values, offset, newV);
      HoldsNext(k0, keys[..], allKeys, maxSeqLen, headDim, newK);
      HoldsNext(v0, values[..], allValues, maxSeqLen, headDim, newV);
      allKeys, allValues := allKeys + [newK], allValues + [newV];
      currentSeqLen := currentSeqLen + 1;
    }
  }
}
