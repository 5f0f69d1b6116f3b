/** Where the tensor data of a file is said to start, and for which alignments that is right. */
module DataStarts {
  import opened Arithmetic
  import opened Word64
  import opened Alignment
  import opened Encoding
  import opened Metadata
  import opened Gguf

  lemma {:induction false} Pow2Byte(k: nat)
    ensures Pow2(k + 8) == 256 * Pow2(k)
  {
    assert Pow2(k + 2) == 4 * Pow2(k) && Pow2(k + 4) == 4 * Pow2(k + 2);
    assert Pow2(k + 6) == 4 * Pow2(k + 4) && Pow2(k + 8) == 4 * Pow2(k + 6);
  }

  lemma {:induction false} WordsAreWide(bits: nat)
    requires bits == WORD_BITS
    ensures Pow2(bits) >= 0x100_0000_0000
  {
    var k := 0;
    Pow2Byte(k);
    Pow2Byte(k + 8);
    Pow2Byte(k + 16);
    Pow2Byte(k + 24);
    Pow2Byte(k + 32);
    PowBelow(k + 40, bits);
  }

  /** The header that opening the encoded file gives. */
  function HeaderOfFile(f: File, bits: nat): Header
    requires f.Valid() && OffsetFits(|f.Bytes()|, bits)
  {
    HeaderOf(f.version, |f.tensors|, MapOf(PairsOf(f.entries)), f.tensors, |f.Bytes()|, bits)
  }

  function AlignmentOfFile(f: File): u32
    requires f.Valid()
  {
    AlignmentOf(MapOf(PairsOf(f.entries)))
  }

  /** The data of every file with this alignment is said to start at the least aligned offset at or after its head. */
  ghost predicate RightForAllFiles(a: u32, bits: nat) {
    forall f: File | f.Valid() && OffsetFits(|f.Bytes()|, bits) && AlignmentOfFile(f) == a :: RightFor(f, a, bits)
  }

  ghost predicate RightFor(f: File, a: u32, bits: nat)
    requires f.Valid() && OffsetFits(|f.Bytes()|, bits)
  {
    LeastAligned(|f.Bytes()|, a, HeaderOfFile(f, bits).dataStart)
  }

  // ---------- files of chosen alignment and size ----------

  function AlignmentEntry(a: u32): Entry {
    Entry(ALIGNMENT_KEY, Num(U32, a))
  }

  function NamedTensor(nameLen: nat): TensorInfo {
    TensorInfo(seq(nameLen, _ => 0), 0, [], 0, 0)
  }

  /** A file with alignment `a`, and one tensor with a name of the given length. */
  function SizedFile(a: u32, nameLen: nat): File {
    File(3, [AlignmentEntry(a)], [NamedTensor(nameLen)])
  }

  lemma {:induction false} EntrySize(a: u32)
    ensures AlignmentEntry(a).Valid() && |AlignmentEntry(a).Bytes()| == 33
        && AlignmentEntry(a).Kept() == Pair(ALIGNMENT_KEY, UInt32(a))
  {
    assert Pow256(4) == 0x1_0000_0000;
  }

  lemma {:induction false} TensorSize(nameLen: nat)
    requires nameLen < Pow256(8)
    ensures NamedTensor(nameLen).Valid() && |NamedTensor(nameLen).Bytes()| == 24 + nameLen
  {
  }

  lemma {:induction false} SizedFileSize(a: u32, nameLen: nat)
    requires nameLen < Pow256(8)
    ensures SizedFile(a, nameLen).Valid() && |SizedFile(a, nameLen).Bytes()| == 81 + nameLen
    ensures AlignmentOfFile(SizedFile(a, nameLen)) == a
  {
    EntrySize(a);
    TensorSize(nameLen);
    var entries, tensors := [AlignmentEntry(a)], [NamedTensor(nameLen)];
    assert entries[1..] == [] && tensors[1..] == [];
    assert |EntryBytes(entries)| == 33 && |TensorBytes(tensors)| == 24 + nameLen;
    var pairs := PairsOf(entries);
    assert pairs == [entries[0].Kept()] + PairsOf(entries[1..]);
    assert pairs == [Pair(ALIGNMENT_KEY, UInt32(a))];
    assert pairs[..0] == [];
  }

  /** The size at which a file with alignment `a` goes wrong: `a` itself, or a larger multiple that looks the same
      in its low bits. */
  lemma {:induction false} BadSize(a: u32, bits: nat) returns (x: nat)
    requires a > 0 && !IsPow2(a) && bits == WORD_BITS
    ensures 81 <= x < 0x1_0000_0000 && OffsetFits(x, bits) && !LeastAligned(x, a, DataStart(x, a, bits))
  {
    WordsAreWide(bits);
    var i := SharedBit(a);
    if a >= 81 {
      x := a;
      MultipleMoved(x, 1, a, bits, i);
    } else {
      x := a + Mul(a, Pow2(7));
      assert Pow2(7) == 128;
      assert a != Pow2(0) && a != Pow2(1);
      BitBelow(a, 7, i);
      LowBitsStay(a, a, 7, i);
      assert x == Mul(129, a);
      MultipleMoved(x, 129, a, bits, i);
    }
  }

  /** The start of the tensor data is right for every file of an alignment exactly when it is a power of two. */
  lemma {:induction false} DataStartAligned(a: u32, bits: nat)
    requires bits == WORD_BITS
    ensures RightForAllFiles(a, bits) <==> IsPow2(a)
  {
    WordsAreWide(bits);
    assert Pow256(8) >= 0x1_0000_0000;
    if IsPow2(a) {
      AlignsIffPowerOfTwo(a, bits);
      forall f: File | f.Valid() && OffsetFits(|f.Bytes()|, bits) && AlignmentOfFile(f) == a
        ensures RightFor(f, a, bits)
      {
        var x := |f.Bytes()|;
        assert LeastAligned(x, a, MaskUp(x, a, bits));
      }
    } else if a == 0 {
      SizedFileSize(a, 0);
      assert !RightFor(SizedFile(a, 0), a, bits);
    } else {
      var x := BadSize(a, bits);
      SizedFileSize(a, x - 81);
      assert !RightFor(SizedFile(a, x - 81), a, bits);
    }
  }
}
