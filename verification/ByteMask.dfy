/** The same tensor with byte masks, its kernel, and the agreement of the two kernels. */
module ByteMask {
  import opened Arithmetic
  import opened Slices
  import opened Word64
  import opened PagePools
  import opened TernaryKernel

  datatype ByteTensor = ByteTensor(rows: nat, cols: nat, posMask: seq<u8>, negMask: seq<u8>, scale: real)

  /** Bytes allotted to a row: `cols.div_ceil(8)`. */
  function RowBytes(cols: nat): nat {
    (cols + 7) / 8
  }

  predicate Allotted(t: ByteTensor) {
    |t.posMask| == |t.negMask| == t.rows * RowBytes(t.cols)
  }

  function ByteWeight(p: u8, n: u8, i: nat): int {
    BitValue(p, i) - BitValue(n, i)
  }

  /** The weights a run of mask bytes stands for. */
  function ByteWeights(pos: seq<u8>, neg: seq<u8>): (w: seq<int>)
    requires |pos| == |neg|
    ensures |w| == 8 * |pos|
    ensures forall i | 0 <= i < |w| :: w[i] == ByteWeight(pos[i / 8], neg[i / 8], i % 8)
  {
    seq(8 * |pos|, i requires 0 <= i < 8 * |pos| => ByteWeight(pos[i / 8], neg[i / 8], i % 8))
  }

  // ---------- the kernel ----------

  /** Adds one byte's positive and negative activations to the two sums. */
  method AddByte(acts: seq<i8>, p: u8, n: u8, c: nat, sumPos0: int, sumNeg0: int) returns (sumPos: int, sumNeg: int)
    requires 8 * c + 8 <= |acts|
    ensures sumPos == Wrap32(sumPos) && sumNeg == Wrap32(sumNeg)
    ensures Wrap32(sumPos - sumNeg) == Wrap32(sumPos0 - sumNeg0 + ByteSum(acts, p, n, c, 8))
  {
    sumPos, sumNeg := Wrap32(sumPos0), Wrap32(sumNeg0);
    WrapDifference(sumPos0, sumNeg0);
    for i := 0 to 8
      invariant sumPos == Wrap32(sumPos) && sumNeg == Wrap32(sumNeg)
      invariant Wrap32(sumPos - sumNeg) == Wrap32(sumPos0 - sumNeg0 + ByteSum(acts, p, n, c, i))
    {
      var act, pMask, nMask := acts[8 * c + i], BitValue(p, i), BitValue(n, i);
      SumsStep(sumPos, sumNeg, sumPos0 - sumNeg0 + ByteSum(acts, p, n, c, i), act * pMask, act * nMask);
      assert act * pMask - act * nMask == ByteWeight(p, n, i) * acts[8 * c + i];
      sumPos := Wrap32(sumPos + act * pMask);
      sumNeg := Wrap32(sumNeg + act * nMask);
    }
  }

  function ByteSum(acts: seq<i8>, p: u8, n: u8, c: nat, i: nat): int
    requires i <= 8 && 8 * c + 8 <= |acts|
  {
    if i == 0 then 0 else ByteSum(acts, p, n, c, i - 1) + ByteWeight(p, n, i - 1) * acts[8 * c + i - 1]
  }

  lemma {:induction false} WrapDifference(a: int, b: int)
    ensures Wrap32(Wrap32(a) - Wrap32(b)) == Wrap32(a - b)
  {
    WrapAdd(a, -Wrap32(b), TWO31);
    WrapSub(b, a, TWO31);
  }

  lemma {:induction false} WrapSub(b: int, a: int, half: int)
    requires half > 0
    ensures Wrap(a - Wrap(b, half), half) == Wrap(a - b, half)
    decreases if b < 0 then -b else b + 1
  {
    if b < -half {
      WrapSub(b + 2 * half, a, half);
      WrapPeriod(a - b - 2 * half, half);
    } else if b >= half {
      WrapSub(b - 2 * half, a, half);
      WrapPeriod(a - b, half);
    }
  }

  lemma {:induction false} SumsStep(sumPos: int, sumNeg: int, total: int, x: int, y: int)
    requires Wrap32(sumPos - sumNeg) == Wrap32(total)
    ensures Wrap32(Wrap32(sumPos + x) - Wrap32(sumNeg + y)) == Wrap32(total + (x - y))
  {
    WrapDifference(sumPos + x, sumNeg + y);
    WrapAdd(sumPos - sumNeg, x - y, TWO31);
    WrapAdd(total, x - y, TWO31);
  }

  lemma {:induction false} ByteOfDot(acts: seq<i8>, pos: seq<u8>, neg: seq<u8>, c: nat, i: nat)
    requires |pos| == |neg| && c < |pos| && 8 * c + 8 <= |acts| && i <= 8
    ensures Dot(acts, ByteWeights(pos, neg), 8 * c + i) == Dot(acts, ByteWeights(pos, neg), 8 * c)
        + ByteSum(acts, pos[c], neg[c], c, i)
  {
    if i > 0 {
      ByteOfDot(acts, pos, neg, c, i - 1);
      var e := 8 * c + i - 1;
      assert e / 8 == c && e % 8 == i - 1;
      assert ByteWeights(pos, neg)[e] == ByteWeight(pos[c], neg[c], i - 1);
    }
  }

  lemma {:induction false} RowStep(acts: seq<i8>, pos: seq<u8>, neg: seq<u8>, c: nat, sum: int)
    requires |pos| == |neg| && c < |pos| && 8 * c + 8 <= |acts|
    requires Wrap32(sum) == Wrap32(Dot(acts, ByteWeights(pos, neg), 8 * c))
    ensures Wrap32(sum + ByteSum(acts, pos[c], neg[c], c, 8)) == Wrap32(Dot(acts, ByteWeights(pos, neg), 8 * (c + 1)))
  {
    var term := ByteSum(acts, pos[c], neg[c], c, 8);
    ByteOfDot(acts, pos, neg, c, 8);
    WrapAdd(sum, term, TWO31);
    WrapAdd(Dot(acts, ByteWeights(pos, neg), 8 * c), term, TWO31);
    assert 8 * (c + 1) == 8 * c + 8;
  }

  /** One row: the positive and the negative activations are summed apart, byte by byte. */
  method RowSum(acts: seq<i8>, pos: seq<u8>, neg: seq<u8>, maskCols: nat) returns (r: int)
    requires |pos| == |neg| == maskCols && 8 * maskCols <= |acts|
    ensures r == Wrap32(Dot(acts, ByteWeights(pos, neg), 8 * maskCols))
  {
    var sumPos, sumNeg := 0, 0;
    for c := 0 to maskCols
      invariant Wrap32(sumPos - sumNeg) == Wrap32(Dot(acts, ByteWeights(pos, neg), 8 * c))
    {
      RowStep(acts, pos, neg, c, sumPos - sumNeg);
      sumPos, sumNeg := AddByte(acts, pos[c], neg[c], c, sumPos, sumNeg);
    }
    r := Wrap32(sumPos - sumNeg);
  }

  lemma {:induction false} ReadsFit(rows: nat, cols: nat, r: nat)
    requires r < rows
    ensures r * (cols / 8) + cols / 8 <= rows * RowBytes(cols)
    ensures r * RowBytes(cols) + RowBytes(cols) <= rows * RowBytes(cols)
  {
    ChunkFits(rows, RowBytes(cols), r);
    MulLeRight(r, cols / 8, RowBytes(cols));
  }

  /** The weights the kernel uses for row `r`: it strides by whole bytes of columns, `cols / 8`. */
  function ReadWeights(t: ByteTensor, r: nat): (w: seq<int>)
    requires Allotted(t) && r < t.rows
    ensures |w| == 8 * (t.cols / 8)
  {
    ReadsFit(t.rows, t.cols, r);
    ByteWeights(Chunk(t.posMask, t.cols / 8, r), Chunk(t.negMask, t.cols / 8, r))
  }

  /** What the kernel returns for row `r`. */
  function RowValue(t: ByteTensor, activations: seq<i8>, r: nat): real
    requires Allotted(t) && |activations| == t.cols && r < t.rows
  {
    Times(Wrap32(Dot(activations, ReadWeights(t, r), 8 * (t.cols / 8))) as real, t.scale)
  }

  /** Term `i`: the activation, added for bit `i % 8` of byte `i / 8` of the positive mask and subtracted for that of
      the negative. */
  predicate IsByteTerm(acts: seq<i8>, pos: seq<u8>, neg: seq<u8>, xs: seq<int>, i: nat) {
    && i < |xs| && i < |acts| && i / 8 < |pos| && i / 8 < |neg|
    && var a: int := acts[i];
       xs[i] == (if Bit(pos[i / 8], i % 8) then a else 0) - (if Bit(neg[i / 8], i % 8) then a else 0)
  }

  ghost predicate IsByteSum(acts: seq<i8>, pos: seq<u8>, neg: seq<u8>, total: int) {
    exists xs: seq<int> ::
      && |xs| == 8 * |pos| && total == SumInts(xs)
      && forall i: nat | i < |xs| :: IsByteTerm(acts, pos, neg, xs, i)
  }

  /** `y` is the sum over some mask bytes, as a 32-bit integer, times the scale. */
  ghost predicate IsByteOutput(acts: seq<i8>, pos: seq<u8>, neg: seq<u8>, scale: real, y: real) {
    exists total, s :: IsByteSum(acts, pos, neg, total) && IsI32Of(total, s) && y == s as real * scale
  }

  /** `y` is row `r`: the `cols / 8` bytes from byte `r * (cols / 8)` on. */
  ghost predicate IsRowValue(t: ByteTensor, acts: seq<i8>, r: nat, y: real) {
    var from, end := r * (t.cols / 8), r * (t.cols / 8) + t.cols / 8;
    end <= |t.posMask| && end <= |t.negMask|
      && IsByteOutput(acts, t.posMask[from..end], t.negMask[from..end], t.scale, y)
  }

  lemma {:induction false} ByteTermMeans(acts: seq<i8>, pos: seq<u8>, neg: seq<u8>, n: nat, i: nat)
    requires |pos| == |neg| && i < n == 8 * |pos| <= |acts|
    ensures IsByteTerm(acts, pos, neg, Products(acts, ByteWeights(pos, neg), n), i)
  {
    var w := ByteWeights(pos, neg)[i];
    assert w == ByteWeight(pos[i / 8], neg[i / 8], i % 8);
    assert w == -1 || w == 0 || w == 1;
  }

  lemma {:induction false} ByteOutputMeans(acts: seq<i8>, pos: seq<u8>, neg: seq<u8>, n: nat, scale: real, y: real)
    requires |pos| == |neg| && n == 8 * |pos| <= |acts|
    requires y == Times(Wrap32(Dot(acts, ByteWeights(pos, neg), n)) as real, scale)
    ensures IsByteOutput(acts, pos, neg, scale, y)
  {
    var xs := Products(acts, ByteWeights(pos, neg), n);
    DotIsSum(acts, ByteWeights(pos, neg), n, n);
    assert xs[..n] == xs;
    forall i: nat | i < n ensures IsByteTerm(acts, pos, neg, xs, i) {
      ByteTermMeans(acts, pos, neg, n, i);
    }
    WrapMeans(Dot(acts, ByteWeights(pos, neg), n));
  }

  /** A row's value, from the mask bytes and the scale. */
  lemma {:induction false} RowValueMeans(t: ByteTensor, activations: seq<i8>, r: nat)
    requires Allotted(t) && |activations| == t.cols && r < t.rows
    ensures IsRowValue(t, activations, r, RowValue(t, activations, r))
  {
    ReadsFit(t.rows, t.cols, r);
    ByteOutputMeans(activations, Chunk(t.posMask, t.cols / 8, r), Chunk(t.negMask, t.cols / 8, r), 8 * (t.cols / 8),
      t.scale, RowValue(t, activations, r));
  }

  lemma {:induction false} RowValuesMean(t: ByteTensor, activations: seq<i8>, output: seq<real>)
    requires Allotted(t) && |activations| == t.cols && |output| == t.rows
    requires forall r | 0 <= r < t.rows :: output[r] == RowValue(t, activations, r)
    ensures forall r | 0 <= r < t.rows :: IsRowValue(t, activations, r, output[r])
  {
    forall r | 0 <= r < t.rows ensures IsRowValue(t, activations, r, output[r]) {
      RowValueMeans(t, activations, r);
    }
  }

  method InferRow(t: ByteTensor, activations: seq<i8>, r: nat) returns (v: real)
    requires Allotted(t) && |activations| == t.cols && r < t.rows
    ensures v == RowValue(t, activations, r)
  {
    ReadsFit(t.rows, t.cols, r);
    var sum := RowSum(activations, Chunk(t.posMask, t.cols / 8, r), Chunk(t.negMask, t.cols / 8, r), t.cols / 8);
    v := Times(sum as real, t.scale);
  }

  method FastSimdInference(t: ByteTensor, activations: seq<i8>) returns (output: seq<real>)
    requires Allotted(t) && |activations| == t.cols
    ensures |output| == t.rows && forall r | 0 <= r < t.rows :: output[r] == RowValue(t, activations, r)
    ensures forall r | 0 <= r < t.rows :: IsRowValue(t, activations, r, output[r])
  {
    output := [];
    for r := 0 to t.rows
      invariant |output| == r && forall k | 0 <= k < r :: output[k] == RowValue(t, activations, k)
    {
      var value := InferRow(t, activations, r);
      output := output + [value];
    }
    RowValuesMean(t, activations, output);
  }

  // ---------- when the kernel reads its own row, whole ----------

  /** The weights stored for row `r`, in the row's allotted bytes. */
  function StoredWeights(t: ByteTensor, r: nat): (w: seq<int>)
    requires Allotted(t) && r < t.rows
    ensures |w| == t.cols
  {
    ReadsFit(t.rows, t.cols, r);
    var start := r * RowBytes(t.cols);
    ByteWeights(t.posMask[start..start + RowBytes(t.cols)], t.negMask[start..start + RowBytes(t.cols)])[..t.cols]
  }

  /** The kernel's dot product is that of the stored row, for all masks and activations of a shape. */
  ghost predicate RowIsRead(rows: nat, cols: nat, r: nat)
    requires r < rows
  {
    forall t: ByteTensor, acts: seq<i8> | t.rows == rows && t.cols == cols && Allotted(t) && |acts| == cols ::
        ReadAsStored(t, r, acts)
  }

  predicate ReadAsStored(t: ByteTensor, r: nat, acts: seq<i8>)
    requires Allotted(t) && r < t.rows && |acts| == t.cols
  {
    Dot(acts, ReadWeights(t, r), 8 * (t.cols / 8)) == Dot(acts, StoredWeights(t, r), t.cols)
  }

  lemma {:induction false} WholeBytesRead(t: ByteTensor, r: nat)
    requires Allotted(t) && r < t.rows && t.cols % 8 == 0
    ensures ReadWeights(t, r) == StoredWeights(t, r)
  {
    ReadsFit(t.rows, t.cols, r);
    assert RowBytes(t.cols) == t.cols / 8;
  }

  /** A row's dot product is that of its stored weights, for all masks and activations, exactly when the columns
      fill whole bytes; otherwise the kernel never reads the last columns. */
  lemma {:induction false} ReadIffWholeBytes(rows: nat, cols: nat, r: nat)
    requires r < rows
    ensures RowIsRead(rows, cols, r) <==> cols % 8 == 0
  {
    if cols % 8 == 0 {
      forall t: ByteTensor, acts: seq<i8> | t.rows == rows && t.cols == cols && Allotted(t) && |acts| == cols
        ensures ReadAsStored(t, r, acts)
      {
        WholeBytesRead(t, r);
      }
    } else {
      LastColumnUnread(rows, cols, r);
    }
  }

  /** Every weight is one. */
  function FullTensor(rows: nat, cols: nat, bytes: nat): (t: ByteTensor)
    ensures t.rows == rows && t.cols == cols && |t.posMask| == |t.negMask| == bytes
    ensures forall b | 0 <= b < bytes :: t.posMask[b] == 255 && t.negMask[b] == 0
  {
    ByteTensor(rows, cols, seq(bytes, _ => 255), seq(bytes, _ => 0), 1.0)
  }

  function LastOnly(cols: nat): (acts: seq<i8>)
    ensures |acts| == cols && forall i | 0 <= i < cols :: acts[i] == if i == cols - 1 then 1 else 0
  {
    seq(cols, i => if i == cols - 1 then 1 else 0)
  }

  lemma {:induction false} LastColumnUnread(rows: nat, cols: nat, r: nat)
    requires r < rows && cols % 8 != 0
    ensures !RowIsRead(rows, cols, r)
  {
    var t := FullTensor(rows, cols, rows * RowBytes(cols));
    var acts := LastOnly(cols);
    LastColumnMissed(t, acts, r);
  }

  /** With weights of one and a single activation, in the last column. */
  lemma {:induction false} LastColumnMissed(t: ByteTensor, acts: seq<i8>, r: nat)
    requires Allotted(t) && r < t.rows && t.cols % 8 != 0 && |acts| == t.cols
    requires forall b | 0 <= b < |t.posMask| :: t.posMask[b] == 255 && t.negMask[b] == 0
    requires forall i | 0 <= i < |acts| :: acts[i] == if i == t.cols - 1 then 1 else 0
    ensures !ReadAsStored(t, r, acts)
  {
    UnitDot(acts, ReadWeights(t, r), t.cols - 1, 8 * (t.cols / 8));
    UnitDot(acts, StoredWeights(t, r), t.cols - 1, t.cols);
    AllOnes(t, r, t.cols - 1);
  }

  lemma {:induction false} UnitDot(acts: seq<i8>, w: seq<int>, col: nat, n: nat)
    requires n <= |acts| && n <= |w| && forall i | 0 <= i < n :: acts[i] == if i == col then 1 else 0
    ensures Dot(acts, w, n) == if col < n then w[col] else 0
  {
    if n > 0 {
      UnitDot(acts, w, col, n - 1);
    }
  }

  lemma {:induction false} AllOnes(t: ByteTensor, r: nat, col: nat)
    requires Allotted(t) && r < t.rows && col < t.cols
    requires forall b | 0 <= b < |t.posMask| :: t.posMask[b] == 255 && t.negMask[b] == 0
    ensures StoredWeights(t, r)[col] == 1
  {
    ReadsFit(t.rows, t.cols, r);
    FullByte(col % 8);
    BitZero(col % 8);
  }

  lemma {:induction false} FullByte(i: nat)
    requires i < 8
    ensures Bit(255, i)
  {
    assert Pow2(8) == 256;
    BitOnes(8, i);
  }

  // ---------- words and bytes ----------

  /** `w >> n`. */
  function Shr(w: nat, n: nat): nat {
    if n == 0 then w else Shr(w / 2, n - 1)
  }

  /** The low `n` bits. */
  function LowBits(w: nat, n: nat): (r: nat)
    ensures r < Pow2(n)
  {
    if n == 0 then 0 else w % 2 + 2 * LowBits(w / 2, n - 1)
  }

  lemma {:induction false} BitShr(w: nat, n: nat, i: nat)
    ensures Bit(Shr(w, n), i) == Bit(w, n + i)
  {
    if n > 0 {
      BitShr(w / 2, n - 1, i);
    }
  }

  lemma {:induction false} BitLow(w: nat, n: nat, i: nat)
    requires i < n
    ensures Bit(LowBits(w, n), i) == Bit(w, i)
  {
    if i > 0 {
      BitLow(w / 2, n - 1, i - 1);
    }
  }

  /** Byte `c` of a word, little end first. */
  function LeByte(w: u64, c: nat): (b: u8)
    ensures forall i: nat | i < 8 :: Bit(b, i) == Bit(w, 8 * c + i)
  {
    assert Pow2(8) == 256;
    assert forall i: nat | i < 8 :: Bit(LowBits(Shr(w, 8 * c), 8), i) == Bit(w, 8 * c + i) by {
      forall i: nat | i < 8 ensures Bit(LowBits(Shr(w, 8 * c), 8), i) == Bit(w, 8 * c + i) {
        BitLow(Shr(w, 8 * c), 8, i);
        BitShr(w, 8 * c, i);
      }
    }
    LowBits(Shr(w, 8 * c), 8)
  }

  /** The bytes of consecutive words. */
  function LeBytes(mask: seq<u64>): (b: seq<u8>)
    ensures |b| == 8 * |mask|
    ensures forall k | 0 <= k < |b| :: b[k] == LeByte(mask[k / 8], k % 8)
  {
    seq(8 * |mask|, k requires 0 <= k < 8 * |mask| => LeByte(mask[k / 8], k % 8))
  }

  /** Bytes and words stand for the same weights. */
  lemma {:induction false} SameWeights(pos: seq<u64>, neg: seq<u64>)
    requires |pos| == |neg|
    ensures ByteWeights(LeBytes(pos), LeBytes(neg)) == Weights(pos, neg)
  {
    var b, w := ByteWeights(LeBytes(pos), LeBytes(neg)), Weights(pos, neg);
    forall i | 0 <= i < |w| ensures b[i] == w[i] {
      SameWeightAt(pos, i);
      SameWeightAt(neg, i);
    }
  }

  lemma {:induction false} SameWeightAt(mask: seq<u64>, i: nat)
    requires i < 64 * |mask|
    ensures Bit(LeBytes(mask)[i / 8], i % 8) == Bit(mask[i / 64], i % 64)
  {
    assert i / 8 / 8 == i / 64 && 8 * (i / 8 % 8) + i % 8 == i % 64;
  }

  /** The two kernels agree on every row: the same masks, regrouped, and the same activations give the same
      integer. */
  method BothKernels(acts: seq<i8>, pos: seq<u64>, neg: seq<u64>) returns (viaWords: int, viaBytes: int)
    requires |pos| == |neg| && 64 * |pos| <= |acts|
    ensures viaWords == viaBytes == Wrap32(Dot(acts, Weights(pos, neg), 64 * |pos|))
  {
    viaWords := TernaryDot(acts, pos, neg, 64 * |pos|);
    viaBytes := RowSum(acts, LeBytes(pos), LeBytes(neg), 8 * |pos|);
    SameWeights(pos, neg);
  }

  lemma {:induction false} ByteOfRow(mask: seq<u64>, words: nat, start: nat, k: nat)
    requires start + words <= |mask| && k < 8 * words
    ensures LeBytes(mask)[8 * start + k] == LeBytes(mask[start..start + words])[k]
  {
    var at := 8 * start + k;
    assert at / 8 == start + k / 8 && at % 8 == k % 8;
    assert mask[start..start + words][k / 8] == mask[start + k / 8];
  }

  lemma {:induction false} BytesOfRow(mask: seq<u64>, words: nat, start: nat)
    requires start + words <= |mask|
    ensures LeBytes(mask)[8 * start..8 * start + 8 * words] == LeBytes(mask[start..start + words])
  {
    var a, b := LeBytes(mask)[8 * start..8 * start + 8 * words], LeBytes(mask[start..start + words]);
    forall k | 0 <= k < 8 * words ensures a[k] == b[k] {
      ByteOfRow(mask, words, start, k);
    }
  }

  /** Regrouping keeps rows apart: the bytes of a row's words are the row's bytes. */
  lemma {:induction false} RowsStayApart(mask: seq<u64>, words: nat, r: nat, bytes: nat)
    requires r * words + words <= |mask| && bytes == 8 * words
    ensures r * bytes + bytes <= 8 * |mask|
    ensures Chunk(LeBytes(mask), bytes, r) == LeBytes(Chunk(mask, words, r))
  {
    EightRows(r, words, bytes);
    ChunkOfBytes(mask, words, r * words, r * bytes, bytes);
  }

  lemma {:induction false} EightRows(r: nat, words: nat, bytes: nat)
    requires bytes == 8 * words
    ensures r * bytes == 8 * (r * words)
  {
  }

  lemma {:induction false} ChunkOfBytes(mask: seq<u64>, words: nat, start: nat, at: nat, bytes: nat)
    requires start + words <= |mask| && at == 8 * start && bytes == 8 * words
    ensures LeBytes(mask)[at..at + bytes] == LeBytes(mask[start..start + words])
  {
    BytesOfRow(mask, words, start);
  }

  lemma {:induction false} ReadWeightsOf(t: ByteTensor, r: nat, bytes: nat, p: seq<u8>, n: seq<u8>)
    requires Allotted(t) && r < t.rows && bytes == t.cols / 8
    requires r * bytes + bytes <= |t.posMask| && p == Chunk(t.posMask, bytes, r) && n == Chunk(t.negMask, bytes, r)
    ensures ReadWeights(t, r) == ByteWeights(p, n)
  {
  }

  /** On a tensor given in either format, with columns a multiple of 64, both kernels use the same weights for every
      row. */
  lemma {:induction false} TensorsAgree(t: ByteTensor, pos: seq<u64>, neg: seq<u64>, words: nat, r: nat)
    requires Allotted(t) && t.cols == 64 * words && r < t.rows && |pos| == |neg| == t.rows * words
    requires t.posMask == LeBytes(pos) && t.negMask == LeBytes(neg)
    ensures r * words + words <= |pos| && ReadWeights(t, r) == Weights(Chunk(pos, words, r), Chunk(neg, words, r))
  {
    var bytes := 8 * words;
    ChunkFits(t.rows, words, r);
    RowsStayApart(pos, words, r, bytes);
    RowsStayApart(neg, words, r, bytes);
    ReadWeightsOf(t, r, bytes, LeBytes(Chunk(pos, words, r)), LeBytes(Chunk(neg, words, r)));
    SameWeights(Chunk(pos, words, r), Chunk(neg, words, r));
  }
}
