/** The ternary projection: one kernel call and one scale for each row, and when that is the dequantised row
    times the activations. */
module Projection {
  import opened Arithmetic
  import opened Slices
  import opened Word64
  import opened PagePools
  import opened TernaryKernel
  import opened WeightLoader

  /** The scale of the block in which the row starts; 1 if there is none. */
  function RowScale(t: BitmaskTensor, row: nat): real {
    var blockOffset := row * t.colsRaw / Q8_BLOCK_SIZE;
    if blockOffset < |t.scales| then t.scales[blockOffset] else 1.0
  }

  /** The weights of a row, padding included. */
  function RowWeights(t: BitmaskTensor, row: nat): (w: seq<int>)
    requires Laid(t) && row < t.rows
    ensures |w| == t.cols
  {
    ChunkFits(t.rows, t.cols / 64, row);
    Weights(Chunk(t.posMask, t.cols / 64, row), Chunk(t.negMask, t.cols / 64, row))
  }

  function RowDot(x: seq<i8>, t: BitmaskTensor, row: nat): int
    requires Laid(t) && row < t.rows && t.cols <= |x|
  {
    ChunkFits(t.rows, t.cols / 64, row);
    Dot(x, RowWeights(t, row), t.cols)
  }

  /** What the projection returns for a row. */
  function RowOutput(x: seq<i8>, t: BitmaskTensor, row: nat): real
    requires Laid(t) && row < t.rows && t.cols <= |x|
  {
    Times(Wrap32(RowDot(x, t, row)) as real, RowScale(t, row))
  }

  ghost predicate IsScaledMaskDot(x: seq<i8>, pos: seq<u64>, neg: seq<u64>, n: nat, scale: real, y: real) {
    exists r :: IsMaskDot(x, pos, neg, n, r) && y == r as real * scale
  }

  /** `y` is row `row` of the projection: the row's words of both masks against `x`, times the scale of block
      `row * colsRaw / 32`, or 1 when there is no such block. */
  ghost predicate IsRowOutput(x: seq<i8>, t: BitmaskTensor, row: nat, y: real) {
    var words, block := t.cols / 64, row * t.colsRaw / 32;
    var from, end := row * words, row * words + words;
    && end <= |t.posMask| && end <= |t.negMask|
    && IsScaledMaskDot(x, t.posMask[from..end], t.negMask[from..end], t.cols,
                       if block < |t.scales| then t.scales[block] else 1.0, y)
  }

  lemma {:induction false} ScaledDotMeans(x: seq<i8>, pos: seq<u64>, neg: seq<u64>, n: nat, scale: real)
    requires n <= |x| && n <= 64 * |pos| && |pos| == |neg|
    ensures IsScaledMaskDot(x, pos, neg, n, scale, Times(Wrap32(Dot(x, Weights(pos, neg), n)) as real, scale))
  {
    DotMeans(x, pos, neg, n);
  }

  /** A row's output, from the masks and the scales. */
  lemma {:induction false} RowOutputMeans(x: seq<i8>, t: BitmaskTensor, row: nat)
    requires Laid(t) && row < t.rows && t.cols <= |x|
    ensures IsRowOutput(x, t, row, RowOutput(x, t, row))
  {
    var words := t.cols / 64;
    ChunkFits(t.rows, words, row);
    ScaledDotMeans(x, Chunk(t.posMask, words, row), Chunk(t.negMask, words, row), t.cols, RowScale(t, row));
  }

  lemma {:induction false} OutputsMean(x: seq<i8>, t: BitmaskTensor, out: seq<real>)
    requires Laid(t) && |out| <= t.rows && t.cols <= |x|
    requires forall row | 0 <= row < |out| :: out[row] == RowOutput(x, t, row)
    ensures forall row | 0 <= row < |out| :: IsRowOutput(x, t, row, out[row])
  {
    forall row | 0 <= row < |out| ensures IsRowOutput(x, t, row, out[row]) {
      RowOutputMeans(x, t, row);
    }
  }

  /** One row: a kernel call and a scale. */
  method ProjectRow(x: seq<i8>, t: BitmaskTensor, row: nat) returns (y: real)
    requires Laid(t) && row < t.rows && t.cols <= |x|
    ensures y == RowOutput(x, t, row)
  {
    var wordsPerRow := t.cols / 64;
    ChunkFits(t.rows, wordsPerRow, row);
    var rawDot := TernaryDot(x, Chunk(t.posMask, wordsPerRow, row), Chunk(t.negMask, wordsPerRow, row), t.cols);
    y := Times(rawDot as real, RowScale(t, row));
  }

  /** `x` is the activations and whatever follows them in memory, up to the padded width. */
  method TernaryProjI8(x: seq<i8>, t: BitmaskTensor, outDim: nat) returns (out: seq<real>)
    requires Laid(t) && outDim <= t.rows && t.cols <= |x|
    ensures |out| == outDim && forall row | 0 <= row < outDim :: out[row] == RowOutput(x, t, row)
    ensures forall row | 0 <= row < outDim :: IsRowOutput(x, t, row, out[row])
  {
    out := [];
    for row := 0 to outDim
      invariant |out| == row && forall r | 0 <= r < row :: out[r] == RowOutput(x, t, r)
    {
      var y := ProjectRow(x, t, row);
      out := out + [y];
    }
    OutputsMean(x, t, out);
  }

  // ---------- the masks of a row ----------

  function Sgn(w: real): int {
    if w > 0.0 then 1 else if w < 0.0 then -1 else 0
  }

  /** Column `col` of row `row` in the row's own words. */
  lemma {:induction false} RowBit(mask: seq<u64>, rows: nat, cols: nat, row: nat, col: nat)
    requires cols % 64 == 0 && |mask| == rows * (cols / 64) && row < rows && col < cols
    ensures row * (cols / 64) + cols / 64 <= |mask|
    ensures BitPos(cols, row, col) < 64 * |mask|
    ensures MaskBit(Chunk(mask, cols / 64, row), col) == MaskBit(mask, BitPos(cols, row, col))
  {
    var words := cols / 64;
    ChunkFits(rows, words, row);
    WordsForBits(rows, cols);
    BitPosFits(rows, cols, row, col);
    RowWord(row, words, cols, col);
    RowBitAt(mask, words, row, col, BitPos(cols, row, col));
  }

  lemma {:induction false} RowBitAt(mask: seq<u64>, words: nat, row: nat, col: nat, b: nat)
    requires row * words + words <= |mask| && col < 64 * words && b < 64 * |mask|
    requires b / 64 == row * words + col / 64 && b % 64 == col % 64
    ensures MaskBit(Chunk(mask, words, row), col) == MaskBit(mask, b)
  {
    assert Chunk(mask, words, row)[col / 64] == mask[row * words + col / 64];
  }

  lemma {:induction false} RowWord(row: nat, words: nat, cols: nat, col: nat)
    requires cols == 64 * words
    ensures (row * cols + col) / 64 == row * words + col / 64 && (row * cols + col) % 64 == col % 64
  {
    assert row * cols == 64 * (row * words);
  }

  /** The element of a row's column. */
  function ElementOf(colsRaw: nat, row: nat, col: nat): nat {
    row * colsRaw + col
  }

  function WeightAt(blocks: seq<Q8Block>, rows: nat, colsRaw: nat, row: nat, col: nat): real
    requires WholeBlocks(blocks, rows * colsRaw) && row < rows && col < colsRaw
  {
    BitPosFits(rows, colsRaw, row, col);
    WeightOf(blocks, rows * colsRaw, ElementOf(colsRaw, row, col))
  }

  /** The kernel's weight for a column is the sign of the column's weight, and zero in the padding. */
  lemma {:induction false} RowWeight(t: BitmaskTensor, blocks: seq<Q8Block>, rows: nat, colsRaw: nat, row: nat,
                                     col: nat)
    requires WholeBlocks(blocks, rows * colsRaw) && Compiled(t, blocks, rows, colsRaw)
    requires row < rows && col < t.cols
    ensures RowWeights(t, row)[col]
         == if col < colsRaw then Sgn(WeightAt(blocks, rows, colsRaw, row, col)) else 0
  {
    RowBit(t.posMask, rows, t.cols, row, col);
    RowBit(t.negMask, rows, t.cols, row, col);
    MaskMeaning(t, blocks, rows, colsRaw, rows * colsRaw, row, col, BitPos(t.cols, row, col),
      BitPos(colsRaw, row, col));
  }

  // ---------- meaning ----------

  /** The sum of sign times activation over the first `n` columns. */
  function SignDot(blocks: seq<Q8Block>, rows: nat, colsRaw: nat, row: nat, x: seq<i8>, n: nat): int
    requires WholeBlocks(blocks, rows * colsRaw) && row < rows && n <= colsRaw && n <= |x|
  {
    if n == 0 then 0
    else SignDot(blocks, rows, colsRaw, row, x, n - 1) + Sgn(WeightAt(blocks, rows, colsRaw, row, n - 1)) * x[n - 1]
  }

  /** The dequantised row times the activations. */
  function TrueDot(blocks: seq<Q8Block>, rows: nat, colsRaw: nat, row: nat, x: seq<i8>, n: nat): real
    requires WholeBlocks(blocks, rows * colsRaw) && row < rows && n <= colsRaw && n <= |x|
  {
    if n == 0 then 0.0
    else
      TrueDot(blocks, rows, colsRaw, row, x, n - 1)
      + Times(WeightAt(blocks, rows, colsRaw, row, n - 1), x[n - 1] as real)
  }

  lemma {:induction false} KernelPrefix(t: BitmaskTensor, blocks: seq<Q8Block>, rows: nat, colsRaw: nat, row: nat,
                                        x: seq<i8>, n: nat)
    requires WholeBlocks(blocks, rows * colsRaw) && Compiled(t, blocks, rows, colsRaw)
    requires row < rows && n <= colsRaw && t.cols <= |x|
    ensures Dot(x, RowWeights(t, row), n) == SignDot(blocks, rows, colsRaw, row, x, n)
  {
    if n > 0 {
      var last := n - 1;
      KernelPrefix(t, blocks, rows, colsRaw, row, x, last);
      RowWeight(t, blocks, rows, colsRaw, row, last);
      assert Dot(x, RowWeights(t, row), n) == Dot(x, RowWeights(t, row), last) + RowWeights(t, row)[last] * x[last];
    }
  }

  /** The kernel's dot product over the padded width is the scalar one over the real columns, whatever follows the
      activations. */
  lemma {:induction false} PaddedIsScalar(t: BitmaskTensor, blocks: seq<Q8Block>, rows: nat, colsRaw: nat, row: nat,
                                          x: seq<i8>, x': seq<i8>)
    requires WholeBlocks(blocks, rows * colsRaw) && Compiled(t, blocks, rows, colsRaw)
    requires row < rows && t.cols <= |x| && colsRaw <= |x'| && forall i | 0 <= i < colsRaw :: x[i] == x'[i]
    ensures colsRaw <= t.cols && Dot(x, RowWeights(t, row), t.cols) == Dot(x', RowWeights(t, row), colsRaw)
  {
    var w := RowWeights(t, row);
    forall i | colsRaw <= i < t.cols ensures w[i] == 0 {
      RowWeight(t, blocks, rows, colsRaw, row, i);
    }
    PaddingAddsNothing(x, x', w, colsRaw, t.cols);
  }

  /** The kernel over the padded width computes the sign dot product over the real columns. */
  lemma {:induction false} KernelIsSignDot(t: BitmaskTensor, blocks: seq<Q8Block>, rows: nat, colsRaw: nat, row: nat,
                                           x: seq<i8>)
    requires WholeBlocks(blocks, rows * colsRaw) && Compiled(t, blocks, rows, colsRaw)
    requires row < rows && t.cols <= |x|
    ensures RowDot(x, t, row) == SignDot(blocks, rows, colsRaw, row, x, colsRaw)
  {
    PaddedIsScalar(t, blocks, rows, colsRaw, row, x, x);
    KernelPrefix(t, blocks, rows, colsRaw, row, x, colsRaw);
  }

  /** Every weight of the row is zero or as large as the row's scale. */
  ghost predicate OneScale(t: BitmaskTensor, blocks: seq<Q8Block>, rows: nat, colsRaw: nat, row: nat)
    requires WholeBlocks(blocks, rows * colsRaw) && row < rows
  {
    forall col: nat | col < colsRaw :: FitsScale(WeightAt(blocks, rows, colsRaw, row, col), RowScale(t, row))
  }

  predicate FitsScale(w: real, scale: real) {
    w == 0.0 || (if w > 0.0 then w else -w) == scale
  }

  lemma {:induction false} ScaledTerm(w: real, scale: real, a: int)
    requires FitsScale(w, scale)
    ensures Times((Sgn(w) * a) as real, scale) == Times(w, a as real)
  {
  }

  lemma {:induction false} ScaledDot(t: BitmaskTensor, blocks: seq<Q8Block>, rows: nat, colsRaw: nat, row: nat,
                                     x: seq<i8>, n: nat)
    requires WholeBlocks(blocks, rows * colsRaw) && row < rows && n <= colsRaw && n <= |x|
    requires OneScale(t, blocks, rows, colsRaw, row)
    ensures Times(SignDot(blocks, rows, colsRaw, row, x, n) as real, RowScale(t, row))
        == TrueDot(blocks, rows, colsRaw, row, x, n)
  {
    if n > 0 {
      ScaledDot(t, blocks, rows, colsRaw, row, x, n - 1);
      var w := WeightAt(blocks, rows, colsRaw, row, n - 1);
      assert FitsScale(w, RowScale(t, row));
      ScaledTerm(w, RowScale(t, row), x[n - 1]);
      TimesAdd(SignDot(blocks, rows, colsRaw, row, x, n - 1) as real, (Sgn(w) * x[n - 1]) as real, RowScale(t, row));
    }
  }

  /** The activations that are 1 at one column and 0 elsewhere. */
  function Unit(size: nat, col: nat): (x: seq<i8>)
    ensures |x| == size && forall i | 0 <= i < size :: x[i] == if i == col then 1 else 0
  {
    seq(size, i => if i == col then 1 else 0)
  }

  lemma {:induction false} UnitDots(blocks: seq<Q8Block>, rows: nat, colsRaw: nat, row: nat, size: nat, col: nat,
                                    n: nat)
    requires WholeBlocks(blocks, rows * colsRaw) && row < rows && n <= colsRaw <= size && col < colsRaw
    ensures SignDot(blocks, rows, colsRaw, row, Unit(size, col), n) == if col < n
        then Sgn(WeightAt(blocks, rows, colsRaw, row, col)) else 0
    ensures TrueDot(blocks, rows, colsRaw, row, Unit(size, col), n) == if col < n
        then WeightAt(blocks, rows, colsRaw, row, col) else 0.0
  {
    if n > 0 {
      UnitDots(blocks, rows, colsRaw, row, size, col, n - 1);
    }
  }

  /** The row's output is the true dot product for all activations. */
  ghost predicate RowExact(t: BitmaskTensor, blocks: seq<Q8Block>, rows: nat, colsRaw: nat, row: nat)
    requires WholeBlocks(blocks, rows * colsRaw) && Compiled(t, blocks, rows, colsRaw) && row < rows
  {
    forall x: seq<i8> | t.cols <= |x| :: RowOutput(x, t, row) == TrueDot(blocks, rows, colsRaw, row, x, colsRaw)
  }

  lemma {:induction false} RowOutputIs(t: BitmaskTensor, blocks: seq<Q8Block>, rows: nat, colsRaw: nat, row: nat,
                                       x: seq<i8>)
    requires WholeBlocks(blocks, rows * colsRaw) && Compiled(t, blocks, rows, colsRaw)
    requires row < rows && t.cols <= |x|
    ensures RowOutput(x, t, row)
        == Times(Wrap32(SignDot(blocks, rows, colsRaw, row, x, colsRaw)) as real, RowScale(t, row))
  {
    KernelIsSignDot(t, blocks, rows, colsRaw, row, x);
  }

  // ---------- range ----------

  /** The largest sum of sign times activation over the first `n` columns. */
  function Highest(blocks: seq<Q8Block>, rows: nat, colsRaw: nat, row: nat, n: nat): nat
    requires WholeBlocks(blocks, rows * colsRaw) && row < rows && n <= colsRaw
  {
    if n == 0 then 0
    else
      var s := Sgn(WeightAt(blocks, rows, colsRaw, row, n - 1));
      Highest(blocks, rows, colsRaw, row, n - 1) + if s > 0 then 127 else if s < 0 then 128 else 0
  }

  /** The smallest such sum is its negation. */
  function Lowest(blocks: seq<Q8Block>, rows: nat, colsRaw: nat, row: nat, n: nat): nat
    requires WholeBlocks(blocks, rows * colsRaw) && row < rows && n <= colsRaw
  {
    if n == 0 then 0
    else
      var s := Sgn(WeightAt(blocks, rows, colsRaw, row, n - 1));
      Lowest(blocks, rows, colsRaw, row, n - 1) + if s > 0 then 128 else if s < 0 then 127 else 0
  }

  /** No activations take the row's sum out of 32 bits. */
  predicate RowFits(blocks: seq<Q8Block>, rows: nat, colsRaw: nat, row: nat)
    requires WholeBlocks(blocks, rows * colsRaw) && row < rows
  {
    Highest(blocks, rows, colsRaw, row, colsRaw) < TWO31 && Lowest(blocks, rows, colsRaw, row, colsRaw) <= TWO31
  }

  lemma {:induction false} SignDotBetween(blocks: seq<Q8Block>, rows: nat, colsRaw: nat, row: nat, x: seq<i8>, n: nat)
    requires WholeBlocks(blocks, rows * colsRaw) && row < rows && n <= colsRaw && n <= |x|
    ensures -(Lowest(blocks, rows, colsRaw, row, n) as int) <= SignDot(blocks, rows, colsRaw, row, x, n)
    ensures SignDot(blocks, rows, colsRaw, row, x, n) <= Highest(blocks, rows, colsRaw, row, n)
  {
    if n > 0 {
      SignDotBetween(blocks, rows, colsRaw, row, x, n - 1);
    }
  }

  /** Fewer than 2^24 columns always fit. */
  lemma {:induction false} FewColumnsFit(blocks: seq<Q8Block>, rows: nat, colsRaw: nat, row: nat, n: nat)
    requires WholeBlocks(blocks, rows * colsRaw) && row < rows && n <= colsRaw
    ensures Highest(blocks, rows, colsRaw, row, n) <= 128 * n && Lowest(blocks, rows, colsRaw, row, n) <= 128 * n
    ensures n == colsRaw < 0x100_0000 ==> RowFits(blocks, rows, colsRaw, row)
  {
    if n > 0 {
      FewColumnsFit(blocks, rows, colsRaw, row, n - 1);
    }
  }

  /** The activation that takes a weight of sign `s` furthest up, or down. */
  function Extreme(s: int, up: bool): i8 {
    if s == 0 then 0 else if (s > 0) == up then 127 else -128
  }

  /** Activations that reach the largest sum, or the smallest. */
  function ExtremeInput(blocks: seq<Q8Block>, rows: nat, colsRaw: nat, row: nat, size: nat, up: bool): (x: seq<i8>)
    requires WholeBlocks(blocks, rows * colsRaw) && row < rows && colsRaw <= size
    ensures |x| == size
    ensures forall i: nat | i < colsRaw :: x[i] == Extreme(Sgn(WeightAt(blocks, rows, colsRaw, row, i)), up)
  {
    seq(size, i requires 0 <= i < size => if i < colsRaw then Extreme(Sgn(WeightAt(blocks, rows, colsRaw, row, i)), up)
      else 0)
  }

  lemma {:induction false} ExtremeReached(blocks: seq<Q8Block>, rows: nat, colsRaw: nat, row: nat, x: seq<i8>,
                                          up: bool, n: nat)
    requires WholeBlocks(blocks, rows * colsRaw) && row < rows && n <= colsRaw <= |x|
    requires x == ExtremeInput(blocks, rows, colsRaw, row, |x|, up)
    ensures SignDot(blocks, rows, colsRaw, row, x, n)
         == if up then Highest(blocks, rows, colsRaw, row, n) else -(Lowest(blocks, rows, colsRaw, row, n) as int)
  {
    if n > 0 {
      ExtremeReached(blocks, rows, colsRaw, row, x, up, n - 1);
    }
  }

  /** With scale zero the row is zero. */
  lemma {:induction false} ZeroScale(t: BitmaskTensor, blocks: seq<Q8Block>, rows: nat, colsRaw: nat, row: nat, n: nat)
    requires WholeBlocks(blocks, rows * colsRaw) && row < rows && n <= colsRaw
    requires OneScale(t, blocks, rows, colsRaw, row) && RowScale(t, row) == 0.0
    ensures Highest(blocks, rows, colsRaw, row, n) == Lowest(blocks, rows, colsRaw, row, n) == 0
  {
    if n > 0 {
      ZeroScale(t, blocks, rows, colsRaw, row, n - 1);
      assert FitsScale(WeightAt(blocks, rows, colsRaw, row, n - 1), RowScale(t, row));
    }
  }

  // ---------- when a row is exact ----------

  /** Weights of one scale and a sum that fits: the row is exact. */
  lemma {:induction false} FittingRowExact(t: BitmaskTensor, blocks: seq<Q8Block>, rows: nat, colsRaw: nat, row: nat)
    requires WholeBlocks(blocks, rows * colsRaw) && Compiled(t, blocks, rows, colsRaw) && row < rows
    requires OneScale(t, blocks, rows, colsRaw, row) && RowFits(blocks, rows, colsRaw, row)
    ensures RowExact(t, blocks, rows, colsRaw, row)
  {
    forall x: seq<i8> | t.cols <= |x| ensures RowOutput(x, t, row) == TrueDot(blocks, rows, colsRaw, row, x, colsRaw) {
      RowOutputIs(t, blocks, rows, colsRaw, row, x);
      SignDotBetween(blocks, rows, colsRaw, row, x, colsRaw);
      ScaledDot(t, blocks, rows, colsRaw, row, x, colsRaw);
    }
  }

  lemma {:induction false} ExactRowHasOneScale(t: BitmaskTensor, blocks: seq<Q8Block>, rows: nat, colsRaw: nat,
                                               row: nat)
    requires WholeBlocks(blocks, rows * colsRaw) && Compiled(t, blocks, rows, colsRaw) && row < rows
    requires RowExact(t, blocks, rows, colsRaw, row)
    ensures OneScale(t, blocks, rows, colsRaw, row)
  {
    forall col: nat | col < colsRaw ensures FitsScale(WeightAt(blocks, rows, colsRaw, row, col), RowScale(t, row)) {
      var x := Unit(t.cols, col);
      RowOutputIs(t, blocks, rows, colsRaw, row, x);
      UnitDots(blocks, rows, colsRaw, row, t.cols, col, colsRaw);
      assert RowOutput(x, t, row) == TrueDot(blocks, rows, colsRaw, row, x, colsRaw);
      SignTimesScale(WeightAt(blocks, rows, colsRaw, row, col), RowScale(t, row));
    }
  }

  lemma {:induction false} SameProduct(a: int, b: int, scale: real)
    requires Times(a as real, scale) == Times(b as real, scale) && scale != 0.0
    ensures a == b
  {
  }

  /** The sums of an exact row stay as they are in 32 bits. */
  lemma {:induction false} ExactSumFits(t: BitmaskTensor, blocks: seq<Q8Block>, rows: nat, colsRaw: nat, row: nat,
                                        up: bool)
    requires WholeBlocks(blocks, rows * colsRaw) && Compiled(t, blocks, rows, colsRaw) && row < rows
    requires RowExact(t, blocks, rows, colsRaw, row) && OneScale(t, blocks, rows, colsRaw, row)
    ensures if up then Highest(blocks, rows, colsRaw, row, colsRaw) < TWO31
        else Lowest(blocks, rows, colsRaw, row, colsRaw) <= TWO31
  {
    if RowScale(t, row) == 0.0 {
      ZeroScale(t, blocks, rows, colsRaw, row, colsRaw);
    } else {
      var x := ExtremeInput(blocks, rows, colsRaw, row, t.cols, up);
      ExtremeReached(blocks, rows, colsRaw, row, x, up, colsRaw);
      RowOutputIs(t, blocks, rows, colsRaw, row, x);
      ScaledDot(t, blocks, rows, colsRaw, row, x, colsRaw);
      assert RowOutput(x, t, row) == TrueDot(blocks, rows, colsRaw, row, x, colsRaw);
      var sum := SignDot(blocks, rows, colsRaw, row, x, colsRaw);
      SameProduct(Wrap32(sum), sum, RowScale(t, row));
    }
  }

  /** Compiling a row preserves its meaning, for all activations, exactly when every weight of the row is zero or
      as large as the scale of the block in which the row starts, and the row's sums fit in 32 bits. */
  lemma {:induction false} ExactIffOneScale(t: BitmaskTensor, blocks: seq<Q8Block>, rows: nat, colsRaw: nat, row: nat)
    requires WholeBlocks(blocks, rows * colsRaw) && Compiled(t, blocks, rows, colsRaw) && row < rows
    ensures RowExact(t, blocks, rows, colsRaw, row)
        <==> OneScale(t, blocks, rows, colsRaw, row) && RowFits(blocks, rows, colsRaw, row)
  {
    if OneScale(t, blocks, rows, colsRaw, row) && RowFits(blocks, rows, colsRaw, row) {
      FittingRowExact(t, blocks, rows, colsRaw, row);
    }
    if RowExact(t, blocks, rows, colsRaw, row) {
      ExactRowHasOneScale(t, blocks, rows, colsRaw, row);
      ExactSumFits(t, blocks, rows, colsRaw, row, true);
      ExactSumFits(t, blocks, rows, colsRaw, row, false);
    }
  }

  lemma {:induction false} SignTimesScale(w: real, scale: real)
    requires Times(Sgn(w) as real, scale) == w
    ensures FitsScale(w, scale)
  {
  }

  /** Quants in {-1, 0, 1} and one non-negative delta for all blocks a row touches: the row is exact as soon as its
      sums fit, even when its first block is shared with the row before. */
  lemma {:induction false} TernaryRowsExact(t: BitmaskTensor, blocks: seq<Q8Block>, rows: nat, colsRaw: nat, row: nat,
                                            delta: real)
    requires WholeBlocks(blocks, rows * colsRaw) && Compiled(t, blocks, rows, colsRaw)
    requires row < rows && 0 < colsRaw && delta >= 0.0
    requires forall col: nat | col < colsRaw :: IsTernary(blocks, rows, colsRaw, row, col, delta)
    ensures RowExact(t, blocks, rows, colsRaw, row) <==> RowFits(blocks, rows, colsRaw, row)
  {
    BitPosFits(rows, colsRaw, row, 0);
    assert IsTernary(blocks, rows, colsRaw, row, 0, delta);
    assert RowScale(t, row) == delta;
    forall col: nat | col < colsRaw ensures FitsScale(WeightAt(blocks, rows, colsRaw, row, col), delta) {
      BitPosFits(rows, colsRaw, row, col);
      assert IsTernary(blocks, rows, colsRaw, row, col, delta);
      var e := ElementOf(colsRaw, row, col);
      TernaryWeight(delta, blocks[e / Q8_BLOCK_SIZE].quants[e % Q8_BLOCK_SIZE]);
    }
    ExactIffOneScale(t, blocks, rows, colsRaw, row);
  }

  lemma {:induction false} TernaryWeight(delta: real, q: int)
    requires delta >= 0.0 && -1 <= q <= 1
    ensures FitsScale(delta * q as real, delta)
  {
    if q == 1 {
      assert delta * q as real == delta;
    } else if q == -1 {
      assert delta * q as real == -delta;
    } else {
      assert delta * q as real == 0.0;
    }
  }

  /** The quant of a row's column, and the delta of its block. */
  predicate IsTernary(blocks: seq<Q8Block>, rows: nat, colsRaw: nat, row: nat, col: nat, delta: real)
    requires WholeBlocks(blocks, rows * colsRaw) && row < rows && col < colsRaw
  {
    BitPosFits(rows, colsRaw, row, col);
    var e := ElementOf(colsRaw, row, col);
    blocks[e / Q8_BLOCK_SIZE].delta == delta && -1 <= blocks[e / Q8_BLOCK_SIZE].quants[e % Q8_BLOCK_SIZE] <= 1
  }
}
