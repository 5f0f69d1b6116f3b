/** What a compiled row computes, from the deltas and quants of its blocks alone. */
module TernaryRows {
  import opened Arithmetic
  import opened PagePools
  import opened TernaryKernel
  import opened WeightLoader
  import opened Projection

  // ---------- the sum of signs ----------

  /** Element `e` is quant `e % 32` of block `e / 32`: `y` is `a` when delta and quant have one sign, `-a` when they
      have two, and 0 when either is 0. */
  predicate IsSigned(blocks: seq<Q8Block>, e: nat, a: int, y: int) {
    && e / 32 < |blocks| && e % 32 < |blocks[e / 32].quants|
    && var delta, q := blocks[e / 32].delta, blocks[e / 32].quants[e % 32];
       y == if SameSign(delta, q) then a else if OppositeSign(delta, q) then -a else 0
  }

  predicate IsSignTerm(blocks: seq<Q8Block>, colsRaw: nat, row: nat, x: seq<i8>, xs: seq<int>, col: nat) {
    col < |xs| && col < |x| && IsSigned(blocks, row * colsRaw + col, x[col], xs[col])
  }

  ghost predicate IsSignSum(blocks: seq<Q8Block>, colsRaw: nat, row: nat, x: seq<i8>, total: int) {
    exists xs: seq<int> ::
      && |xs| == colsRaw && total == SumInts(xs)
      && forall col: nat | col < colsRaw :: IsSignTerm(blocks, colsRaw, row, x, xs, col)
  }

  /** `y` is `r` times the delta of the block in which the row starts. */
  predicate IsScaled(blocks: seq<Q8Block>, colsRaw: nat, row: nat, r: int, y: real) {
    y == r as real * if row * colsRaw / 32 < |blocks| then blocks[row * colsRaw / 32].delta else 1.0
  }

  /** `y` is the sum of signs as a 32-bit integer, times that delta. */
  ghost predicate IsSignOutput(blocks: seq<Q8Block>, colsRaw: nat, row: nat, x: seq<i8>, y: real) {
    exists total, r ::
      IsSignSum(blocks, colsRaw, row, x, total) && IsI32Of(total, r) && IsScaled(blocks, colsRaw, row, r, y)
  }

  function SignTerms(blocks: seq<Q8Block>, rows: nat, colsRaw: nat, row: nat, x: seq<i8>): (xs: seq<int>)
    requires WholeBlocks(blocks, rows * colsRaw) && row < rows && colsRaw <= |x|
    ensures |xs| == colsRaw
    ensures forall col: nat | col < colsRaw :: xs[col] == Sgn(WeightAt(blocks, rows, colsRaw, row, col)) * x[col]
  {
    seq(colsRaw, col requires 0 <= col < colsRaw => Sgn(WeightAt(blocks, rows, colsRaw, row, col)) * x[col])
  }

  lemma {:induction false} SignDotIsSum(blocks: seq<Q8Block>, rows: nat, colsRaw: nat, row: nat, x: seq<i8>, n: nat)
    requires WholeBlocks(blocks, rows * colsRaw) && row < rows && n <= colsRaw <= |x|
    ensures SignDot(blocks, rows, colsRaw, row, x, n) == SumInts(SignTerms(blocks, rows, colsRaw, row, x)[..n])
  {
    if n > 0 {
      var xs := SignTerms(blocks, rows, colsRaw, row, x);
      SignDotIsSum(blocks, rows, colsRaw, row, x, n - 1);
      assert xs[..n][..n - 1] == xs[..n - 1];
    }
  }

  lemma {:induction false} SignOf(w: real, a: int, delta: real, q: int)
    requires w > 0.0 <==> SameSign(delta, q)
    requires w < 0.0 <==> OppositeSign(delta, q)
    ensures Sgn(w) * a == if SameSign(delta, q) then a else if OppositeSign(delta, q) then -a else 0
  {
  }

  lemma {:induction false} SignTermMeans(blocks: seq<Q8Block>, rows: nat, colsRaw: nat, row: nat, x: seq<i8>, col: nat)
    requires WholeBlocks(blocks, rows * colsRaw) && row < rows && col < colsRaw <= |x|
    ensures IsSignTerm(blocks, colsRaw, row, x, SignTerms(blocks, rows, colsRaw, row, x), col)
  {
    var e := row * colsRaw + col;
    BitPosFits(rows, colsRaw, row, col);
    WeightSign(blocks, rows * colsRaw, e);
    SignOf(WeightAt(blocks, rows, colsRaw, row, col), x[col], blocks[e / 32].delta, blocks[e / 32].quants[e % 32]);
  }

  lemma {:induction false} SignDotMeans(blocks: seq<Q8Block>, rows: nat, colsRaw: nat, row: nat, x: seq<i8>)
    requires WholeBlocks(blocks, rows * colsRaw) && row < rows && colsRaw <= |x|
    ensures IsSignSum(blocks, colsRaw, row, x, SignDot(blocks, rows, colsRaw, row, x, colsRaw))
  {
    var xs := SignTerms(blocks, rows, colsRaw, row, x);
    SignDotIsSum(blocks, rows, colsRaw, row, x, colsRaw);
    assert xs[..colsRaw] == xs;
    forall col: nat | col < colsRaw ensures IsSignTerm(blocks, colsRaw, row, x, xs, col) {
      SignTermMeans(blocks, rows, colsRaw, row, x, col);
    }
  }

  lemma {:induction false} ScaleMeans(t: BitmaskTensor, blocks: seq<Q8Block>, rows: nat, colsRaw: nat, row: nat, r: int)
    requires WholeBlocks(blocks, rows * colsRaw) && Compiled(t, blocks, rows, colsRaw)
    ensures IsScaled(blocks, colsRaw, row, r, Times(r as real, RowScale(t, row)))
  {
  }

  /** A compiled row's output. */
  lemma {:induction false} SignOutputMeans(t: BitmaskTensor, blocks: seq<Q8Block>, rows: nat, colsRaw: nat, row: nat,
                                           x: seq<i8>)
    requires WholeBlocks(blocks, rows * colsRaw) && Compiled(t, blocks, rows, colsRaw)
    requires row < rows && t.cols <= |x|
    ensures IsSignOutput(blocks, colsRaw, row, x, RowOutput(x, t, row))
  {
    var total := SignDot(blocks, rows, colsRaw, row, x, colsRaw);
    RowOutputIs(t, blocks, rows, colsRaw, row, x);
    SignDotMeans(blocks, rows, colsRaw, row, x);
    WrapMeans(total);
    ScaleMeans(t, blocks, rows, colsRaw, row, Wrap32(total));
  }

  // ---------- the true sum ----------

  /** `y` is delta times quant times `a`. */
  predicate IsDequantised(blocks: seq<Q8Block>, e: nat, a: int, y: real) {
    && e / 32 < |blocks| && e % 32 < |blocks[e / 32].quants|
    && y == blocks[e / 32].delta * blocks[e / 32].quants[e % 32] as real * a as real
  }

  predicate IsTrueTerm(blocks: seq<Q8Block>, colsRaw: nat, row: nat, x: seq<i8>, xs: seq<real>, col: nat) {
    col < |xs| && col < |x| && IsDequantised(blocks, row * colsRaw + col, x[col], xs[col])
  }

  ghost predicate IsTrueSum(blocks: seq<Q8Block>, colsRaw: nat, row: nat, x: seq<i8>, y: real) {
    exists xs: seq<real> ::
      && |xs| == colsRaw && y == SumReals(xs)
      && forall col: nat | col < colsRaw :: IsTrueTerm(blocks, colsRaw, row, x, xs, col)
  }

  function TrueTerms(blocks: seq<Q8Block>, rows: nat, colsRaw: nat, row: nat, x: seq<i8>): (xs: seq<real>)
    requires WholeBlocks(blocks, rows * colsRaw) && row < rows && colsRaw <= |x|
    ensures |xs| == colsRaw
    ensures forall col: nat | col < colsRaw ::
        xs[col] == Times(WeightAt(blocks, rows, colsRaw, row, col), x[col] as real)
  {
    seq(colsRaw, col requires 0 <= col < colsRaw => Times(WeightAt(blocks, rows, colsRaw, row, col), x[col] as real))
  }

  lemma {:induction false} TrueDotIsSum(blocks: seq<Q8Block>, rows: nat, colsRaw: nat, row: nat, x: seq<i8>, n: nat)
    requires WholeBlocks(blocks, rows * colsRaw) && row < rows && n <= colsRaw <= |x|
    ensures TrueDot(blocks, rows, colsRaw, row, x, n) == SumReals(TrueTerms(blocks, rows, colsRaw, row, x)[..n])
  {
    if n > 0 {
      var xs := TrueTerms(blocks, rows, colsRaw, row, x);
      TrueDotIsSum(blocks, rows, colsRaw, row, x, n - 1);
      assert xs[..n][..n - 1] == xs[..n - 1];
    }
  }

  lemma {:induction false} Dequantise(blocks: seq<Q8Block>, elements: nat, e: nat, a: int)
    requires WholeBlocks(blocks, elements) && e < elements
    ensures IsDequantised(blocks, e, a, Times(WeightOf(blocks, elements, e), a as real))
  {
  }

  lemma {:induction false} TrueTermMeans(blocks: seq<Q8Block>, rows: nat, colsRaw: nat, row: nat, x: seq<i8>, col: nat)
    requires WholeBlocks(blocks, rows * colsRaw) && row < rows && col < colsRaw <= |x|
    ensures IsTrueTerm(blocks, colsRaw, row, x, TrueTerms(blocks, rows, colsRaw, row, x), col)
  {
    var e := row * colsRaw + col;
    BitPosFits(rows, colsRaw, row, col);
    WeightSign(blocks, rows * colsRaw, e);
    Dequantise(blocks, rows * colsRaw, e, x[col]);
  }

  /** What exactness compares a row with: the sum of delta times quant times activation. */
  lemma {:induction false} TrueDotMeans(blocks: seq<Q8Block>, rows: nat, colsRaw: nat, row: nat, x: seq<i8>)
    requires WholeBlocks(blocks, rows * colsRaw) && row < rows && colsRaw <= |x|
    ensures IsTrueSum(blocks, colsRaw, row, x, TrueDot(blocks, rows, colsRaw, row, x, colsRaw))
  {
    var xs := TrueTerms(blocks, rows, colsRaw, row, x);
    TrueDotIsSum(blocks, rows, colsRaw, row, x, colsRaw);
    assert xs[..colsRaw] == xs;
    forall col: nat | col < colsRaw ensures IsTrueTerm(blocks, colsRaw, row, x, xs, col) {
      TrueTermMeans(blocks, rows, colsRaw, row, x, col);
    }
  }

  // ---------- rows of ternary quants ----------

  /** Element `e` has quant -1, 0 or 1, in a block of the given delta. */
  predicate IsTernaryQuant(blocks: seq<Q8Block>, e: nat, delta: real) {
    && e / 32 < |blocks| && e % 32 < |blocks[e / 32].quants|
    && blocks[e / 32].delta == delta && -1 <= blocks[e / 32].quants[e % 32] <= 1
  }

  predicate IsTernaryColumn(blocks: seq<Q8Block>, colsRaw: nat, row: nat, col: nat, delta: real) {
    IsTernaryQuant(blocks, row * colsRaw + col, delta)
  }

  ghost predicate TernaryQuants(blocks: seq<Q8Block>, colsRaw: nat, row: nat, delta: real) {
    forall col: nat | col < colsRaw :: IsTernaryColumn(blocks, colsRaw, row, col, delta)
  }

  /** `y` is the quant of element `e` times `a`. */
  predicate IsQuantTimes(blocks: seq<Q8Block>, e: nat, a: int, y: int) {
    e / 32 < |blocks| && e % 32 < |blocks[e / 32].quants| && y == blocks[e / 32].quants[e % 32] * a
  }

  predicate IsQuantTerm(blocks: seq<Q8Block>, colsRaw: nat, row: nat, x: seq<i8>, xs: seq<int>, col: nat) {
    col < |xs| && col < |x| && IsQuantTimes(blocks, row * colsRaw + col, x[col], xs[col])
  }

  /** `total` is the sum of the row's quants times the activations. */
  ghost predicate IsQuantSum(blocks: seq<Q8Block>, colsRaw: nat, row: nat, x: seq<i8>, total: int) {
    exists xs: seq<int> ::
      && |xs| == colsRaw && total == SumInts(xs)
      && forall col: nat | col < colsRaw :: IsQuantTerm(blocks, colsRaw, row, x, xs, col)
  }

  /** With quants in {-1, 0, 1} and a positive delta, the sign is the quant. */
  lemma {:induction false} SignIsQuant(blocks: seq<Q8Block>, e: nat, delta: real, a: int, y: int)
    requires IsTernaryQuant(blocks, e, delta) && delta > 0.0 && IsSigned(blocks, e, a, y)
    ensures IsQuantTimes(blocks, e, a, y)
  {
    var q := blocks[e / 32].quants[e % 32];
    assert q == -1 || q == 0 || q == 1;
  }

  lemma {:induction false} SignSumIsQuantSum(blocks: seq<Q8Block>, colsRaw: nat, row: nat, x: seq<i8>, delta: real,
                                             total: int)
    requires TernaryQuants(blocks, colsRaw, row, delta) && delta > 0.0 && IsSignSum(blocks, colsRaw, row, x, total)
    ensures IsQuantSum(blocks, colsRaw, row, x, total)
  {
    var xs: seq<int> :| |xs| == colsRaw && total == SumInts(xs)
      && forall col: nat | col < colsRaw :: IsSignTerm(blocks, colsRaw, row, x, xs, col);
    forall col: nat | col < colsRaw ensures IsQuantTerm(blocks, colsRaw, row, x, xs, col) {
      assert IsTernaryColumn(blocks, colsRaw, row, col, delta) && IsSignTerm(blocks, colsRaw, row, x, xs, col);
      SignIsQuant(blocks, row * colsRaw + col, delta, x[col], xs[col]);
    }
  }

  lemma {:induction false} QuantTimesUnique(blocks: seq<Q8Block>, e: nat, a: int, y: int, y': int)
    requires IsQuantTimes(blocks, e, a, y) && IsQuantTimes(blocks, e, a, y')
    ensures y == y'
  {
  }

  /** A row has one such sum. */
  lemma {:induction false} QuantSumUnique(blocks: seq<Q8Block>, colsRaw: nat, row: nat, x: seq<i8>, total: int,
                                          total': int)
    requires IsQuantSum(blocks, colsRaw, row, x, total) && IsQuantSum(blocks, colsRaw, row, x, total')
    ensures total == total'
  {
    var xs: seq<int> :| |xs| == colsRaw && total == SumInts(xs)
      && forall col: nat | col < colsRaw :: IsQuantTerm(blocks, colsRaw, row, x, xs, col);
    var ys: seq<int> :| |ys| == colsRaw && total' == SumInts(ys)
      && forall col: nat | col < colsRaw :: IsQuantTerm(blocks, colsRaw, row, x, ys, col);
    forall col: nat | col < colsRaw ensures xs[col] == ys[col] {
      assert IsQuantTerm(blocks, colsRaw, row, x, xs, col) && IsQuantTerm(blocks, colsRaw, row, x, ys, col);
      QuantTimesUnique(blocks, row * colsRaw + col, x[col], xs[col], ys[col]);
    }
    assert xs == ys;
  }

  lemma {:induction false} ScaleIsDelta(t: BitmaskTensor, blocks: seq<Q8Block>, rows: nat, colsRaw: nat, row: nat,
                                        delta: real)
    requires WholeBlocks(blocks, rows * colsRaw) && Compiled(t, blocks, rows, colsRaw) && row < rows && 0 < colsRaw
    requires TernaryQuants(blocks, colsRaw, row, delta)
    ensures RowScale(t, row) == delta
  {
    BitPosFits(rows, colsRaw, row, 0);
    assert IsTernaryColumn(blocks, colsRaw, row, 0, delta);
  }

  lemma {:induction false} ScaledSame(total: int, delta: real)
    requires delta >= 0.0
    ensures Times(Wrap32(total) as real, delta) == delta * total as real
        <==> delta == 0.0 || -0x8000_0000 <= total < 0x8000_0000
  {
    if delta != 0.0 && Times(Wrap32(total) as real, delta) == delta * total as real {
      assert Times(total as real, delta) == delta * total as real;
      SameProduct(Wrap32(total), total, delta);
    }
  }

  lemma {:induction false} QuantSumIsSignDot(blocks: seq<Q8Block>, rows: nat, colsRaw: nat, row: nat, x: seq<i8>,
                                              delta: real, total: int)
    requires WholeBlocks(blocks, rows * colsRaw) && row < rows && colsRaw <= |x| && delta > 0.0
    requires TernaryQuants(blocks, colsRaw, row, delta) && IsQuantSum(blocks, colsRaw, row, x, total)
    ensures SignDot(blocks, rows, colsRaw, row, x, colsRaw) == total
    ensures RowFits(blocks, rows, colsRaw, row) ==> -0x8000_0000 <= total < 0x8000_0000
  {
    var sum := SignDot(blocks, rows, colsRaw, row, x, colsRaw);
    SignDotMeans(blocks, rows, colsRaw, row, x);
    SignSumIsQuantSum(blocks, colsRaw, row, x, delta, sum);
    QuantSumUnique(blocks, colsRaw, row, x, total, sum);
    SignDotBetween(blocks, rows, colsRaw, row, x, colsRaw);
  }

  /** Quants in {-1, 0, 1} under one non-negative delta: the output is delta times the sum of quants times
      activations exactly when that sum is a 32-bit integer, or delta is 0. */
  lemma {:induction false} TernaryRowOutput(t: BitmaskTensor, blocks: seq<Q8Block>, rows: nat, colsRaw: nat, row: nat,
                                            x: seq<i8>, delta: real, total: int)
    requires WholeBlocks(blocks, rows * colsRaw) && Compiled(t, blocks, rows, colsRaw)
    requires row < rows && 0 < colsRaw && t.cols <= |x| && delta >= 0.0
    requires TernaryQuants(blocks, colsRaw, row, delta) && IsQuantSum(blocks, colsRaw, row, x, total)
    ensures RowOutput(x, t, row) == delta * total as real
        <==> delta == 0.0 || -0x8000_0000 <= total < 0x8000_0000
    ensures RowFits(blocks, rows, colsRaw, row) ==> RowOutput(x, t, row) == delta * total as real
  {
    RowOutputIs(t, blocks, rows, colsRaw, row, x);
    ScaleIsDelta(t, blocks, rows, colsRaw, row, delta);
    if delta > 0.0 {
      QuantSumIsSignDot(blocks, rows, colsRaw, row, x, delta, total);
    }
    ScaledSame(total, delta);
  }
}
