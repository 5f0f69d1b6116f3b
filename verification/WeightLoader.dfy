/** Compiling Q8_0 blocks to ternary bitmasks: one bit for each positive weight and one for each negative
    weight, rows padded to whole words, and one scale for each block. */
module WeightLoader {
  import opened Arithmetic
  import opened Word64
  import opened PagePools

  const Q8_BLOCK_SIZE: nat := 32

  /** A block with its scale decoded. */
  datatype Q8Block = Q8Block(delta: real, quants: seq<i8>)

  datatype BitmaskTensor = BitmaskTensor(
    rows: nat,
    cols: nat,
    colsRaw: nat,
    posMask: seq<u64>,
    negMask: seq<u64>,
    scales: seq<real>)

  function BlocksFor(elements: nat): nat {
    (elements + Q8_BLOCK_SIZE - 1) / Q8_BLOCK_SIZE
  }

  predicate WholeBlocks(blocks: seq<Q8Block>, elements: nat) {
    |blocks| == BlocksFor(elements) && forall i | 0 <= i < |blocks| :: |blocks[i].quants| == Q8_BLOCK_SIZE
  }

  /** The dequantised weight of element `e`. */
  function WeightOf(blocks: seq<Q8Block>, elements: nat, e: nat): real
    requires WholeBlocks(blocks, elements) && e < elements
  {
    blocks[e / Q8_BLOCK_SIZE].delta * blocks[e / Q8_BLOCK_SIZE].quants[e % Q8_BLOCK_SIZE] as real
  }

  /** Bit `b` of a mask laid out as consecutive words. */
  predicate MaskBit(mask: seq<u64>, b: nat)
    requires b < 64 * |mask|
  {
    Bit(mask[b / 64], b % 64)
  }

  function WithBit(mask: seq<u64>, b: nat): (r: seq<u64>)
    requires b < 64 * |mask|
    ensures |r| == |mask|
  {
    mask[b / 64 := SetBit(mask[b / 64], b % 64)]
  }

  lemma {:induction false} WithBitAt(mask: seq<u64>, b: nat, c: nat)
    requires b < 64 * |mask| && c < 64 * |mask|
    ensures MaskBit(WithBit(mask, b), c) <==> c == b || MaskBit(mask, c)
  {
    assert c == c / 64 * 64 + c % 64;
  }

  /** The bit of row `row`, column `col`. */
  function BitPos(cols: nat, row: nat, col: nat): nat {
    row * cols + col
  }

  lemma {:induction false} BitPosFits(rows: nat, cols: nat, row: nat, col: nat)
    requires row < rows && col < cols
    ensures BitPos(cols, row, col) < rows * cols
  {
    MulLe(row + 1, rows, cols);
    MulAdd(row, 1, cols);
  }

  /** The mask words hold exactly the bits of `rows` padded rows. */
  lemma {:induction false} WordsForBits(rows: nat, cols: nat)
    requires cols % 64 == 0
    ensures 64 * (rows * (cols / 64)) == rows * cols
  {
    var w := cols / 64;
    assert cols == 64 * w;
    assert 64 * (rows * w) == rows * (64 * w);
  }

  datatype Sign = Positive | Negative

  predicate HasSign(x: real, s: Sign) {
    match s case Positive => x > 0.0 case Negative => x < 0.0
  }

  /** A mask with the bits of the first `done` elements: set for real columns whose weight has the sign, clear
      for the rest and for the padding. */
  ghost predicate Packed(mask: seq<u64>, s: Sign, blocks: seq<Q8Block>, rows: nat, cols: nat, colsRaw: nat, done: nat)
    requires WholeBlocks(blocks, rows * colsRaw) && done <= rows * colsRaw && 64 * |mask| == rows * cols
  {
    forall row: nat, col: nat | row < rows && col < cols ::
        PackedAt(mask, s, blocks, rows, cols, colsRaw, done, row, col)
  }

  ghost predicate PackedAt(mask: seq<u64>, s: Sign, blocks: seq<Q8Block>, rows: nat, cols: nat, colsRaw: nat, done: nat,
                           row: nat, col: nat)
    requires WholeBlocks(blocks, rows * colsRaw) && done <= rows * colsRaw && 64 * |mask| == rows * cols
    requires row < rows && col < cols
  {
    BitPosFits(rows, cols, row, col);
    MaskBit(mask, BitPos(cols, row, col)) ==
      (col < colsRaw && row * colsRaw + col < done && HasSign(WeightOf(blocks, rows * colsRaw, row * colsRaw + col), s))
  }

  lemma {:induction false} ZeroMaskPackedAt(mask: seq<u64>, s: Sign, blocks: seq<Q8Block>, rows: nat, cols: nat,
                                            colsRaw: nat, none: nat, row: nat, col: nat)
    requires WholeBlocks(blocks, rows * colsRaw) && 64 * |mask| == rows * cols && none == 0
    requires row < rows && col < cols && forall k | 0 <= k < |mask| :: mask[k] == 0
    ensures PackedAt(mask, s, blocks, rows, cols, colsRaw, none, row, col)
  {
    BitPosFits(rows, cols, row, col);
    ZeroMaskClear(mask, BitPos(cols, row, col));
    assert none <= row * colsRaw + col;
  }

  lemma {:induction false} ZeroMaskPacked(mask: seq<u64>, s: Sign, blocks: seq<Q8Block>, rows: nat, cols: nat,
                                          colsRaw: nat)
    requires WholeBlocks(blocks, rows * colsRaw) && 64 * |mask| == rows * cols
    requires forall k | 0 <= k < |mask| :: mask[k] == 0
    ensures Packed(mask, s, blocks, rows, cols, colsRaw, 0)
  {
    var none := 0;
    forall row: nat, col: nat | row < rows && col < cols
      ensures PackedAt(mask, s, blocks, rows, cols, colsRaw, none, row, col)
    {
      ZeroMaskPackedAt(mask, s, blocks, rows, cols, colsRaw, none, row, col);
    }
  }

  lemma {:induction false} ZeroMaskClear(mask: seq<u64>, b: nat)
    requires b < 64 * |mask| && forall k | 0 <= k < |mask| :: mask[k] == 0
    ensures !MaskBit(mask, b)
  {
    BitZero(b % 64);
  }

  /** The mask after element `e`. */
  function Marked(mask: seq<u64>, s: Sign, w: real, bitPos: nat): (r: seq<u64>)
    requires bitPos < 64 * |mask|
    ensures |r| == |mask|
  {
    if HasSign(w, s) then WithBit(mask, bitPos) else mask
  }

  lemma {:induction false} MarkPacks(mask: seq<u64>, s: Sign, blocks: seq<Q8Block>, rows: nat, cols: nat, colsRaw: nat,
                                     e: nat, row0: nat, col0: nat)
    requires WholeBlocks(blocks, rows * colsRaw) && e < rows * colsRaw && 64 * |mask| == rows * cols && colsRaw <= cols
    requires row0 < rows && col0 < colsRaw && e == row0 * colsRaw + col0
    requires BitPos(cols, row0, col0) < rows * cols
    requires Packed(mask, s, blocks, rows, cols, colsRaw, e)
    ensures Packed(Marked(mask, s, WeightOf(blocks, rows * colsRaw, e), BitPos(cols, row0, col0)), s, blocks, rows,
        cols, colsRaw, e + 1)
  {
    var mask' := Marked(mask, s, WeightOf(blocks, rows * colsRaw, e), BitPos(cols, row0, col0));
    var done := e + 1;
    forall row: nat, col: nat | row < rows && col < cols
      ensures PackedAt(mask', s, blocks, rows, cols, colsRaw, done, row, col)
    {
      assert PackedAt(mask, s, blocks, rows, cols, colsRaw, e, row, col);
      MarkPacksAt(mask, s, blocks, rows, cols, colsRaw, e, row0, col0, row, col);
    }
  }

  lemma {:induction false} MarkPacksAt(mask: seq<u64>, s: Sign, blocks: seq<Q8Block>, rows: nat, cols: nat,
                                       colsRaw: nat, e: nat, row0: nat, col0: nat, row: nat, col: nat)
    requires WholeBlocks(blocks, rows * colsRaw) && e < rows * colsRaw && 64 * |mask| == rows * cols && colsRaw <= cols
    requires row0 < rows && col0 < colsRaw && e == row0 * colsRaw + col0 && row < rows && col < cols
    requires BitPos(cols, row0, col0) < rows * cols
    requires PackedAt(mask, s, blocks, rows, cols, colsRaw, e, row, col)
    ensures PackedAt(Marked(mask, s, WeightOf(blocks, rows * colsRaw, e), BitPos(cols, row0, col0)), s, blocks, rows,
        cols, colsRaw, e + 1, row, col)
  {
    BitPosFits(rows, cols, row, col);
    WithBitAt(mask, BitPos(cols, row0, col0), BitPos(cols, row, col));
    if BitPos(cols, row, col) == BitPos(cols, row0, col0) {
      Digits(row, col, row0, col0, cols);
    } else if col < colsRaw && row * colsRaw + col == e {
      Digits(row, col, row0, col0, colsRaw);
    }
  }

  // ---------- packing ----------

  /** Rows are whole words, and each mask has the words of all rows. */
  predicate Laid(t: BitmaskTensor) {
    t.cols % 64 == 0 && |t.posMask| == |t.negMask| == t.rows * (t.cols / 64)
  }

  /** The tensor the blocks compile to. */
  ghost predicate Compiled(t: BitmaskTensor, blocks: seq<Q8Block>, rows: nat, colsRaw: nat): (c: bool)
    requires WholeBlocks(blocks, rows * colsRaw)
    ensures c ==> Laid(t)
  {
    WordsForBits(rows, RoundUp64(colsRaw));
    && t.rows == rows && t.colsRaw == colsRaw && t.cols == RoundUp64(colsRaw)
    && 64 * |t.posMask| == 64 * |t.negMask| == rows * t.cols
    && Packed(t.posMask, Positive, blocks, rows, t.cols, colsRaw, rows * colsRaw)
    && Packed(t.negMask, Negative, blocks, rows, t.cols, colsRaw, rows * colsRaw)
    && |t.scales| == |blocks| && forall i | 0 <= i < |blocks| :: t.scales[i] == blocks[i].delta
  }

  lemma {:induction false} ElementPlace(e: nat, rows: nat, colsRaw: nat)
    requires e < rows * colsRaw
    ensures colsRaw > 0
    ensures e / colsRaw < rows && e % colsRaw < colsRaw && e == e / colsRaw * colsRaw + e % colsRaw
  {
    if colsRaw > 0 && e / colsRaw >= rows {
      MulLe(rows, e / colsRaw, colsRaw);
    }
  }

  /** Sets the bit of element `e`, if its weight is not zero. */
  method PackElement(pos: array<u64>, neg: array<u64>, blocks: seq<Q8Block>, rows: nat, cols: nat, colsRaw: nat, e: nat)
    requires WholeBlocks(blocks, rows * colsRaw) && e < rows * colsRaw && colsRaw <= cols
    requires pos != neg && 64 * pos.Length == 64 * neg.Length == rows * cols
    requires Packed(pos[..], Positive, blocks, rows, cols, colsRaw, e)
    requires Packed(neg[..], Negative, blocks, rows, cols, colsRaw, e)
    modifies pos, neg
    ensures Packed(pos[..], Positive, blocks, rows, cols, colsRaw, e + 1)
    ensures Packed(neg[..], Negative, blocks, rows, cols, colsRaw, e + 1)
  {
    ElementPlace(e, rows, colsRaw);
    var row, col := e / colsRaw, e % colsRaw;
    BitPosFits(rows, cols, row, col);
    MarkPacks(pos[..], Positive, blocks, rows, cols, colsRaw, e, row, col);
    MarkPacks(neg[..], Negative, blocks, rows, cols, colsRaw, e, row, col);
    var realWeight := WeightOf(blocks, rows * colsRaw, e);
    MarkInPlace(pos, neg, realWeight, row * cols + col);
  }

  method MarkInPlace(pos: array<u64>, neg: array<u64>, realWeight: real, bitPos: nat)
    requires pos != neg && pos.Length == neg.Length && bitPos < 64 * pos.Length
    modifies pos, neg
    ensures pos[..] == Marked(old(pos[..]), Positive, realWeight, bitPos)
    ensures neg[..] == Marked(old(neg[..]), Negative, realWeight, bitPos)
  {
    var wordIdx, bitShift := bitPos / 64, bitPos % 64;
    if realWeight > 0.0 {
      pos[wordIdx] := SetBit(pos[wordIdx], bitShift);
    } else if realWeight < 0.0 {
      neg[wordIdx] := SetBit(neg[wordIdx], bitShift);
    }
  }

  function MinNat(a: nat, b: nat): nat {
    if a < b then a else b
  }

  /** Packs the elements of block `blockIdx`; the last block may run past the tensor. */
  method PackBlock(pos: array<u64>, neg: array<u64>, blocks: seq<Q8Block>, rows: nat, cols: nat, colsRaw: nat,
                   blockIdx: nat)
    requires WholeBlocks(blocks, rows * colsRaw) && blockIdx < |blocks| && colsRaw <= cols
    requires pos != neg && 64 * pos.Length == 64 * neg.Length == rows * cols
    requires Packed(pos[..], Positive, blocks, rows, cols, colsRaw, MinNat(blockIdx * Q8_BLOCK_SIZE, rows * colsRaw))
    requires Packed(neg[..], Negative, blocks, rows, cols, colsRaw, MinNat(blockIdx * Q8_BLOCK_SIZE, rows * colsRaw))
    modifies pos, neg
    ensures Packed(pos[..], Positive, blocks, rows, cols, colsRaw,
        MinNat(blockIdx * Q8_BLOCK_SIZE + Q8_BLOCK_SIZE, rows * colsRaw))
    ensures Packed(neg[..], Negative, blocks, rows, cols, colsRaw,
        MinNat(blockIdx * Q8_BLOCK_SIZE + Q8_BLOCK_SIZE, rows * colsRaw))
  {
    var elemBase, total := blockIdx * Q8_BLOCK_SIZE, rows * colsRaw;
    var localIdx := 0;
    while localIdx < Q8_BLOCK_SIZE
      invariant localIdx <= Q8_BLOCK_SIZE
      invariant Packed(pos[..], Positive, blocks, rows, cols, colsRaw, MinNat(elemBase + localIdx, total))
      invariant Packed(neg[..], Negative, blocks, rows, cols, colsRaw, MinNat(elemBase + localIdx, total))
    {
      var elemIdx := elemBase + localIdx;
      if elemIdx >= total {
        break;
      }
      PackElement(pos, neg, blocks, rows, cols, colsRaw, elemIdx);
      localIdx := localIdx + 1;
    }
  }

  /** Compiles Q8_0 blocks to a ternary tensor. */
  method Q8BlocksToTernaryBitmasks(blocks: seq<Q8Block>, rows: nat, colsRaw: nat) returns (t: BitmaskTensor)
    requires WholeBlocks(blocks, rows * colsRaw)
    ensures Compiled(t, blocks, rows, colsRaw) && IsTernaryOf(t, blocks, rows, colsRaw)
  {
    var cols, total := RoundUp64(colsRaw), rows * colsRaw;
    var maskWords := rows * (cols / 64);
    WordsForBits(rows, cols);
    var pos, neg := new u64[maskWords](_ => 0), new u64[maskWords](_ => 0);
    ZeroMaskPacked(pos[..], Positive, blocks, rows, cols, colsRaw);
    ZeroMaskPacked(neg[..], Negative, blocks, rows, cols, colsRaw);
    var scales := [];
    for blockIdx := 0 to |blocks|
      invariant |scales| == blockIdx && forall i | 0 <= i < blockIdx :: scales[i] == blocks[i].delta
      invariant Packed(pos[..], Positive, blocks, rows, cols, colsRaw, MinNat(blockIdx * Q8_BLOCK_SIZE, total))
      invariant Packed(neg[..], Negative, blocks, rows, cols, colsRaw, MinNat(blockIdx * Q8_BLOCK_SIZE, total))
    {
      scales := scales + [blocks[blockIdx].delta];
      PackBlock(pos, neg, blocks, rows, cols, colsRaw, blockIdx);
    }
    t := BitmaskTensor(rows, cols, colsRaw, pos[..], neg[..], scales);
    CompiledMeans(t, blocks, rows, colsRaw);
  }

  // ---------- what the masks mean ----------

  /** One mask, fully packed. */
  lemma {:induction false} SignBit(mask: seq<u64>, s: Sign, blocks: seq<Q8Block>, rows: nat, cols: nat, colsRaw: nat,
                                   all: nat, row: nat, col: nat, b: nat, e: nat)
    requires all == rows * colsRaw && WholeBlocks(blocks, all) && 64 * |mask| == rows * cols && row < rows && col < cols
    requires Packed(mask, s, blocks, rows, cols, colsRaw, all)
    requires b == BitPos(cols, row, col) && e == BitPos(colsRaw, row, col)
    ensures b < 64 * |mask| && (col < colsRaw ==> e < all)
    ensures MaskBit(mask, b) == (col < colsRaw && HasSign(WeightOf(blocks, all, e), s))
  {
    BitPosFits(rows, cols, row, col);
    if col < colsRaw {
      BitPosFits(rows, colsRaw, row, col);
    }
    assert PackedAt(mask, s, blocks, rows, cols, colsRaw, all, row, col);
  }

  // ---------- the same, from the blocks ----------

  predicate SameSign(a: real, b: int) {
    (a > 0.0 && b > 0) || (a < 0.0 && b < 0)
  }

  predicate OppositeSign(a: real, b: int) {
    (a > 0.0 && b < 0) || (a < 0.0 && b > 0)
  }

  lemma {:induction false} ProductSign(a: real, b: real)
    ensures a * b > 0.0 <==> (a > 0.0 && b > 0.0) || (a < 0.0 && b < 0.0)
    ensures a * b < 0.0 <==> (a > 0.0 && b < 0.0) || (a < 0.0 && b > 0.0)
  {
  }

  /** A weight is positive when its quant has the sign of its block's delta, and negative when it has the other. */
  lemma {:induction false} WeightSign(blocks: seq<Q8Block>, elements: nat, e: nat)
    requires WholeBlocks(blocks, elements) && e < elements
    ensures e / 32 < |blocks| && e % 32 < |blocks[e / 32].quants|
    ensures WeightOf(blocks, elements, e) > 0.0 <==> SameSign(blocks[e / 32].delta, blocks[e / 32].quants[e % 32])
    ensures WeightOf(blocks, elements, e) < 0.0 <==> OppositeSign(blocks[e / 32].delta, blocks[e / 32].quants[e % 32])
  {
    ProductSign(blocks[e / 32].delta, blocks[e / 32].quants[e % 32] as real);
  }

  /** Bit `b` of the masks, 64 to a word, for element `e`: set in the positive mask when its quant has the sign of the
      delta of its block of 32, in the negative mask when it has the other sign. */
  ghost predicate BitsOfElement(t: BitmaskTensor, blocks: seq<Q8Block>, b: nat, e: nat) {
    && b / 64 < |t.posMask| && b / 64 < |t.negMask| && e / 32 < |blocks| && e % 32 < |blocks[e / 32].quants|
    && (Bit(t.posMask[b / 64], b % 64) <==> SameSign(blocks[e / 32].delta, blocks[e / 32].quants[e % 32]))
    && (Bit(t.negMask[b / 64], b % 64) <==> OppositeSign(blocks[e / 32].delta, blocks[e / 32].quants[e % 32]))
  }

  ghost predicate NoBits(t: BitmaskTensor, b: nat) {
    && b / 64 < |t.posMask| && b / 64 < |t.negMask|
    && !Bit(t.posMask[b / 64], b % 64) && !Bit(t.negMask[b / 64], b % 64)
  }

  /** The bits of a row's column, or of its padding. */
  ghost predicate BitsMean(t: BitmaskTensor, blocks: seq<Q8Block>, colsRaw: nat, row: nat, col: nat) {
    if col < colsRaw then BitsOfElement(t, blocks, row * t.cols + col, row * colsRaw + col)
    else NoBits(t, row * t.cols + col)
  }

  lemma {:induction false} ElementBits(t: BitmaskTensor, blocks: seq<Q8Block>, elements: nat, b: nat, e: nat)
    requires WholeBlocks(blocks, elements) && e < elements && b < 64 * |t.posMask| && b < 64 * |t.negMask|
    requires MaskBit(t.posMask, b) <==> WeightOf(blocks, elements, e) > 0.0
    requires MaskBit(t.negMask, b) <==> WeightOf(blocks, elements, e) < 0.0
    ensures BitsOfElement(t, blocks, b, e)
  {
    WeightSign(blocks, elements, e);
  }

  /** Rows padded to whole words, masks by the signs, and one scale for each block. */
  ghost predicate IsTernaryOf(t: BitmaskTensor, blocks: seq<Q8Block>, rows: nat, colsRaw: nat) {
    && t.rows == rows && t.colsRaw == colsRaw && t.cols == (colsRaw + 63) / 64 * 64
    && |t.posMask| == |t.negMask| == rows * (t.cols / 64)
    && (forall row: nat, col: nat | row < rows && col < t.cols :: BitsMean(t, blocks, colsRaw, row, col))
    && |t.scales| == |blocks| && forall i | 0 <= i < |blocks| :: t.scales[i] == blocks[i].delta
  }

  /** For every row and column: the positive bit is set exactly for a positive weight, the negative bit exactly for
      a negative one, so never both, and neither in the padding. */
  lemma {:induction false} MaskMeaning(t: BitmaskTensor, blocks: seq<Q8Block>, rows: nat, colsRaw: nat, all: nat,
                                       row: nat, col: nat, b: nat, e: nat)
    requires all == rows * colsRaw && WholeBlocks(blocks, all) && Compiled(t, blocks, rows, colsRaw)
    requires row < rows && col < t.cols && b == BitPos(t.cols, row, col) && e == BitPos(colsRaw, row, col)
    ensures b < 64 * |t.posMask| && b < 64 * |t.negMask|
    ensures if col < colsRaw then
              && e < all
              && (MaskBit(t.posMask, b) <==> WeightOf(blocks, all, e) > 0.0)
              && (MaskBit(t.negMask, b) <==> WeightOf(blocks, all, e) < 0.0)
            else !MaskBit(t.posMask, b) && !MaskBit(t.negMask, b)
    ensures if col < colsRaw then BitsOfElement(t, blocks, b, e) else NoBits(t, b)
  {
    SignBit(t.posMask, Positive, blocks, rows, t.cols, colsRaw, all, row, col, b, e);
    SignBit(t.negMask, Negative, blocks, rows, t.cols, colsRaw, all, row, col, b, e);
    if col < colsRaw {
      ElementBits(t, blocks, all, b, e);
    }
  }

  /** What a compiled tensor is. */
  lemma {:induction false} CompiledMeans(t: BitmaskTensor, blocks: seq<Q8Block>, rows: nat, colsRaw: nat)
    requires WholeBlocks(blocks, rows * colsRaw) && Compiled(t, blocks, rows, colsRaw)
    ensures IsTernaryOf(t, blocks, rows, colsRaw)
  {
    var all := rows * colsRaw;
    forall row: nat, col: nat | row < rows && col < t.cols ensures BitsMean(t, blocks, colsRaw, row, col) {
      MaskMeaning(t, blocks, rows, colsRaw, all, row, col, BitPos(t.cols, row, col), BitPos(colsRaw, row, col));
    }
  }
}
