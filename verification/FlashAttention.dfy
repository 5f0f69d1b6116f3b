/** The attention kernel: keys and values are read from the paged cache tile by tile, with a running maximum,
    a running sum and an accumulator that is rescaled whenever the maximum grows. */
module FlashAttention {
  import opened Arithmetic
  import opened PagePools
  import opened KvLayout
  import opened Softmax

  /** One head of one sequence's cache. */
  datatype Cache = Cache(g: Geometry, slab: seq<i8>, blockTable: seq<nat>, heads: nat, head: nat)

  /** Every key and value of the first `n` positions is inside the slab. */
  ghost predicate Readable(c: Cache, n: nat) {
    forall p: nat | p < n :: ReadableAt(c, p)
  }

  ghost predicate ReadableAt(c: Cache, p: nat) {
    && p / PAGE_TOKENS < |c.blockTable|
    && forall isV: bool, d: nat | d < c.g.headDim :: InSlab(c, p, isV, d)
  }

  predicate InSlab(c: Cache, p: nat, isV: bool, d: nat)
    requires p / PAGE_TOKENS < |c.blockTable|
  {
    ReadAddr(c.g, c.heads, c.blockTable[p / PAGE_TOKENS], isV, p % PAGE_TOKENS, c.head, d) < |c.slab|
  }

  function Element(c: Cache, p: nat, isV: bool, d: nat): real
    requires p / PAGE_TOKENS < |c.blockTable| && InSlab(c, p, isV, d)
  {
    c.slab[ReadAddr(c.g, c.heads, c.blockTable[p / PAGE_TOKENS], isV, p % PAGE_TOKENS, c.head, d)] as real
  }

  /** q . k over the first `n` dimensions. */
  function DotKey(c: Cache, q: seq<real>, p: nat, n: nat): real
    requires ReadableAt(c, p) && n <= c.g.headDim == |q|
  {
    if n == 0 then 0.0
    else
      assert InSlab(c, p, false, n - 1);
      DotKey(c, q, p, n - 1) + Times(q[n - 1], Element(c, p, false, n - 1))
  }

  function ScoreOf(c: Cache, q: seq<real>, p: nat, scale: real): real
    requires ReadableAt(c, p) && c.g.headDim == |q|
  {
    Times(DotKey(c, q, p, c.g.headDim), scale)
  }

  /** The scores of all positions. */
  ghost function ScoresOf(c: Cache, q: seq<real>, scale: real, n: nat): (s: seq<real>)
    requires Readable(c, n) && c.g.headDim == |q|
    ensures |s| == n && forall p: nat | p < n :: ReadableAt(c, p) && s[p] == ScoreOf(c, q, p, scale)
  {
    seq(n, p requires 0 <= p < n => assert ReadableAt(c, p); ScoreOf(c, q, p, scale))
  }

  ghost function ValueRow(c: Cache, p: nat): (row: seq<real>)
    requires ReadableAt(c, p)
    ensures |row| == c.g.headDim
    ensures forall d: nat | d < c.g.headDim :: InSlab(c, p, true, d) && row[d] == Element(c, p, true, d)
  {
    seq(c.g.headDim, d requires 0 <= d < c.g.headDim => assert InSlab(c, p, true, d); Element(c, p, true, d))
  }

  ghost function ValueRows(c: Cache, n: nat): (rows: seq<seq<real>>)
    requires Readable(c, n)
    ensures |rows| == n && Rows(rows, c.g.headDim)
    ensures forall p: nat | p < n :: ReadableAt(c, p) && rows[p] == ValueRow(c, p)
  {
    seq(n, p requires 0 <= p < n => assert ReadableAt(c, p); ValueRow(c, p))
  }

  // ---------- scores and results, from the bytes of the slab ----------

  /** Where the keys of position `p` begin for this head: in the page for every 16 positions, one vector of all heads
      after another, and in it one head after another. */
  ghost predicate KeysAt(c: Cache, p: nat, base: nat) {
    && p / 16 < |c.blockTable|
    && base == c.blockTable[p / 16] * c.g.pageStride + p % 16 * (c.heads * c.g.headDim) + c.head * c.g.headDim
  }

  /** The values begin 16 such vectors further on. */
  ghost predicate ValuesAt(c: Cache, p: nat, base: nat) {
    && p / 16 < |c.blockTable|
    && base == c.blockTable[p / 16] * c.g.pageStride + 16 * (c.heads * c.g.headDim)
       + p % 16 * (c.heads * c.g.headDim) + c.head * c.g.headDim
  }

  /** `x` is `scale` times the sum of the products of `q` and the bytes of the slab from `base` on. */
  ghost predicate IsScaledDot(c: Cache, q: seq<real>, base: nat, scale: real, x: real) {
    exists xs: seq<real> ::
      && |xs| == |q| && x == scale * SumReals(xs)
      && forall d: nat | d < |q| :: base + d < |c.slab| && xs[d] == q[d] * c.slab[base + d] as real
  }

  /** `x` is the score of position `p`. */
  ghost predicate IsScore(c: Cache, q: seq<real>, p: nat, scale: real, x: real) {
    exists base: nat :: KeysAt(c, p, base) && IsScaledDot(c, q, base, scale, x)
  }

  /** `w[p]` is the exponential of the score of position `p`. */
  ghost predicate IsWeight(c: Cache, exp: Exp, q: seq<real>, scale: real, w: seq<real>, p: nat)
    requires p < |w|
  {
    exists x :: IsScore(c, q, p, scale, x) && w[p] == exp(x)
  }

  ghost predicate AreWeights(c: Cache, exp: Exp, q: seq<real>, scale: real, w: seq<real>) {
    forall p: nat | p < |w| :: IsWeight(c, exp, q, scale, w, p)
  }

  /** `ys[p]` is `w[p]` times the code of component `d` of the value at position `p`. */
  ghost predicate IsWeightedValue(c: Cache, w: seq<real>, d: nat, ys: seq<real>, p: nat)
    requires p < |w| == |ys|
  {
    exists base: nat :: ValuesAt(c, p, base) && base + d < |c.slab| && ys[p] == w[p] * c.slab[base + d] as real
  }

  ghost predicate AreWeightedValues(c: Cache, w: seq<real>, d: nat, ys: seq<real>) {
    |ys| == |w| && forall p: nat | p < |w| :: IsWeightedValue(c, w, d, ys, p)
  }

  /** `x` times the sum of the weights is the sum of the weighted values. */
  predicate Balances(x: real, w: seq<real>, ys: seq<real>) {
    x * SumReals(w) == SumReals(ys)
  }

  /** `x` is component `d` of the values, averaged. */
  ghost predicate IsAverage(c: Cache, w: seq<real>, d: nat, x: real) {
    exists ys: seq<real> :: AreWeightedValues(c, w, d, ys) && Balances(x, w, ys)
  }

  ghost predicate AreAverages(c: Cache, w: seq<real>, r: seq<real>) {
    forall d: nat | d < |r| :: IsAverage(c, w, d, r[d])
  }

  /** `r` is one head's attention over the first `n` positions. */
  ghost predicate IsAttention(c: Cache, exp: Exp, q: seq<real>, scale: real, n: nat, r: seq<real>) {
    exists w: seq<real> ::
      |w| == n && SumReals(w) > 0.0 && AreWeights(c, exp, q, scale, w) && AreAverages(c, w, r)
  }

  lemma {:induction false} ReadsKey(c: Cache, p: nat, base: nat, d: nat)
    requires p / PAGE_TOKENS < |c.blockTable| && KeysAt(c, p, base)
    ensures ReadAddr(c.g, c.heads, c.blockTable[p / PAGE_TOKENS], false, p % PAGE_TOKENS, c.head, d) == base + d
  {
  }

  lemma {:induction false} ReadsValue(c: Cache, p: nat, base: nat, d: nat)
    requires p / PAGE_TOKENS < |c.blockTable| && ValuesAt(c, p, base)
    ensures ReadAddr(c.g, c.heads, c.blockTable[p / PAGE_TOKENS], true, p % PAGE_TOKENS, c.head, d) == base + d
  {
  }

  ghost function Products(c: Cache, q: seq<real>, p: nat): (xs: seq<real>)
    requires ReadableAt(c, p) && c.g.headDim == |q|
    ensures |xs| == |q| && forall d: nat | d < |q| ::
        InSlab(c, p, false, d) && xs[d] == Times(q[d], Element(c, p, false, d))
  {
    seq(|q|, d requires 0 <= d < |q| => assert InSlab(c, p, false, d); Times(q[d], Element(c, p, false, d)))
  }

  lemma {:induction false} DotIsSum(c: Cache, q: seq<real>, p: nat, n: nat)
    requires ReadableAt(c, p) && n <= c.g.headDim == |q|
    ensures DotKey(c, q, p, n) == SumReals(Products(c, q, p)[..n])
  {
    if n > 0 {
      DotIsSum(c, q, p, n - 1);
      assert Products(c, q, p)[..n][..n - 1] == Products(c, q, p)[..n - 1];
      assert InSlab(c, p, false, n - 1);
    }
  }

  lemma {:induction false} KeyAt(c: Cache, p: nat, base: nat, d: nat)
    requires ReadableAt(c, p) && KeysAt(c, p, base) && d < c.g.headDim
    ensures InSlab(c, p, false, d) && base + d < |c.slab| && Element(c, p, false, d) == c.slab[base + d] as real
  {
    assert InSlab(c, p, false, d);
    ReadsKey(c, p, base, d);
  }

  lemma {:induction false} DotMeans(c: Cache, q: seq<real>, p: nat, base: nat, scale: real)
    requires ReadableAt(c, p) && c.g.headDim == |q| && KeysAt(c, p, base)
    ensures IsScaledDot(c, q, base, scale, ScoreOf(c, q, p, scale))
  {
    var xs := Products(c, q, p);
    forall d: nat | d < |q| ensures base + d < |c.slab| && xs[d] == q[d] * c.slab[base + d] as real {
      KeyAt(c, p, base, d);
    }
    DotIsSum(c, q, p, |q|);
    assert xs[..|q|] == xs;
    assert ScoreOf(c, q, p, scale) == scale * SumReals(xs);
  }

  /** A score is the scaled dot product of the query with the key bytes. */
  lemma {:induction false} ScoreMeans(c: Cache, q: seq<real>, p: nat, scale: real)
    requires ReadableAt(c, p) && c.g.headDim == |q|
    ensures IsScore(c, q, p, scale, ScoreOf(c, q, p, scale))
  {
    var base := c.blockTable[p / 16] * c.g.pageStride + p % 16 * (c.heads * c.g.headDim) + c.head * c.g.headDim;
    assert KeysAt(c, p, base);
    DotMeans(c, q, p, base, scale);
  }

  lemma {:induction false} ValueMeans(c: Cache, w: seq<real>, d: nat, ys: seq<real>, p: nat)
    requires p < |w| == |ys| && ReadableAt(c, p) && d < c.g.headDim && ys[p] == Times(w[p], ValueRow(c, p)[d])
    ensures IsWeightedValue(c, w, d, ys, p)
  {
    var base := c.blockTable[p / 16] * c.g.pageStride + 16 * (c.heads * c.g.headDim)
      + p % 16 * (c.heads * c.g.headDim) + c.head * c.g.headDim;
    assert ValuesAt(c, p, base);
    assert InSlab(c, p, true, d);
    ReadsValue(c, p, base, d);
  }

  /** The weights exp(s) of the first `n` scores. */
  function Weights(exp: Exp, s: seq<real>): (w: seq<real>)
    ensures |w| == |s| && forall p | 0 <= p < |s| :: w[p] == exp(s[p])
  {
    seq(|s|, p requires 0 <= p < |s| => exp(s[p]))
  }

  lemma {:induction false} WeightsAdd(exp: Exp, s: seq<real>, n: nat)
    requires n <= |s|
    ensures WeightSum(exp, s, 0.0, n) == SumReals(Weights(exp, s)[..n])
  {
    if n > 0 {
      WeightsAdd(exp, s, n - 1);
      assert Weights(exp, s)[..n][..n - 1] == Weights(exp, s)[..n - 1];
      assert s[n - 1] - 0.0 == s[n - 1];
    }
  }

  /** Component `d` of the rows, each times its weight. */
  ghost function Column(exp: Exp, s: seq<real>, rows: seq<seq<real>>, dim: nat, d: nat): (ys: seq<real>)
    requires |s| == |rows| && Rows(rows, dim) && d < dim
    ensures |ys| == |s| && forall p | 0 <= p < |s| :: ys[p] == Times(exp(s[p]), rows[p][d])
  {
    seq(|s|, p requires 0 <= p < |s| => Times(exp(s[p]), rows[p][d]))
  }

  lemma {:induction false} ColumnAdds(exp: Exp, s: seq<real>, rows: seq<seq<real>>, dim: nat, d: nat, n: nat)
    requires n <= |s| == |rows| && Rows(rows, dim) && d < dim
    ensures WeightedRows(exp, s, rows, 0.0, dim, n)[d] == SumReals(Column(exp, s, rows, dim, d)[..n])
  {
    if n > 0 {
      ColumnAdds(exp, s, rows, dim, d, n - 1);
      assert Column(exp, s, rows, dim, d)[..n][..n - 1] == Column(exp, s, rows, dim, d)[..n - 1];
      assert s[n - 1] - 0.0 == s[n - 1];
    }
  }

  lemma {:induction false} DivideBack(x: real, y: real)
    requires y > 0.0
    ensures (x / y) * y == x
  {
  }

  lemma {:induction false} AverageOf(c: Cache, w: seq<real>, d: nat, x: real, ys: seq<real>)
    requires AreWeightedValues(c, w, d, ys) && Balances(x, w, ys)
    ensures IsAverage(c, w, d, x)
  {
  }

  lemma {:induction false} ColumnMeans(c: Cache, exp: Exp, s: seq<real>, d: nat)
    requires Readable(c, |s|) && d < c.g.headDim
    ensures AreWeightedValues(c, Weights(exp, s), d, Column(exp, s, ValueRows(c, |s|), c.g.headDim, d))
  {
    var rows, w := ValueRows(c, |s|), Weights(exp, s);
    var ys := Column(exp, s, rows, c.g.headDim, d);
    forall p: nat | p < |s| ensures IsWeightedValue(c, w, d, ys, p) {
      assert ReadableAt(c, p) && rows[p] == ValueRow(c, p);
      ValueMeans(c, w, d, ys, p);
    }
  }

  lemma {:induction false} DenseAdds(exp: Exp, s: seq<real>, rows: seq<seq<real>>, dim: nat, d: nat)
    requires |s| == |rows| > 0 && Rows(rows, dim) && d < dim && WeightSum(exp, s, 0.0, |s|) > 0.0
    ensures Balances(Dense(exp, s, rows, dim, d), Weights(exp, s), Column(exp, s, rows, dim, d))
  {
    WeightsAdd(exp, s, |s|);
    ColumnAdds(exp, s, rows, dim, d, |s|);
    var w, ys := Weights(exp, s), Column(exp, s, rows, dim, d);
    assert ys[..|s|] == ys && w[..|s|] == w;
    DivideBack(SumReals(ys), SumReals(w));
  }

  lemma {:induction false} ColumnAverages(c: Cache, exp: Exp, s: seq<real>, d: nat, x: real)
    requires Readable(c, |s|) && d < c.g.headDim
    requires Balances(x, Weights(exp, s), Column(exp, s, ValueRows(c, |s|), c.g.headDim, d))
    ensures IsAverage(c, Weights(exp, s), d, x)
  {
    ColumnMeans(c, exp, s, d);
    AverageOf(c, Weights(exp, s), d, x, Column(exp, s, ValueRows(c, |s|), c.g.headDim, d));
  }

  lemma {:induction false} DenseIsAverage(c: Cache, exp: Exp, s: seq<real>, d: nat, x: real)
    requires |s| > 0 && Readable(c, |s|) && d < c.g.headDim && WeightSum(exp, s, 0.0, |s|) > 0.0
    requires x == Dense(exp, s, ValueRows(c, |s|), c.g.headDim, d)
    ensures IsAverage(c, Weights(exp, s), d, x)
  {
    DenseAdds(exp, s, ValueRows(c, |s|), c.g.headDim, d);
    ColumnAverages(c, exp, s, d, x);
  }

  lemma {:induction false} DensesAreAverages(c: Cache, exp: Exp, s: seq<real>, r: seq<real>)
    requires |s| > 0 && Readable(c, |s|) && |r| == c.g.headDim && WeightSum(exp, s, 0.0, |s|) > 0.0
    requires forall d | 0 <= d < |r| :: r[d] == Dense(exp, s, ValueRows(c, |s|), |r|, d)
    ensures AreAverages(c, Weights(exp, s), r)
  {
    forall d: nat | d < |r| ensures IsAverage(c, Weights(exp, s), d, r[d]) {
      DenseIsAverage(c, exp, s, d, r[d]);
    }
  }

  lemma {:induction false} WeightsMean(c: Cache, exp: Exp, q: seq<real>, scale: real, n: nat)
    requires Readable(c, n) && c.g.headDim == |q|
    ensures AreWeights(c, exp, q, scale, Weights(exp, ScoresOf(c, q, scale, n)))
  {
    var s := ScoresOf(c, q, scale, n);
    var w := Weights(exp, s);
    forall p: nat | p < n ensures IsWeight(c, exp, q, scale, w, p) {
      assert ReadableAt(c, p);
      ScoreMeans(c, q, p, scale);
    }
  }

  /** Dense attention, from the bytes of the slab. */
  lemma {:induction false} DenseMeans(c: Cache, exp: Exp, q: seq<real>, scale: real, n: nat, r: seq<real>)
    requires n > 0 && Readable(c, n) && c.g.headDim == |q| == |r|
    requires WeightSum(exp, ScoresOf(c, q, scale, n), 0.0, n) > 0.0
    requires forall d | 0 <= d < |r| :: r[d] == Dense(exp, ScoresOf(c, q, scale, n), ValueRows(c, n), |r|, d)
    ensures IsAttention(c, exp, q, scale, n, r)
  {
    var s := ScoresOf(c, q, scale, n);
    var w := Weights(exp, s);
    WeightsMean(c, exp, q, scale, n);
    WeightsAdd(exp, s, n);
    assert w[..n] == w;
    DensesAreAverages(c, exp, s, r);
  }

  /** The running maximum: minus infinity until a score has been seen. */
  datatype Running = NegInfinity | Finite(value: real)

  function MaxWith(m: Running, x: real): real {
    if m.Finite? && m.value > x then m.value else x
  }

  /** exp(m - m'), which is 0 for m = -infinity. */
  function RescaleFactor(exp: Exp, m: Running, m': real): real {
    if m.NegInfinity? then 0.0 else exp(m.value - m')
  }

  /** `m` is the largest of the first `n` scores. */
  ghost predicate IsMax(s: seq<real>, m: real, n: nat)
    requires n <= |s|
  {
    (forall i | 0 <= i < n :: s[i] <= m) && exists i :: 0 <= i < n && s[i] == m
  }

  // ---------- the loops ----------

  method DotKeyLoop(c: Cache, q: seq<real>, p: nat) returns (dot: real)
    requires ReadableAt(c, p) && c.g.headDim == |q|
    ensures dot == DotKey(c, q, p, c.g.headDim)
  {
    dot := 0.0;
    for d := 0 to c.g.headDim
      invariant dot == DotKey(c, q, p, d)
    {
      assert InSlab(c, p, false, d);
      dot := dot + Times(q[d], Element(c, p, false, d));
    }
  }

  /** The scores of one tile. */
  method ScoreTile(c: Cache, q: seq<real>, scale: real, from: nat, end: nat) returns (scores: seq<real>)
    requires from <= end && c.g.headDim == |q| && forall p: nat | from <= p < end :: ReadableAt(c, p)
    ensures |scores| == end - from
    ensures forall p: nat | from <= p < end :: ReadableAt(c, p) && scores[p - from] == ScoreOf(c, q, p, scale)
  {
    scores := [];
    for p := from to end
      invariant |scores| == p - from
      invariant forall p': nat | from <= p' < p :: ReadableAt(c, p') && scores[p' - from] == ScoreOf(c, q, p', scale)
    {
      assert ReadableAt(c, p);
      var dot := DotKeyLoop(c, q, p);
      scores := scores + [Times(dot, scale)];
    }
  }

  /** The largest of some scores. */
  method MaxScore(scores: seq<real>) returns (m: Running)
    ensures m.NegInfinity? <==> scores == []
    ensures m.Finite? ==> IsMax(scores, m.value, |scores|)
  {
    m := NegInfinity;
    for k := 0 to |scores|
      invariant m.NegInfinity? <==> k == 0
      invariant m.Finite? ==> IsMax(scores, m.value, k)
    {
      m := Finite(MaxWith(m, scores[k]));
    }
  }

  method ScaleInPlace(out: array<real>, f: real)
    modifies out
    ensures out[..] == ScaleVec(old(out[..]), f)
  {
    ghost var before := out[..];
    for d := 0 to out.Length
      invariant forall j | 0 <= j < d :: out[j] == Times(before[j], f)
      invariant forall j | d <= j < out.Length :: out[j] == before[j]
    {
      out[d] := Times(out[d], f);
    }
  }

  /** Adds `alpha` times the value row of position `p`. */
  method AccumulateRow(c: Cache, p: nat, out: array<real>, alpha: real, ghost row: seq<real>)
    requires ReadableAt(c, p) && out.Length == c.g.headDim && row == ValueRow(c, p)
    modifies out
    ensures out[..] == AddScaled(old(out[..]), alpha, row)
  {
    ghost var before := out[..];
    for d := 0 to out.Length
      invariant forall j | 0 <= j < d :: out[j] == before[j] + Times(alpha, row[j])
      invariant forall j | d <= j < out.Length :: out[j] == before[j]
    {
      assert InSlab(c, p, true, d);
      out[d] := out[d] + Times(alpha, Element(c, p, true, d));
    }
  }

  // ---------- the online softmax ----------

  /** The running state after `k` positions: the maximum so far, and sum and accumulator relative to it. */
  ghost predicate Online(exp: Exp, s: seq<real>, rows: seq<seq<real>>, dim: nat, m: Running, l: real, out: seq<real>,
                         k: nat)
    requires k <= |s| == |rows| && Rows(rows, dim)
  {
    if m.NegInfinity? then k == 0 && l == 0.0 && out == Zeros(dim)
    else
      && k > 0 && IsMax(s, m.value, k)
      && l == WeightSum(exp, s, m.value, k)
      && out == WeightedRows(exp, s, rows, m.value, dim, k)
  }

  /** Rescaling moves sum and accumulator to a new offset. */
  lemma {:induction false} Rescaled(exp: Exp, s: seq<real>, rows: seq<seq<real>>, dim: nat, m: Running, l: real,
                                    out: seq<real>, k: nat, m': real)
    requires IsExponential(exp) && k <= |s| == |rows| && Rows(rows, dim) && Online(exp, s, rows, dim, m, l, out, k)
    ensures Times(l, RescaleFactor(exp, m, m')) == WeightSum(exp, s, m', k)
    ensures ScaleVec(out, RescaleFactor(exp, m, m')) == WeightedRows(exp, s, rows, m', dim, k)
  {
    if m.Finite? {
      RescaleSum(exp, s, m.value, m', k);
      RescaleRows(exp, s, rows, m.value, m', dim, k);
    }
  }

  /** The maximum of a tile and the maximum so far make the new maximum. */
  lemma {:induction false} NewMax(s: seq<real>, tile: seq<real>, m: Running, mTile: real, k: nat, end: nat)
    requires k < end <= |s| && tile == s[k..end]
    requires if m.NegInfinity? then k == 0 else k > 0 && IsMax(s, m.value, k)
    requires IsMax(tile, mTile, |tile|)
    ensures IsMax(s, MaxWith(m, mTile), end)
  {
    var m' := MaxWith(m, mTile);
    forall i | 0 <= i < end ensures s[i] <= m' {
      if i >= k {
        assert tile[i - k] == s[i];
      }
    }
    if m.Finite? && m.value > mTile {
      var i :| 0 <= i < k && s[i] == m.value;
    } else {
      var i :| 0 <= i < |tile| && tile[i] == mTile;
      assert s[k + i] == m';
    }
  }

  lemma {:induction false} NextRow(exp: Exp, s: seq<real>, rows: seq<seq<real>>, m: real, dim: nat, p: nat, alpha: real)
    requires p < |s| == |rows| && Rows(rows, dim) && alpha == exp(s[p] - m)
    ensures WeightSum(exp, s, m, p + 1) == WeightSum(exp, s, m, p) + alpha
    ensures WeightedRows(exp, s, rows, m, dim, p + 1)
        == AddScaled(WeightedRows(exp, s, rows, m, dim, p), alpha, rows[p])
  {
  }

  /** The rows are the value rows of the cache. */
  ghost predicate Stacked(c: Cache, rows: seq<seq<real>>) {
    forall p: nat | p < |rows| :: StackedAt(c, rows, p)
  }

  ghost predicate StackedAt(c: Cache, rows: seq<seq<real>>, p: nat)
    requires p < |rows|
  {
    ReadableAt(c, p) && rows[p] == ValueRow(c, p)
  }

  /** The first `p` weights and rows have been added up, of which `before` was there already. */
  ghost predicate Summed(exp: Exp, s: seq<real>, rows: seq<seq<real>>, m: real, dim: nat, p: nat, before: real, l: real,
                         out: seq<real>)
    requires p <= |s| == |rows| && Rows(rows, dim)
  {
    out == WeightedRows(exp, s, rows, m, dim, p) && before + l == WeightSum(exp, s, m, p)
  }

  /** One position: its weight is added, and its value row accumulated. */
  method AddPosition(c: Cache, exp: Exp, p: nat, score: real, m: real, l: real, out: array<real>,
                     ghost s: seq<real>, ghost rows: seq<seq<real>>, ghost before: real) returns (l': real)
    requires p < |s| == |rows| && Rows(rows, c.g.headDim) && out.Length == c.g.headDim
    requires Stacked(c, rows) && score == s[p] && Summed(exp, s, rows, m, c.g.headDim, p, before, l, out[..])
    modifies out
    ensures Summed(exp, s, rows, m, c.g.headDim, p + 1, before, l', out[..])
  {
    assert StackedAt(c, rows, p);
    var alpha := exp(score - m);
    AccumulateRow(c, p, out, alpha, rows[p]);
    NextRow(exp, s, rows, m, c.g.headDim, p, alpha);
    l' := l + alpha;
  }

  /** The weights of one tile are added up, and its values are accumulated. */
  method AccumulateTile(c: Cache, exp: Exp, scores: seq<real>, from: nat, end: nat, m: real, out: array<real>,
                        ghost s: seq<real>, ghost rows: seq<seq<real>>, ghost before: real) returns (lTile: real)
    requires from <= end <= |s| == |rows| && Rows(rows, c.g.headDim) && out.Length == c.g.headDim
    requires Stacked(c, rows) && |scores| == end - from && forall k | 0 <= k < |scores| :: scores[k] == s[from + k]
    requires Summed(exp, s, rows, m, c.g.headDim, from, before, 0.0, out[..])
    modifies out
    ensures Summed(exp, s, rows, m, c.g.headDim, end, before, lTile, out[..])
  {
    lTile := 0.0;
    for k := 0 to |scores|
      invariant Summed(exp, s, rows, m, c.g.headDim, from + k, before, lTile, out[..])
    {
      lTile := AddPosition(c, exp, from + k, scores[k], m, lTile, out, s, rows, before);
    }
  }

  /** Component `d` of the first `k` rows lies between `lo` and `hi`. */
  ghost predicate Between(rows: seq<seq<real>>, k: nat, d: nat, lo: real, hi: real) {
    forall i | 0 <= i < k && i < |rows| && d < |rows[i]| :: lo <= rows[i][d] <= hi
  }

  /** Each component lies between any bounds of that component of the first `k` rows. */
  ghost predicate Averaged(r: seq<real>, rows: seq<seq<real>>, k: nat) {
    forall d, lo, hi | 0 <= d < |r| && Between(rows, k, d, lo, hi) :: lo <= r[d] <= hi
  }

  lemma {:induction false} DenseAveraged(exp: Exp, s: seq<real>, rows: seq<seq<real>>, dim: nat, r: seq<real>)
    requires IsExponential(exp) && |s| == |rows| > 0 && Rows(rows, dim) && |r| == dim
    requires WeightSum(exp, s, 0.0, |s|) > 0.0 && forall d | 0 <= d < dim :: r[d] == Dense(exp, s, rows, dim, d)
    ensures Averaged(r, rows, |rows|)
  {
    forall d, lo, hi | 0 <= d < dim && Between(rows, |rows|, d, lo, hi) ensures lo <= r[d] <= hi {
      DenseBetween(exp, s, rows, dim, d, lo, hi);
    }
  }

  /** Divides the accumulator by the running sum. */
  method Normalise(exp: Exp, out: array<real>, m: real, l: real, ghost s: seq<real>, ghost rows: seq<seq<real>>)
    requires IsExponential(exp) && |s| == |rows| > 0 && Rows(rows, out.Length)
    requires l == WeightSum(exp, s, m, |s|) && out[..] == WeightedRows(exp, s, rows, m, out.Length, |s|)
    modifies out
    ensures WeightSum(exp, s, 0.0, |s|) > 0.0
    ensures forall d | 0 <= d < out.Length :: out[d] == Dense(exp, s, rows, out.Length, d)
    ensures Averaged(out[..], rows, |rows|)
  {
    ghost var x := out[..];
    SumPositive(exp, s, 0.0, |s|);
    SumPositive(exp, s, m, |s|);
    var lInv := 1.0 / l;
    ScaleInPlace(out, lInv);
    forall d | 0 <= d < out.Length ensures out[d] == Dense(exp, s, rows, out.Length, d) {
      Normalised(exp, s, rows, m, out.Length, d);
      assert out[..][d] == Times(x[d], lInv);
    }
    DenseAveraged(exp, s, rows, out.Length, out[..]);
  }

  /** Divided by `l`, each component lies between any bounds of that component of the first `k` rows. */
  ghost predicate Averages(out: seq<real>, l: real, rows: seq<seq<real>>, k: nat) {
    l > 0.0 && forall d, lo, hi | 0 <= d < |out| && Between(rows, k, d, lo, hi) :: lo <= out[d] / l <= hi
  }

  lemma {:induction false} OnlineAverages(exp: Exp, s: seq<real>, rows: seq<seq<real>>, dim: nat, m: Running, l: real,
                                          out: seq<real>, k: nat)
    requires IsExponential(exp) && 0 < k <= |s| == |rows| && Rows(rows, dim) && Online(exp, s, rows, dim, m, l, out, k)
    ensures Averages(out, l, rows, k)
  {
    SumPositive(exp, s, m.value, k);
    forall d, lo, hi | 0 <= d < |out| && Between(rows, k, d, lo, hi) ensures lo <= out[d] / l <= hi {
      RowBounds(exp, s, rows, m.value, dim, k, d, lo, hi);
      Quotient(l, out[d], lo, hi);
    }
  }

  /** One tile: scores, new maximum, rescaling, accumulation. */
  method Tile(c: Cache, exp: Exp, q: seq<real>, scale: real, m: Running, l: real, out: array<real>, from: nat, end: nat,
              ghost s: seq<real>, ghost rows: seq<seq<real>>) returns (m': Running, l': real)
    requires IsExponential(exp) && from < end <= |s| == |rows| && Rows(rows, c.g.headDim) && c.g.headDim == |q|
    requires forall p: nat | p < |s| :: ReadableAt(c, p) && rows[p] == ValueRow(c, p) && s[p] == ScoreOf(c, q, p, scale)
    requires out.Length == c.g.headDim && Online(exp, s, rows, c.g.headDim, m, l, out[..], from)
    modifies out
    ensures m'.Finite? && Online(exp, s, rows, c.g.headDim, m', l', out[..], end)
    ensures 1.0 <= l' <= end as real && Averages(out[..], l', rows, end)
  {
    var scores := ScoreTile(c, q, scale, from, end);
    assert scores == s[from..end];
    var mTile := MaxScore(scores);
    var mNew := MaxWith(m, mTile.value);
    NewMax(s, scores, m, mTile.value, from, end);
    Rescaled(exp, s, rows, c.g.headDim, m, l, out[..], from, mNew);
    assert Stacked(c, rows) by {
      forall p: nat | p < |rows| ensures StackedAt(c, rows, p) {
      }
    }
    var rescale := RescaleFactor(exp, m, mNew);
    ScaleInPlace(out, rescale);
    var lTile := AccumulateTile(c, exp, scores, from, end, mNew, out, s, rows, WeightSum(exp, s, mNew, from));
    m', l' := Finite(mNew), Times(l, rescale) + lTile;
    SumBounds(exp, s, mNew, end);
    OnlineAverages(exp, s, rows, c.g.headDim, m', l', out[..], end);
  }

  /** One head's attention over `n` positions, for any tile size: dense softmax attention, which lies between the
      bounds of the values. After every tile the running sum is between one and the number of positions seen. */
  method FlashAttnPaged(c: Cache, exp: Exp, q: seq<real>, n: nat, scale: real, tileK: nat) returns (r: seq<real>)
    requires IsExponential(exp) && n > 0 && tileK > 0 && Readable(c, n) && c.g.headDim == |q|
    ensures |r| == c.g.headDim
    ensures WeightSum(exp, ScoresOf(c, q, scale, n), 0.0, n) > 0.0
    ensures forall d | 0 <= d < c.g.headDim ::
              r[d] == Dense(exp, ScoresOf(c, q, scale, n), ValueRows(c, n), c.g.headDim, d)
    ensures IsAttention(c, exp, q, scale, n, r)
    ensures Averaged(r, ValueRows(c, n), n)
  {
    ghost var s, rows, dim := ScoresOf(c, q, scale, n), ValueRows(c, n), c.g.headDim;
    var m, l := NegInfinity, 0.0;
    var out := new real[c.g.headDim](_ => 0.0);
    assert out[..] == Zeros(dim);
    var processed := 0;
    while processed < n
      invariant processed <= n && (m.Finite? <==> processed > 0)
      invariant Online(exp, s, rows, dim, m, l, out[..], processed)
      invariant processed > 0 ==> 1.0 <= l <= processed as real
    {
      var end := if processed + tileK < n then processed + tileK else n;
      m, l := Tile(c, exp, q, scale, m, l, out, processed, end, s, rows);
      processed := end;
    }
    Normalise(exp, out, m.value, l, s, rows);
    r := out[..];
    DenseMeans(c, exp, q, scale, n, r);
  }
}
