/** Weighted sums with exponential weights, and how they change with the offset subtracted from the scores.
    `exp` is any function with the laws of the exponential. */
module Softmax {
  import opened Arithmetic

  type Exp = real -> real

  /** exp(a + b) = exp(a) exp(b) */
  predicate SumLaw(exp: Exp, a: real, b: real) {
    exp(a + b) == Times(exp(a), exp(b))
  }

  predicate OrderLaw(exp: Exp, a: real, b: real) {
    a <= b ==> exp(a) <= exp(b)
  }

  predicate PositiveLaw(exp: Exp, a: real) {
    exp(a) > 0.0
  }

  ghost predicate IsExponential(exp: Exp) {
    && (forall a :: PositiveLaw(exp, a))
    && (forall a, b :: SumLaw(exp, a, b))
    && (forall a, b :: OrderLaw(exp, a, b))
  }

  function ScaleVec(x: seq<real>, f: real): (r: seq<real>)
    ensures |r| == |x| && forall d | 0 <= d < |x| :: r[d] == Times(x[d], f)
  {
    seq(|x|, d requires 0 <= d < |x| => Times(x[d], f))
  }

  /** `x + f row` */
  function AddScaled(x: seq<real>, f: real, row: seq<real>): (r: seq<real>)
    requires |row| == |x|
    ensures |r| == |x| && forall d | 0 <= d < |x| :: r[d] == x[d] + Times(f, row[d])
  {
    seq(|x|, d requires 0 <= d < |x| => x[d] + Times(f, row[d]))
  }

  function Zeros(dim: nat): (r: seq<real>)
    ensures |r| == dim && forall d | 0 <= d < dim :: r[d] == 0.0
  {
    seq(dim, _ => 0.0)
  }

  ghost predicate Rows(rows: seq<seq<real>>, dim: nat) {
    forall i | 0 <= i < |rows| :: |rows[i]| == dim
  }

  /** The sum of exp(s - m) over the first `n` scores. */
  function WeightSum(exp: Exp, s: seq<real>, m: real, n: nat): real
    requires n <= |s|
  {
    if n == 0 then 0.0 else WeightSum(exp, s, m, n - 1) + exp(s[n - 1] - m)
  }

  /** The sum of exp(s - m) row over the first `n` scores and rows. */
  ghost function WeightedRows(exp: Exp, s: seq<real>, rows: seq<seq<real>>, m: real, dim: nat, n: nat): (r: seq<real>)
    requires n <= |s| == |rows| && Rows(rows, dim)
    ensures |r| == dim
  {
    if n == 0 then Zeros(dim)
    else AddScaled(WeightedRows(exp, s, rows, m, dim, n - 1), exp(s[n - 1] - m), rows[n - 1])
  }

  /** Dense softmax attention: the rows averaged with weights exp(s). */
  ghost function Dense(exp: Exp, s: seq<real>, rows: seq<seq<real>>, dim: nat, d: nat): real
    requires |s| == |rows| > 0 && Rows(rows, dim) && d < dim
    requires WeightSum(exp, s, 0.0, |s|) != 0.0
  {
    WeightedRows(exp, s, rows, 0.0, dim, |s|)[d] / WeightSum(exp, s, 0.0, |s|)
  }

  // ---------- changing the offset ----------

  lemma {:induction false} Shift(exp: Exp, x: real, m: real, m': real)
    requires IsExponential(exp)
    ensures Times(exp(x - m), exp(m - m')) == exp(x - m')
  {
    assert SumLaw(exp, x - m, m - m');
    assert (x - m) + (m - m') == x - m';
  }

  lemma {:induction false} TimesAssoc(a: real, b: real, f: real)
    ensures Times(Times(a, b), f) == Times(Times(a, f), b)
  {
  }

  lemma {:induction false} RescaleSum(exp: Exp, s: seq<real>, m: real, m': real, n: nat)
    requires IsExponential(exp) && n <= |s|
    ensures Times(WeightSum(exp, s, m, n), exp(m - m')) == WeightSum(exp, s, m', n)
  {
    if n > 0 {
      RescaleSum(exp, s, m, m', n - 1);
      Shift(exp, s[n - 1], m, m');
      TimesAdd(WeightSum(exp, s, m, n - 1), exp(s[n - 1] - m), exp(m - m'));
    }
  }

  lemma {:induction false} RescaleRows(exp: Exp, s: seq<real>, rows: seq<seq<real>>, m: real, m': real, dim: nat,
                                       n: nat)
    requires IsExponential(exp) && n <= |s| == |rows| && Rows(rows, dim)
    ensures ScaleVec(WeightedRows(exp, s, rows, m, dim, n), exp(m - m')) == WeightedRows(exp, s, rows, m', dim, n)
  {
    var f := exp(m - m');
    var x, x' := WeightedRows(exp, s, rows, m, dim, n), WeightedRows(exp, s, rows, m', dim, n);
    if n > 0 {
      RescaleRows(exp, s, rows, m, m', dim, n - 1);
      Shift(exp, s[n - 1], m, m');
      var y, y' := WeightedRows(exp, s, rows, m, dim, n - 1), WeightedRows(exp, s, rows, m', dim, n - 1);
      forall d | 0 <= d < dim ensures Times(x[d], f) == x'[d] {
        assert Times(y[d], f) == y'[d] by { assert ScaleVec(y, f)[d] == y'[d]; }
        TimesAdd(y[d], Times(exp(s[n - 1] - m), rows[n - 1][d]), f);
        TimesAssoc(exp(s[n - 1] - m), rows[n - 1][d], f);
      }
    } else {
      forall d | 0 <= d < dim ensures Times(x[d], f) == x'[d] {
      }
    }
  }

  // ---------- bounds ----------

  lemma {:induction false} ExpZero(exp: Exp)
    requires IsExponential(exp)
    ensures exp(0.0) == 1.0
  {
    assert SumLaw(exp, 0.0, 0.0) && PositiveLaw(exp, 0.0);
    assert 0.0 + 0.0 == 0.0;
    OwnSquare(exp(0.0));
  }

  lemma {:induction false} OwnSquare(e: real)
    requires e > 0.0 && e == Times(e, e)
    ensures e == 1.0
  {
    if e < 1.0 {
      Strict(e, e, 1.0);
    } else if e > 1.0 {
      Strict(e, 1.0, e);
    }
  }

  /** With `m` the largest of the first `n` scores, the weights sum to between 1 and `n`. */
  lemma {:induction false} SumBounds(exp: Exp, s: seq<real>, m: real, n: nat)
    requires IsExponential(exp) && n <= |s|
    requires forall i | 0 <= i < n :: s[i] <= m
    ensures 0.0 <= WeightSum(exp, s, m, n) <= n as real
    ensures (exists i :: 0 <= i < n && s[i] == m) ==> 1.0 <= WeightSum(exp, s, m, n)
    ensures n > 0 ==> WeightSum(exp, s, m, n) > 0.0
  {
    if n > 0 {
      ExpZero(exp);
      SumBounds(exp, s, m, n - 1);
      assert PositiveLaw(exp, s[n - 1] - m) && OrderLaw(exp, s[n - 1] - m, 0.0);
    }
  }

  lemma {:induction false} SumPositive(exp: Exp, s: seq<real>, m: real, n: nat)
    requires IsExponential(exp) && n <= |s|
    ensures WeightSum(exp, s, m, n) >= 0.0
    ensures n > 0 ==> WeightSum(exp, s, m, n) > 0.0
  {
    if n > 0 {
      SumPositive(exp, s, m, n - 1);
      assert PositiveLaw(exp, s[n - 1] - m);
    }
  }

  lemma {:induction false} TimesMonotone(f: real, a: real, b: real)
    requires f >= 0.0 && a <= b
    ensures Times(f, a) <= Times(f, b)
  {
  }

  /** The weighted rows lie between the bounds of the values, times the weights. */
  lemma {:induction false} RowBounds(exp: Exp, s: seq<real>, rows: seq<seq<real>>, m: real, dim: nat, n: nat, d: nat,
                                     lo: real, hi: real)
    requires IsExponential(exp) && n <= |s| == |rows| && Rows(rows, dim) && d < dim
    requires forall i | 0 <= i < n :: lo <= rows[i][d] <= hi
    ensures Times(WeightSum(exp, s, m, n), lo) <= WeightedRows(exp, s, rows, m, dim, n)[d]
        <= Times(WeightSum(exp, s, m, n), hi)
  {
    if n > 0 {
      RowBounds(exp, s, rows, m, dim, n - 1, d, lo, hi);
      var f := exp(s[n - 1] - m);
      assert PositiveLaw(exp, s[n - 1] - m);
      TimesMonotone(f, lo, rows[n - 1][d]);
      TimesMonotone(f, rows[n - 1][d], hi);
      TimesAdd(WeightSum(exp, s, m, n - 1), f, lo);
      TimesAdd(WeightSum(exp, s, m, n - 1), f, hi);
    }
  }

  lemma {:induction false} Quotient(z: real, x: real, lo: real, hi: real)
    requires z > 0.0 && Times(z, lo) <= x <= Times(z, hi)
    ensures lo <= x / z <= hi
  {
    var q := x / z;
    assert q * z == x;
    if q < lo {
      Strict(z, q, lo);
    }
    if q > hi {
      Strict(z, hi, q);
    }
  }

  lemma {:induction false} Strict(z: real, a: real, b: real)
    requires z > 0.0 && a < b
    ensures Times(z, a) < Times(z, b)
  {
  }

  /** Normalising with any offset gives dense softmax. */
  lemma {:induction false} Normalised(exp: Exp, s: seq<real>, rows: seq<seq<real>>, m: real, dim: nat, d: nat)
    requires IsExponential(exp) && |s| == |rows| > 0 && Rows(rows, dim) && d < dim
    ensures WeightSum(exp, s, 0.0, |s|) > 0.0 && WeightSum(exp, s, m, |s|) > 0.0
    ensures Times(WeightedRows(exp, s, rows, m, dim, |s|)[d], 1.0 / WeightSum(exp, s, m, |s|))
        == Dense(exp, s, rows, dim, d)
  {
    var n := |s|;
    SumPositive(exp, s, 0.0, n);
    SumPositive(exp, s, m, n);
    RescaleSum(exp, s, 0.0, m, n);
    RescaleRows(exp, s, rows, 0.0, m, dim, n);
    assert PositiveLaw(exp, 0.0 - m);
    var x, z, f := WeightedRows(exp, s, rows, 0.0, dim, n), WeightSum(exp, s, 0.0, n), exp(0.0 - m);
    assert ScaleVec(x, f)[d] == Times(x[d], f);
    Cancel(x[d], z, f);
  }

  lemma {:induction false} Cancel(x: real, z: real, f: real)
    requires z > 0.0 && f > 0.0 && Times(z, f) > 0.0
    ensures Times(Times(x, f), 1.0 / Times(z, f)) == x / z
  {
    var q := x / z;
    assert x == q * z;
    var w := z * f;
    assert x * f == q * w;
    assert q * w * (1.0 / w) == q * (w * (1.0 / w));
  }

  /** Attention averages: its output lies between the bounds of the values. */
  lemma {:induction false} DenseBetween(exp: Exp, s: seq<real>, rows: seq<seq<real>>, dim: nat, d: nat, lo: real,
                                        hi: real)
    requires IsExponential(exp) && |s| == |rows| > 0 && Rows(rows, dim) && d < dim
    requires forall i | 0 <= i < |rows| :: lo <= rows[i][d] <= hi
    ensures WeightSum(exp, s, 0.0, |s|) > 0.0
    ensures lo <= Dense(exp, s, rows, dim, d) <= hi
  {
    SumPositive(exp, s, 0.0, |s|);
    RowBounds(exp, s, rows, 0.0, dim, |s|, d, lo, hi);
    Quotient(WeightSum(exp, s, 0.0, |s|), WeightedRows(exp, s, rows, 0.0, dim, |s|)[d], lo, hi);
  }
}
