/** The dot product of an embedded query and an embedded key, as a sum over pairs of coordinates. */
module RopeDots {
  import opened Arithmetic
  import opened Rope

  /** `d` is the sum of the products of `a` and `b`. */
  ghost predicate IsDot(a: seq<real>, b: seq<real>, d: real) {
    exists xs: seq<real> ::
      |xs| == |a| == |b| && d == SumReals(xs) && forall i: nat | i < |xs| :: xs[i] == a[i] * b[i]
  }

  function Products(a: seq<real>, b: seq<real>): (xs: seq<real>)
    requires |a| == |b|
    ensures |xs| == |a| && forall i | 0 <= i < |a| :: xs[i] == Times(a[i], b[i])
  {
    seq(|a|, i requires 0 <= i < |a| => Times(a[i], b[i]))
  }

  lemma {:induction false} DotIsSum(a: seq<real>, b: seq<real>, lo: nat, n: nat)
    requires |a| == |b| && n <= |a| && lo == 0
    ensures Dot(a, b, lo, n) == SumReals(Products(a, b)[..n])
  {
    if n > 0 {
      DotIsSum(a, b, lo, n - 1);
      assert Products(a, b)[..n][..n - 1] == Products(a, b)[..n - 1];
    }
  }

  lemma {:induction false} DotMeans(a: seq<real>, b: seq<real>)
    requires |a| == |b|
    ensures IsDot(a, b, Dot(a, b, 0, |a|))
  {
    DotIsSum(a, b, 0, |a|);
    assert Products(a, b)[..|a|] == Products(a, b);
  }

  /** What a pair adds, with the query `delta` further round than the key. */
  predicate IsPairTerm(t: Trig, delta: real, q0: real, q1: real, k0: real, k1: real, y: real) {
    y == (q0 * k0 + q1 * k1) * t.cos(delta) + (q0 * k1 - q1 * k0) * t.sin(delta)
  }

  lemma {:induction false} PairTermMeans(t: Trig, a: real, b: real, delta: real, q0: real, q1: real, k0: real, k1: real)
    requires a - b == delta
    ensures IsPairTerm(t, delta, q0, q1, k0, k1, PairTerm(t, a - b, q0, q1, k0, k1))
  {
  }

  lemma {:induction false} AngleBetween(freq: Freq, m: nat, n: nat, j: nat)
    ensures Angle(freq, m, j) - Angle(freq, n, j) == (m - n) as real * freq(j)
  {
  }

  // ---------- halves ----------

  predicate IsHalfTerm(t: Trig, freq: Freq, q: seq<real>, k: seq<real>, apart: int, xs: seq<real>, j: nat)
    requires |q| == |k| && j < |q| / 2 == |xs|
  {
    var h := |q| / 2;
    IsPairTerm(t, apart as real * freq(j), q[j], q[h + j], k[j], k[h + j], xs[j])
  }

  /** `d` is the sum over the pairs `j` and `h + j`, turned by `apart` times the frequency of `j`, and the last
      coordinate of an odd number. */
  ghost predicate IsHalfDot(t: Trig, freq: Freq, q: seq<real>, k: seq<real>, apart: int, d: real)
    requires |q| == |k|
  {
    exists xs: seq<real> ::
      && |xs| == |q| / 2 && (forall j: nat | j < |xs| :: IsHalfTerm(t, freq, q, k, apart, xs, j))
      && d == SumReals(xs) + if |q| % 2 == 1 then q[|q| - 1] * k[|k| - 1] else 0.0
  }

  /** Pair `j` of a query at `m` and a key at `n`. */
  function HalfTerm(t: Trig, freq: Freq, q: seq<real>, k: seq<real>, m: nat, n: nat, j: nat): real
    requires |q| == |k| && j < |q| / 2
  {
    var h := |q| / 2;
    PairTerm(t, Angle(freq, m, j) - Angle(freq, n, j), q[j], q[h + j], k[j], k[h + j])
  }

  function HalfTerms(t: Trig, freq: Freq, q: seq<real>, k: seq<real>, m: nat, n: nat): (xs: seq<real>)
    requires |q| == |k|
    ensures |xs| == |q| / 2 && forall j: nat | j < |xs| :: xs[j] == HalfTerm(t, freq, q, k, m, n, j)
  {
    seq(|q| / 2, j requires 0 <= j < |q| / 2 => HalfTerm(t, freq, q, k, m, n, j))
  }

  lemma {:induction false} HalfPair(t: Trig, freq: Freq, q: seq<real>, k: seq<real>, m: nat, n: nat, h: nat, j: nat)
    requires IsTrig(t) && |q| == |k| && h == |q| / 2 && j < h
    ensures var a, b := HalfSplit(t, freq, q, m), HalfSplit(t, freq, k, n);
            Times(a[j], b[j]) + Times(a[h + j], b[h + j]) == HalfTerm(t, freq, q, k, m, n, j)
  {
    HalfToAt(t, freq, q, m, h, h, j);
    HalfToAt(t, freq, k, n, h, h, j);
    RotatedPair(t, Angle(freq, m, j), Angle(freq, n, j), q[j], q[h + j], k[j], k[h + j]);
  }

  lemma {:induction false} HalfPairs(t: Trig, freq: Freq, q: seq<real>, k: seq<real>, m: nat, n: nat, h: nat,
                                     count: nat)
    requires IsTrig(t) && |q| == |k| && count <= h == |q| / 2
    ensures PairDot(HalfSplit(t, freq, q, m), HalfSplit(t, freq, k, n), h, count)
         == SumReals(HalfTerms(t, freq, q, k, m, n)[..count])
  {
    if count > 0 {
      var xs := HalfTerms(t, freq, q, k, m, n);
      HalfPairs(t, freq, q, k, m, n, h, count - 1);
      HalfPair(t, freq, q, k, m, n, h, count - 1);
      assert xs[..count][..count - 1] == xs[..count - 1];
    }
  }

  lemma {:induction false} LastCoordinate(t: Trig, freq: Freq, q: seq<real>, k: seq<real>, m: nat, n: nat)
    requires |q| == |k|
    ensures Dot(HalfSplit(t, freq, q, m), HalfSplit(t, freq, k, n), 2 * (|q| / 2), |q| - 2 * (|q| / 2))
         == if |q| % 2 == 1 then q[|q| - 1] * k[|k| - 1] else 0.0
  {
    var h := |q| / 2;
    HalfToTail(t, freq, q, m, h, h);
    HalfToTail(t, freq, k, n, h, h);
  }

  lemma {:induction false} HalfTermsMean(t: Trig, freq: Freq, q: seq<real>, k: seq<real>, m: nat, n: nat, apart: int)
    requires |q| == |k| && apart == m - n
    ensures forall j: nat | j < |q| / 2 :: IsHalfTerm(t, freq, q, k, apart, HalfTerms(t, freq, q, k, m, n), j)
  {
    var h := |q| / 2;
    forall j: nat | j < h ensures IsHalfTerm(t, freq, q, k, apart, HalfTerms(t, freq, q, k, m, n), j) {
      AngleBetween(freq, m, n, j);
      PairTermMeans(t, Angle(freq, m, j), Angle(freq, n, j), apart as real * freq(j), q[j], q[h + j], k[j], k[h + j]);
    }
  }

  /** A query at `m` and a key at `n`: each pair is turned by the difference of the positions times its frequency. */
  lemma {:induction false} HalfDotMeans(t: Trig, freq: Freq, q: seq<real>, k: seq<real>, m: nat, n: nat, apart: int)
    requires IsTrig(t) && |q| == |k| && apart == m - n
    ensures IsDot(HalfSplit(t, freq, q, m), HalfSplit(t, freq, k, n),
              Dot(HalfSplit(t, freq, q, m), HalfSplit(t, freq, k, n), 0, |q|))
    ensures IsHalfDot(t, freq, q, k, apart, Dot(HalfSplit(t, freq, q, m), HalfSplit(t, freq, k, n), 0, |q|))
  {
    var xs, h := HalfTerms(t, freq, q, k, m, n), |q| / 2;
    DotMeans(HalfSplit(t, freq, q, m), HalfSplit(t, freq, k, n));
    DotByPairs(HalfSplit(t, freq, q, m), HalfSplit(t, freq, k, n));
    HalfPairs(t, freq, q, k, m, n, h, h);
    LastCoordinate(t, freq, q, k, m, n);
    assert xs[..h] == xs;
    HalfTermsMean(t, freq, q, k, m, n, apart);
  }

  // ---------- neighbours ----------

  predicate IsNeighbourTerm(t: Trig, freq: Freq, q: seq<real>, k: seq<real>, apart: int, xs: seq<real>, j: nat)
    requires |q| == |k| && j < |q| / 2 == |xs|
  {
    IsPairTerm(t, apart as real * freq(j), q[2 * j], q[2 * j + 1], k[2 * j], k[2 * j + 1], xs[j])
  }

  /** `d` is the sum over the pairs `2 * j` and `2 * j + 1`, turned by `apart` times the frequency of `j`. */
  ghost predicate IsNeighbourDot(t: Trig, freq: Freq, q: seq<real>, k: seq<real>, apart: int, d: real)
    requires |q| == |k|
  {
    exists xs: seq<real> ::
      && |xs| == |q| / 2 && d == SumReals(xs)
      && forall j: nat | j < |xs| :: IsNeighbourTerm(t, freq, q, k, apart, xs, j)
  }

  lemma {:induction false} UnzippedDot(t: Trig, freq: Freq, q: seq<real>, k: seq<real>, apart: int, d: real)
    requires |q| == |k| && |q| % 2 == 0 && IsHalfDot(t, freq, Unzip(q), Unzip(k), apart, d)
    ensures IsNeighbourDot(t, freq, q, k, apart, d)
  {
    var xs: seq<real> :|
      && |xs| == |q| / 2 && (forall j: nat | j < |xs| :: IsHalfTerm(t, freq, Unzip(q), Unzip(k), apart, xs, j))
      && d == SumReals(xs) + 0.0;
    forall j: nat | j < |xs| ensures IsNeighbourTerm(t, freq, q, k, apart, xs, j) {
      assert IsHalfTerm(t, freq, Unzip(q), Unzip(k), apart, xs, j);
      UnzipAt(q, j);
      UnzipAt(k, j);
    }
  }

  /** The same for the in-place version. */
  lemma {:induction false} NeighbourDotMeans(t: Trig, freq: Freq, q: seq<real>, k: seq<real>, m: nat, n: nat,
                                             apart: int)
    requires IsTrig(t) && |q| == |k| && |q| % 2 == 0 && apart == m - n
    ensures var y, z := Interleaved(t, freq, q, m, |q| / 2), Interleaved(t, freq, k, n, |q| / 2);
            IsDot(y, z, Dot(y, z, 0, |q|)) && IsNeighbourDot(t, freq, q, k, apart, Dot(y, z, 0, |q|))
  {
    var y, z := Interleaved(t, freq, q, m, |q| / 2), Interleaved(t, freq, k, n, |q| / 2);
    DotMeans(y, z);
    InterleavedDot(t, freq, q, k, m, n);
    HalfDotMeans(t, freq, Unzip(q), Unzip(k), m, n, apart);
    UnzippedDot(t, freq, q, k, apart, Dot(y, z, 0, |q|));
  }
}
