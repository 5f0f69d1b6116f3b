/** Rotary position embedding in its two layouts: halves of a head, on a copy, as the engine does it, and
    neighbouring coordinates, in place. Sine and cosine are any functions with their laws. */
module Rope {
  import opened Arithmetic
  import opened Slices

  datatype Trig = Trig(sin: real -> real, cos: real -> real)

  predicate SumLaws(t: Trig, a: real, b: real) {
    && t.cos(a + b) == Times(t.cos(a), t.cos(b)) - Times(t.sin(a), t.sin(b))
    && t.sin(a + b) == Times(t.sin(a), t.cos(b)) + Times(t.cos(a), t.sin(b))
  }

  predicate ParityLaws(t: Trig, a: real) {
    t.cos(-a) == t.cos(a) && t.sin(-a) == -t.sin(a)
  }

  ghost predicate IsTrig(t: Trig) {
    t.cos(0.0) == 1.0 && (forall a, b :: SumLaws(t, a, b)) && (forall a :: ParityLaws(t, a))
  }

  /** The frequency of each pair of coordinates. */
  type Freq = nat -> real

  function Angle(freq: Freq, pos: nat, j: nat): real {
    Times(pos as real, freq(j))
  }

  function First(t: Trig, a: real, x0: real, x1: real): real {
    Times(x0, t.cos(a)) - Times(x1, t.sin(a))
  }

  function Second(t: Trig, a: real, x0: real, x1: real): real {
    Times(x0, t.sin(a)) + Times(x1, t.cos(a))
  }

  /** Coordinates `i` and `k` rotated by `a`. */
  function PairRotated(t: Trig, a: real, x: seq<real>, i: nat, k: nat): (r: seq<real>)
    requires i < k < |x|
    ensures |r| == |x|
  {
    x[i := First(t, a, x[i], x[k])][k := Second(t, a, x[i], x[k])]
  }

  method RotatePair(t: Trig, a: real, x: array<real>, i: nat, k: nat)
    requires i < k < x.Length
    modifies x
    ensures x[..] == PairRotated(t, a, old(x[..]), i, k)
  {
    var x0, x1 := x[i], x[k];
    x[i] := First(t, a, x0, x1);
    x[k] := Second(t, a, x0, x1);
  }

  // ---------- halves of a head ----------

  /** The first `n` pairs of the head at `offset` rotated: coordinate `j` is paired with coordinate `h + j`. */
  function HalfTo(t: Trig, freq: Freq, x: seq<real>, pos: nat, offset: nat, h: nat, n: nat): (r: seq<real>)
    requires n <= h && offset + 2 * h <= |x|
    ensures |r| == |x|
    decreases n
  {
    if n == 0 then x
    else PairRotated(t, Angle(freq, pos, n - 1), HalfTo(t, freq, x, pos, offset, h, n - 1), offset + n - 1,
        offset + h + n - 1)
  }

  /** A head's vector rotated. With an odd dimension the last coordinate stays. */
  function HalfSplit(t: Trig, freq: Freq, x: seq<real>, pos: nat): (r: seq<real>)
    ensures |r| == |x|
  {
    HalfTo(t, freq, x, pos, 0, |x| / 2, |x| / 2)
  }

  /** Where each coordinate of a partly rotated head comes from. */
  lemma {:induction false} HalfToAt(t: Trig, freq: Freq, x: seq<real>, pos: nat, h: nat, n: nat, j: nat)
    requires n <= h && 2 * h <= |x| && j < h
    ensures HalfTo(t, freq, x, pos, 0, h, n)[j] == if j < n then First(t, Angle(freq, pos, j), x[j], x[h + j]) else x[j]
    ensures HalfTo(t, freq, x, pos, 0, h, n)[h + j] == if j < n then Second(t, Angle(freq, pos, j), x[j], x[h + j])
        else x[h + j]
  {
    if n > 0 {
      HalfToAt(t, freq, x, pos, h, n - 1, j);
    }
  }

  lemma {:induction false} HalfToTail(t: Trig, freq: Freq, x: seq<real>, pos: nat, h: nat, n: nat)
    requires n <= h && 2 * h <= |x|
    ensures forall i | 2 * h <= i < |x| :: HalfTo(t, freq, x, pos, 0, h, n)[i] == x[i]
  {
    if n > 0 {
      HalfToTail(t, freq, x, pos, h, n - 1);
    }
  }

  /** Coordinates `j` and `h + j` of `y` are those of `x`, turned by the position times the frequency of `j`. */
  predicate HalfTurned(t: Trig, freq: Freq, x: seq<real>, y: seq<real>, pos: nat, j: nat)
    requires j < |x| / 2 && |y| == |x|
  {
    var h, a := |x| / 2, pos as real * freq(j);
    && y[j] == x[j] * t.cos(a) - x[h + j] * t.sin(a)
    && y[h + j] == x[j] * t.sin(a) + x[h + j] * t.cos(a)
  }

  /** `y` is a head's vector `x`, embedded at `pos`. With an odd dimension the last coordinate stays. */
  ghost predicate IsHalfRotated(t: Trig, freq: Freq, x: seq<real>, y: seq<real>, pos: nat) {
    && |y| == |x| && (forall j: nat | j < |x| / 2 :: HalfTurned(t, freq, x, y, pos, j))
    && forall i: nat | 2 * (|x| / 2) <= i < |x| :: y[i] == x[i]
  }

  lemma {:induction false} FirstSecond(t: Trig, freq: Freq, pos: nat, j: nat, x0: real, x1: real, a: real)
    requires a == pos as real * freq(j)
    ensures First(t, Angle(freq, pos, j), x0, x1) == x0 * t.cos(a) - x1 * t.sin(a)
    ensures Second(t, Angle(freq, pos, j), x0, x1) == x0 * t.sin(a) + x1 * t.cos(a)
  {
  }

  /** Every coordinate of a rotated head. */
  lemma {:induction false} HalfSplitMeans(t: Trig, freq: Freq, x: seq<real>, pos: nat)
    ensures IsHalfRotated(t, freq, x, HalfSplit(t, freq, x, pos), pos)
  {
    var h := |x| / 2;
    forall j: nat | j < h ensures HalfTurned(t, freq, x, HalfSplit(t, freq, x, pos), pos, j) {
      HalfToAt(t, freq, x, pos, h, h, j);
      FirstSecond(t, freq, pos, j, x[j], x[h + j], pos as real * freq(j));
    }
    HalfToTail(t, freq, x, pos, h, h);
  }

  /** Rotating a head within the vector leaves what is outside it. */
  lemma {:induction false} HalfToOutside(t: Trig, freq: Freq, x: seq<real>, pos: nat, offset: nat, dim: nat, h: nat,
                                         n: nat)
    requires n <= h && 2 * h <= dim && offset + dim <= |x|
    ensures var y := HalfTo(t, freq, x, pos, offset, h, n);
            y[..offset] == x[..offset] && y[offset + dim..] == x[offset + dim..]
  {
    if n > 0 {
      HalfToOutside(t, freq, x, pos, offset, dim, h, n - 1);
    }
  }

  /** And rotates the head, as a vector of its own. */
  lemma {:induction false} HalfToSlice(t: Trig, freq: Freq, x: seq<real>, pos: nat, offset: nat, dim: nat, h: nat,
                                       n: nat)
    requires n <= h && 2 * h <= dim && offset + dim <= |x|
    ensures HalfTo(t, freq, x, pos, offset, h, n)[offset..offset + dim]
        == HalfTo(t, freq, x[offset..offset + dim], pos, 0, h, n)
  {
    if n > 0 {
      HalfToSlice(t, freq, x, pos, offset, dim, h, n - 1);
      PairInSlice(t, Angle(freq, pos, n - 1), HalfTo(t, freq, x, pos, offset, h, n - 1), offset, dim, n - 1, h + n - 1);
    }
  }

  lemma {:induction false} PairInSlice(t: Trig, a: real, x: seq<real>, offset: nat, dim: nat, i: nat, k: nat)
    requires i < k < dim && offset + dim <= |x|
    ensures PairRotated(t, a, x, offset + i, offset + k)[offset..offset + dim]
        == PairRotated(t, a, x[offset..offset + dim], i, k)
  {
  }

  /** Head `head` of the result is that of `x`, rotated. */
  predicate Rotated(t: Trig, freq: Freq, x: seq<real>, r: seq<real>, pos: nat, headDim: nat, head: nat) {
    && head * headDim + headDim <= |x| == |r|
    && Chunk(r, headDim, head) == HalfSplit(t, freq, Chunk(x, headDim, head), pos)
  }

  /** The coordinates of head `head` are embedded at `pos`. */
  ghost predicate HeadRotated(t: Trig, freq: Freq, x: seq<real>, r: seq<real>, pos: nat, headDim: nat, head: nat) {
    var from, end := head * headDim, head * headDim + headDim;
    end <= |x| == |r| && IsHalfRotated(t, freq, x[from..end], r[from..end], pos)
  }

  lemma {:induction false} RotatedMeans(t: Trig, freq: Freq, x: seq<real>, r: seq<real>, pos: nat, headDim: nat,
                                        head: nat)
    requires Rotated(t, freq, x, r, pos, headDim, head)
    ensures HeadRotated(t, freq, x, r, pos, headDim, head)
  {
    HalfSplitMeans(t, freq, Chunk(x, headDim, head), pos);
  }

  /** One head of `out` is rotated in place. */
  method RotateHead(t: Trig, freq: Freq, out: array<real>, offset: nat, headDim: nat, pos: nat)
    requires offset + headDim <= out.Length
    modifies out
    ensures out[..] == HalfTo(t, freq, old(out[..]), pos, offset, headDim / 2, headDim / 2)
  {
    for i := 0 to headDim / 2
      invariant out[..] == HalfTo(t, freq, old(out[..]), pos, offset, headDim / 2, i)
    {
      RotatePair(t, Angle(freq, pos, i), out, offset + i, offset + headDim / 2 + i);
    }
  }

  /** All heads are rotated, each on its own, on a copy. */
  method ApplyRope(t: Trig, freq: Freq, x: seq<real>, pos: nat, nHeads: nat, headDim: nat) returns (r: seq<real>)
    requires nHeads * headDim <= |x|
    ensures |r| == |x| && r[nHeads * headDim..] == x[nHeads * headDim..]
    ensures forall head: nat | head < nHeads :: Rotated(t, freq, x, r, pos, headDim, head)
    ensures forall head: nat | head < nHeads :: HeadRotated(t, freq, x, r, pos, headDim, head)
  {
    var out := new real[|x|](i requires 0 <= i < |x| => x[i]);
    assert out[..] == x;
    for head := 0 to nHeads
      invariant head * headDim <= |x| && out[head * headDim..] == x[head * headDim..]
      invariant forall k: nat | k < head :: Rotated(t, freq, x, out[..], pos, headDim, k)
    {
      ChunkFits(nHeads, headDim, head);
      MulAdd(head, 1, headDim);
      NextHead(t, freq, x, out[..], pos, headDim, head);
      RotateHead(t, freq, out, head * headDim, headDim, pos);
    }
    r := out[..];
    forall head: nat | head < nHeads ensures HeadRotated(t, freq, x, r, pos, headDim, head) {
      RotatedMeans(t, freq, x, r, pos, headDim, head);
    }
  }

  lemma {:induction false} NextHead(t: Trig, freq: Freq, x: seq<real>, r: seq<real>, pos: nat, headDim: nat, head: nat)
    requires head * headDim + headDim <= |x| == |r|
    requires forall k: nat | k < head :: Rotated(t, freq, x, r, pos, headDim, k)
    requires r[head * headDim..] == x[head * headDim..]
    ensures var r' := HalfTo(t, freq, r, pos, head * headDim, headDim / 2, headDim / 2);
            && (forall k: nat | k < head + 1 :: Rotated(t, freq, x, r', pos, headDim, k))
            && r'[head * headDim + headDim..] == x[head * headDim + headDim..]
  {
    var r' := HalfTo(t, freq, r, pos, head * headDim, headDim / 2, headDim / 2);
    ThisHead(t, freq, x, r, pos, headDim, head, head * headDim);
    forall k: nat | k < head + 1 ensures Rotated(t, freq, x, r', pos, headDim, k) {
      if k < head {
        EarlierHead(t, freq, x, r, r', pos, headDim, head, k);
      }
    }
  }

  lemma {:induction false} ThisHead(t: Trig, freq: Freq, x: seq<real>, r: seq<real>, pos: nat, headDim: nat, head: nat,
                                    at: nat)
    requires at == head * headDim && at + headDim <= |x| == |r| && r[at..] == x[at..]
    ensures var r' := HalfTo(t, freq, r, pos, at, headDim / 2, headDim / 2);
            r'[..at] == r[..at] && r'[at + headDim..] == x[at + headDim..]
              && Rotated(t, freq, x, r', pos, headDim, head)
  {
    HalfToOutside(t, freq, r, pos, at, headDim, headDim / 2, headDim / 2);
    HalfToSlice(t, freq, r, pos, at, headDim, headDim / 2, headDim / 2);
    SliceOfTail(x, r, at, headDim);
  }

  lemma {:induction false} EarlierHead(t: Trig, freq: Freq, x: seq<real>, r: seq<real>, r': seq<real>, pos: nat,
                                       headDim: nat, head: nat, k: nat)
    requires head * headDim <= |x| == |r| == |r'| && k < head && Rotated(t, freq, x, r, pos, headDim, k)
    requires r'[..head * headDim] == r[..head * headDim]
    ensures Rotated(t, freq, x, r', pos, headDim, k)
  {
    ChunkFits(head, headDim, k);
    SliceBefore(r, r', head * headDim, k * headDim, headDim);
  }

  lemma {:induction false} SliceOfTail(x: seq<real>, r: seq<real>, at: nat, n: nat)
    requires at + n <= |x| == |r| && r[at..] == x[at..]
    ensures r[at..at + n] == x[at..at + n] && r[at + n..] == x[at + n..]
  {
    assert r[at..at + n] == r[at..][..n] && x[at..at + n] == x[at..][..n];
    assert r[at + n..] == r[at..][n..] && x[at + n..] == x[at..][n..];
  }

  // ---------- neighbouring coordinates ----------

  /** The first `n` pairs of neighbours rotated. */
  function Interleaved(t: Trig, freq: Freq, x: seq<real>, pos: nat, n: nat): (r: seq<real>)
    requires 2 * n <= |x|
    ensures |r| == |x|
    decreases n
  {
    if n == 0 then x
    else PairRotated(t, Angle(freq, pos, n - 1), Interleaved(t, freq, x, pos, n - 1), 2 * n - 2, 2 * n - 1)
  }

  lemma {:induction false} InterleavedAt(t: Trig, freq: Freq, x: seq<real>, pos: nat, n: nat, j: nat)
    requires 2 * n <= |x| && 2 * j + 1 < |x|
    ensures Interleaved(t, freq, x, pos, n)[2 * j] == if j < n
        then First(t, Angle(freq, pos, j), x[2 * j], x[2 * j + 1]) else x[2 * j]
    ensures Interleaved(t, freq, x, pos, n)[2 * j + 1] == if j < n
        then Second(t, Angle(freq, pos, j), x[2 * j], x[2 * j + 1]) else x[2 * j + 1]
  {
    if n > 0 {
      InterleavedAt(t, freq, x, pos, n - 1, j);
    }
  }

  /** Coordinates `2 * j` and `2 * j + 1` of `y` are those of `x`, turned by the position times the frequency of `j`. */
  predicate PairTurned(t: Trig, freq: Freq, x: seq<real>, y: seq<real>, pos: nat, j: nat)
    requires 2 * j + 1 < |x| == |y|
  {
    var a := pos as real * freq(j);
    && y[2 * j] == x[2 * j] * t.cos(a) - x[2 * j + 1] * t.sin(a)
    && y[2 * j + 1] == x[2 * j] * t.sin(a) + x[2 * j + 1] * t.cos(a)
  }

  /** `y` is `x` with its first `n` pairs of neighbours embedded at `pos`. */
  ghost predicate ArePairsTurned(t: Trig, freq: Freq, x: seq<real>, y: seq<real>, pos: nat, n: nat) {
    && 2 * n <= |x| == |y| && (forall j: nat | j < n :: PairTurned(t, freq, x, y, pos, j))
    && forall i: nat | 2 * n <= i < |x| :: y[i] == x[i]
  }

  lemma {:induction false} InterleavedTail(t: Trig, freq: Freq, x: seq<real>, pos: nat, n: nat)
    requires 2 * n <= |x|
    ensures forall i: nat | 2 * n <= i < |x| :: Interleaved(t, freq, x, pos, n)[i] == x[i]
  {
    if n > 0 {
      InterleavedTail(t, freq, x, pos, n - 1);
    }
  }

  /** Every coordinate after the in-place version. */
  lemma {:induction false} InterleavedMeans(t: Trig, freq: Freq, x: seq<real>, pos: nat, n: nat)
    requires 2 * n <= |x|
    ensures ArePairsTurned(t, freq, x, Interleaved(t, freq, x, pos, n), pos, n)
  {
    forall j: nat | j < n ensures PairTurned(t, freq, x, Interleaved(t, freq, x, pos, n), pos, j) {
      InterleavedAt(t, freq, x, pos, n, j);
      FirstSecond(t, freq, pos, j, x[2 * j], x[2 * j + 1], pos as real * freq(j));
    }
    InterleavedTail(t, freq, x, pos, n);
  }

  /** The same pair of two vectors. */
  method RotateBoth(t: Trig, a: real, q: array<real>, k: array<real>, i: nat)
    requires q != k && i + 1 < q.Length && i + 1 < k.Length
    modifies q, k
    ensures q[..] == PairRotated(t, a, old(q[..]), i, i + 1) && k[..] == PairRotated(t, a, old(k[..]), i, i + 1)
  {
    RotatePair(t, a, q, i, i + 1);
    RotatePair(t, a, k, i, i + 1);
  }

  /** Query and key are rotated in place; with an odd dimension the last pair reaches one past it. */
  method ApplyRopeInPlace(t: Trig, freq: Freq, q: array<real>, k: array<real>, pos: nat, headDim: nat)
    requires q != k && headDim + headDim % 2 <= q.Length && headDim + headDim % 2 <= k.Length
    modifies q, k
    ensures q[..] == Interleaved(t, freq, old(q[..]), pos, (headDim + 1) / 2)
    ensures k[..] == Interleaved(t, freq, old(k[..]), pos, (headDim + 1) / 2)
    ensures ArePairsTurned(t, freq, old(q[..]), q[..], pos, (headDim + 1) / 2)
    ensures ArePairsTurned(t, freq, old(k[..]), k[..], pos, (headDim + 1) / 2)
  {
    var i := 0;
    ghost var n, q0, k0 := 0, q[..], k[..];
    while i < headDim
      invariant i == 2 * n <= headDim + headDim % 2
      invariant IsInterleaved(t, freq, q0, pos, n, q[..]) && IsInterleaved(t, freq, k0, pos, n, k[..])
    {
      assert i / 2 == n;
      NextPair(t, freq, q0, pos, n, q[..]);
      NextPair(t, freq, k0, pos, n, k[..]);
      RotateBoth(t, Angle(freq, pos, i / 2), q, k, i);
      i, n := i + 2, n + 1;
    }
    assert n == (headDim + 1) / 2;
    InterleavedMeans(t, freq, q0, pos, n);
    InterleavedMeans(t, freq, k0, pos, n);
  }

  predicate IsInterleaved(t: Trig, freq: Freq, x: seq<real>, pos: nat, n: nat, y: seq<real>) {
    2 * n <= |x| && y == Interleaved(t, freq, x, pos, n)
  }

  lemma {:induction false} NextPair(t: Trig, freq: Freq, x: seq<real>, pos: nat, n: nat, y: seq<real>)
    requires IsInterleaved(t, freq, x, pos, n, y) && 2 * n + 1 < |x|
    ensures IsInterleaved(t, freq, x, pos, n + 1, PairRotated(t, Angle(freq, pos, n), y, 2 * n, 2 * n + 1))
  {
  }

  // ---------- one pair ----------

  lemma {:induction false} Differences(t: Trig, a: real, b: real)
    requires IsTrig(t)
    ensures t.cos(a - b) == Times(t.cos(a), t.cos(b)) + Times(t.sin(a), t.sin(b))
    ensures t.sin(a - b) == Times(t.sin(a), t.cos(b)) - Times(t.cos(a), t.sin(b))
  {
    assert SumLaws(t, a, -b) && ParityLaws(t, b);
    assert a + (-b) == a - b;
  }

  lemma {:induction false} Polynomials(q0: real, q1: real, k0: real, k1: real, ca: real, sa: real, cb: real, sb: real)
    ensures Times(q0 * ca - q1 * sa, k0 * cb - k1 * sb) + Times(q0 * sa + q1 * ca, k0 * sb + k1 * cb)
         == Times(q0 * k0 + q1 * k1, ca * cb + sa * sb) + Times(q0 * k1 - q1 * k0, sa * cb - ca * sb)
  {
  }

  lemma {:induction false} PairIdentity(q0: real, q1: real, k0: real, k1: real, ca: real, sa: real, cb: real, sb: real)
    ensures Times(Times(q0, ca) - Times(q1, sa), Times(k0, cb) - Times(k1, sb))
        + Times(Times(q0, sa) + Times(q1, ca), Times(k0, sb) + Times(k1, cb))
         == Times(Times(q0, k0) + Times(q1, k1), Times(ca, cb) + Times(sa, sb))
           + Times(Times(q0, k1) - Times(q1, k0), Times(sa, cb) - Times(ca, sb))
  {
    Polynomials(q0, q1, k0, k1, ca, sa, cb, sb);
  }

  /** What a pair, rotated by angles whose difference is `delta`, adds to the dot product. */
  function PairTerm(t: Trig, delta: real, q0: real, q1: real, k0: real, k1: real): real {
    Times(Times(q0, k0) + Times(q1, k1), t.cos(delta)) + Times(Times(q0, k1) - Times(q1, k0), t.sin(delta))
  }

  lemma {:induction false} RotatedPair(t: Trig, a: real, b: real, q0: real, q1: real, k0: real, k1: real)
    requires IsTrig(t)
    ensures Times(First(t, a, q0, q1), First(t, b, k0, k1)) + Times(Second(t, a, q0, q1), Second(t, b, k0, k1))
         == PairTerm(t, a - b, q0, q1, k0, k1)
  {
    Differences(t, a, b);
    PairIdentity(q0, q1, k0, k1, t.cos(a), t.sin(a), t.cos(b), t.sin(b));
  }

  lemma {:induction false} AngleDifference(freq: Freq, m: nat, n: nat, m': nat, n': nat, j: nat)
    requires m - n == m' - n'
    ensures Angle(freq, m, j) - Angle(freq, n, j) == Angle(freq, m', j) - Angle(freq, n', j)
  {
    var f := freq(j);
    assert m as real - n as real == m' as real - n' as real;
    assert m as real * f - n as real * f == (m as real - n as real) * f;
    assert m' as real * f - n' as real * f == (m' as real - n' as real) * f;
  }

  lemma {:induction false} ZeroAngle(t: Trig, q0: real, q1: real, k0: real, k1: real)
    requires IsTrig(t)
    ensures PairTerm(t, 0.0, q0, q1, k0, k1) == Times(q0, k0) + Times(q1, k1)
  {
    assert SumLaws(t, 0.0, 0.0) && ParityLaws(t, 0.0);
    assert t.sin(0.0) == 0.0;
  }

  // ---------- dot products ----------

  /** The dot product of `n` coordinates from `lo` on. */
  function Dot(a: seq<real>, b: seq<real>, lo: nat, n: nat): real
    requires lo + n <= |a| == |b|
  {
    if n == 0 then 0.0 else Dot(a, b, lo, n - 1) + Times(a[lo + n - 1], b[lo + n - 1])
  }

  lemma {:induction false} DotSplit(a: seq<real>, b: seq<real>, lo: nat, m: nat, n: nat)
    requires lo + m + n <= |a| == |b|
    ensures Dot(a, b, lo, m + n) == Dot(a, b, lo, m) + Dot(a, b, lo + m, n)
  {
    if n > 0 {
      DotSplit(a, b, lo, m, n - 1);
    }
  }

  /** The first `n` pairs of the two halves. */
  function PairDot(a: seq<real>, b: seq<real>, h: nat, n: nat): real
    requires n <= h && 2 * h <= |a| == |b|
  {
    if n == 0 then 0.0 else PairDot(a, b, h, n - 1) + (Times(a[n - 1], b[n - 1]) + Times(a[h + n - 1], b[h + n - 1]))
  }

  lemma {:induction false} PairsAreHalves(a: seq<real>, b: seq<real>, h: nat, n: nat)
    requires n <= h && 2 * h <= |a| == |b|
    ensures PairDot(a, b, h, n) == Dot(a, b, 0, n) + Dot(a, b, h, n)
  {
    if n > 0 {
      PairsAreHalves(a, b, h, n - 1);
    }
  }

  /** A dot product is its pairs and, with an odd dimension, the last coordinate. */
  lemma {:induction false} DotByPairs(a: seq<real>, b: seq<real>)
    requires |a| == |b|
    ensures var h := |a| / 2; Dot(a, b, 0, |a|) == PairDot(a, b, h, h) + Dot(a, b, 2 * h, |a| - 2 * h)
  {
    var h := |a| / 2;
    DotSplit(a, b, 0, 2 * h, |a| - 2 * h);
    DotSplit(a, b, 0, h, h);
    PairsAreHalves(a, b, h, h);
  }

  /** The pairs of two rotated vectors. */
  lemma {:induction false} RotatedPairs(t: Trig, freq: Freq, q: seq<real>, k: seq<real>, m: nat, n: nat, m': nat,
                                        n': nat, count: nat)
    requires IsTrig(t) && |q| == |k| && m - n == m' - n' && count <= |q| / 2
    ensures PairDot(HalfSplit(t, freq, q, m), HalfSplit(t, freq, k, n), |q| / 2, count)
         == PairDot(HalfSplit(t, freq, q, m'), HalfSplit(t, freq, k, n'), |q| / 2, count)
  {
    if count > 0 {
      RotatedPairs(t, freq, q, k, m, n, m', n', count - 1);
      var h, j := |q| / 2, count - 1;
      AngleDifference(freq, m, n, m', n', j);
      HalfToAt(t, freq, q, m, h, h, j);
      HalfToAt(t, freq, k, n, h, h, j);
      HalfToAt(t, freq, q, m', h, h, j);
      HalfToAt(t, freq, k, n', h, h, j);
      RotatedPair(t, Angle(freq, m, j), Angle(freq, n, j), q[j], q[h + j], k[j], k[h + j]);
      RotatedPair(t, Angle(freq, m', j), Angle(freq, n', j), q[j], q[h + j], k[j], k[h + j]);
    }
  }

  /** The embedding is relative: the dot product of a query at `m` and a key at `n` depends on `m - n` only. */
  lemma {:induction false} RelativePositions(t: Trig, freq: Freq, q: seq<real>, k: seq<real>, m: nat, n: nat, m': nat,
                                             n': nat)
    requires IsTrig(t) && |q| == |k| && m - n == m' - n'
    ensures Dot(HalfSplit(t, freq, q, m), HalfSplit(t, freq, k, n), 0, |q|)
         == Dot(HalfSplit(t, freq, q, m'), HalfSplit(t, freq, k, n'), 0, |q|)
  {
    var h := |q| / 2;
    DotByPairs(HalfSplit(t, freq, q, m), HalfSplit(t, freq, k, n));
    DotByPairs(HalfSplit(t, freq, q, m'), HalfSplit(t, freq, k, n'));
    RotatedPairs(t, freq, q, k, m, n, m', n', h);
    HalfToTail(t, freq, q, m, h, h);
    HalfToTail(t, freq, k, n, h, h);
    HalfToTail(t, freq, q, m', h, h);
    HalfToTail(t, freq, k, n', h, h);
    SameTail(HalfSplit(t, freq, q, m), HalfSplit(t, freq, k, n), HalfSplit(t, freq, q, m'), HalfSplit(t, freq, k, n'),
      2 * h, |q| - 2 * h);
  }

  lemma {:induction false} SameTail(a: seq<real>, b: seq<real>, a': seq<real>, b': seq<real>, lo: nat, n: nat)
    requires lo + n <= |a| == |b| == |a'| == |b'|
    requires forall i | lo <= i < lo + n :: a[i] == a'[i] && b[i] == b'[i]
    ensures Dot(a, b, lo, n) == Dot(a', b', lo, n)
  {
    if n > 0 {
      SameTail(a, b, a', b', lo, n - 1);
    }
  }

  lemma {:induction false} UnrotatedPairs(t: Trig, freq: Freq, q: seq<real>, k: seq<real>, m: nat, count: nat)
    requires IsTrig(t) && |q| == |k| && count <= |q| / 2
    ensures PairDot(HalfSplit(t, freq, q, m), HalfSplit(t, freq, k, m), |q| / 2, count) == PairDot(q, k, |q| / 2, count)
  {
    if count > 0 {
      UnrotatedPairs(t, freq, q, k, m, count - 1);
      var h, j := |q| / 2, count - 1;
      HalfToAt(t, freq, q, m, h, h, j);
      HalfToAt(t, freq, k, m, h, h, j);
      RotatedPair(t, Angle(freq, m, j), Angle(freq, m, j), q[j], q[h + j], k[j], k[h + j]);
      ZeroAngle(t, q[j], q[h + j], k[j], k[h + j]);
    }
  }

  /** At one position the embedding preserves dot products, and so norms. */
  lemma {:induction false} Isometry(t: Trig, freq: Freq, q: seq<real>, k: seq<real>, m: nat)
    requires IsTrig(t) && |q| == |k|
    ensures Dot(HalfSplit(t, freq, q, m), HalfSplit(t, freq, k, m), 0, |q|) == Dot(q, k, 0, |q|)
  {
    var h := |q| / 2;
    DotByPairs(HalfSplit(t, freq, q, m), HalfSplit(t, freq, k, m));
    DotByPairs(q, k);
    UnrotatedPairs(t, freq, q, k, m, h);
    HalfToTail(t, freq, q, m, h, h);
    HalfToTail(t, freq, k, m, h, h);
    SameTail(HalfSplit(t, freq, q, m), HalfSplit(t, freq, k, m), q, k, 2 * h, |q| - 2 * h);
  }

  // ---------- the two layouts ----------

  /** Even coordinates first, odd coordinates after them. */
  function Unzip(x: seq<real>): (r: seq<real>)
    requires |x| % 2 == 0
    ensures |r| == |x|
  {
    var h := |x| / 2;
    seq(|x|, i requires 0 <= i < |x| => if i < h then x[2 * i] else x[2 * (i - h) + 1])
  }

  lemma {:induction false} UnzipAt(x: seq<real>, j: nat)
    requires |x| % 2 == 0 && j < |x| / 2
    ensures Unzip(x)[j] == x[2 * j] && Unzip(x)[|x| / 2 + j] == x[2 * j + 1]
  {
  }

  /** Nothing is lost: equal permutations come from equal vectors. */
  lemma {:induction false} UnzipInjective(x: seq<real>, y: seq<real>)
    requires |x| % 2 == |y| % 2 == 0 && Unzip(x) == Unzip(y)
    ensures x == y
  {
    forall i | 0 <= i < |x| ensures x[i] == y[i] {
      UnzipAt(x, i / 2);
      UnzipAt(y, i / 2);
    }
  }

  /** The two versions are conjugate by the permutation of coordinates: the in-place result is the one vector whose
      permutation is the engine's result on the permuted input. */
  lemma {:induction false} Conjugate(t: Trig, freq: Freq, x: seq<real>, pos: nat)
    requires |x| % 2 == 0
    ensures Unzip(Interleaved(t, freq, x, pos, |x| / 2)) == HalfSplit(t, freq, Unzip(x), pos)
    ensures forall y: seq<real> | |y| % 2 == 0 && Unzip(y) == HalfSplit(t, freq, Unzip(x), pos) ::
        y == Interleaved(t, freq, x, pos, |x| / 2)
  {
    var h, u, z := |x| / 2, Unzip(Interleaved(t, freq, x, pos, |x| / 2)), HalfSplit(t, freq, Unzip(x), pos);
    forall i | 0 <= i < |x| ensures u[i] == z[i] {
      ConjugateAt(t, freq, x, pos, h, if i < h then i else i - h);
    }
    forall y: seq<real> | |y| % 2 == 0 && Unzip(y) == z ensures y == Interleaved(t, freq, x, pos, h) {
      UnzipInjective(y, Interleaved(t, freq, x, pos, h));
    }
  }

  lemma {:induction false} ConjugateAt(t: Trig, freq: Freq, x: seq<real>, pos: nat, h: nat, j: nat)
    requires |x| == 2 * h && j < h
    ensures Unzip(Interleaved(t, freq, x, pos, h))[j] == HalfTo(t, freq, Unzip(x), pos, 0, h, h)[j]
    ensures Unzip(Interleaved(t, freq, x, pos, h))[h + j] == HalfTo(t, freq, Unzip(x), pos, 0, h, h)[h + j]
  {
    UnzipAt(x, j);
    UnzipAt(Interleaved(t, freq, x, pos, h), j);
    InterleavedAt(t, freq, x, pos, h, j);
    HalfToAt(t, freq, Unzip(x), pos, h, h, j);
  }

  /** The permutation preserves dot products. */
  lemma {:induction false} UnzipDot(a: seq<real>, b: seq<real>)
    requires |a| == |b| && |a| % 2 == 0
    ensures Dot(Unzip(a), Unzip(b), 0, |a|) == Dot(a, b, 0, |a|)
  {
    var h := |a| / 2;
    DotByPairs(Unzip(a), Unzip(b));
    UnzipPairs(a, b, h);
  }

  lemma {:induction false} UnzipPairs(a: seq<real>, b: seq<real>, n: nat)
    requires |a| == |b| && |a| % 2 == 0 && n <= |a| / 2
    ensures PairDot(Unzip(a), Unzip(b), |a| / 2, n) == Dot(a, b, 0, 2 * n)
  {
    if n > 0 {
      UnzipPairs(a, b, n - 1);
      assert Dot(a, b, 0, 2 * n) == Dot(a, b, 0, 2 * n - 1) + Times(a[2 * n - 1], b[2 * n - 1]);
      UnzipAt(a, n - 1);
      UnzipAt(b, n - 1);
    }
  }

  /** So the in-place version is relative too. */
  lemma {:induction false} InterleavedRelative(t: Trig, freq: Freq, q: seq<real>, k: seq<real>, m: nat, n: nat,
                                               m': nat, n': nat)
    requires IsTrig(t) && |q| == |k| && |q| % 2 == 0 && m - n == m' - n'
    ensures Dot(Interleaved(t, freq, q, m, |q| / 2), Interleaved(t, freq, k, n, |q| / 2), 0, |q|)
         == Dot(Interleaved(t, freq, q, m', |q| / 2), Interleaved(t, freq, k, n', |q| / 2), 0, |q|)
  {
    InterleavedDot(t, freq, q, k, m, n);
    InterleavedDot(t, freq, q, k, m', n');
    RelativePositions(t, freq, Unzip(q), Unzip(k), m, n, m', n');
  }

  lemma {:induction false} InterleavedDot(t: Trig, freq: Freq, q: seq<real>, k: seq<real>, m: nat, n: nat)
    requires |q| == |k| && |q| % 2 == 0
    ensures Dot(Interleaved(t, freq, q, m, |q| / 2), Interleaved(t, freq, k, n, |q| / 2), 0, |q|)
         == Dot(HalfSplit(t, freq, Unzip(q), m), HalfSplit(t, freq, Unzip(k), n), 0, |q|)
  {
    Conjugate(t, freq, q, m);
    Conjugate(t, freq, k, n);
    UnzipDot(Interleaved(t, freq, q, m, |q| / 2), Interleaved(t, freq, k, n, |q| / 2));
  }
}
