/** Absmax quantisation of activations to signed bytes, over the reals. */
module Quantiser {
  import opened Arithmetic
  import opened PagePools

  const MIN_SCALE: real := 0.000000001

  function Abs(x: real): real {
    if x < 0.0 then -x else x
  }

  function Max(a: real, b: real): real {
    if a < b then b else a
  }

  /** The largest magnitude in `x`, and never less than `MIN_SCALE`. */
  function Absmax(x: seq<real>): (s: real)
    ensures s >= MIN_SCALE
    ensures forall i | 0 <= i < |x| :: Abs(x[i]) <= s
    ensures s == MIN_SCALE || exists i :: 0 <= i < |x| && Abs(x[i]) == s
  {
    if x == [] then MIN_SCALE else
      var m := Absmax(x[1..]);
      assert forall i | 0 < i < |x| :: x[i] == x[1..][i - 1];
      assert m == MIN_SCALE || exists i :: 0 <= i < |x| && Abs(x[i]) == m by {
        if m != MIN_SCALE {
          var i :| 0 <= i < |x[1..]| && Abs(x[1..][i]) == m;
          assert Abs(x[i + 1]) == m;
        }
      }
      Max(Abs(x[0]), m)
  }

  /** Conversion to an integer drops the fraction. */
  function Truncate(r: real): int {
    if r >= 0.0 then r.Floor else -((-r).Floor)
  }

  function Clamp(r: real): real {
    if r < -127.0 then -127.0 else if r > 127.0 then 127.0 else r
  }

  /** The code of a value that has been scaled. */
  function Code(t: real): (q: i8)
    ensures -127 <= q <= 127
  {
    Truncate(Clamp(t))
  }

  /** One value quantised with scale `s`. */
  function Quantised(v: real, s: real): (q: i8)
    requires s > 0.0
    ensures -127 <= q <= 127
  {
    Code(Times(v, 127.0 / s))
  }

  /** The largest of the eight lanes. */
  method ReduceMax(lanes: seq<real>) returns (m: real)
    requires |lanes| == 8
    ensures m in lanes && forall j | 0 <= j < 8 :: lanes[j] <= m
  {
    m := lanes[0];
    for j := 1 to 8
      invariant m in lanes && forall k | 0 <= k < j :: lanes[k] <= m
    {
      m := Max(m, lanes[j]);
    }
  }

  ghost predicate BelowSome(lanes: seq<real>, v: real) {
    exists j :: 0 <= j < |lanes| && v <= lanes[j]
  }

  ghost predicate IsMagnitude(x: seq<real>, n: nat, v: real)
    requires n <= |x|
  {
    v == 0.0 || exists i :: 0 <= i < n && Abs(x[i]) == v
  }

  /** Every magnitude below `n` is bounded by a lane, and every lane is zero or one of those magnitudes. */
  ghost predicate LanesHold(x: seq<real>, lanes: seq<real>, n: nat) {
    && |lanes| == 8 && n <= |x|
    && (forall i | 0 <= i < n :: BelowSome(lanes, Abs(x[i])))
    && (forall j | 0 <= j < 8 :: IsMagnitude(x, n, lanes[j]))
  }

  lemma {:induction false} LanesBound(x: seq<real>, lanes: seq<real>, lanes': seq<real>, n: nat, i: nat)
    requires LanesHold(x, lanes, n) && n + 8 <= |x| && |lanes'| == 8 && i < n + 8
    requires forall j | 0 <= j < 8 :: lanes'[j] == Max(lanes[j], Abs(x[n + j]))
    ensures BelowSome(lanes', Abs(x[i]))
  {
    if i >= n {
      assert Abs(x[n + (i - n)]) <= lanes'[i - n];
    } else {
      assert BelowSome(lanes, Abs(x[i]));
      var j :| 0 <= j < 8 && Abs(x[i]) <= lanes[j];
      assert Abs(x[i]) <= lanes'[j];
    }
  }

  lemma {:induction false} LanesStep(x: seq<real>, lanes: seq<real>, lanes': seq<real>, n: nat)
    requires LanesHold(x, lanes, n) && n + 8 <= |x| && |lanes'| == 8
    requires forall j | 0 <= j < 8 :: lanes'[j] == Max(lanes[j], Abs(x[n + j]))
    ensures LanesHold(x, lanes', n + 8)
  {
    forall i | 0 <= i < n + 8 ensures BelowSome(lanes', Abs(x[i])) {
      LanesBound(x, lanes, lanes', n, i);
    }
    forall j | 0 <= j < 8 ensures IsMagnitude(x, n + 8, lanes'[j]) {
      assert IsMagnitude(x, n, lanes[j]);
      assert lanes'[j] == lanes[j] || lanes'[j] == Abs(x[n + j]);
    }
  }

  lemma {:induction false} AbsmaxUnique(x: seq<real>, s: real)
    requires s >= MIN_SCALE && forall i | 0 <= i < |x| :: Abs(x[i]) <= s
    requires s == MIN_SCALE || exists i :: 0 <= i < |x| && Abs(x[i]) == s
    ensures s == Absmax(x)
  {
  }

  lemma {:induction false} LanesMax(x: seq<real>, lanes: seq<real>, n: nat, s: real)
    requires LanesHold(x, lanes, n)
    requires s in lanes && forall j | 0 <= j < 8 :: lanes[j] <= s
    ensures forall k | 0 <= k < n :: Abs(x[k]) <= s
    ensures IsMagnitude(x, n, s)
  {
    forall k | 0 <= k < n ensures Abs(x[k]) <= s {
      assert BelowSome(lanes, Abs(x[k]));
    }
  }

  /** The eight-lane loop and its tail compute the scalar maximum, for any length. */
  method AbsmaxScale(x: seq<real>) returns (s: real)
    ensures s == Absmax(x)
  {
    var lanes := seq(8, _ => 0.0);
    var i := 0;
    while i + 8 <= |x|
      invariant LanesHold(x, lanes, i)
    {
      var lanes' := seq(8, j requires 0 <= j < 8 => Max(lanes[j], Abs(x[i + j])));
      LanesStep(x, lanes, lanes', i);
      lanes := lanes';
      i := i + 8;
    }
    s := ReduceMax(lanes);
    LanesMax(x, lanes, i, s);
    s := TailMax(x, i, s);
    s := Max(s, MIN_SCALE);
    AbsmaxUnique(x, s);
  }

  /** The elements from `start` on, one by one. */
  method TailMax(x: seq<real>, start: nat, m: real) returns (s: real)
    requires start <= |x|
    requires forall k | 0 <= k < start :: Abs(x[k]) <= m
    requires IsMagnitude(x, start, m)
    ensures forall k | 0 <= k < |x| :: Abs(x[k]) <= s
    ensures IsMagnitude(x, |x|, s)
  {
    s := m;
    var i := start;
    while i < |x|
      invariant i <= |x|
      invariant forall k | 0 <= k < i :: Abs(x[k]) <= s
      invariant IsMagnitude(x, i, s)
    {
      if Abs(x[i]) > s {
        s := Abs(x[i]);
      }
      i := i + 1;
    }
  }

  function Scaled(x: seq<real>, scale: real): (t: seq<real>)
    ensures |t| == |x| && forall i | 0 <= i < |x| :: t[i] == Times(x[i], scale)
  {
    seq(|x|, i requires 0 <= i < |x| => Times(x[i], scale))
  }

  function Codes(t: seq<real>): (codes: seq<i8>)
    ensures |codes| == |t| && forall i | 0 <= i < |t| :: codes[i] == Code(t[i])
  {
    seq(|t|, i requires 0 <= i < |t| => Code(t[i]))
  }

  /** The codes of a whole vector with its common scale. */
  function QuantisedAll(x: seq<real>): seq<i8> {
    Codes(Scaled(x, 127.0 / Absmax(x)))
  }

  lemma {:induction false} ScaledSlice(x: seq<real>, scale: real, lo: nat, hi: nat)
    requires lo <= hi <= |x|
    ensures Scaled(x[lo..hi], scale) == Scaled(x, scale)[lo..hi]
  {
    forall k | 0 <= k < hi - lo ensures Scaled(x[lo..hi], scale)[k] == Scaled(x, scale)[lo + k] {
      assert x[lo..hi][k] == x[lo + k];
    }
  }

  lemma {:induction false} CodesSlice(t: seq<real>, lo: nat, hi: nat)
    requires lo <= hi <= |t|
    ensures Codes(t[lo..hi]) == Codes(t)[lo..hi]
  {
    forall k | 0 <= k < hi - lo ensures Codes(t[lo..hi])[k] == Codes(t)[lo + k] {
      assert t[lo..hi][k] == t[lo + k];
    }
  }

  /** The codes of `x[lo..hi]` are put in place. */
  method EncodeSlice(x: seq<real>, scale: real, out: array<i8>, lo: nat, hi: nat)
    requires lo <= hi <= |x| == out.Length
    modifies out
    ensures out[..lo] == old(out[..lo])
    ensures out[lo..hi] == Codes(Scaled(x, scale))[lo..hi]
  {
    var chunk := Codes(Scaled(x[lo..hi], scale));
    ScaledSlice(x, scale, lo, hi);
    CodesSlice(Scaled(x, scale), lo, hi);
    forall k | lo <= k < hi {
      out[k] := chunk[k - lo];
    }
    assert out[lo..hi] == chunk;
  }

  /** Eight values at a time, and then the rest one by one. */
  method EncodeAll(x: seq<real>, scale: real) returns (r: seq<i8>)
    ensures r == Codes(Scaled(x, scale))
  {
    ghost var codes := Codes(Scaled(x, scale));
    var out := new i8[|x|](_ => 0);
    var i := 0;
    while i + 8 <= |x|
      invariant i <= |x|
      invariant out[..i] == codes[..i]
    {
      EncodeSlice(x, scale, out, i, i + 8);
      assert out[..i + 8] == out[..i] + out[i..i + 8];
      assert codes[..i + 8] == codes[..i] + codes[i..i + 8];
      i := i + 8;
    }
    while i < |x|
      invariant i <= |x|
      invariant out[..i] == codes[..i]
    {
      EncodeSlice(x, scale, out, i, i + 1);
      assert out[..i + 1] == out[..i] + out[i..i + 1];
      assert codes[..i + 1] == codes[..i] + codes[i..i + 1];
      i := i + 1;
    }
    return out[..];
  }

  /** Every value is given its code for the scale of the whole vector. */
  method F32ToI8Absmax(x: seq<real>) returns (r: seq<i8>)
    ensures r == QuantisedAll(x)
  {
    var absmax := AbsmaxScale(x);
    r := EncodeAll(x, 127.0 / absmax);
  }

  lemma {:induction false} CodeMonotone(t: real, u: real)
    requires t <= u
    ensures Code(t) <= Code(u)
  {
  }

  lemma {:induction false} CodeNear(t: real)
    requires -127.0 <= t <= 127.0
    ensures Abs(t - Code(t) as real) < 1.0 && Abs(Code(t) as real) <= Abs(t)
  {
  }

  lemma {:induction false} TimesMonotone(a: real, b: real, c: real)
    requires a <= b && c > 0.0
    ensures Times(a, c) <= Times(b, c)
  {
  }

  lemma {:induction false} MulBelow(a: real, d: real)
    requires a < 1.0 && d > 0.0
    ensures Times(a, d) < d
  {
  }

  /** Larger values are never given smaller codes. */
  lemma {:induction false} QuantisedMonotone(v: real, w: real, s: real)
    requires s > 0.0 && v <= w
    ensures Quantised(v, s) <= Quantised(w, s)
  {
    var c := 127.0 / s;
    TimesMonotone(v, w, c);
    CodeMonotone(Times(v, c), Times(w, c));
  }

  lemma {:induction false} ScaledInRange(v: real, s: real)
    requires s > 0.0 && Abs(v) <= s
    ensures -127.0 <= Times(v, 127.0 / s) <= 127.0
  {
    var c := 127.0 / s;
    assert Times(s, c) == 127.0;
    assert Times(-s, c) == -127.0;
    TimesMonotone(v, s, c);
    TimesMonotone(-s, v, c);
  }

  /** A value decoded from its code: `code * s / 127`. */
  function Decoded(q: int, s: real): real {
    Times(q as real, s / 127.0)
  }

  lemma {:induction false} Distribute(a: real, b: real, d: real)
    ensures Times(a, d) - Times(b, d) == Times(a - b, d)
  {
  }

  /** With `t` the scaled value, `q` its code and `d` one step: an error of less than one in the code is an
      error of less than one step in the value. */
  lemma {:induction false} StepError(t: real, q: real, d: real)
    requires d > 0.0 && -1.0 < t - q < 1.0
    ensures -d < Times(t, d) - Times(q, d) < d
  {
    MulBelow(t - q, d);
    MulBelow(q - t, d);
    Distribute(t, q, d);
    Distribute(q, t, d);
  }

  lemma {:induction false} Unscale(v: real, s: real)
    requires s > 0.0
    ensures Times(Times(v, 127.0 / s), s / 127.0) == v
  {
    assert (127.0 / s) * (s / 127.0) == 1.0;
    assert v * (127.0 / s) * (s / 127.0) == v * ((127.0 / s) * (s / 127.0));
  }

  lemma {:induction false} DecodedError(v: real, s: real)
    requires s > 0.0 && Abs(v) <= s
    ensures Abs(v - Decoded(Quantised(v, s), s)) < s / 127.0
  {
    var t := Times(v, 127.0 / s);
    ScaledInRange(v, s);
    CodeNear(t);
    Unscale(v, s);
    StepError(t, Code(t) as real, s / 127.0);
  }

  lemma {:induction false} CodesAt(x: seq<real>, scale: real, i: nat)
    requires i < |x|
    ensures Codes(Scaled(x, scale))[i] == Code(Times(x[i], scale))
  {
  }

  /** Every code of a quantised vector is that of its value with the common scale, and decodes to within one
      step of it. */
  lemma {:induction false} QuantisedError(x: seq<real>, i: nat)
    requires i < |x|
    ensures QuantisedAll(x)[i] == Quantised(x[i], Absmax(x))
    ensures Abs(x[i] - Decoded(QuantisedAll(x)[i], Absmax(x))) < Absmax(x) / 127.0
  {
    CodesAt(x, 127.0 / Absmax(x), i);
    DecodedError(x[i], Absmax(x));
  }

  /** The largest magnitude is given the code 127 or -127, unless the whole vector is below the floor. */
  lemma {:induction false} ExtremeUsesFullRange(v: real, s: real)
    requires s > 0.0 && Abs(v) == s
    ensures Quantised(v, s) == if v < 0.0 then -127 else 127
  {
    var c := 127.0 / s;
    assert Times(s, c) == 127.0 && Times(-s, c) == -127.0;
  }

  // ---------- the codes, by their values ----------

  /** `s` is the largest magnitude in `x`, or 1e-9 if that is larger. */
  ghost predicate IsScaleOf(x: seq<real>, s: real) {
    && s >= 0.000000001 && (forall i | 0 <= i < |x| :: -s <= x[i] <= s)
    && (s == 0.000000001 || exists i :: 0 <= i < |x| && (x[i] == s || x[i] == -s))
  }

  /** `c` is `127 * v / s` with the fraction dropped. */
  predicate IsCodeOf(v: real, s: real, c: int) {
    if v >= 0.0 then c as real * s <= 127.0 * v < (c + 1) as real * s
    else (c - 1) as real * s < 127.0 * v <= c as real * s
  }

  lemma {:induction false} AbsmaxIsScale(x: seq<real>)
    ensures IsScaleOf(x, Absmax(x))
  {
    var s := Absmax(x);
    forall i | 0 <= i < |x| ensures -s <= x[i] <= s {
      assert Abs(x[i]) <= s;
    }
    if s != MIN_SCALE {
      var i :| 0 <= i < |x| && Abs(x[i]) == s;
      assert x[i] == s || x[i] == -s;
    }
  }

  lemma {:induction false} ScaleBack(v: real, s: real)
    requires s > 0.0
    ensures Times(v, 127.0 / s) * s == 127.0 * v
  {
    assert (127.0 / s) * s == 127.0;
    assert v * (127.0 / s) * s == v * ((127.0 / s) * s);
  }

  lemma {:induction false} MulLeft(a: real, b: real, s: real)
    requires s > 0.0
    ensures a <= b ==> a * s <= b * s
    ensures a < b ==> a * s < b * s
  {
  }

  lemma {:induction false} TruncateMeans(t: real)
    ensures t >= 0.0 ==> Truncate(t) as real <= t < (Truncate(t) + 1) as real
    ensures t < 0.0 ==> (Truncate(t) - 1) as real < t <= Truncate(t) as real
  {
  }

  lemma {:induction false} ScaledSign(v: real, s: real)
    requires s > 0.0
    ensures v >= 0.0 <==> Times(v, 127.0 / s) >= 0.0
  {
    var f := 127.0 / s;
    assert f * s == 127.0;
    if v < 0.0 {
      MulLeft(v, 0.0, f);
    }
  }

  lemma {:induction false} CodeInRange(t: real)
    requires -127.0 <= t <= 127.0
    ensures Code(t) == Truncate(t)
  {
  }

  lemma {:induction false} Scaled3(lo: real, t: real, hi: real, s: real, w: real)
    requires s > 0.0 && t * s == w
    ensures lo <= t < hi ==> lo * s <= w < hi * s
    ensures lo < t <= hi ==> lo * s < w <= hi * s
  {
    MulLeft(lo, t, s);
    MulLeft(t, hi, s);
  }

  /** An integer next to `t`, on the side of zero, times the scale. */
  lemma {:induction false} BracketScaled(t: real, c: int, v: real, s: real)
    requires s > 0.0 && t * s == 127.0 * v && (v >= 0.0 <==> t >= 0.0)
    requires t >= 0.0 ==> c as real <= t < (c + 1) as real
    requires t < 0.0 ==> (c - 1) as real < t <= c as real
    ensures IsCodeOf(v, s, c)
  {
    var before, at, after, w := (c - 1) as real, c as real, (c + 1) as real, 127.0 * v;
    Scaled3(at, t, after, s, w);
    Scaled3(before, t, at, s, w);
  }

  lemma {:induction false} QuantisedIsCode(v: real, s: real)
    requires s > 0.0 && -s <= v <= s
    ensures IsCodeOf(v, s, Quantised(v, s))
  {
    var t := Times(v, 127.0 / s);
    ScaledInRange(v, s);
    CodeInRange(t);
    ScaleBack(v, s);
    ScaledSign(v, s);
    TruncateMeans(t);
    BracketScaled(t, Truncate(t), v, s);
  }

  /** Every code of a quantised vector is 127 times the value over the common scale, with the fraction dropped. */
  lemma {:induction false} QuantisedMeans(x: seq<real>, i: nat)
    requires i < |x|
    ensures IsScaleOf(x, Absmax(x)) && |QuantisedAll(x)| == |x| && IsCodeOf(x[i], Absmax(x), QuantisedAll(x)[i])
  {
    AbsmaxIsScale(x);
    QuantisedError(x, i);
    QuantisedIsCode(x[i], Absmax(x));
  }

  lemma {:induction false} ScaleAtMost(x: seq<real>, s: real, s': real)
    requires IsScaleOf(x, s) && IsScaleOf(x, s')
    ensures s <= s'
  {
    if s != 0.000000001 {
      var i :| 0 <= i < |x| && (x[i] == s || x[i] == -s);
      assert -s' <= x[i] <= s';
    }
  }

  /** There is one such scale only. */
  lemma {:induction false} ScaleUnique(x: seq<real>, s: real, s': real)
    requires IsScaleOf(x, s) && IsScaleOf(x, s')
    ensures s == s'
  {
    ScaleAtMost(x, s, s');
    ScaleAtMost(x, s', s);
  }

  lemma {:induction false} IntegerBetween(a: int, b: int, s: real, w: real)
    requires s > 0.0 && a as real * s <= w && w < (b + 1) as real * s
    ensures a <= b
  {
    if b + 1 <= a {
      MulLeft((b + 1) as real, a as real, s);
    }
  }

  lemma {:induction false} IntegerBetweenUp(a: int, b: int, s: real, w: real)
    requires s > 0.0 && (a - 1) as real * s < w && w <= b as real * s
    ensures a <= b
  {
    if b <= a - 1 {
      MulLeft(b as real, (a - 1) as real, s);
    }
  }

  /** There is one such code only. */
  lemma {:induction false} CodeUnique(v: real, s: real, c: int, c': int)
    requires s > 0.0 && IsCodeOf(v, s, c) && IsCodeOf(v, s, c')
    ensures c == c'
  {
    var w := 127.0 * v;
    if v >= 0.0 {
      IntegerBetween(c, c', s, w);
      IntegerBetween(c', c, s, w);
    } else {
      IntegerBetweenUp(c, c', s, w);
      IntegerBetweenUp(c', c, s, w);
    }
  }
}
