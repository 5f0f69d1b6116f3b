/** The 64-lane ternary dot product, instruction by instruction with machine-width wrap-around, and the scalar
    loop it is checked against. */
module TernaryKernel {
  import opened Arithmetic
  import opened Word64
  import opened PagePools

  const TWO31: int := 0x8000_0000

  /** What a lane of the given half-range keeps of `x`: the value that differs from it by a multiple of the
      whole range. */
  function Wrap(x: int, half: int): (r: int)
    requires half > 0
    ensures -half <= r < half
    ensures -half <= x < half ==> r == x
    decreases if x < 0 then -x else x + 1
  {
    if x < -half then Wrap(x + 2 * half, half)
    else if x >= half then Wrap(x - 2 * half, half)
    else x
  }

  function Wrap16(x: int): int {
    Wrap(x, 0x8000)
  }

  function Wrap32(x: int): int {
    Wrap(x, TWO31)
  }

  // ---------- lanes ----------

  /** Lanes whose mask bit is clear become zero. */
  function MaskZero(mask: u64, a: seq<i8>): (r: seq<int>)
    requires |a| == 64
    ensures |r| == 64 && forall j | 0 <= j < 64 :: r[j] == if Bit(mask, j) then a[j] else 0
  {
    seq(64, j requires 0 <= j < 64 => if Bit(mask, j) then a[j] else 0)
  }

  /** 16-bit subtraction, lane by lane. */
  function Sub16(a: seq<int>, b: seq<int>): (r: seq<int>)
    requires |a| == |b|
    ensures |r| == |a| && forall j | 0 <= j < |a| :: r[j] == Wrap16(a[j] - b[j])
  {
    seq(|a|, j requires 0 <= j < |a| => Wrap16(a[j] - b[j]))
  }

  /** Neighbouring 16-bit lanes, each times one, are added into 32-bit lanes. */
  function PairSum(a: seq<int>): (r: seq<int>)
    requires |a| == 32
    ensures |r| == 16 && forall j | 0 <= j < 16 :: r[j] == Wrap32(a[2 * j] * 1 + a[2 * j + 1] * 1)
  {
    seq(16, j requires 0 <= j < 16 => Wrap32(a[2 * j] * 1 + a[2 * j + 1] * 1))
  }

  /** 32-bit addition, lane by lane. */
  function Add32(a: seq<int>, b: seq<int>): (r: seq<int>)
    requires |a| == |b|
    ensures |r| == |a| && forall j | 0 <= j < |a| :: r[j] == Wrap32(a[j] + b[j])
  {
    seq(|a|, j requires 0 <= j < |a| => Wrap32(a[j] + b[j]))
  }

  /** The 32-bit sum of the first `n` lanes. */
  function ReduceAdd(a: seq<int>, n: nat): int
    requires n <= |a|
  {
    if n == 0 then 0 else Wrap32(ReduceAdd(a, n - 1) + a[n - 1])
  }

  // ---------- the meaning ----------

  function BitValue(w: u64, j: nat): int {
    if Bit(w, j) then 1 else 0
  }

  /** The weight at position `i`: 1, -1, or 0. */
  function Weight(pos: seq<u64>, neg: seq<u64>, i: nat): int
    requires i < 64 * |pos| && |pos| == |neg|
  {
    BitValue(pos[i / 64], i % 64) - BitValue(neg[i / 64], i % 64)
  }

  /** The weights the masks stand for. */
  function Weights(pos: seq<u64>, neg: seq<u64>): (w: seq<int>)
    requires |pos| == |neg|
    ensures |w| == 64 * |pos|
    ensures forall i | 0 <= i < |w| :: w[i] == Weight(pos, neg, i)
  {
    seq(64 * |pos|, i requires 0 <= i < 64 * |pos| => Weight(pos, neg, i))
  }

  /** The exact dot product over the first `n` positions. */
  function Dot(acts: seq<i8>, w: seq<int>, n: nat): int
    requires n <= |acts| && n <= |w|
  {
    if n == 0 then 0 else Dot(acts, w, n - 1) + w[n - 1] * acts[n - 1]
  }

  function SumTo(d: seq<int>, n: nat): int
    requires n <= |d|
  {
    if n == 0 then 0 else SumTo(d, n - 1) + d[n - 1]
  }

  // ---------- arithmetic of wrapping ----------

  lemma {:induction false} WrapPeriod(x: int, half: int)
    requires half > 0
    ensures Wrap(x + 2 * half, half) == Wrap(x, half)
  {
  }

  /** Wrapping an operand first does not change a wrapped sum. */
  lemma {:induction false} WrapAdd(a: int, b: int, half: int)
    requires half > 0
    ensures Wrap(Wrap(a, half) + b, half) == Wrap(a + b, half)
    decreases if a < 0 then -a else a + 1
  {
    if a < -half {
      WrapAdd(a + 2 * half, b, half);
      WrapPeriod(a + b, half);
    } else if a >= half {
      WrapAdd(a - 2 * half, b, half);
      WrapPeriod(a - 2 * half + b, half);
    }
  }

  lemma {:induction false} WrapAddBoth(a: int, b: int)
    ensures Wrap32(Wrap32(a) + Wrap32(b)) == Wrap32(a + b)
  {
    WrapAdd(a, Wrap32(b), TWO31);
    WrapAdd(b, a, TWO31);
  }

  // ---------- the kernel ----------

  /** The differences of one block of 64: what the two widened halves hold after subtraction. */
  function BlockDiff(acts: seq<i8>, pos: seq<u64>, neg: seq<u64>, k: nat): (d: seq<int>)
    requires |pos| == |neg| && k < |pos| && 64 * k + 64 <= |acts|
    ensures |d| == 64
    ensures forall j | 0 <= j < 64 :: d[j] == (BitValue(pos[k], j) - BitValue(neg[k], j)) * acts[64 * k + j]
  {
    seq(64, j requires 0 <= j < 64 => (BitValue(pos[k], j) - BitValue(neg[k], j)) * acts[64 * k + j])
  }

  /** Sixteen sums, each with the next pair of a half-block added. */
  function Paired(v: seq<int>, half: seq<int>): (r: seq<int>)
    requires |v| == 16 && |half| == 32
    ensures |r| == 16 && forall j | 0 <= j < 16 :: r[j] == v[j] + (half[2 * j] + half[2 * j + 1])
  {
    seq(16, j requires 0 <= j < 16 => v[j] + (half[2 * j] + half[2 * j + 1]))
  }

  /** The sixteen lanes of the half-blocks at `lo` after `k` blocks, without wrap-around. */
  function Lanes(acts: seq<i8>, pos: seq<u64>, neg: seq<u64>, k: nat, lo: nat): (v: seq<int>)
    requires |pos| == |neg| && k <= |pos| && 64 * k <= |acts| && lo <= 32
    ensures |v| == 16
    decreases k
  {
    if k == 0 then seq(16, _ => 0)
    else Paired(Lanes(acts, pos, neg, k - 1, lo), BlockDiff(acts, pos, neg, k - 1)[lo..lo + 32])
  }

  /** The half of a block at `lo`, as the kernel computes it: exact, for no 16-bit step leaves its range. */
  lemma {:induction false} HalfDiff(acts: seq<i8>, pos: seq<u64>, neg: seq<u64>, k: nat, lo: nat, p: seq<int>,
                                    n: seq<int>)
    requires |pos| == |neg| && k < |pos| && 64 * k + 64 <= |acts| && lo <= 32
    requires p == MaskZero(pos[k], acts[64 * k..64 * k + 64]) && n == MaskZero(neg[k], acts[64 * k..64 * k + 64])
    ensures Sub16(p[lo..lo + 32], n[lo..lo + 32]) == BlockDiff(acts, pos, neg, k)[lo..lo + 32]
  {
    var d := BlockDiff(acts, pos, neg, k);
    var diff, want := Sub16(p[lo..lo + 32], n[lo..lo + 32]), d[lo..lo + 32];
    forall j | 0 <= j < 32 ensures diff[j] == want[j] {
      var i := lo + j;
      LaneDiff(pos[k], neg[k], acts[64 * k + i], i);
      assert p[i] == (if Bit(pos[k], i) then acts[64 * k + i] else 0);
      assert n[i] == (if Bit(neg[k], i) then acts[64 * k + i] else 0);
    }
  }

  lemma {:induction false} LaneDiff(p: u64, n: u64, a: i8, i: nat)
    ensures Wrap16((if Bit(p, i) then a else 0) - (if Bit(n, i) then a else 0)) == (BitValue(p, i) - BitValue(n, i)) * a
  {
  }

  /** An accumulator holds exact sums, up to wrap-around. */
  ghost predicate Holds(acc: seq<int>, v: seq<int>) {
    |acc| == |v| == 16 && forall j | 0 <= j < 16 :: acc[j] == Wrap32(v[j])
  }

  lemma {:induction false} WrapStep(lane: int, a: int, b: int)
    ensures Wrap32(Wrap32(lane) + Wrap32(a * 1 + b * 1)) == Wrap32(lane + (a + b))
  {
    WrapAddBoth(lane, a + b);
  }

  /** One accumulator step: the pair sums of a half are added, lane by lane. */
  lemma {:induction false} LaneStep(acc: seq<int>, v: seq<int>, half: seq<int>)
    requires Holds(acc, v) && |half| == 32
    ensures Holds(Add32(acc, PairSum(half)), Paired(v, half))
  {
    forall j | 0 <= j < 16 ensures Add32(acc, PairSum(half))[j] == Wrap32(Paired(v, half)[j]) {
      WrapStep(v[j], half[2 * j], half[2 * j + 1]);
    }
  }

  lemma {:induction false} LanesNext(acts: seq<i8>, pos: seq<u64>, neg: seq<u64>, k: nat, lo: nat, acc: seq<int>,
                                     half: seq<int>)
    requires |pos| == |neg| && k < |pos| && 64 * k + 64 <= |acts| && lo <= 32
    requires Holds(acc, Lanes(acts, pos, neg, k, lo)) && half == BlockDiff(acts, pos, neg, k)[lo..lo + 32]
    ensures Holds(Add32(acc, PairSum(half)), Lanes(acts, pos, neg, k + 1, lo))
  {
    LaneStep(acc, Lanes(acts, pos, neg, k, lo), half);
  }

  /** One block of sixty-four activations: masks select, halves are widened and subtracted, and pairs are summed into
      sixteen lanes for each half. */
  method AccumulateBlock(acts: seq<i8>, pos: seq<u64>, neg: seq<u64>, k: nat, acc0: seq<int>, acc1: seq<int>)
    returns (acc0': seq<int>, acc1': seq<int>)
    requires |pos| == |neg| && k < |pos| && 64 * k + 64 <= |acts|
    requires Holds(acc0, Lanes(acts, pos, neg, k, 0)) && Holds(acc1, Lanes(acts, pos, neg, k, 32))
    ensures Holds(acc0', Lanes(acts, pos, neg, k + 1, 0)) && Holds(acc1', Lanes(acts, pos, neg, k + 1, 32))
  {
    var a := acts[64 * k..64 * k + 64];
    var posContrib, negContrib := MaskZero(pos[k], a), MaskZero(neg[k], a);
    var diffLo := Sub16(posContrib[0..32], negContrib[0..32]);
    var diffHi := Sub16(posContrib[32..64], negContrib[32..64]);
    HalfDiff(acts, pos, neg, k, 0, posContrib, negContrib);
    HalfDiff(acts, pos, neg, k, 32, posContrib, negContrib);
    LanesNext(acts, pos, neg, k, 0, acc0, diffLo);
    LanesNext(acts, pos, neg, k, 32, acc1, diffHi);
    acc0', acc1' := Add32(acc0, PairSum(diffLo)), Add32(acc1, PairSum(diffHi));
  }

  /** Sixty-four activations at a time. */
  method Accumulate(acts: seq<i8>, pos: seq<u64>, neg: seq<u64>, nBlocks: nat) returns (acc0: seq<int>, acc1: seq<int>)
    requires |pos| == |neg| && nBlocks <= |pos| && 64 * nBlocks <= |acts|
    ensures Holds(acc0, Lanes(acts, pos, neg, nBlocks, 0)) && Holds(acc1, Lanes(acts, pos, neg, nBlocks, 32))
  {
    acc0, acc1 := seq(16, _ => 0), seq(16, _ => 0);
    assert Holds(acc0, Lanes(acts, pos, neg, 0, 0)) && Holds(acc1, Lanes(acts, pos, neg, 0, 32));
    for k := 0 to nBlocks
      invariant Holds(acc0, Lanes(acts, pos, neg, k, 0)) && Holds(acc1, Lanes(acts, pos, neg, k, 32))
    {
      acc0, acc1 := AccumulateBlock(acts, pos, neg, k, acc0, acc1);
    }
  }

  // ---------- the result, from the mask bits ----------

  /** `r` is `total` as a 32-bit integer. */
  predicate IsI32Of(total: int, r: int) {
    -0x8000_0000 <= r < 0x8000_0000 && (total - r) % 0x1_0000_0000 == 0
  }

  lemma {:induction false} WrapMeans(x: int)
    ensures IsI32Of(x, Wrap32(x))
    decreases if x < 0 then -x else x + 1
  {
    if x < -TWO31 {
      WrapMeans(x + 2 * TWO31);
    } else if x >= TWO31 {
      WrapMeans(x - 2 * TWO31);
    }
  }

  /** Term `i`: the activation, added for a bit of the positive mask and subtracted for a bit of the negative. */
  predicate IsBitTerm(acts: seq<i8>, pos: seq<u64>, neg: seq<u64>, xs: seq<int>, i: nat) {
    && i < |xs| && i < |acts| && i / 64 < |pos| && i / 64 < |neg|
    && var a: int := acts[i];
       xs[i] == (if Bit(pos[i / 64], i % 64) then a else 0) - (if Bit(neg[i / 64], i % 64) then a else 0)
  }

  ghost predicate IsBitSum(acts: seq<i8>, pos: seq<u64>, neg: seq<u64>, n: nat, total: int) {
    exists xs: seq<int> ::
      |xs| == n && total == SumInts(xs) && forall i: nat | i < n :: IsBitTerm(acts, pos, neg, xs, i)
  }

  /** `r` is the sum over `n` mask bits, as a 32-bit integer. */
  ghost predicate IsMaskDot(acts: seq<i8>, pos: seq<u64>, neg: seq<u64>, n: nat, r: int) {
    exists total :: IsBitSum(acts, pos, neg, n, total) && IsI32Of(total, r)
  }

  function Products(acts: seq<i8>, w: seq<int>, n: nat): (xs: seq<int>)
    requires n <= |acts| && n <= |w|
    ensures |xs| == n && forall i | 0 <= i < n :: xs[i] == w[i] * acts[i]
  {
    seq(n, i requires 0 <= i < n => w[i] * acts[i])
  }

  lemma {:induction false} DotIsSum(acts: seq<i8>, w: seq<int>, n: nat, k: nat)
    requires k <= n <= |acts| && n <= |w|
    ensures Dot(acts, w, k) == SumInts(Products(acts, w, n)[..k])
  {
    if k > 0 {
      DotIsSum(acts, w, n, k - 1);
      assert Products(acts, w, n)[..k][..k - 1] == Products(acts, w, n)[..k - 1];
    }
  }

  lemma {:induction false} TermMeans(acts: seq<i8>, pos: seq<u64>, neg: seq<u64>, n: nat, i: nat)
    requires i < n <= |acts| && n <= 64 * |pos| && |pos| == |neg|
    ensures IsBitTerm(acts, pos, neg, Products(acts, Weights(pos, neg), n), i)
  {
    var w := Weights(pos, neg)[i];
    assert w == Weight(pos, neg, i);
    assert w == -1 || w == 0 || w == 1;
  }

  /** The dot product and its 32-bit result, from the mask bits. */
  lemma {:induction false} DotMeans(acts: seq<i8>, pos: seq<u64>, neg: seq<u64>, n: nat)
    requires n <= |acts| && n <= 64 * |pos| && |pos| == |neg|
    ensures IsBitSum(acts, pos, neg, n, Dot(acts, Weights(pos, neg), n))
    ensures IsMaskDot(acts, pos, neg, n, Wrap32(Dot(acts, Weights(pos, neg), n)))
  {
    var w := Weights(pos, neg);
    var xs := Products(acts, w, n);
    DotIsSum(acts, w, n, n);
    assert xs[..n] == xs;
    forall i: nat | i < n ensures IsBitTerm(acts, pos, neg, xs, i) {
      TermMeans(acts, pos, neg, n, i);
    }
    WrapMeans(Dot(acts, w, n));
  }

  /** The kernel computes the dot product, as a 32-bit integer. */
  method TernaryDot(acts: seq<i8>, pos: seq<u64>, neg: seq<u64>, nWeights: nat) returns (r: int)
    requires nWeights % 64 == 0 && nWeights <= |acts| && |pos| == |neg| && nWeights / 64 <= |pos|
    ensures r == Wrap32(Dot(acts, Weights(pos, neg), nWeights)) && IsMaskDot(acts, pos, neg, nWeights, r)
  {
    DotMeans(acts, pos, neg, nWeights);
    var nBlocks := nWeights / 64;
    var acc0, acc1 := Accumulate(acts, pos, neg, nBlocks);
    var combined := Add32(acc0, acc1);
    r := ReduceAdd(combined, |combined|);
    WeightsAreTerms(acts, pos, neg);
    KernelTotal(acts, pos, neg, Weights(pos, neg), nBlocks, nWeights, acc0, acc1, |combined|);
  }

  lemma {:induction false} KernelTotal(acts: seq<i8>, pos: seq<u64>, neg: seq<u64>, w: seq<int>, k: nat, n: nat,
                                       acc0: seq<int>, acc1: seq<int>, lanes: nat)
    requires AllTerms(acts, pos, neg, w) && k <= |pos| && n == 64 * k <= |acts| && lanes == 16
    requires Holds(acc0, Lanes(acts, pos, neg, k, 0)) && Holds(acc1, Lanes(acts, pos, neg, k, 32))
    ensures ReduceAdd(Add32(acc0, acc1), lanes) == Wrap32(Dot(acts, w, n))
  {
    LanesMakeDot(acts, pos, neg, w, k, n, lanes);
    TotalOfLanes(acc0, acc1, Lanes(acts, pos, neg, k, 0), Lanes(acts, pos, neg, k, 32), acts, w, n, lanes);
  }

  lemma {:induction false} TotalOfLanes(acc0: seq<int>, acc1: seq<int>, v0: seq<int>, v1: seq<int>, acts: seq<i8>,
                                        w: seq<int>, n: nat, lanes: nat)
    requires Holds(acc0, v0) && Holds(acc1, v1) && |v0| == |v1| == lanes == 16 && n <= |acts| && n <= |w|
    requires Excess(v0, v1, acts, w, n, lanes) == 0
    ensures ReduceAdd(Add32(acc0, acc1), lanes) == Wrap32(Dot(acts, w, n))
  {
    ReduceBoth(acc0, acc1, v0, v1, lanes);
    NoneLeft(v0, v1, acts, w, n, lanes);
  }

  lemma {:induction false} NoneLeft(v0: seq<int>, v1: seq<int>, acts: seq<i8>, w: seq<int>, n: nat, lanes: nat)
    requires |v0| == |v1| == lanes && n <= |acts| && n <= |w| && Excess(v0, v1, acts, w, n, lanes) == 0
    ensures SumTo(v0, lanes) + SumTo(v1, lanes) == Dot(acts, w, n)
  {
  }

  /** The pairs of a half-block up to pair `j` sum to its first `2 * j` differences. */
  lemma {:induction false} PairedSum(v: seq<int>, half: seq<int>, j: nat)
    requires |v| == 16 && |half| == 32 && j <= 16
    ensures SumTo(Paired(v, half), j) == SumTo(v, j) + SumTo(half, 2 * j)
  {
    if j > 0 {
      PairedSum(v, half, j - 1);
      assert SumTo(half, 2 * j) == SumTo(half, 2 * j - 1) + half[2 * j - 1];
    }
  }

  lemma {:induction false} SumSplit(d: seq<int>, m: nat, n: nat)
    requires m <= |d| && n <= |d| - m
    ensures SumTo(d, m + n) == SumTo(d[..m], m) + SumTo(d[m..], n)
  {
    if n > 0 {
      SumSplit(d, m, n - 1);
    } else {
      SumPrefix(d, m, m);
    }
  }

  lemma {:induction false} SumPrefix(d: seq<int>, m: nat, n: nat)
    requires n <= m <= |d|
    ensures SumTo(d[..m], n) == SumTo(d, n)
  {
    if n > 0 {
      SumPrefix(d, m, n - 1);
    }
  }

  /** `d` is the terms of the dot product from `base` on. */
  predicate Terms(d: seq<int>, acts: seq<i8>, w: seq<int>, base: nat) {
    base + |d| <= |acts| && base + |d| <= |w| && forall j | 0 <= j < |d| :: d[j] == w[base + j] * acts[base + j]
  }

  lemma {:induction false} DotBlock(d: seq<int>, acts: seq<i8>, w: seq<int>, base: nat, n: nat)
    requires Terms(d, acts, w, base) && n <= |d|
    ensures Dot(acts, w, base + n) == Dot(acts, w, base) + SumTo(d, n)
  {
    if n > 0 {
      DotBlock(d, acts, w, base, n - 1);
    }
  }

  lemma {:induction false} WeightsAreTerms(acts: seq<i8>, pos: seq<u64>, neg: seq<u64>)
    requires |pos| == |neg|
    ensures AllTerms(acts, pos, neg, Weights(pos, neg))
  {
    forall k: nat | k < |pos| && 64 * k + 64 <= |acts|
      ensures Terms(BlockDiff(acts, pos, neg, k), acts, Weights(pos, neg), 64 * k)
    {
      BlockTerms(acts, pos, neg, k);
    }
  }

  lemma {:induction false} BlockTerms(acts: seq<i8>, pos: seq<u64>, neg: seq<u64>, k: nat)
    requires |pos| == |neg| && k < |pos| && 64 * k + 64 <= |acts|
    ensures Terms(BlockDiff(acts, pos, neg, k), acts, Weights(pos, neg), 64 * k)
  {
    var d, w := BlockDiff(acts, pos, neg, k), Weights(pos, neg);
    forall j | 0 <= j < 64 ensures d[j] == w[64 * k + j] * acts[64 * k + j] {
      var i := 64 * k + j;
      assert i / 64 == k && i % 64 == j;
    }
  }

  /** Both halves of a block add its sixty-four differences. */
  lemma {:induction false} BlockTotal(v0: seq<int>, v1: seq<int>, d: seq<int>, lanes: nat)
    requires |v0| == |v1| == lanes == 16 && |d| == 64
    ensures SumTo(Paired(v0, d[0..32]), lanes) + SumTo(Paired(v1, d[32..64]), lanes)
         == SumTo(v0, lanes) + SumTo(v1, lanes) + SumTo(d, 4 * lanes)
  {
    assert d[0..32] == d[..32] && d[32..64] == d[32..];
    PairedSum(v0, d[..32], lanes);
    PairedSum(v1, d[32..], lanes);
    SumSplit(d, 2 * lanes, 2 * lanes);
  }

  /** What the lanes hold beyond the first `n` terms of the dot product. */
  function Excess(v0: seq<int>, v1: seq<int>, acts: seq<i8>, w: seq<int>, n: nat, lanes: nat): int
    requires |v0| == |v1| == lanes && n <= |acts| && n <= |w|
  {
    SumTo(v0, lanes) + SumTo(v1, lanes) - Dot(acts, w, n)
  }

  lemma {:induction false} ExcessStays(v0: seq<int>, v1: seq<int>, d: seq<int>, acts: seq<i8>, w: seq<int>, n: nat,
                                       lanes: nat)
    requires |v0| == |v1| == lanes == 16 && |d| == 64 && Terms(d, acts, w, n)
    ensures Excess(Paired(v0, d[0..32]), Paired(v1, d[32..64]), acts, w, n + 64, lanes)
        == Excess(v0, v1, acts, w, n, lanes)
  {
    BlockTotal(v0, v1, d, lanes);
    DotBlock(d, acts, w, n, 4 * lanes);
  }

  /** The weights `w` are those of every block. */
  ghost predicate AllTerms(acts: seq<i8>, pos: seq<u64>, neg: seq<u64>, w: seq<int>) {
    |pos| == |neg| && |w| == 64 * |pos|
    && forall k: nat | k < |pos| && 64 * k + 64 <= |acts| :: Terms(BlockDiff(acts, pos, neg, k), acts, w, 64 * k)
  }

  /** Without wrap-around, the lanes hold the dot product. */
  lemma {:induction false} LanesMakeDot(acts: seq<i8>, pos: seq<u64>, neg: seq<u64>, w: seq<int>, k: nat, n: nat,
                                        lanes: nat)
    requires AllTerms(acts, pos, neg, w) && k <= |pos| && n == 64 * k <= |acts| && lanes == 16
    ensures Excess(Lanes(acts, pos, neg, k, 0), Lanes(acts, pos, neg, k, 32), acts, w, n, lanes) == 0
  {
    var v0, v1 := Lanes(acts, pos, neg, k, 0), Lanes(acts, pos, neg, k, 32);
    if k == 0 {
      SumOfZeros(v0, lanes);
      SumOfZeros(v1, lanes);
    } else {
      var d, u0, u1 := BlockDiff(acts, pos, neg, k - 1), Lanes(acts, pos, neg, k - 1, 0),
          Lanes(acts, pos, neg, k - 1, 32);
      assert v0 == Paired(u0, d[0..32]) && v1 == Paired(u1, d[32..64]);
      LanesMakeDot(acts, pos, neg, w, k - 1, n - 64, lanes);
      ExcessStays(u0, u1, d, acts, w, n - 64, lanes);
    }
  }

  lemma {:induction false} SumOfZeros(v: seq<int>, j: nat)
    requires j <= |v| && forall i | 0 <= i < |v| :: v[i] == 0
    ensures SumTo(v, j) == 0
  {
    if j > 0 {
      SumOfZeros(v, j - 1);
    }
  }

  /** Adding the two accumulators and reducing gives the wrapped sum of all their lanes. */
  lemma {:induction false} ReduceBoth(acc0: seq<int>, acc1: seq<int>, v0: seq<int>, v1: seq<int>, j: nat)
    requires Holds(acc0, v0) && Holds(acc1, v1) && j <= 16
    ensures ReduceAdd(Add32(acc0, acc1), j) == Wrap32(SumTo(v0, j) + SumTo(v1, j))
  {
    if j > 0 {
      ReduceBoth(acc0, acc1, v0, v1, j - 1);
      WrapAddBoth(v0[j - 1], v1[j - 1]);
      WrapAddBoth(SumTo(v0, j - 1) + SumTo(v1, j - 1), v0[j - 1] + v1[j - 1]);
    }
  }

  // ---------- range ----------

  /** Each weight contributes at most 128 in magnitude. */
  lemma {:induction false} DotRange(acts: seq<i8>, w: seq<int>, n: nat)
    requires n <= |acts| && n <= |w| && forall i | 0 <= i < |w| :: -1 <= w[i] <= 1
    ensures -128 * n <= Dot(acts, w, n) <= 128 * n
  {
    if n > 0 {
      DotRange(acts, w, n - 1);
      assert w[n - 1] == -1 || w[n - 1] == 0 || w[n - 1] == 1;
    }
  }

  lemma {:induction false} WeightsTernary(pos: seq<u64>, neg: seq<u64>)
    requires |pos| == |neg|
    ensures forall i | 0 <= i < 64 * |pos| :: -1 <= Weights(pos, neg)[i] <= 1
  {
  }

  /** Below 2^24 weights the kernel's result is the dot product itself. */
  lemma {:induction false} NoOverflow(acts: seq<i8>, pos: seq<u64>, neg: seq<u64>, n: nat)
    requires n <= |acts| && n <= 64 * |pos| && |pos| == |neg| && n < 0x100_0000
    ensures Wrap32(Dot(acts, Weights(pos, neg), n)) == Dot(acts, Weights(pos, neg), n)
  {
    WeightsTernary(pos, neg);
    DotRange(acts, Weights(pos, neg), n);
  }

  predicate InI32(x: int) {
    -TWO31 <= x < TWO31
  }

  /** No element exceeds `b` in magnitude. */
  ghost predicate Within(v: seq<int>, b: int) {
    forall j | 0 <= j < |v| :: -b <= v[j] <= b
  }

  lemma {:induction false} BlockWithin(acts: seq<i8>, pos: seq<u64>, neg: seq<u64>, k: nat)
    requires |pos| == |neg| && k < |pos| && 64 * k + 64 <= |acts|
    ensures Within(BlockDiff(acts, pos, neg, k), 128)
  {
    var d := BlockDiff(acts, pos, neg, k);
    forall j | 0 <= j < 64 ensures -128 <= d[j] <= 128 {
      var w := BitValue(pos[k], j) - BitValue(neg[k], j);
      assert w == -1 || w == 0 || w == 1;
    }
  }

  lemma {:induction false} PairedWithin(v: seq<int>, d: seq<int>, lo: nat, b: nat)
    requires |v| == 16 && |d| == 64 && lo <= 32 && Within(v, b) && Within(d, 128)
    ensures Within(Paired(v, d[lo..lo + 32]), b + 256)
  {
  }

  lemma {:induction false} LanesGain(acts: seq<i8>, pos: seq<u64>, neg: seq<u64>, k: nat, lo: nat, b: nat, b': nat)
    requires |pos| == |neg| && 0 < k <= |pos| && 64 * k <= |acts| && lo <= 32 && b' == b + 256
    requires Within(Lanes(acts, pos, neg, k - 1, lo), b)
    ensures Within(Lanes(acts, pos, neg, k, lo), b')
  {
    BlockWithin(acts, pos, neg, k - 1);
    PairedWithin(Lanes(acts, pos, neg, k - 1, lo), BlockDiff(acts, pos, neg, k - 1), lo, b);
  }

  /** Without wrap-around, a lane gains at most 256 in magnitude with each block. */
  lemma {:induction false} LanesWithin(acts: seq<i8>, pos: seq<u64>, neg: seq<u64>, k: nat, lo: nat)
    requires |pos| == |neg| && k <= |pos| && 64 * k <= |acts| && lo <= 32
    ensures Within(Lanes(acts, pos, neg, k, lo), 256 * k)
    decreases k
  {
    if k > 0 {
      LanesWithin(acts, pos, neg, k - 1, lo);
      LanesGain(acts, pos, neg, k, lo, 256 * (k - 1), 256 * k);
    }
  }

  lemma {:induction false} SumWithin(v: seq<int>, b: nat, n: nat)
    requires n <= |v| && Within(v, b)
    ensures -(b * n) <= SumTo(v, n) <= b * n
  {
    if n > 0 {
      SumWithin(v, b, n - 1);
      assert b * n == b * (n - 1) + b;
    }
  }

  /** Lanes below 2^26 in magnitude, and every sum the reduction forms of them, are 32-bit integers. */
  lemma {:induction false} SumsFit(v0: seq<int>, v1: seq<int>, b: nat, j: nat, n: nat)
    requires |v0| == |v1| == 16 && Within(v0, b) && Within(v1, b) && b < 0x400_0000 && j < 16 && n <= 16
    ensures InI32(v0[j]) && InI32(v1[j]) && InI32(v0[j] + v1[j]) && InI32(SumTo(v0, n) + SumTo(v1, n))
  {
    SumWithin(v0, b, n);
    SumWithin(v1, b, n);
    MulLeRight(b, n, 16);
  }

  /** Below 2^24 weights no 32-bit step overflows: no lane of either accumulator after any block, no lane of their
      sum, and no partial sum of the reduction. */
  lemma {:induction false} NoStepOverflows(acts: seq<i8>, pos: seq<u64>, neg: seq<u64>, k: nat, j: nat, n: nat)
    requires |pos| == |neg| && k <= |pos| && 64 * k <= |acts| && 64 * k < 0x100_0000 && j < 16 && n <= 16
    ensures var v0, v1 := Lanes(acts, pos, neg, k, 0), Lanes(acts, pos, neg, k, 32);
            InI32(v0[j]) && InI32(v1[j]) && InI32(v0[j] + v1[j]) && InI32(SumTo(v0, n) + SumTo(v1, n))
  {
    LanesWithin(acts, pos, neg, k, 0);
    LanesWithin(acts, pos, neg, k, 32);
    SumsFit(Lanes(acts, pos, neg, k, 0), Lanes(acts, pos, neg, k, 32), 256 * k, j, n);
  }

  lemma {:induction false} ConstantDot(acts: seq<i8>, w: seq<int>, n: nat)
    requires n <= |acts| && n <= |w|
    requires forall i | 0 <= i < |acts| :: acts[i] == -128
    requires forall i | 0 <= i < |w| :: w[i] == -1
    ensures Dot(acts, w, n) == 128 * n
  {
    if n > 0 {
      ConstantDot(acts, w, n - 1);
    }
  }

  lemma {:induction false} AllNegative(pos: seq<u64>, neg: seq<u64>)
    requires |pos| == |neg| && forall k | 0 <= k < |pos| :: pos[k] == 0 && neg[k] == Pow2(64) - 1
    ensures forall i | 0 <= i < 64 * |pos| :: Weights(pos, neg)[i] == -1
  {
    forall i | 0 <= i < 64 * |pos| ensures Weights(pos, neg)[i] == -1 {
      BitZero(i % 64);
      BitOnes(64, i % 64);
    }
  }

  /** For all masks and activations of `n` weights the kernel's result is the dot product itself. */
  ghost predicate AlwaysExact(n: nat) {
    forall acts: seq<i8>, pos: seq<u64>, neg: seq<u64> | n <= |acts| && n <= 64 * |pos| && |pos| == |neg| ::
        ExactOn(acts, pos, neg, n)
  }

  ghost predicate ExactOn(acts: seq<i8>, pos: seq<u64>, neg: seq<u64>, n: nat)
    requires n <= |acts| && n <= 64 * |pos| && |pos| == |neg|
  {
    Wrap32(Dot(acts, Weights(pos, neg), n)) == Dot(acts, Weights(pos, neg), n)
  }

  /** All activations -128 and all weights -1: from 2^24 weights on, the sum leaves the range. */
  lemma {:induction false} OverflowFromBound(n: nat)
    requires n >= 0x100_0000
    ensures !AlwaysExact(n)
  {
    var acts: seq<i8> := seq(n, _ => -128);
    var pos: seq<u64>, neg: seq<u64> := seq(n / 64 + 1, _ => 0), seq(n / 64 + 1, _ => Pow2(64) - 1);
    AllNegative(pos, neg);
    ConstantDot(acts, Weights(pos, neg), n);
    assert !ExactOn(acts, pos, neg, n);
  }

  /** The kernel is exact, for all masks and activations, exactly below 2^24 weights. */
  lemma {:induction false} ExactIffBelowBound(n: nat)
    ensures AlwaysExact(n) <==> n < 0x100_0000
  {
    if n < 0x100_0000 {
      forall acts: seq<i8>, pos: seq<u64>, neg: seq<u64> | n <= |acts| && n <= 64 * |pos| && |pos| == |neg|
        ensures ExactOn(acts, pos, neg, n)
      {
        NoOverflow(acts, pos, neg, n);
      }
    } else {
      OverflowFromBound(n);
    }
  }

  // ---------- the scalar loop ----------

  /** The reference: one weight at a time. */
  method ScalarDot(acts: seq<i8>, pos: seq<u64>, neg: seq<u64>, cols: nat) returns (r: int)
    requires cols <= |acts| && cols <= 64 * |pos| && |pos| == |neg|
    ensures r == Dot(acts, Weights(pos, neg), cols)
  {
    r := 0;
    for col := 0 to cols
      invariant r == Dot(acts, Weights(pos, neg), col)
    {
      var weight := BitValue(pos[col / 64], col % 64) - BitValue(neg[col / 64], col % 64);
      r := r + weight * acts[col];
    }
  }

  /** Weights of zero add nothing, whatever activations stand beside them. */
  lemma {:induction false} PaddingAddsNothing(acts: seq<i8>, acts': seq<i8>, w: seq<int>, raw: nat, cols: nat)
    requires raw <= cols <= |acts| && raw <= |acts'| && cols <= |w|
    requires forall i | 0 <= i < raw :: acts[i] == acts'[i]
    requires forall i | raw <= i < cols :: w[i] == 0
    ensures Dot(acts, w, cols) == Dot(acts', w, raw)
  {
    if cols > raw {
      PaddingAddsNothing(acts, acts', w, raw, cols - 1);
    } else if cols > 0 {
      PaddingAddsNothing(acts, acts', w, raw - 1, cols - 1);
    }
  }
}
