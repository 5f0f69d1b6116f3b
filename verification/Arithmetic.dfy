/** Products of variables, in the few forms that are needed. */
module Arithmetic {
  lemma {:induction false} MulLe(a: nat, b: nat, m: nat)
    requires a <= b
    ensures a * m <= b * m
  {
  }

  lemma {:induction false} MulLeRight(m: nat, a: nat, b: nat)
    requires a <= b
    ensures m * a <= m * b
  {
    if a < b {
      MulLeRight(m, a, b - 1);
    }
  }

  lemma {:induction false} MulAdd(a: nat, b: nat, m: nat)
    ensures (a + b) * m == a * m + b * m
  {
  }

  /** Quotient and remainder are unique. */
  lemma {:induction false} Digits(a: nat, b: nat, c: nat, d: nat, m: nat)
    requires b < m && d < m && a * m + b == c * m + d
    ensures a == c && b == d
  {
    if a < c {
      MulAdd(a, 1, m);
      MulLe(a + 1, c, m);
    } else if c < a {
      MulAdd(c, 1, m);
      MulLe(c + 1, a, m);
    }
  }

  function Times(a: real, b: real): real {
    a * b
  }

  function SumInts(s: seq<int>): int {
    if s == [] then 0 else SumInts(s[..|s| - 1]) + s[|s| - 1]
  }

  function SumReals(s: seq<real>): real {
    if s == [] then 0.0 else SumReals(s[..|s| - 1]) + s[|s| - 1]
  }

  lemma {:induction false} TimesAdd(a: real, b: real, f: real)
    ensures Times(a + b, f) == Times(a, f) + Times(b, f)
  {
  }
}

/** Equal parts of a sequence. */
module Slices {
  import opened Arithmetic

  /** The `i`-th run of `size` elements. */
  function Chunk<T>(s: seq<T>, size: nat, i: nat): (c: seq<T>)
    requires i * size + size <= |s|
    ensures |c| == size
  {
    s[i * size..i * size + size]
  }

  lemma {:induction false} ChunkFits(count: nat, size: nat, i: nat)
    requires i < count
    ensures i * size + size <= count * size
  {
    MulLe(i + 1, count, size);
    MulAdd(i, 1, size);
  }

  lemma {:induction false} SliceBefore<T>(a: seq<T>, b: seq<T>, at: nat, lo: nat, n: nat)
    requires |a| == |b| && lo + n <= at <= |a| && a[..at] == b[..at]
    ensures a[lo..lo + n] == b[lo..lo + n]
  {
    assert a[lo..lo + n] == a[..at][lo..lo + n] && b[lo..lo + n] == b[..at][lo..lo + n];
  }

  lemma {:induction false} SliceAfter<T>(a: seq<T>, b: seq<T>, end: nat, lo: nat, n: nat)
    requires |a| == |b| && end <= lo && lo + n <= |a| && a[end..] == b[end..]
    ensures a[lo..lo + n] == b[lo..lo + n]
  {
    forall i | lo <= i < lo + n ensures a[i] == b[i] {
      assert a[i] == a[end..][i - end] && b[i] == b[end..][i - end];
    }
  }
}
