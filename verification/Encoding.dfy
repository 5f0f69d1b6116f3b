/** Little-endian numbers, and reading from the front of a byte sequence. */
module Encoding {
  import opened Wrappers
  import opened Word64

  datatype Error = UnexpectedEof | BadMagic(found: nat) | UnknownType(code: nat)

  /** What a parser returns: a value and the bytes after it, or an error. */
  type Outcome<T> = Result<(T, seq<u8>), Error>

  /** 256 to the `k`. */
  function Pow256(k: nat): (p: nat)
    ensures p > 0
  {
    if k == 0 then 1 else 256 * Pow256(k - 1)
  }

  /** The low `k` bytes of `n`, little end first. */
  function LeEncode(n: nat, k: nat): (b: seq<u8>)
    ensures |b| == k
    decreases n + k
  {
    if k == 0 then [] else [n % 256] + LeEncode(n / 256, k - 1)
  }

  function LeDecode(b: seq<u8>): (n: nat)
    ensures n < Pow256(|b|)
  {
    if b == [] then 0 else b[0] + 256 * LeDecode(b[1..])
  }

  lemma {:induction false} DecodeEncode(n: nat, k: nat)
    requires n < Pow256(k)
    ensures LeDecode(LeEncode(n, k)) == n
    decreases k
  {
    if k > 0 {
      DecodeEncode(n / 256, k - 1);
      assert LeEncode(n, k)[1..] == LeEncode(n / 256, k - 1);
    }
  }

  lemma {:induction false} EncodeDecode(b: seq<u8>)
    ensures LeEncode(LeDecode(b), |b|) == b
  {
    if b != [] {
      EncodeDecode(b[1..]);
      var n := LeDecode(b);
      assert n % 256 == b[0] && n / 256 == LeDecode(b[1..]);
    }
  }

  // ---------- reading ----------

  function TakeBytes(data: seq<u8>, n: nat): (r: Outcome<seq<u8>>)
    ensures r.Ok? ==> data == r.value.0 + r.value.1 && |r.value.0| == n
  {
    if n <= |data| then Ok((data[..n], data[n..])) else Err(UnexpectedEof)
  }

  function ParseNum(data: seq<u8>, width: nat): (r: Outcome<nat>)
    ensures r.Ok? ==> r.value.0 < Pow256(width) && |r.value.1| + width == |data|
  {
    match TakeBytes(data, width)
    case Ok((b, rest)) => Ok((LeDecode(b), rest))
    case Err(e) => Err(e)
  }

  /** A length of eight bytes and as many bytes. */
  function ParseString(data: seq<u8>): (r: Outcome<seq<u8>>)
    ensures r.Ok? ==> |r.value.1| + 8 + |r.value.0| == |data| && |r.value.0| < Pow256(8)
  {
    match ParseNum(data, 8)
    case Ok((len, rest)) => TakeBytes(rest, len)
    case Err(e) => Err(e)
  }

  function EncodeString(s: seq<u8>): (b: seq<u8>)
    ensures |b| == 8 + |s|
  {
    LeEncode(|s|, 8) + s
  }

  lemma {:induction false} NumRoundTrip(n: nat, width: nat, rest: seq<u8>)
    requires n < Pow256(width)
    ensures ParseNum(LeEncode(n, width) + rest, width) == Ok((n, rest))
  {
    var b := LeEncode(n, width);
    assert (b + rest)[..width] == b && (b + rest)[width..] == rest;
    DecodeEncode(n, width);
  }

  lemma {:induction false} NumCanonical(data: seq<u8>, width: nat)
    requires ParseNum(data, width).Ok?
    ensures var (n, rest) := ParseNum(data, width).value; data == LeEncode(n, width) + rest
  {
    EncodeDecode(data[..width]);
  }

  lemma {:induction false} StringRoundTrip(s: seq<u8>, rest: seq<u8>)
    requires |s| < Pow256(8)
    ensures ParseString(EncodeString(s) + rest) == Ok((s, rest))
  {
    assert EncodeString(s) + rest == LeEncode(|s|, 8) + (s + rest);
    NumRoundTrip(|s|, 8, s + rest);
    assert (s + rest)[..|s|] == s && (s + rest)[|s|..] == rest;
  }

  lemma {:induction false} StringCanonical(data: seq<u8>)
    requires ParseString(data).Ok?
    ensures var (s, rest) := ParseString(data).value; data == EncodeString(s) + rest
  {
    NumCanonical(data, 8);
    var (len, tail) := ParseNum(data, 8).value;
    var (s, rest) := TakeBytes(tail, len).value;
    assert data == LeEncode(len, 8) + (s + rest) == EncodeString(s) + rest;
  }

  /** Concatenation, regrouped to the right. */
  lemma {:induction false} Regroup(a: seq<u8>, b: seq<u8>, c: seq<u8>, d: seq<u8>)
    ensures (a + b + c) + d == a + (b + (c + d))
  {
  }

  // ---------- the reader ----------

  /** A method's result and what is left to read are those of a parser. */
  ghost predicate Follows<T>(r: Result<T, Error>, rest: seq<u8>, want: Outcome<T>) {
    match want
    case Ok((v, rest')) => r == Ok(v) && rest == rest'
    case Err(e) => r == Err(e)
  }

  /** Bytes and a position in them. */
  class Reader {
    const data: seq<u8>
    var pos: nat

    ghost predicate Valid()
      reads this
    {
      pos <= |data|
    }

    ghost function Rest(): (rest: seq<u8>)
      requires Valid()
      reads this
      ensures |rest| == |data| - pos
    {
      data[pos..]
    }

    constructor (bytes: seq<u8>)
      ensures Valid() && data == bytes && pos == 0 && Rest() == bytes
    {
      data, pos := bytes, 0;
    }

    /** Reads `n` bytes, or fails at the end of the data, having consumed what was left. */
    method ReadExact(n: nat) returns (r: Result<seq<u8>, Error>)
      requires Valid()
      modifies `pos
      ensures Valid() && old(pos) <= pos && Follows(r, Rest(), TakeBytes(old(Rest()), n))
    {
      if n <= |data| - pos {
        var b := data[pos..pos + n];
        assert b == Rest()[..n];
        pos := pos + n;
        r := Ok(b);
      } else {
        pos := |data|;
        r := Err(UnexpectedEof);
      }
    }

    method ReadNum(width: nat) returns (r: Result<nat, Error>)
      requires Valid()
      modifies `pos
      ensures Valid() && old(pos) <= pos && Follows(r, Rest(), ParseNum(old(Rest()), width))
    {
      var b := ReadExact(width);
      r := match b case Ok(bytes) => Ok(LeDecode(bytes)) case Err(e) => Err(e);
    }

    method ReadGgufString() returns (r: Result<seq<u8>, Error>)
      requires Valid()
      modifies `pos
      ensures Valid() && old(pos) <= pos && Follows(r, Rest(), ParseString(old(Rest())))
    {
      var len := ReadNum(8);
      if len.Err? {
        return Err(len.error);
      }
      r := ReadExact(len.value);
    }
  }
}
