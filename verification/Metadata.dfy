/** GGUF metadata values: their encoding, and the reader that turns them into the values the engine keeps. */
module Metadata {
  import opened Wrappers
  import opened Word64
  import opened Encoding

  const STRING_CODE: nat := 8
  const ARRAY_CODE: nat := 9

  /** The scalar kinds of the format. */
  datatype Kind = U8 | I8 | U16 | I16 | U32 | I32 | F32 | Bool | U64 | I64 | F64 {
    function Code(): nat {
      match this
      case U8 => 0
      case I8 => 1
      case U16 => 2
      case I16 => 3
      case U32 => 4
      case I32 => 5
      case F32 => 6
      case Bool => 7
      case U64 => 10
      case I64 => 11
      case F64 => 12
    }

    function Width(): nat {
      match this
      case U8 | I8 | Bool => 1
      case U16 | I16 => 2
      case U32 | I32 | F32 => 4
      case U64 | I64 | F64 => 8
    }

    predicate Signed() {
      I8? || I16? || I32? || I64?
    }

    /** Half the range: where the negative numbers start. */
    function Half(): nat {
      128 * Pow256(Width() - 1)
    }

    /** A float is its bits; a bool is its byte. */
    predicate InRange(n: int) {
      if Signed() then 0 - Half() <= n < Half() else 0 <= n < Pow256(Width())
    }

    /** Two's complement. */
    function Raw(n: int): (raw: nat)
      requires InRange(n)
      ensures raw < Pow256(Width())
    {
      assert Pow256(Width()) == 2 * Half();
      if n < 0 then n + Pow256(Width()) else n
    }

    function FromRaw(raw: nat): (n: int)
      requires raw < Pow256(Width())
      ensures InRange(n) && Raw(n) == raw
    {
      assert Pow256(Width()) == 2 * Half();
      if Signed() && raw >= Half() then raw - Pow256(Width()) else raw
    }
  }

  function KindOf(code: nat): (k: Option<Kind>)
    ensures k.Some? ==> k.value.Code() == code
    ensures k.None? ==> forall kind: Kind :: kind.Code() != code
  {
    match code
    case 0 => Some(U8)
    case 1 => Some(I8)
    case 2 => Some(U16)
    case 3 => Some(I16)
    case 4 => Some(U32)
    case 5 => Some(I32)
    case 6 => Some(F32)
    case 7 => Some(Bool)
    case 10 => Some(U64)
    case 11 => Some(I64)
    case 12 => Some(F64)
    case _ => None
  }

  /** A value of the format. An array names the type of its items, even if it has none. */
  datatype Value = Num(kind: Kind, n: int) | Str(s: seq<u8>) | Arr(elemType: nat, items: seq<Value>) {
    function Code(): nat {
      match this
      case Num(kind, _) => kind.Code()
      case Str(_) => STRING_CODE
      case Arr(_, _) => ARRAY_CODE
    }
  }

  predicate Encodable(v: Value)
    decreases v
  {
    match v
    case Num(kind, n) => kind.InRange(n)
    case Str(s) => |s| < Pow256(8)
    case Arr(elemType, items) =>
      && elemType < Pow256(4) && |items| < Pow256(8)
      && forall i | 0 <= i < |items| :: items[i].Code() == elemType && Encodable(items[i])
  }

  function Encode(v: Value): seq<u8>
    requires Encodable(v)
    decreases v
  {
    match v
    case Num(kind, n) => LeEncode(kind.Raw(n), kind.Width())
    case Str(s) => EncodeString(s)
    case Arr(elemType, items) => LeEncode(elemType, 4) + LeEncode(|items|, 8) + EncodeItems(items)
  }

  function EncodeItems(items: seq<Value>): seq<u8>
    requires forall i | 0 <= i < |items| :: Encodable(items[i])
    decreases items
  {
    if items == [] then [] else Encode(items[0]) + EncodeItems(items[1..])
  }

  /** What the engine keeps. */
  datatype MetadataValue =
    | UInt32(u: u32)
    | Int32(i: int)
    | Float32(bits: nat)
    | String(bytes: seq<u8>)
    | Uint64(n: nat)
    | Boolean(b: bool)
    | Array(values: seq<MetadataValue>)
    | Other

  /** What is kept of a scalar. */
  function ViewNum(kind: Kind, n: int): MetadataValue
    requires kind.InRange(n)
  {
    match kind
    case U32 => assert Pow256(4) == 0x1_0000_0000; UInt32(n)
    case I32 => Int32(n)
    case F32 => Float32(n)
    case Bool => Boolean(n != 0)
    case U64 => Uint64(n)
    case _ => Other
  }

  function View(v: Value): MetadataValue
    requires Encodable(v)
    decreases v
  {
    match v
    case Num(kind, n) => ViewNum(kind, n)
    case Str(s) => String(s)
    case Arr(_, items) => Array(ViewItems(items))
  }

  function ViewItems(items: seq<Value>): seq<MetadataValue>
    requires forall i | 0 <= i < |items| :: Encodable(items[i])
    decreases items
  {
    if items == [] then [] else [View(items[0])] + ViewItems(items[1..])
  }

  // ---------- parsing ----------

  function ParseScalar(data: seq<u8>, kind: Kind): (r: Outcome<MetadataValue>)
    ensures r.Ok? ==> |r.value.1| < |data|
  {
    match ParseNum(data, kind.Width())
    case Ok((raw, rest)) => Ok((ViewNum(kind, kind.FromRaw(raw)), rest))
    case Err(e) => Err(e)
  }

  function ParseValue(data: seq<u8>, code: nat): (r: Outcome<MetadataValue>)
    ensures r.Ok? ==> |r.value.1| < |data|
    decreases |data|, 1
  {
    if KindOf(code).Some? then ParseScalar(data, KindOf(code).value)
    else if code == STRING_CODE then
      match ParseString(data)
      case Ok((s, rest)) => Ok((String(s), rest))
      case Err(e) => Err(e)
    else if code == ARRAY_CODE then ParseArray(data)
    else Err(UnknownType(code))
  }

  function ParseArray(data: seq<u8>): (r: Outcome<MetadataValue>)
    ensures r.Ok? ==> |r.value.1| < |data|
    decreases |data|, 0
  {
    match ParseNum(data, 4)
    case Err(e) => Err(e)
    case Ok((elemType, rest)) =>
      match ParseNum(rest, 8)
      case Err(e) => Err(e)
      case Ok((len, rest')) =>
        match ParseItems(rest', elemType, len)
        case Err(e) => Err(e)
        case Ok((values, rest'')) => Ok((Array(values), rest''))
  }

  function ParseItems(data: seq<u8>, code: nat, n: nat): (r: Outcome<seq<MetadataValue>>)
    ensures r.Ok? ==> |r.value.1| <= |data|
    decreases |data|, 2
  {
    if n == 0 then Ok(([], data))
    else
      match ParseValue(data, code)
      case Err(e) => Err(e)
      case Ok((v, rest)) => Prepend([v], ParseItems(rest, code, n - 1))
  }

  function Prepend<T>(done: seq<T>, r: Outcome<seq<T>>): (r': Outcome<seq<T>>)
    ensures r'.Ok? <==> r.Ok?
    ensures r.Ok? ==> r'.value == (done + r.value.0, r.value.1)
  {
    match r
    case Ok((more, rest)) => Ok((done + more, rest))
    case Err(e) => Err(e)
  }

  lemma {:induction false} PrependNothing<T>(r: Outcome<seq<T>>)
    ensures Prepend([], r) == r
  {
    if r.Ok? {
      assert [] + r.value.0 == r.value.0;
    }
  }

  lemma {:induction false} PrependStep<T>(done: seq<T>, v: T, r: Outcome<seq<T>>)
    ensures Prepend(done + [v], r) == Prepend(done, Prepend([v], r))
  {
    if r.Ok? {
      assert done + [v] + r.value.0 == done + ([v] + r.value.0);
    }
  }

  /** `u32 as i32` */
  function AsI32(raw: nat): int {
    if raw < 0x8000_0000 then raw else raw - 0x1_0000_0000
  }

  /** Reads a value of type `valType`. Arrays recurse; every level and every item consumes bytes. */
  method ReadMetadataValue(r: Reader, valType: nat) returns (v: Result<MetadataValue, Error>)
    requires r.Valid()
    modifies r`pos
    ensures r.Valid() && old(r.pos) <= r.pos && Follows(v, r.Rest(), ParseValue(old(r.Rest()), valType))
    decreases |r.data| - r.pos, 1
  {
    match valType
    case 0 | 1 | 7 =>
      var b := r.ReadNum(1);
      v := match b
        case Err(e) => Err(e)
        case Ok(n) => Ok(if valType == 7 then Boolean(n != 0) else Other);
    case 2 | 3 =>
      var b := r.ReadNum(2);
      v := match b case Err(e) => Err(e) case Ok(n) => Ok(Other);
    case 4 =>
      var b := r.ReadNum(4);
      v := match b case Err(e) => Err(e) case Ok(n) => Ok(UInt32(n));
    case 5 =>
      var b := r.ReadNum(4);
      v := match b case Err(e) => Err(e) case Ok(n) => Ok(Int32(AsI32(n)));
    case 6 =>
      var b := r.ReadNum(4);
      v := match b case Err(e) => Err(e) case Ok(n) => Ok(Float32(n));
    case 8 =>
      var s := r.ReadGgufString();
      v := match s case Err(e) => Err(e) case Ok(bytes) => Ok(String(bytes));
    case 9 =>
      v := ReadArray(r);
    case 10 =>
      var b := r.ReadNum(8);
      v := match b case Err(e) => Err(e) case Ok(n) => Ok(Uint64(n));
    case 11 | 12 =>
      var b := r.ReadNum(8);
      v := match b case Err(e) => Err(e) case Ok(n) => Ok(Other);
    case _ =>
      v := Err(UnknownType(valType));
  }

  method ReadArray(r: Reader) returns (v: Result<MetadataValue, Error>)
    requires r.Valid()
    modifies r`pos
    ensures r.Valid() && old(r.pos) <= r.pos && Follows(v, r.Rest(), ParseArray(old(r.Rest())))
    decreases |r.data| - r.pos, 0
  {
    var arrType := r.ReadNum(4);
    if arrType.Err? {
      return Err(arrType.error);
    }
    var arrLen := r.ReadNum(8);
    if arrLen.Err? {
      return Err(arrLen.error);
    }
    var arr := [];
    ghost var want := ParseItems(r.Rest(), arrType.value, arrLen.value);
    PrependNothing(want);
    var i := 0;
    while i < arrLen.value
      invariant r.Valid() && old(r.pos) < r.pos && i <= arrLen.value
      invariant want == Prepend(arr, ParseItems(r.Rest(), arrType.value, arrLen.value - i))
    {
      ghost var data := r.Rest();
      var item := ReadMetadataValue(r, arrType.value);
      if item.Err? {
        return Err(item.error);
      }
      PrependStep(arr, item.value, ParseItems(r.Rest(), arrType.value, arrLen.value - i - 1));
      arr := arr + [item.value];
      i := i + 1;
    }
    assert arr + [] == arr;
    v := Ok(Array(arr));
  }

  // ---------- round trip ----------

  /** Reading an encoded value consumes exactly its bytes and gives its view, whatever follows. */
  lemma {:induction false} ValueRoundTrip(v: Value, rest: seq<u8>)
    requires Encodable(v)
    ensures ParseValue(Encode(v) + rest, v.Code()) == Ok((View(v), rest))
    decreases v
  {
    match v
    case Num(kind, n) =>
      CodeKnown(kind);
      NumRoundTrip(kind.Raw(n), kind.Width(), rest);
      RawBack(kind, n);
    case Str(s) =>
      StringRoundTrip(s, rest);
    case Arr(elemType, items) =>
      ItemsRoundTrip(items, elemType, rest);
      ArrayRoundTrip(elemType, items, rest);
  }

  lemma {:induction false} CodeKnown(kind: Kind)
    ensures KindOf(kind.Code()) == Some(kind)
  {
  }

  lemma {:induction false} RawBack(kind: Kind, n: int)
    requires kind.InRange(n)
    ensures kind.FromRaw(kind.Raw(n)) == n
  {
    assert Pow256(kind.Width()) == 2 * kind.Half();
  }

  lemma {:induction false} ArrayRoundTrip(elemType: nat, items: seq<Value>, rest: seq<u8>)
    requires Encodable(Arr(elemType, items))
    requires ParseItems(EncodeItems(items) + rest, elemType, |items|) == Ok((ViewItems(items), rest))
    ensures ParseArray(Encode(Arr(elemType, items)) + rest) == Ok((Array(ViewItems(items)), rest))
  {
    var tail := EncodeItems(items) + rest;
    Regroup(LeEncode(elemType, 4), LeEncode(|items|, 8), EncodeItems(items), rest);
    NumRoundTrip(elemType, 4, LeEncode(|items|, 8) + tail);
    NumRoundTrip(|items|, 8, tail);
  }

  lemma {:induction false} ItemsRoundTrip(items: seq<Value>, elemType: nat, rest: seq<u8>)
    requires forall i | 0 <= i < |items| :: items[i].Code() == elemType && Encodable(items[i])
    ensures ParseItems(EncodeItems(items) + rest, elemType, |items|) == Ok((ViewItems(items), rest))
    decreases items
  {
    if items == [] {
      assert EncodeItems(items) + rest == rest;
    } else {
      assert EncodeItems(items) + rest == Encode(items[0]) + (EncodeItems(items[1..]) + rest);
      ValueRoundTrip(items[0], EncodeItems(items[1..]) + rest);
      ItemsRoundTrip(items[1..], elemType, rest);
    }
  }

  // ---------- only encodings are read ----------

  /** Whatever is read successfully is an encoding: the bytes consumed are those of a value with this view. */
  lemma {:induction false} ValueCanonical(data: seq<u8>, code: nat) returns (v: Value)
    requires ParseValue(data, code).Ok? && code < Pow256(4)
    ensures Encodable(v) && v.Code() == code
    ensures ParseValue(data, code).value.0 == View(v) && data == Encode(v) + ParseValue(data, code).value.1
    decreases |data|, 1
  {
    if KindOf(code).Some? {
      var kind := KindOf(code).value;
      NumCanonical(data, kind.Width());
      v := Num(kind, kind.FromRaw(ParseNum(data, kind.Width()).value.0));
    } else if code == STRING_CODE {
      StringCanonical(data);
      v := Str(ParseString(data).value.0);
    } else {
      v := ArrayCanonical(data);
    }
  }

  lemma {:induction false} ArrayCanonical(data: seq<u8>) returns (v: Value)
    requires ParseArray(data).Ok?
    ensures Encodable(v) && v.Code() == ARRAY_CODE
    ensures ParseArray(data).value.0 == View(v) && data == Encode(v) + ParseArray(data).value.1
    decreases |data|, 0
  {
    NumCanonical(data, 4);
    var (elemType, rest) := ParseNum(data, 4).value;
    NumCanonical(rest, 8);
    var (len, rest') := ParseNum(rest, 8).value;
    var items := ItemsCanonical(rest', elemType, len);
    v := Arr(elemType, items);
    var end := ParseItems(rest', elemType, len).value.1;
    Regroup(LeEncode(elemType, 4), LeEncode(len, 8), EncodeItems(items), end);
  }

  lemma {:induction false} ItemsJoin(v: Value, more: seq<Value>, end: seq<u8>)
    requires Encodable(v) && forall i | 0 <= i < |more| :: Encodable(more[i])
    ensures EncodeItems([v] + more) + end == Encode(v) + (EncodeItems(more) + end)
    ensures ViewItems([v] + more) == [View(v)] + ViewItems(more)
  {
    assert ([v] + more)[1..] == more;
  }

  lemma {:induction false} ItemsCanonical(data: seq<u8>, code: nat, n: nat) returns (items: seq<Value>)
    requires ParseItems(data, code, n).Ok? && code < Pow256(4)
    ensures |items| == n && forall i | 0 <= i < |items| :: items[i].Code() == code && Encodable(items[i])
    ensures ParseItems(data, code, n).value.0 == ViewItems(items)
    ensures data == EncodeItems(items) + ParseItems(data, code, n).value.1
    decreases |data|, 2
  {
    if n == 0 {
      items := [];
    } else {
      var v := ValueCanonical(data, code);
      var rest := ParseValue(data, code).value.1;
      var more := ItemsCanonical(rest, code, n - 1);
      items := [v] + more;
      ItemsJoin(v, more, ParseItems(rest, code, n - 1).value.1);
    }
  }
}
