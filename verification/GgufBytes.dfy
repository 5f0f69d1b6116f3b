/** What the parser makes of the bytes of a file, spelled out byte by byte. */
module GgufBytes {
  import opened Wrappers
  import opened Word64
  import opened Alignment
  import opened Encoding
  import opened Metadata
  import opened Gguf
  import opened DataStarts

  // ---------- numbers ----------

  /** The four bytes at `at`, low byte first. */
  function U32At(data: seq<u8>, at: nat): u32
    requires at + 4 <= |data|
  {
    var b0: int, b1: int, b2: int, b3: int := data[at], data[at + 1], data[at + 2], data[at + 3];
    b0 + 0x100 * b1 + 0x1_0000 * b2 + 0x100_0000 * b3
  }

  function U64At(data: seq<u8>, at: nat): nat
    requires at + 8 <= |data|
  {
    U32At(data, at) + 0x1_0000_0000 * U32At(data, at + 4)
  }

  lemma {:induction false} FourBytes(b: seq<u8>)
    requires |b| >= 4
    ensures LeDecode(b) == U32At(b, 0) + 0x1_0000_0000 * LeDecode(b[4..])
  {
    var b1 := b[1..];
    var b2 := b1[1..];
    var b3 := b2[1..];
    assert b3[1..] == b[4..];
    assert LeDecode(b) == b[0] + 256 * LeDecode(b1) && LeDecode(b1) == b[1] + 256 * LeDecode(b2);
    assert LeDecode(b2) == b[2] + 256 * LeDecode(b3) && LeDecode(b3) == b[3] + 256 * LeDecode(b[4..]);
  }

  lemma {:induction false} Num1(data: seq<u8>, width: nat)
    requires width == 1 && |data| >= 1
    ensures ParseNum(data, width) == Ok((data[0] as nat, data[1..]))
  {
    assert data[..1][1..] == [];
  }

  lemma {:induction false} Num4(data: seq<u8>, width: nat)
    requires width == 4 && |data| >= 4
    ensures ParseNum(data, width) == Ok((U32At(data, 0) as nat, data[4..]))
  {
    FourBytes(data[..4]);
  }

  lemma {:induction false} Num8(data: seq<u8>, width: nat)
    requires width == 8 && |data| >= 8
    ensures ParseNum(data, width) == Ok((U64At(data, 0), data[8..]))
  {
    FourBytes(data[..8]);
    FourBytes(data[..8][4..]);
  }

  // ---------- metadata values, by type code ----------

  /** `n` bytes are taken and `v` is kept. */
  predicate Takes(data: seq<u8>, n: nat, v: MetadataValue, r: Outcome<MetadataValue>)
    requires n <= |data|
  {
    r == Ok((v, data[n..]))
  }

  /** Of a bool its truth, of a 32-bit integer its value (in two's complement for a signed one), of a float its bits,
      and of a 64-bit unsigned integer its value. The other numbers are skipped. */
  predicate KeepsNumber(data: seq<u8>, code: nat, r: Outcome<MetadataValue>) {
    match code
    case 0 | 1 => if |data| < 1 then r == Err(UnexpectedEof) else Takes(data, 1, Other, r)
    case 7 => if |data| < 1 then r == Err(UnexpectedEof) else Takes(data, 1, Boolean(data[0] != 0), r)
    case 2 | 3 => if |data| < 2 then r == Err(UnexpectedEof) else Takes(data, 2, Other, r)
    case 4 => if |data| < 4 then r == Err(UnexpectedEof) else Takes(data, 4, UInt32(U32At(data, 0)), r)
    case 5 =>
      if |data| < 4 then r == Err(UnexpectedEof)
      else
        var u: int := U32At(data, 0);
        Takes(data, 4, Int32(if u < 0x8000_0000 then u else u - 0x1_0000_0000), r)
    case 6 => if |data| < 4 then r == Err(UnexpectedEof) else Takes(data, 4, Float32(U32At(data, 0)), r)
    case 10 => if |data| < 8 then r == Err(UnexpectedEof) else Takes(data, 8, Uint64(U64At(data, 0)), r)
    case 11 | 12 => if |data| < 8 then r == Err(UnexpectedEof) else Takes(data, 8, Other, r)
    case _ => true
  }

  /** Eight bytes of length, and the string. */
  predicate KeepsString(data: seq<u8>, r: Outcome<MetadataValue>) {
    if |data| < 8 || |data| - 8 < U64At(data, 0) then r == Err(UnexpectedEof)
    else var n := U64At(data, 0); r == Ok((String(data[8..8 + n]), data[8 + n..]))
  }

  /** Four bytes of item type, eight of length, and the items. */
  predicate KeepsArray(data: seq<u8>, r: Outcome<MetadataValue>) {
    if |data| < 12 then r == Err(UnexpectedEof)
    else
      match ParseItems(data[12..], U32At(data, 0), U64At(data, 4))
      case Err(e) => r == Err(e)
      case Ok((values, rest)) => r == Ok((Array(values), rest))
  }

  predicate KeepsValue(data: seq<u8>, code: nat, r: Outcome<MetadataValue>) {
    if code == 8 then KeepsString(data, r)
    else if code == 9 then KeepsArray(data, r)
    else if code > 12 then r == Err(UnknownType(code))
    else KeepsNumber(data, code, r)
  }

  lemma {:induction false} ShortNum(data: seq<u8>, width: nat)
    requires |data| < width
    ensures ParseNum(data, width) == Err(UnexpectedEof)
  {
  }

  lemma {:induction false} NarrowScalar(data: seq<u8>, kind: Kind)
    requires kind.Width() <= 2
    ensures KeepsNumber(data, kind.Code(), ParseScalar(data, kind))
  {
    if |data| >= 1 && kind.Width() == 1 {
      Num1(data, kind.Width());
    }
  }

  lemma {:induction false} FourByteScalar(data: seq<u8>, kind: Kind)
    requires kind.Width() == 4
    ensures KeepsNumber(data, kind.Code(), ParseScalar(data, kind))
  {
    if |data| >= 4 {
      Num4(data, kind.Width());
    } else {
      ShortNum(data, kind.Width());
    }
    assert kind.Half() == 0x8000_0000 && Pow256(kind.Width()) == 0x1_0000_0000;
  }

  lemma {:induction false} EightByteScalar(data: seq<u8>, kind: Kind)
    requires kind.Width() == 8
    ensures KeepsNumber(data, kind.Code(), ParseScalar(data, kind))
  {
    if |data| >= 8 {
      Num8(data, kind.Width());
    } else {
      ShortNum(data, kind.Width());
    }
  }

  lemma {:induction false} StringBytes(data: seq<u8>)
    ensures KeepsString(data, ParseValue(data, 8))
  {
    if |data| >= 8 {
      Num8(data, 8);
      var n := U64At(data, 0);
      if n <= |data| - 8 {
        assert data[8..][..n] == data[8..8 + n] && data[8..][n..] == data[8 + n..];
      }
    }
  }

  lemma {:induction false} ArrayBytes(data: seq<u8>)
    ensures KeepsArray(data, ParseArray(data))
  {
    if |data| >= 4 {
      Num4(data, 4);
      if |data| >= 12 {
        Num8(data[4..], 8);
        assert data[4..][8..] == data[12..];
      }
    }
  }

  /** Every type code, and what is kept of a value of it. */
  lemma {:induction false} ValueBytes(data: seq<u8>, code: nat)
    ensures KeepsValue(data, code, ParseValue(data, code))
  {
    if KindOf(code).Some? {
      var kind := KindOf(code).value;
      if kind.Width() <= 2 {
        NarrowScalar(data, kind);
      } else if kind.Width() == 4 {
        FourByteScalar(data, kind);
      } else {
        EightByteScalar(data, kind);
      }
    } else if code == 8 {
      StringBytes(data);
    } else if code == 9 {
      ArrayBytes(data);
    }
  }

  // ---------- the head of a file ----------

  lemma {:induction false} MagicBytes(data: seq<u8>)
    requires |data| >= 4
    ensures U32At(data, 0) == GGUF_MAGIC <==> data[..4] == [71, 71, 85, 70]
  {
  }

  /** "GGUF", a version, and two counts. */
  lemma {:induction false} CountsBytes(data: seq<u8>)
    ensures |data| < 4 ==> ParseCounts(data) == Err(UnexpectedEof)
    ensures |data| >= 4 && data[..4] != [71, 71, 85, 70] ==> ParseCounts(data) == Err(BadMagic(U32At(data, 0)))
    ensures 4 <= |data| < 24 && data[..4] == [71, 71, 85, 70] ==> ParseCounts(data) == Err(UnexpectedEof)
    ensures |data| >= 24 && data[..4] == [71, 71, 85, 70] ==>
              ParseCounts(data) == Ok(((U32At(data, 4) as nat, U64At(data, 8), U64At(data, 16)), data[24..]))
  {
    if |data| >= 4 {
      MagicBytes(data);
      Num4(data, 4);
      var d4 := data[4..];
      if |d4| >= 4 {
        Num4(d4, 4);
        var d8 := d4[4..];
        if |d8| >= 8 {
          Num8(d8, 8);
          var d16 := d8[8..];
          if |d16| >= 8 {
            Num8(d16, 8);
            assert d16[8..] == data[24..];
          }
        }
      }
    }
  }

  /** A file that opens begins with "GGUF", its version and its number of tensors; one that begins otherwise is
      refused with what it begins with. */
  lemma {:induction false} OpenBytes(data: seq<u8>, bits: nat, v: Result<Header, Error>)
    requires OffsetFits(|data|, bits) && Opens(data, bits, v)
    ensures |data| < 4 ==> v == Err(UnexpectedEof)
    ensures |data| >= 4 && data[..4] != [71, 71, 85, 70] ==> v == Err(BadMagic(U32At(data, 0)))
    ensures v.Ok? ==> |data| >= 24 && data[..4] == [71, 71, 85, 70]
    ensures v.Ok? ==> v.value.version == U32At(data, 4) && v.value.tensorCount == U64At(data, 8)
  {
    CountsBytes(data);
  }

  // ---------- entries and tensors ----------

  lemma {:induction false} NumAt(data: seq<u8>, at: nat, width: nat)
    requires at <= |data| && (width == 4 || width == 8)
    ensures ParseNum(data[at..], width).Ok? <==> at + width <= |data|
    ensures at + width <= |data| ==>
              ParseNum(data[at..], width)
                == Ok((if width == 4 then U32At(data, at) as nat else U64At(data, at), data[at + width..]))
  {
    if at + width <= |data| {
      if width == 4 {
        Num4(data[at..], width);
      } else {
        Num8(data[at..], width);
      }
      assert data[at..][width..] == data[at + width..];
    }
  }

  /** A string at the front: eight bytes of length, and the string. */
  lemma {:induction false} StringAt(data: seq<u8>)
    requires ParseString(data).Ok?
    ensures |data| >= 8 && 8 + U64At(data, 0) <= |data|
    ensures var n := U64At(data, 0); ParseString(data) == Ok((data[8..8 + n], data[8 + n..]))
  {
    Num8(data, 8);
    var n := U64At(data, 0);
    assert data[8..][..n] == data[8..8 + n] && data[8..][n..] == data[8 + n..];
  }

  /** A key, a type code, and what is kept of the value. */
  lemma {:induction false} EntryMeans(data: seq<u8>)
    requires ParseEntry(data).Ok?
    ensures |data| >= 8 && 12 + U64At(data, 0) <= |data|
    ensures var n, (p, rest) := U64At(data, 0), ParseEntry(data).value;
            p.key == data[8..8 + n] && KeepsValue(data[12 + n..], U32At(data, 8 + n), Ok((p.value, rest)))
  {
    StringAt(data);
    var n := U64At(data, 0);
    NumAt(data, 8 + n, 4);
    ValueBytes(data[12 + n..], U32At(data, 8 + n));
  }

  /** From `first` on, `dims` has `n` numbers of eight bytes each, and nothing more. */
  ghost predicate AreDims(data: seq<u8>, n: nat, first: nat, dims: seq<nat>) {
    && 8 * n <= |data| && |dims| == first + n
    && forall i: nat | i < n :: IsDim(data, dims, first, i)
  }

  predicate IsDim(data: seq<u8>, dims: seq<nat>, first: nat, i: nat) {
    8 * i + 8 <= |data| && first + i < |dims| && dims[first + i] == U64At(data, 8 * i)
  }

  lemma {:induction false} DimLater(data: seq<u8>, dims: seq<nat>, first: nat, i: nat)
    requires |data| >= 8 && i > 0 && IsDim(data[8..], dims, first + 1, i - 1)
    ensures IsDim(data, dims, first, i)
  {
  }

  lemma {:induction false} DimsNext(data: seq<u8>, n: nat, first: nat, dims: seq<nat>)
    requires n > 0 && |data| >= 8 && AreDims(data[8..], n - 1, first + 1, dims) && dims[first] == U64At(data, 0)
    ensures AreDims(data, n, first, dims)
  {
    forall i: nat | i < n ensures IsDim(data, dims, first, i) {
      if i > 0 {
        DimLater(data, dims, first, i);
      }
    }
  }

  lemma {:induction false} DropDrop(data: seq<u8>, a: nat, b: nat)
    requires a + b <= |data|
    ensures data[a..][b..] == data[a + b..]
  {
  }

  /** Dimensions of eight bytes each. */
  lemma {:induction false} DimsMean(data: seq<u8>, n: nat, done: seq<nat>, dims: seq<nat>, rest: seq<u8>)
    requires ParseDims(data, n, done) == Ok((dims, rest))
    ensures AreDims(data, n, |done|, dims) && dims[..|done|] == done && rest == data[8 * n..]
    decreases n
  {
    if n > 0 {
      assert |data| >= 8;
      Num8(data, 8);
      var done' := done + [U64At(data, 0)];
      DimsMean(data[8..], n - 1, done', dims, rest);
      assert dims[..|done|] == done'[..|done|] == done && dims[|done|] == done'[|done|];
      DimsNext(data, n, |done|, dims);
      DropDrop(data, 8, 8 * (n - 1));
    }
  }

  /** Type and offset. */
  lemma {:induction false} TensorEndMeans(data: seq<u8>, name: seq<u8>, nDims: nat, dims: seq<nat>)
    requires ParseTensorEnd(data, name, nDims, dims).Ok?
    ensures |data| >= 12
    ensures ParseTensorEnd(data, name, nDims, dims)
         == Ok((TensorInfo(name, nDims, dims, U32At(data, 0), U64At(data, 4)), data[12..]))
  {
    NumAt(data, 0, 4);
    NumAt(data, 4, 8);
    assert data[0..] == data;
  }

  /** `data` is a name, after eight bytes with its length, four bytes with a number, and `body`. */
  predicate IsNameAndCount(data: seq<u8>, name: seq<u8>, count: nat, body: seq<u8>) {
    && |data| >= 12 + |name| && U64At(data, 0) == |name| && data[8..8 + |name|] == name
    && U32At(data, 8 + |name|) == count && data[12 + |name|..] == body
  }

  /** `body` is the dimensions, of eight bytes each, four bytes of type, eight of offset, and `rest`. */
  ghost predicate IsTensorBody(body: seq<u8>, t: TensorInfo, rest: seq<u8>) {
    exists dimBytes: seq<u8>, end: seq<u8> ::
      && body == dimBytes + end && |dimBytes| == 8 * t.nDims && AreDims(dimBytes, t.nDims, 0, t.dimensions)
      && |end| >= 12 && U32At(end, 0) == t.ggmlType && U64At(end, 4) == t.dataOffset && end[12..] == rest
  }

  ghost predicate IsTensor(data: seq<u8>, t: TensorInfo, rest: seq<u8>) {
    exists body :: IsNameAndCount(data, t.name, t.nDims, body) && IsTensorBody(body, t, rest)
  }

  lemma {:induction false} DimsPrefix(data: seq<u8>, n: nat, first: nat, dims: seq<nat>)
    requires AreDims(data, n, first, dims)
    ensures AreDims(data[..8 * n], n, first, dims)
  {
    forall i: nat | i < n ensures IsDim(data[..8 * n], dims, first, i) {
      assert IsDim(data, dims, first, i);
    }
  }

  lemma {:induction false} NameAndCount(data: seq<u8>, name: seq<u8>, after: seq<u8>, count: nat, body: seq<u8>)
    requires ParseString(data) == Ok((name, after)) && ParseNum(after, 4) == Ok((count, body))
    ensures IsNameAndCount(data, name, count, body)
  {
    StringAt(data);
    NumAt(data, 8 + U64At(data, 0), 4);
  }

  lemma {:induction false} TensorBody(body: seq<u8>, name: seq<u8>, nDims: nat, dims: seq<nat>, end: seq<u8>)
    requires ParseDims(body, nDims, []) == Ok((dims, end)) && ParseTensorEnd(end, name, nDims, dims).Ok?
    ensures var (t, rest) := ParseTensorEnd(end, name, nDims, dims).value;
            t.name == name && t.nDims == nDims && IsTensorBody(body, t, rest)
  {
    DimsMean(body, nDims, [], dims, end);
    DimsPrefix(body, nDims, 0, dims);
    assert body == body[..8 * nDims] + end;
    TensorEndMeans(end, name, nDims, dims);
  }

  /** What a tensor info is read from. */
  lemma {:induction false} TensorMeans(data: seq<u8>)
    requires ParseTensor(data).Ok?
    ensures IsTensor(data, ParseTensor(data).value.0, ParseTensor(data).value.1)
  {
    var (name, after) := ParseString(data).value;
    var (nDims, body) := ParseNum(after, 4).value;
    var (dims, end) := ParseDims(body, nDims, []).value;
    NameAndCount(data, name, after, nDims, body);
    TensorBody(body, name, nDims, dims, end);
  }

  // ---------- the alignment ----------

  predicate IsAlignmentKey(key: seq<u8>) {
    var name := "general.alignment";
    |key| == |name| && forall i | 0 <= i < |name| :: key[i] == name[i] as int
  }

  lemma {:induction false} KeySpelled()
    ensures IsAlignmentKey(ALIGNMENT_KEY)
  {
  }

  lemma {:induction false} KeyUnique(key: seq<u8>, key': seq<u8>)
    requires IsAlignmentKey(key) && IsAlignmentKey(key')
    ensures key == key'
  {
  }

  /** Entry `i` is the last one with the key "general.alignment". */
  ghost predicate LastAlignment(f: File, i: nat) {
    && i < |f.entries| && IsAlignmentKey(f.entries[i].key)
    && forall j | i < j < |f.entries| :: !IsAlignmentKey(f.entries[j].key)
  }

  ghost predicate NoAlignment(f: File) {
    forall j | 0 <= j < |f.entries| :: !IsAlignmentKey(f.entries[j].key)
  }

  lemma {:induction false} PairAt(entries: seq<Entry>, i: nat)
    requires (forall k | 0 <= k < |entries| :: entries[k].Valid()) && i < |entries|
    ensures |PairsOf(entries)| == |entries| && PairsOf(entries)[i] == entries[i].Kept()
  {
    if i > 0 {
      PairAt(entries[1..], i - 1);
    } else if |entries| > 1 {
      PairAt(entries[1..], 0);
    }
  }

  lemma {:induction false} PairsAt(entries: seq<Entry>)
    requires forall k | 0 <= k < |entries| :: entries[k].Valid()
    ensures |PairsOf(entries)| == |entries|
    ensures forall i | 0 <= i < |entries| :: PairsOf(entries)[i] == entries[i].Kept()
  {
    forall i | 0 <= i < |entries| ensures |PairsOf(entries)| == |entries| && PairsOf(entries)[i] == entries[i].Kept() {
      PairAt(entries, i);
    }
  }

  /** The alignment of a file: that of its last entry "general.alignment" if that is a 32-bit unsigned number, and 32
      if it is not, or if there is none. */
  lemma {:induction false} AlignmentMeans(f: File, i: nat)
    requires f.Valid()
    ensures NoAlignment(f) ==> AlignmentOfFile(f) == 32
    ensures LastAlignment(f, i) ==>
              if f.entries[i].value.Num? && f.entries[i].value.kind == U32
              then AlignmentOfFile(f) == f.entries[i].value.n else AlignmentOfFile(f) == 32
  {
    var pairs := PairsOf(f.entries);
    KeySpelled();
    PairsAt(f.entries);
    LastPairWins(pairs, ALIGNMENT_KEY);
    if LastAlignment(f, i) {
      KeyUnique(f.entries[i].key, ALIGNMENT_KEY);
      assert pairs[i].key == ALIGNMENT_KEY && ALIGNMENT_KEY !in KeysFrom(pairs, i + 1);
    }
  }

  lemma {:induction false} MultipleOf32(x: nat, a: nat, r: nat)
    requires a == 32 && LeastAligned(x, a, r)
    ensures r == (x + 31) / 32 * 32
  {
    var q: nat :| r == Mul(q, a);
  }

  lemma {:induction false} MaskOf32(x: nat, a: u32, bits: nat)
    requires OffsetFits(x, bits) && a == 32
    ensures DataStart(x, a, bits) == (x + 31) / 32 * 32
  {
    var k := 5;
    assert Pow2(k) == a;
    PowBelow(k + 1, bits);
    PowerAligns(x, k, bits);
    MultipleOf32(x, a, DataStart(x, a, bits));
  }

  lemma {:induction false} HeaderStart(version: nat, tensorCount: nat, metadata: MetadataMap, tensors: seq<TensorInfo>,
                                       pos: nat, bits: nat, a: u32)
    requires OffsetFits(pos, bits) && AlignmentOf(metadata) == a && a == 32
    ensures HeaderOf(version, tensorCount, metadata, tensors, pos, bits).dataStart == (pos + 31) / 32 * 32
  {
    MaskOf32(pos, a, bits);
  }

  /** Without an alignment entry the tensor data starts at the next multiple of 32. */
  lemma {:induction false} DefaultDataStart(f: File, rest: seq<u8>, bits: nat, v: Result<Header, Error>)
    requires f.Valid() && OffsetFits(|f.Bytes() + rest|, bits) && Opens(f.Bytes() + rest, bits, v)
    requires NoAlignment(f)
    ensures v.Ok? && v.value.dataStart == (|f.Bytes()| + 31) / 32 * 32
  {
    var metadata, n := MapOf(PairsOf(f.entries)), |f.Bytes()|;
    AlignmentMeans(f, 0);
    OpenRoundTrip(f, rest, bits, v);
    HeaderStart(f.version, |f.tensors|, metadata, f.tensors, n, bits, AlignmentOf(metadata));
  }

  // ---------- the header of an encoded file ----------

  /** Entry `i` is the last one with its key. */
  ghost predicate LastOfKey(f: File, i: nat) {
    i < |f.entries| && forall j | i < j < |f.entries| :: f.entries[j].key != f.entries[i].key
  }

  lemma {:induction false} KeptOfKey(f: File, i: nat)
    requires f.Valid() && LastOfKey(f, i)
    ensures var m := MapOf(PairsOf(f.entries));
            f.entries[i].key in m && m[f.entries[i].key] == View(f.entries[i].value)
  {
    var pairs, key := PairsOf(f.entries), f.entries[i].key;
    PairsAt(f.entries);
    LastPairWins(pairs, key);
    assert pairs[i].key == key && key !in KeysFrom(pairs, i + 1);
  }

  lemma {:induction false} NoOtherKey(f: File, key: seq<u8>)
    requires f.Valid() && key in MapOf(PairsOf(f.entries))
    ensures exists i :: 0 <= i < |f.entries| && f.entries[i].key == key
  {
    var pairs := PairsOf(f.entries);
    PairsAt(f.entries);
    LastPairWins(pairs, key);
    var i :| 0 <= i < |pairs| && pairs[i].key == key;
    assert f.entries[i].key == key;
  }

  /** Opening an encoded file gives its version, its tensors and how many, and for each of its keys what is kept of the
      last value with it, and no other keys. */
  lemma {:induction false} OpenFields(f: File, rest: seq<u8>, bits: nat, v: Result<Header, Error>)
    requires f.Valid() && OffsetFits(|f.Bytes() + rest|, bits) && Opens(f.Bytes() + rest, bits, v)
    ensures v.Ok? && v.value.version == f.version && v.value.tensorCount == |f.tensors| && v.value.tensors == f.tensors
    ensures forall i: nat | LastOfKey(f, i) ::
              f.entries[i].key in v.value.metadata && v.value.metadata[f.entries[i].key] == View(f.entries[i].value)
    ensures forall key | key in v.value.metadata :: exists i :: 0 <= i < |f.entries| && f.entries[i].key == key
  {
    OpenRoundTrip(f, rest, bits, v);
    forall i: nat | LastOfKey(f, i)
      ensures f.entries[i].key in v.value.metadata && v.value.metadata[f.entries[i].key] == View(f.entries[i].value)
    {
      KeptOfKey(f, i);
    }
    forall key | key in v.value.metadata ensures exists i :: 0 <= i < |f.entries| && f.entries[i].key == key {
      NoOtherKey(f, key);
    }
  }
}
