/** The head of a GGUF file: counts, metadata entries, tensor infos, and where the tensor data starts. */
module Gguf {
  import opened Wrappers
  import opened Word64
  import opened Alignment
  import opened Encoding
  import opened Metadata

  const GGUF_MAGIC: nat := 0x46554747
  const GGUF_ALIGNMENT: u32 := 32

  /** "general.alignment" */
  const ALIGNMENT_KEY: seq<u8> := [103, 101, 110, 101, 114, 97, 108, 46, 97, 108, 105, 103, 110, 109, 101, 110, 116]

  /** A key and what is kept of its value. */
  datatype Pair = Pair(key: seq<u8>, value: MetadataValue)

  datatype Entry = Entry(key: seq<u8>, value: Value) {
    predicate Valid() {
      |key| < Pow256(8) && Encodable(value)
    }

    /** What is kept of it. */
    function Kept(): Pair
      requires Valid()
    {
      Pair(key, View(value))
    }

    function Bytes(): seq<u8>
      requires Valid()
    {
      EncodeString(key) + (LeEncode(value.Code(), 4) + Encode(value))
    }
  }

  datatype TensorInfo = TensorInfo(name: seq<u8>, nDims: nat, dimensions: seq<nat>, ggmlType: nat, dataOffset: nat) {
    predicate Valid() {
      && |name| < Pow256(8) && nDims == |dimensions| < Pow256(4)
      && (forall i | 0 <= i < |dimensions| :: dimensions[i] < Pow256(8))
      && ggmlType < Pow256(4) && dataOffset < Pow256(8)
    }

    function Bytes(): seq<u8>
      requires Valid()
    {
      EncodeString(name) + (LeEncode(nDims, 4)
        + (DimBytes(dimensions) + (LeEncode(ggmlType, 4) + LeEncode(dataOffset, 8))))
    }
  }

  function DimBytes(dims: seq<nat>): seq<u8> {
    if dims == [] then [] else LeEncode(dims[0], 8) + DimBytes(dims[1..])
  }

  /** The head of a file, as the format describes it. */
  datatype File = File(version: nat, entries: seq<Entry>, tensors: seq<TensorInfo>) {
    predicate Valid() {
      && version < Pow256(4) && |entries| < Pow256(8) && |tensors| < Pow256(8)
      && (forall i | 0 <= i < |entries| :: entries[i].Valid())
      && (forall i | 0 <= i < |tensors| :: tensors[i].Valid())
    }

    function Bytes(): seq<u8>
      requires Valid()
    {
      LeEncode(GGUF_MAGIC, 4) + (LeEncode(version, 4) + (LeEncode(|tensors|, 8) + (LeEncode(|entries|, 8)
        + (EntryBytes(entries) + TensorBytes(tensors)))))
    }
  }

  function EntryBytes(entries: seq<Entry>): seq<u8>
    requires forall i | 0 <= i < |entries| :: entries[i].Valid()
  {
    if entries == [] then [] else entries[0].Bytes() + EntryBytes(entries[1..])
  }

  function TensorBytes(tensors: seq<TensorInfo>): seq<u8>
    requires forall i | 0 <= i < |tensors| :: tensors[i].Valid()
  {
    if tensors == [] then [] else tensors[0].Bytes() + TensorBytes(tensors[1..])
  }

  type MetadataMap = map<seq<u8>, MetadataValue>

  /** What the parser keeps of the head. */
  datatype Header = Header(version: nat, tensorCount: nat, metadata: MetadataMap, tensors: seq<TensorInfo>,
    dataStart: nat)

  function PairsOf(entries: seq<Entry>): seq<Pair>
    requires forall i | 0 <= i < |entries| :: entries[i].Valid()
    decreases entries
  {
    if entries == [] then [] else [entries[0].Kept()] + PairsOf(entries[1..])
  }

  /** Pairs inserted one after another. */
  function MapOf(pairs: seq<Pair>): MetadataMap {
    if pairs == [] then map[]
    else
      var last := pairs[|pairs| - 1];
      MapOf(pairs[..|pairs| - 1])[last.key := last.value]
  }

  /** A key has the value of the last pair with it, and no value without one. */
  lemma {:induction false} LastPairWins(pairs: seq<Pair>, key: seq<u8>)
    ensures key in MapOf(pairs) <==> exists i :: 0 <= i < |pairs| && pairs[i].key == key
    ensures forall i | 0 <= i < |pairs| && pairs[i].key == key && key !in KeysFrom(pairs, i + 1) ::
              key in MapOf(pairs) && MapOf(pairs)[key] == pairs[i].value
  {
    if pairs != [] {
      var n := |pairs| - 1;
      LastPairWins(pairs[..n], key);
      forall i | 0 <= i < |pairs| && pairs[i].key == key && key !in KeysFrom(pairs, i + 1)
        ensures key in MapOf(pairs) && MapOf(pairs)[key] == pairs[i].value
      {
        if i < n {
          assert pairs[n].key in KeysFrom(pairs, i + 1);
          assert KeysFrom(pairs[..n], i + 1) <= KeysFrom(pairs, i + 1);
          assert pairs[..n][i] == pairs[i];
        }
      }
      assert forall i | 0 <= i < n :: pairs[..n][i] == pairs[i];
    }
  }

  function KeysFrom(pairs: seq<Pair>, from: nat): set<seq<u8>> {
    set i | from <= i < |pairs| :: pairs[i].key
  }

  /** The alignment of the file: its entry, if it is a 32-bit number. */
  function AlignmentOf(metadata: MetadataMap): u32 {
    if ALIGNMENT_KEY in metadata && metadata[ALIGNMENT_KEY].UInt32? then metadata[ALIGNMENT_KEY].u else GGUF_ALIGNMENT
  }

  /** Offsets in a file are 64-bit numbers, with room for an alignment. */
  predicate OffsetFits(pos: nat, bits: nat) {
    bits == WORD_BITS && pos + 0x1_0000_0000 <= Pow2(bits)
  }

  function DataStart(pos: nat, alignment: u32, bits: nat): nat
    requires OffsetFits(pos, bits)
  {
    MaskUp(pos, alignment, bits)
  }

  // ---------- parsing ----------

  function ParseEntry(data: seq<u8>): Outcome<Pair> {
    match ParseString(data)
    case Err(e) => Err(e)
    case Ok((key, rest)) =>
      match ParseNum(rest, 4)
      case Err(e) => Err(e)
      case Ok((code, rest')) =>
        match ParseValue(rest', code)
        case Err(e) => Err(e)
        case Ok((v, rest'')) => Ok((Pair(key, v), rest''))
  }

  function ParseEntries(data: seq<u8>, n: nat, pairs: seq<Pair>): Outcome<seq<Pair>>
    decreases n
  {
    if n == 0 then Ok((pairs, data))
    else
      match ParseEntry(data)
      case Err(e) => Err(e)
      case Ok((p, rest)) => ParseEntries(rest, n - 1, pairs + [p])
  }

  function ParseDims(data: seq<u8>, n: nat, dims: seq<nat>): Outcome<seq<nat>>
    decreases n
  {
    if n == 0 then Ok((dims, data))
    else
      match ParseNum(data, 8)
      case Err(e) => Err(e)
      case Ok((d, rest)) => ParseDims(rest, n - 1, dims + [d])
  }

  function ParseTensor(data: seq<u8>): Outcome<TensorInfo> {
    match ParseString(data)
    case Err(e) => Err(e)
    case Ok((name, rest)) =>
      match ParseNum(rest, 4)
      case Err(e) => Err(e)
      case Ok((nDims, rest')) =>
        match ParseDims(rest', nDims, [])
        case Err(e) => Err(e)
        case Ok((dims, rest'')) => ParseTensorEnd(rest'', name, nDims, dims)
  }

  function ParseTensorEnd(data: seq<u8>, name: seq<u8>, nDims: nat, dims: seq<nat>): Outcome<TensorInfo> {
    match ParseNum(data, 4)
    case Err(e) => Err(e)
    case Ok((ggmlType, rest)) =>
      match ParseNum(rest, 8)
      case Err(e) => Err(e)
      case Ok((offset, rest')) => Ok((TensorInfo(name, nDims, dims, ggmlType, offset), rest'))
  }

  function ParseTensors(data: seq<u8>, n: nat, tensors: seq<TensorInfo>): Outcome<seq<TensorInfo>>
    decreases n
  {
    if n == 0 then Ok((tensors, data))
    else
      match ParseTensor(data)
      case Err(e) => Err(e)
      case Ok((t, rest)) => ParseTensors(rest, n - 1, tensors + [t])
  }

  /** Entries, tensor infos, and the rest. */
  function ParseBody(data: seq<u8>, tensorCount: nat, kvCount: nat): Outcome<(seq<Pair>, seq<TensorInfo>)> {
    match ParseEntries(data, kvCount, [])
    case Err(e) => Err(e)
    case Ok((pairs, rest)) =>
      match ParseTensors(rest, tensorCount, [])
      case Err(e) => Err(e)
      case Ok((tensors, rest')) => Ok(((pairs, tensors), rest'))
  }

  /** Magic number, version and counts. */
  function ParseCounts(data: seq<u8>): Outcome<(nat, nat, nat)> {
    match ParseNum(data, 4)
    case Err(e) => Err(e)
    case Ok((magic, rest)) =>
      if magic != GGUF_MAGIC then Err(BadMagic(magic))
      else
        match ParseNum(rest, 4)
        case Err(e) => Err(e)
        case Ok((version, rest')) =>
          match ParseNum(rest', 8)
          case Err(e) => Err(e)
          case Ok((tensorCount, rest'')) =>
            match ParseNum(rest'', 8)
            case Err(e) => Err(e)
            case Ok((kvCount, rest''')) => Ok(((version, tensorCount, kvCount), rest'''))
  }

  // ---------- the loops ----------

  /** `want` is what reading `n` more entries after `pairs` gives. */
  predicate GivesEntries(want: Outcome<seq<Pair>>, data: seq<u8>, n: nat, pairs: seq<Pair>) {
    want == ParseEntries(data, n, pairs)
  }

  lemma {:induction false} EntriesStep(data: seq<u8>, n: nat, pairs: seq<Pair>, p: Pair, rest: seq<u8>)
    requires n > 0 && ParseEntry(data) == Ok((p, rest))
    ensures ParseEntries(data, n, pairs) == ParseEntries(rest, n - 1, pairs + [p])
  {
  }

  method ReadEntry(r: Reader) returns (v: Result<Pair, Error>)
    requires r.Valid()
    modifies r`pos
    ensures r.Valid() && Follows(v, r.Rest(), ParseEntry(old(r.Rest())))
  {
    var key := r.ReadGgufString();
    if key.Err? {
      return Err(key.error);
    }
    var valType := r.ReadNum(4);
    if valType.Err? {
      return Err(valType.error);
    }
    var value := ReadMetadataValue(r, valType.value);
    if value.Err? {
      return Err(value.error);
    }
    v := Ok(Pair(key.value, value.value));
  }

  /** Reads and inserts one entry. */
  method NextEntry(r: Reader, metadata: MetadataMap, ghost want: Outcome<seq<Pair>>, ghost left: nat,
                   ghost pairs: seq<Pair>)
    returns (v: Result<MetadataMap, Error>, ghost pairs': seq<Pair>)
    requires r.Valid() && left > 0 && metadata == MapOf(pairs) && GivesEntries(want, r.Rest(), left, pairs)
    modifies r`pos
    ensures r.Valid()
    ensures v.Err? ==> want == Err(v.error)
    ensures v.Ok? ==> v.value == MapOf(pairs') && GivesEntries(want, r.Rest(), left - 1, pairs')
  {
    ghost var data := r.Rest();
    var entry := ReadEntry(r);
    if entry.Err? {
      v, pairs' := Err(entry.error), pairs;
    } else {
      pairs' := pairs + [entry.value];
      v := Ok(metadata[entry.value.key := entry.value.value]);
      assert pairs'[..|pairs|] == pairs;
      EntriesStep(data, left, pairs, entry.value, r.Rest());
    }
  }

  /** The metadata; `pairs` is what was read, in order. */
  method ReadEntries(r: Reader, n: nat) returns (v: Result<MetadataMap, Error>, ghost pairs: seq<Pair>)
    requires r.Valid()
    modifies r`pos
    ensures r.Valid() && Follows(if v.Ok? then Ok(pairs)
        else Err(v.error), r.Rest(), ParseEntries(old(r.Rest()), n, []))
    ensures v.Ok? ==> v.value == MapOf(pairs)
  {
    ghost var want := ParseEntries(r.Rest(), n, []);
    v, pairs := Ok(map[]), [];
    var i := 0;
    ghost var left := n;
    while i < n
      invariant r.Valid() && i + left == n && v.Ok? && v.value == MapOf(pairs)
      invariant GivesEntries(want, r.Rest(), left, pairs)
    {
      v, pairs := NextEntry(r, v.value, want, left, pairs);
      if v.Err? {
        return;
      }
      i, left := i + 1, left - 1;
    }
  }

  method ReadDims(r: Reader, n: nat) returns (v: Result<seq<nat>, Error>)
    requires r.Valid()
    modifies r`pos
    ensures r.Valid() && Follows(v, r.Rest(), ParseDims(old(r.Rest()), n, []))
  {
    ghost var want := ParseDims(r.Rest(), n, []);
    var dims := [];
    var i := 0;
    while i < n
      invariant r.Valid() && i <= n && want == ParseDims(r.Rest(), n - i, dims)
    {
      var d := r.ReadNum(8);
      if d.Err? {
        return Err(d.error);
      }
      dims := dims + [d.value];
      i := i + 1;
    }
    v := Ok(dims);
  }

  method ReadTensor(r: Reader) returns (v: Result<TensorInfo, Error>)
    requires r.Valid()
    modifies r`pos
    ensures r.Valid() && Follows(v, r.Rest(), ParseTensor(old(r.Rest())))
  {
    var name := r.ReadGgufString();
    if name.Err? {
      return Err(name.error);
    }
    var nDims := r.ReadNum(4);
    if nDims.Err? {
      return Err(nDims.error);
    }
    var dims := ReadDims(r, nDims.value);
    if dims.Err? {
      return Err(dims.error);
    }
    var ggmlType := r.ReadNum(4);
    if ggmlType.Err? {
      return Err(ggmlType.error);
    }
    var offset := r.ReadNum(8);
    if offset.Err? {
      return Err(offset.error);
    }
    v := Ok(TensorInfo(name.value, nDims.value, dims.value, ggmlType.value, offset.value));
  }

  method ReadTensors(r: Reader, n: nat) returns (v: Result<seq<TensorInfo>, Error>)
    requires r.Valid()
    modifies r`pos
    ensures r.Valid() && Follows(v, r.Rest(), ParseTensors(old(r.Rest()), n, []))
  {
    ghost var want := ParseTensors(r.Rest(), n, []);
    var tensors := [];
    var i := 0;
    while i < n
      invariant r.Valid() && i <= n && want == ParseTensors(r.Rest(), n - i, tensors)
    {
      var t := ReadTensor(r);
      if t.Err? {
        return Err(t.error);
      }
      tensors := tensors + [t.value];
      i := i + 1;
    }
    v := Ok(tensors);
  }

  method ReadCounts(r: Reader) returns (v: Result<(nat, nat, nat), Error>)
    requires r.Valid()
    modifies r`pos
    ensures r.Valid() && Follows(v, r.Rest(), ParseCounts(old(r.Rest())))
  {
    var magic := r.ReadNum(4);
    if magic.Err? {
      return Err(magic.error);
    }
    if magic.value != GGUF_MAGIC {
      return Err(BadMagic(magic.value));
    }
    var version := r.ReadNum(4);
    if version.Err? {
      return Err(version.error);
    }
    var tensorCount := r.ReadNum(8);
    if tensorCount.Err? {
      return Err(tensorCount.error);
    }
    var kvCount := r.ReadNum(8);
    if kvCount.Err? {
      return Err(kvCount.error);
    }
    v := Ok((version.value, tensorCount.value, kvCount.value));
  }

  function HeaderOf(version: nat, tensorCount: nat, metadata: MetadataMap, tensors: seq<TensorInfo>, pos: nat,
                    bits: nat): Header
    requires OffsetFits(pos, bits)
  {
    Header(version, tensorCount, metadata, tensors, DataStart(pos, AlignmentOf(metadata), bits))
  }

  type Counts = (nat, nat, nat)

  type Body = (seq<Pair>, seq<TensorInfo>)

  /** The body that follows some counts. */
  function BodyAfter(counts: Outcome<Counts>): Outcome<Body> {
    match counts
    case Err(e) => Err(e)
    case Ok(((_, tensorCount, kvCount), rest)) => ParseBody(rest, tensorCount, kvCount)
  }

  /** The header, from what was parsed out of `size` bytes. */
  function Finish(size: nat, bits: nat, counts: Outcome<Counts>, body: Outcome<Body>): Result<Header, Error>
    requires OffsetFits(size, bits)
  {
    match counts
    case Err(e) => Err(e)
    case Ok(((version, tensorCount, _), _)) =>
      match body
      case Err(e) => Err(e)
      case Ok(((pairs, tensors), rest)) =>
        Ok(HeaderOf(version, tensorCount, MapOf(pairs), tensors, if |rest| <= size then size - |rest| else 0, bits))
  }

  /** What opening a file yields. */
  ghost predicate Opens(data: seq<u8>, bits: nat, v: Result<Header, Error>)
    requires OffsetFits(|data|, bits)
  {
    v == Finish(|data|, bits, ParseCounts(data), BodyAfter(ParseCounts(data)))
  }

  /** Reads the head of a file and finds where the tensor data starts. */
  method Open(data: seq<u8>, bits: nat) returns (v: Result<Header, Error>)
    requires OffsetFits(|data|, bits)
    ensures Opens(data, bits, v)
  {
    var r := new Reader(data);
    var counts := ReadCounts(r);
    if counts.Err? {
      return Err(counts.error);
    }
    var (version, tensorCount, kvCount) := counts.value;
    var metadata, pairs := ReadEntries(r, kvCount);
    if metadata.Err? {
      return Err(metadata.error);
    }
    var tensors := ReadTensors(r, tensorCount);
    if tensors.Err? {
      return Err(tensors.error);
    }
    v := Ok(HeaderOf(version, tensorCount, metadata.value, tensors.value, r.pos, bits));
  }

  // ---------- round trip ----------

  lemma {:induction false} EntryRoundTrip(e: Entry, rest: seq<u8>)
    requires e.Valid()
    ensures ParseEntry(e.Bytes() + rest) == Ok((e.Kept(), rest))
  {
    var v, code := Encode(e.value), e.value.Code();
    assert e.Bytes() + rest == EncodeString(e.key) + (LeEncode(code, 4) + (v + rest));
    StringRoundTrip(e.key, LeEncode(code, 4) + (v + rest));
    CodeSmall(e.value);
    NumRoundTrip(code, 4, v + rest);
    ValueRoundTrip(e.value, rest);
  }

  lemma {:induction false} EntriesRoundTrip(entries: seq<Entry>, rest: seq<u8>, done: seq<Pair>)
    requires forall i | 0 <= i < |entries| :: entries[i].Valid()
    ensures ParseEntries(EntryBytes(entries) + rest, |entries|, done) == Ok((done + PairsOf(entries), rest))
    decreases entries
  {
    if entries == [] {
      assert EntryBytes(entries) + rest == rest && done + PairsOf(entries) == done;
    } else {
      var p := entries[0].Kept();
      assert EntryBytes(entries) + rest == entries[0].Bytes() + (EntryBytes(entries[1..]) + rest);
      EntryRoundTrip(entries[0], EntryBytes(entries[1..]) + rest);
      EntriesRoundTrip(entries[1..], rest, done + [p]);
      assert done + [p] + PairsOf(entries[1..]) == done + PairsOf(entries);
    }
  }

  lemma {:induction false} CodeSmall(v: Value)
    ensures v.Code() < Pow256(4)
  {
  }

  lemma {:induction false} DimsRoundTrip(dims: seq<nat>, rest: seq<u8>, done: seq<nat>)
    requires forall i | 0 <= i < |dims| :: dims[i] < Pow256(8)
    ensures ParseDims(DimBytes(dims) + rest, |dims|, done) == Ok((done + dims, rest))
  {
    if dims == [] {
      assert DimBytes(dims) + rest == rest && done + dims == done;
    } else {
      assert DimBytes(dims) + rest == LeEncode(dims[0], 8) + (DimBytes(dims[1..]) + rest);
      NumRoundTrip(dims[0], 8, DimBytes(dims[1..]) + rest);
      DimsRoundTrip(dims[1..], rest, done + [dims[0]]);
      assert done + [dims[0]] + dims[1..] == done + dims;
    }
  }

  lemma {:induction false} TensorRoundTrip(t: TensorInfo, rest: seq<u8>)
    requires t.Valid()
    ensures ParseTensor(t.Bytes() + rest) == Ok((t, rest))
  {
    var c := LeEncode(t.dataOffset, 8) + rest;
    var b := LeEncode(t.ggmlType, 4) + c;
    var a := DimBytes(t.dimensions) + b;
    assert t.Bytes() + rest == EncodeString(t.name) + (LeEncode(t.nDims, 4) + a);
    StringRoundTrip(t.name, LeEncode(t.nDims, 4) + a);
    NumRoundTrip(t.nDims, 4, a);
    DimsRoundTrip(t.dimensions, b, []);
    assert [] + t.dimensions == t.dimensions;
    NumRoundTrip(t.ggmlType, 4, c);
    NumRoundTrip(t.dataOffset, 8, rest);
  }

  lemma {:induction false} TensorsRoundTrip(tensors: seq<TensorInfo>, rest: seq<u8>, done: seq<TensorInfo>)
    requires forall i | 0 <= i < |tensors| :: tensors[i].Valid()
    ensures ParseTensors(TensorBytes(tensors) + rest, |tensors|, done) == Ok((done + tensors, rest))
  {
    if tensors == [] {
      assert TensorBytes(tensors) + rest == rest && done + tensors == done;
    } else {
      assert TensorBytes(tensors) + rest == tensors[0].Bytes() + (TensorBytes(tensors[1..]) + rest);
      TensorRoundTrip(tensors[0], TensorBytes(tensors[1..]) + rest);
      TensorsRoundTrip(tensors[1..], rest, done + [tensors[0]]);
      assert done + [tensors[0]] + tensors[1..] == done + tensors;
    }
  }

  lemma {:induction false} CountsRoundTrip(version: nat, tensorCount: nat, kvCount: nat, rest: seq<u8>)
    requires version < Pow256(4) && tensorCount < Pow256(8) && kvCount < Pow256(8)
    ensures ParseCounts(LeEncode(GGUF_MAGIC, 4)
        + (LeEncode(version, 4) + (LeEncode(tensorCount, 8) + (LeEncode(kvCount, 8) + rest))))
         == Ok(((version, tensorCount, kvCount), rest))
  {
    var c := LeEncode(kvCount, 8) + rest;
    var b := LeEncode(tensorCount, 8) + c;
    var a := LeEncode(version, 4) + b;
    NumRoundTrip(GGUF_MAGIC, 4, a);
    NumRoundTrip(version, 4, b);
    NumRoundTrip(tensorCount, 8, c);
    NumRoundTrip(kvCount, 8, rest);
  }

  lemma {:induction false} BodyRoundTrip(f: File, rest: seq<u8>)
    requires f.Valid()
    ensures ParseBody(EntryBytes(f.entries) + (TensorBytes(f.tensors) + rest), |f.tensors|, |f.entries|)
         == Ok(((PairsOf(f.entries), f.tensors), rest))
  {
    EntriesRoundTrip(f.entries, TensorBytes(f.tensors) + rest, []);
    assert [] + PairsOf(f.entries) == PairsOf(f.entries);
    TensorsRoundTrip(f.tensors, rest, []);
    assert [] + f.tensors == f.tensors;
  }

  /** What follows the counts. */
  function BodyBytes(f: File, rest: seq<u8>): seq<u8>
    requires f.Valid()
  {
    EntryBytes(f.entries) + (TensorBytes(f.tensors) + rest)
  }

  lemma {:induction false} RegroupFile(a: seq<u8>, b: seq<u8>, c: seq<u8>, d: seq<u8>, e: seq<u8>, g: seq<u8>,
                                       rest: seq<u8>)
    ensures (a + (b + (c + (d + (e + g))))) + rest == a + (b + (c + (d + (e + (g + rest)))))
  {
  }

  lemma {:induction false} FileParses(f: File, rest: seq<u8>)
    requires f.Valid()
    ensures ParseCounts(f.Bytes() + rest) == Ok(((f.version, |f.tensors|, |f.entries|), BodyBytes(f, rest)))
    ensures BodyAfter(ParseCounts(f.Bytes() + rest)) == Ok(((PairsOf(f.entries), f.tensors), rest))
  {
    RegroupFile(LeEncode(GGUF_MAGIC, 4), LeEncode(f.version, 4), LeEncode(|f.tensors|, 8), LeEncode(|f.entries|, 8),
      EntryBytes(f.entries), TensorBytes(f.tensors), rest);
    CountsRoundTrip(f.version, |f.tensors|, |f.entries|, BodyBytes(f, rest));
    BodyRoundTrip(f, rest);
  }

  /** Opening an encoded file gives its version, its metadata and its tensors. */
  lemma {:induction false} OpenRoundTrip(f: File, rest: seq<u8>, bits: nat, v: Result<Header, Error>)
    requires f.Valid() && OffsetFits(|f.Bytes() + rest|, bits) && Opens(f.Bytes() + rest, bits, v)
    ensures v == Ok(HeaderOf(f.version, |f.tensors|, MapOf(PairsOf(f.entries)), f.tensors, |f.Bytes()|, bits))
  {
    FileParses(f, rest);
    OpensAs(f.Bytes() + rest, bits, v, (f.version, |f.tensors|, |f.entries|), BodyBytes(f, rest),
      (PairsOf(f.entries), f.tensors), rest);
  }

  /** The header, once counts and body are known. */
  lemma {:induction false} OpensAs(data: seq<u8>, bits: nat, v: Result<Header, Error>, counts: Counts,
                                   afterCounts: seq<u8>, body: Body, rest: seq<u8>)
    requires OffsetFits(|data|, bits) && Opens(data, bits, v) && |rest| <= |data|
    requires ParseCounts(data) == Ok((counts, afterCounts)) && BodyAfter(ParseCounts(data)) == Ok((body, rest))
    ensures v == Ok(HeaderOf(counts.0, counts.1, MapOf(body.0), body.1, |data| - |rest|, bits))
  {
    FinishOk(|data|, bits, ParseCounts(data), BodyAfter(ParseCounts(data)), counts, afterCounts, body, rest);
  }

  lemma {:induction false} FinishOk(size: nat, bits: nat, c: Outcome<Counts>, b: Outcome<Body>, counts: Counts,
                                    afterCounts: seq<u8>, body: Body, rest: seq<u8>)
    requires OffsetFits(size, bits) && |rest| <= size && c == Ok((counts, afterCounts)) && b == Ok((body, rest))
    ensures Finish(size, bits, c, b) == Ok(HeaderOf(counts.0, counts.1, MapOf(body.0), body.1, size - |rest|, bits))
  {
  }
}
