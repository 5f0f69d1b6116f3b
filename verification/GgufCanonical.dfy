/** Whatever the parser accepts is the head of a GGUF file: nothing else opens. */
module GgufCanonical {
  import opened Wrappers
  import opened Word64
  import opened Alignment
  import opened Encoding
  import opened Metadata
  import opened Gguf

  lemma {:induction false} EntryCanonical(data: seq<u8>) returns (e: Entry, end: seq<u8>)
    requires ParseEntry(data).Ok?
    ensures e.Valid() && ParseEntry(data) == Ok((e.Kept(), end)) && data == e.Bytes() + end
  {
    StringCanonical(data);
    var (key, rest) := ParseString(data).value;
    NumCanonical(rest, 4);
    var (code, rest') := ParseNum(rest, 4).value;
    var v := ValueCanonical(rest', code);
    e := Entry(key, v);
    end := ParseValue(rest', code).value.1;
    RegroupRight(EncodeString(key), LeEncode(code, 4), Encode(v), end);
  }

  lemma {:induction false} RegroupRight(a: seq<u8>, b: seq<u8>, c: seq<u8>, d: seq<u8>)
    ensures (a + (b + c)) + d == a + (b + (c + d))
  {
  }

  lemma {:induction false} Join(a: seq<u8>, b: seq<u8>, c: seq<u8>)
    ensures (a + b) + c == a + (b + c)
  {
  }

  /** `r` is what reading the bytes of `entries` gives. */
  predicate ReadsEntries(r: Outcome<seq<Pair>>, data: seq<u8>, done: seq<Pair>, entries: seq<Entry>, end: seq<u8>) {
    && (forall i | 0 <= i < |entries| :: entries[i].Valid())
    && r == Ok((done + PairsOf(entries), end)) && data == EntryBytes(entries) + end
  }

  lemma {:induction false} EntriesNext(r: Outcome<seq<Pair>>, data: seq<u8>, n: nat, done: seq<Pair>, p: Pair,
                                       rest: seq<u8>, done': seq<Pair>)
    requires n > 0 && r == ParseEntries(data, n, done) && ParseEntry(data) == Ok((p, rest)) && done' == done + [p]
    ensures r == ParseEntries(rest, n - 1, done')
  {
    EntriesStep(data, n, done, p, rest);
  }

  lemma {:induction false} EntriesHead(r: Outcome<seq<Pair>>, data: seq<u8>, n: nat, done: seq<Pair>)
    returns (e: Entry, rest: seq<u8>, done': seq<Pair>)
    requires r.Ok? && n > 0 && GivesEntries(r, data, n, done)
    ensures e.Valid() && data == e.Bytes() + rest && done' == done + [e.Kept()]
    ensures GivesEntries(r, rest, n - 1, done')
  {
    e, rest := EntryCanonical(data);
    done' := done + [e.Kept()];
    EntriesNext(r, data, n, done, e.Kept(), rest, done');
  }

  lemma {:induction false} EntriesNone(r: Outcome<seq<Pair>>, data: seq<u8>, n: nat, done: seq<Pair>)
    returns (entries: seq<Entry>, end: seq<u8>)
    requires r.Ok? && n == 0 && GivesEntries(r, data, n, done)
    ensures |entries| == n && ReadsEntries(r, data, done, entries, end)
  {
    entries, end := [], data;
    assert done + PairsOf(entries) == done && EntryBytes(entries) + end == data;
  }

  lemma {:induction false} EntriesMore(r: Outcome<seq<Pair>>, data: seq<u8>, done: seq<Pair>, e: Entry,
                                       more: seq<Entry>, rest: seq<u8>, end: seq<u8>) returns (entries: seq<Entry>)
    requires e.Valid() && data == e.Bytes() + rest && ReadsEntries(r, rest, done + [e.Kept()], more, end)
    ensures |entries| == |more| + 1 && ReadsEntries(r, data, done, entries, end)
  {
    entries := [e] + more;
    EntriesJoin(r, data, done, e, more, rest, end);
  }

  lemma {:induction false} EntriesCanonical(r: Outcome<seq<Pair>>, data: seq<u8>, n: nat, done: seq<Pair>)
    returns (entries: seq<Entry>, end: seq<u8>)
    requires r.Ok?
    ensures GivesEntries(r, data, n, done) ==> |entries| == n && ReadsEntries(r, data, done, entries, end)
    decreases n
  {
    if !GivesEntries(r, data, n, done) {
      entries, end := [], data;
    } else if n == 0 {
      entries, end := EntriesNone(r, data, n, done);
    } else {
      var e, rest, done' := EntriesHead(r, data, n, done);
      var more;
      more, end := EntriesCanonical(r, rest, n - 1, done');
      entries := EntriesMore(r, data, done, e, more, rest, end);
    }
  }

  lemma {:induction false} EntriesJoin(r: Outcome<seq<Pair>>, data: seq<u8>, done: seq<Pair>, e: Entry,
                                       more: seq<Entry>, rest: seq<u8>, end: seq<u8>)
    requires e.Valid() && data == e.Bytes() + rest && ReadsEntries(r, rest, done + [e.Kept()], more, end)
    ensures ReadsEntries(r, data, done, [e] + more, end)
  {
    AllValid(e, more);
    BytesJoin(e, more, end);
    KeptJoin(e, more, done);
  }

  lemma {:induction false} AllValid(e: Entry, more: seq<Entry>)
    requires e.Valid() && forall i | 0 <= i < |more| :: more[i].Valid()
    ensures forall i | 0 <= i < |more| + 1 :: ([e] + more)[i].Valid()
  {
  }

  lemma {:induction false} BytesJoin(e: Entry, more: seq<Entry>, end: seq<u8>)
    requires e.Valid() && (forall i | 0 <= i < |more| :: more[i].Valid())
    requires forall i | 0 <= i < |more| + 1 :: ([e] + more)[i].Valid()
    ensures EntryBytes([e] + more) + end == e.Bytes() + (EntryBytes(more) + end)
  {
    assert ([e] + more)[1..] == more;
    Join(e.Bytes(), EntryBytes(more), end);
  }

  lemma {:induction false} KeptJoin(e: Entry, more: seq<Entry>, done: seq<Pair>)
    requires e.Valid() && (forall i | 0 <= i < |more| :: more[i].Valid())
    requires forall i | 0 <= i < |more| + 1 :: ([e] + more)[i].Valid()
    ensures done + [e.Kept()] + PairsOf(more) == done + PairsOf([e] + more)
  {
    assert ([e] + more)[1..] == more;
  }

  lemma {:induction false} DimsStep(data: seq<u8>, n: nat, done: seq<nat>, d: nat, rest: seq<u8>)
    requires n > 0 && ParseNum(data, 8) == Ok((d, rest))
    ensures ParseDims(data, n, done) == ParseDims(rest, n - 1, done + [d])
  {
  }

  lemma {:induction false} DimsCanonical(data: seq<u8>, n: nat, done: seq<nat>) returns (dims: seq<nat>, end: seq<u8>)
    requires ParseDims(data, n, done).Ok?
    ensures |dims| == n && forall i | 0 <= i < |dims| :: dims[i] < Pow256(8)
    ensures ParseDims(data, n, done) == Ok((done + dims, end)) && data == DimBytes(dims) + end
    decreases n
  {
    if n == 0 {
      dims, end := [], data;
      assert done + dims == done && DimBytes(dims) + end == data;
    } else {
      NumCanonical(data, 8);
      var (d, rest) := ParseNum(data, 8).value;
      DimsStep(data, n, done, d, rest);
      var more;
      more, end := DimsCanonical(rest, n - 1, done + [d]);
      dims := [d] + more;
      DimsJoin(d, more, done, end);
    }
  }

  lemma {:induction false} DimsJoin(d: nat, more: seq<nat>, done: seq<nat>, end: seq<u8>)
    ensures done + [d] + more == done + ([d] + more)
    ensures DimBytes([d] + more) + end == LeEncode(d, 8) + (DimBytes(more) + end)
  {
    assert ([d] + more)[1..] == more;
    Join(LeEncode(d, 8), DimBytes(more), end);
  }

  lemma {:induction false} TensorEndCanonical(data: seq<u8>, name: seq<u8>, nDims: nat, dims: seq<nat>)
    requires ParseTensorEnd(data, name, nDims, dims).Ok?
    ensures var (t, rest) := ParseTensorEnd(data, name, nDims, dims).value;
            && t == TensorInfo(name, nDims, dims, t.ggmlType, t.dataOffset) && t.ggmlType < Pow256(4)
              && t.dataOffset < Pow256(8)
            && data == LeEncode(t.ggmlType, 4) + (LeEncode(t.dataOffset, 8) + rest)
  {
    NumCanonical(data, 4);
    NumCanonical(ParseNum(data, 4).value.1, 8);
  }

  lemma {:induction false} TensorCanonical(data: seq<u8>) returns (t: TensorInfo, end: seq<u8>)
    requires ParseTensor(data).Ok?
    ensures t.Valid() && ParseTensor(data) == Ok((t, end)) && data == t.Bytes() + end
  {
    StringCanonical(data);
    var (name, rest) := ParseString(data).value;
    NumCanonical(rest, 4);
    var (nDims, rest') := ParseNum(rest, 4).value;
    var dims, rest'' := DimsCanonical(rest', nDims, []);
    assert [] + dims == dims;
    TensorEndCanonical(rest'', name, nDims, dims);
    end := ParseTensorEnd(rest'', name, nDims, dims).value.1;
    t := ParseTensor(data).value.0;
    RegroupTensor(EncodeString(name), LeEncode(nDims, 4), DimBytes(dims), LeEncode(t.ggmlType, 4),
      LeEncode(t.dataOffset, 8), end);
  }

  lemma {:induction false} RegroupTensor(a: seq<u8>, b: seq<u8>, c: seq<u8>, d: seq<u8>, e: seq<u8>, rest: seq<u8>)
    ensures (a + (b + (c + (d + e)))) + rest == a + (b + (c + (d + (e + rest))))
  {
  }

  lemma {:induction false} TensorsStep(data: seq<u8>, n: nat, done: seq<TensorInfo>, t: TensorInfo, rest: seq<u8>)
    requires n > 0 && ParseTensor(data) == Ok((t, rest))
    ensures ParseTensors(data, n, done) == ParseTensors(rest, n - 1, done + [t])
  {
  }

  lemma {:induction false} TensorsCanonical(data: seq<u8>, n: nat,
                                            done: seq<TensorInfo>) returns (tensors: seq<TensorInfo>, end: seq<u8>)
    requires ParseTensors(data, n, done).Ok?
    ensures |tensors| == n && forall i | 0 <= i < |tensors| :: tensors[i].Valid()
    ensures ParseTensors(data, n, done) == Ok((done + tensors, end)) && data == TensorBytes(tensors) + end
    decreases n
  {
    if n == 0 {
      tensors, end := [], data;
      assert done + tensors == done && TensorBytes(tensors) + end == data;
    } else {
      var t, rest := TensorCanonical(data);
      TensorsStep(data, n, done, t, rest);
      var more;
      more, end := TensorsCanonical(rest, n - 1, done + [t]);
      tensors := [t] + more;
      TensorsJoin(t, more, done, end);
    }
  }

  lemma {:induction false} TensorsJoin(t: TensorInfo, more: seq<TensorInfo>, done: seq<TensorInfo>, end: seq<u8>)
    requires t.Valid() && forall i | 0 <= i < |more| :: more[i].Valid()
    ensures forall i | 0 <= i < |more| + 1 :: ([t] + more)[i].Valid()
    ensures done + [t] + more == done + ([t] + more)
    ensures TensorBytes([t] + more) + end == t.Bytes() + (TensorBytes(more) + end)
  {
    assert ([t] + more)[1..] == more;
    Join(t.Bytes(), TensorBytes(more), end);
  }

  lemma {:induction false} CountsCanonical(data: seq<u8>)
    requires ParseCounts(data).Ok?
    ensures var ((version, tensorCount, kvCount), rest) := ParseCounts(data).value;
            && version < Pow256(4) && tensorCount < Pow256(8) && kvCount < Pow256(8)
            && data == LeEncode(GGUF_MAGIC, 4)
              + (LeEncode(version, 4) + (LeEncode(tensorCount, 8) + (LeEncode(kvCount, 8) + rest)))
  {
    NumCanonical(data, 4);
    var rest := ParseNum(data, 4).value.1;
    NumCanonical(rest, 4);
    var rest' := ParseNum(rest, 4).value.1;
    NumCanonical(rest', 8);
    NumCanonical(ParseNum(rest', 8).value.1, 8);
  }

  /** If a file opens, it begins with a well-formed head, and the header is that head's. */
  lemma {:induction false} OpenCanonical(data: seq<u8>, bits: nat, v: Result<Header, Error>)
    returns (f: File, rest: seq<u8>)
    requires OffsetFits(|data|, bits) && Opens(data, bits, v) && v.Ok?
    ensures f.Valid() && data == f.Bytes() + rest
    ensures OffsetFits(|f.Bytes()|, bits)
        && v == Ok(HeaderOf(f.version, |f.tensors|, MapOf(PairsOf(f.entries)), f.tensors, |f.Bytes()|, bits))
  {
    CountsCanonical(data);
    var ((version, tensorCount, kvCount), body) := ParseCounts(data).value;
    var entries, tail := EntriesCanonical(ParseEntries(body, kvCount, []), body, kvCount, []);
    var tensors;
    tensors, rest := TensorsCanonical(tail, tensorCount, []);
    f := File(version, entries, tensors);
    RegroupFile(LeEncode(GGUF_MAGIC, 4), LeEncode(version, 4), LeEncode(tensorCount, 8), LeEncode(kvCount, 8),
      EntryBytes(entries), TensorBytes(tensors), rest);
    assert data == f.Bytes() + rest;
    OpenRoundTrip(f, rest, bits, v);
  }
}
