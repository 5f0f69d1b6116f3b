/** Paged memory refines a flat array for each sequence: whatever else happens in between, a position read
    through the block table holds what the sequence last wrote there since it was admitted. */
module PagedMemory {
  import opened Arithmetic
  import opened PagePools
  import opened Batching
  import opened Conservation
  import opened Serving
  import opened KvLayout

  /** The quantised K and V vectors of one token. */
  datatype Token = Token(k: seq<i8>, v: seq<i8>)

  type Log = map<nat, Token>

  /** The queues, the slab, what each resident sequence has written, by position, since its admission, and the
      position at which it was admitted. A residency is named by its first page, which no other resident has. */
  datatype Memory = Memory(s: State, slab: seq<i8>, logs: map<nat, Log>, since: map<nat, nat>)

  function Splice(slab: seq<i8>, base: nat, data: seq<i8>): (r: seq<i8>)
    requires base + |data| <= |slab|
    ensures |r| == |slab|
    ensures forall a | 0 <= a < |slab| :: r[a] == if base <= a < base + |data| then data[a - base] else slab[a]
  {
    slab[..base] + data + slab[base + |data|..]
  }

  predicate FitsToken(g: Geometry, t: Token) {
    |t.k| == g.Width() && |t.v| == g.Width()
  }

  lemma {:induction false} SectionInSlab(g: Geometry, page: nat, isV: bool, slot: nat)
    requires g.Valid() && page < g.pages && slot < PAGE_TOKENS
    ensures WriteAddr(g, page, isV, slot, 0) + g.Width() <= g.SlabLen()
  {
    MulLe(1, g.headsKv, g.headDim);
    WriteInPage(g, page, isV, slot, g.Width() - 1);
    PageInSlab(g, page);
  }

  /** The slab after the K and V vectors of one token have been stored. */
  function WriteToken(g: Geometry, slab: seq<i8>, page: nat, slot: nat, t: Token): (r: seq<i8>)
    requires g.Valid() && |slab| == g.SlabLen() && page < g.pages && slot < PAGE_TOKENS && FitsToken(g, t)
    ensures |r| == |slab|
  {
    SectionInSlab(g, page, false, slot);
    SectionInSlab(g, page, true, slot);
    Splice(Splice(slab, WriteAddr(g, page, false, slot, 0), t.k), WriteAddr(g, page, true, slot, 0), t.v)
  }

  /** The byte of the slab at a cell. */
  function Cell(g: Geometry, slab: seq<i8>, page: nat, isV: bool, slot: nat, j: nat): i8
    requires g.Valid() && |slab| == g.SlabLen() && page < g.pages && slot < PAGE_TOKENS && j < g.Width()
  {
    WriteInPage(g, page, isV, slot, j);
    PageInSlab(g, page);
    slab[WriteAddr(g, page, isV, slot, j)]
  }

  /** Writing a token sets its own cells and no other. */
  lemma {:induction false} WriteTokenCell(g: Geometry, slab: seq<i8>, page: nat, slot: nat, t: Token,
                                          page': nat, isV: bool, slot': nat, j: nat)
    requires g.Valid() && |slab| == g.SlabLen() && page < g.pages && slot < PAGE_TOKENS && FitsToken(g, t)
    requires page' < g.pages && slot' < PAGE_TOKENS && j < g.Width()
    ensures Cell(g, WriteToken(g, slab, page, slot, t), page', isV, slot', j)
         == if page' == page && slot' == slot then (if isV then t.v[j] else t.k[j])
           else Cell(g, slab, page', isV, slot', j)
  {
    var a := WriteAddr(g, page', isV, slot', j);
    var kBase, vBase := WriteAddr(g, page, false, slot, 0), WriteAddr(g, page, true, slot, 0);
    SectionInSlab(g, page, false, slot);
    SectionInSlab(g, page, true, slot);
    WriteInPage(g, page', isV, slot', j);
    PageInSlab(g, page');
    if vBase <= a < vBase + g.Width() {
      WriteInjective(g, page', isV, slot', j, page, true, slot, a - vBase);
    }
    if kBase <= a < kBase + g.Width() {
      WriteInjective(g, page', isV, slot', j, page, false, slot, a - kBase);
    }
  }

  /** The cells of (page, slot) hold token `t`. */
  ghost predicate Holds(g: Geometry, slab: seq<i8>, page: nat, slot: nat, t: Token)
    requires g.Valid() && |slab| == g.SlabLen() && page < g.pages && slot < PAGE_TOKENS && FitsToken(g, t)
  {
    forall isV: bool, j: nat | j < g.Width() :: Cell(g, slab, page, isV, slot, j) == if isV then t.v[j] else t.k[j]
  }

  lemma {:induction false} WriteHolds(g: Geometry, slab: seq<i8>, page: nat, slot: nat, t: Token)
    requires g.Valid() && |slab| == g.SlabLen() && page < g.pages && slot < PAGE_TOKENS && FitsToken(g, t)
    ensures Holds(g, WriteToken(g, slab, page, slot, t), page, slot, t)
  {
    forall isV: bool, j: nat | j < g.Width()
      ensures Cell(g, WriteToken(g, slab, page, slot, t), page, isV, slot, j) == if isV then t.v[j] else t.k[j]
    {
      WriteTokenCell(g, slab, page, slot, t, page, isV, slot, j);
    }
  }

  lemma {:induction false} WriteElsewhere(g: Geometry, slab: seq<i8>, page: nat, slot: nat, t: Token, page': nat,
                                          slot': nat, t': Token)
    requires g.Valid() && |slab| == g.SlabLen() && page < g.pages && slot < PAGE_TOKENS && FitsToken(g, t)
    requires page' < g.pages && slot' < PAGE_TOKENS && FitsToken(g, t') && Holds(g, slab, page', slot', t')
    requires page' != page || slot' != slot
    ensures Holds(g, WriteToken(g, slab, page, slot, t), page', slot', t')
  {
    forall isV: bool, j: nat | j < g.Width()
      ensures Cell(g, WriteToken(g, slab, page, slot, t), page', isV, slot', j) == if isV then t'.v[j] else t'.k[j]
    {
      WriteTokenCell(g, slab, page, slot, t, page', isV, slot', j);
      assert Cell(g, slab, page', isV, slot', j) == if isV then t'.v[j] else t'.k[j];
    }
  }

  // ---------- the machine ----------

  function LogOf(logs: map<nat, Log>, q: SequenceState): Log {
    if q.blockTable != [] && q.blockTable[0] in logs then logs[q.blockTable[0]] else map[]
  }

  /** A request arrives. */
  ghost predicate IsArrival(m: Memory, m': Memory) {
    exists req: SequenceRequest :: req.promptTokens != []
      && m' == m.(s := m.s.(waiting := m.s.waiting + [NewSequence(req)]))
  }

  /** The head of the queue is admitted: a new residency, with nothing written. */
  ghost function Admitting(m: Memory): Memory
    requires CanAdmit(m.s)
  {
    var s' := AdmitHead(m.s);
    var q := s'.active[|m.s.active|];
    m.(s := s', logs := m.logs[q.blockTable[0] := map[]], since := m.since[q.blockTable[0] := q.numTokens])
  }

  ghost predicate CanWrite(g: Geometry, m: Memory, i: nat, t: Token) {
    && i < |m.s.active| && IsResident(m.s.active[i]) && HasRoom(m.s.active[i])
    && m.s.active[i].PhysicalPage(m.s.active[i].numTokens) < g.pages
    && g.Valid() && |m.slab| == g.SlabLen() && FitsToken(g, t)
  }

  /** Sequence `i` writes the K and V of its current position. */
  ghost function Writing(g: Geometry, m: Memory, i: nat, t: Token): Memory
    requires CanWrite(g, m, i, t)
  {
    var q := m.s.active[i];
    var pos := q.numTokens;
    m.(slab := WriteToken(g, m.slab, q.PhysicalPage(pos), q.SlotInPage(pos), t),
       logs := m.logs[q.blockTable[0] := LogOf(m.logs, q)[pos := t]])
  }

  /** One output is applied. */
  function Applying(m: Memory, out: Output): Memory {
    m.(s := m.s.(active := ApplyOutput(m.s.active, out)))
  }

  /** Cleanup looks at sequence `i`: it finishes, grows, is preempted, or stays. */
  ghost function Sweeping(m: Memory, i: nat): Memory
    requires i < |m.s.active|
  {
    m.(s := SweepStep(Sweep(m.s, i, [])).s)
  }

  /** One event of the memory system; the engine is one way of ordering them. */
  ghost predicate IsEvent(g: Geometry, m: Memory, m': Memory) {
    || m' == m
    || IsArrival(m, m')
    || (CanAdmit(m.s) && m' == Admitting(m))
    || (exists i: nat, t: Token :: CanWrite(g, m, i, t) && m' == Writing(g, m, i, t))
    || (exists out: Output :: m' == Applying(m, out))
    || (exists i: nat :: i < |m.s.active| && m' == Sweeping(m, i))
  }

  // ---------- the invariant ----------

  /** Token `t` is what the slab holds at position `pos` of `q`, and `pos` is beyond the prompt. */
  ghost predicate Remembers(g: Geometry, slab: seq<i8>, q: SequenceState, pos: nat, t: Token)
    requires g.Valid() && |slab| == g.SlabLen()
  {
    && |q.promptTokens| - q.generatedTokens <= pos <= q.numTokens
    && pos / PAGE_TOKENS < |q.blockTable| && q.PhysicalPage(pos) < g.pages
    && FitsToken(g, t) && Holds(g, slab, q.PhysicalPage(pos), q.SlotInPage(pos), t)
  }

  ghost predicate RemembersAll(g: Geometry, slab: seq<i8>, q: SequenceState, log: Log)
    requires g.Valid() && |slab| == g.SlabLen()
  {
    forall pos | pos in log :: Remembers(g, slab, q, pos, log[pos])
  }

  ghost predicate MemoryOk(g: Geometry, m: Memory) {
    && g.Valid() && |m.slab| == g.SlabLen()
    && Conserved(m.s, g.pages) && QueuesOk(m.s)
    && forall i | 0 <= i < |m.s.active| :: RemembersAll(g, m.slab, m.s.active[i], LogOf(m.logs, m.s.active[i]))
  }

  /** Two positions of one sequence, or positions of two sequences, are different cells. */
  lemma {:induction false} PlacesDiffer(s: State, total: nat, i: nat, pos: nat, i': nat, pos': nat)
    requires Conserved(s, total) && QueuesOk(s) && i < |s.active| && i' < |s.active|
    requires pos / PAGE_TOKENS < |s.active[i].blockTable| && pos' / PAGE_TOKENS < |s.active[i'].blockTable|
    requires s.active[i].PhysicalPage(pos) == s.active[i'].PhysicalPage(pos')
    requires s.active[i].SlotInPage(pos) == s.active[i'].SlotInPage(pos')
    ensures i == i' && pos == pos'
  {
    assert IsResident(s.active[i]) && IsResident(s.active[i']);
    Exclusive(s, total, i, s.active[i].PhysicalPage(pos));
    assert s.active[i'].PhysicalPage(pos') in s.active[i'].physicalPages;
    OnceMeansOneIndex(s.active[i].physicalPages, pos / PAGE_TOKENS, pos' / PAGE_TOKENS);
  }

  lemma {:induction false} FirstPagesDiffer(s: State, total: nat, i: nat, j: nat)
    requires Conserved(s, total) && QueuesOk(s) && i < |s.active| && j < |s.active| && i != j
    ensures s.active[i].blockTable[0] != s.active[j].blockTable[0]
  {
    assert IsResident(s.active[i]) && IsResident(s.active[j]);
    Exclusive(s, total, i, s.active[i].physicalPages[0]);
  }

  lemma {:induction false} WriteKeeps(g: Geometry, m: Memory, i: nat, t: Token)
    requires MemoryOk(g, m) && CanWrite(g, m, i, t)
    ensures MemoryOk(g, Writing(g, m, i, t))
  {
    var m' := Writing(g, m, i, t);
    var q := m.s.active[i];
    var at := q.numTokens;
    forall j | 0 <= j < |m.s.active|
      ensures RemembersAll(g, m'.slab, m.s.active[j], LogOf(m'.logs, m.s.active[j]))
    {
      var r := m.s.active[j];
      assert IsResident(r);
      assert RemembersAll(g, m.slab, r, LogOf(m.logs, r));
      if j != i {
        FirstPagesDiffer(m.s, g.pages, i, j);
      }
      forall pos | pos in LogOf(m'.logs, r) ensures Remembers(g, m'.slab, r, pos, LogOf(m'.logs, r)[pos]) {
        if j == i && pos == at {
          WriteHolds(g, m.slab, q.PhysicalPage(at), q.SlotInPage(at), t);
        } else {
          WriteKeepsOne(g, m, i, t, j, pos);
        }
      }
    }
  }

  lemma {:induction false} WriteKeepsOne(g: Geometry, m: Memory, i: nat, t: Token, j: nat, pos: nat)
    requires MemoryOk(g, m) && CanWrite(g, m, i, t) && j < |m.s.active|
    requires pos in LogOf(m.logs, m.s.active[j]) && (j != i || pos != m.s.active[i].numTokens)
    ensures Remembers(g, Writing(g, m, i, t).slab, m.s.active[j], pos, LogOf(m.logs, m.s.active[j])[pos])
  {
    var q, r := m.s.active[i], m.s.active[j];
    var at := q.numTokens;
    var kept := LogOf(m.logs, r)[pos];
    assert RemembersAll(g, m.slab, r, LogOf(m.logs, r));
    assert Remembers(g, m.slab, r, pos, kept);
    if q.PhysicalPage(at) == r.PhysicalPage(pos) && q.SlotInPage(at) == r.SlotInPage(pos) {
      PlacesDiffer(m.s, g.pages, i, at, j, pos);
    }
    WriteElsewhere(g, m.slab, q.PhysicalPage(at), q.SlotInPage(at), t, r.PhysicalPage(pos), r.SlotInPage(pos), kept);
  }

  /** What a longer or advanced sequence remembers. */
  lemma {:induction false} RemembersMore(g: Geometry, slab: seq<i8>, q: SequenceState, q': SequenceState, log: Log)
    requires g.Valid() && |slab| == g.SlabLen() && RemembersAll(g, slab, q, log)
    requires q.blockTable <= q'.blockTable && q.numTokens <= q'.numTokens
    requires |q'.promptTokens| - q'.generatedTokens == |q.promptTokens| - q.generatedTokens
    ensures RemembersAll(g, slab, q', log)
  {
    forall pos | pos in log ensures Remembers(g, slab, q', pos, log[pos]) {
      assert Remembers(g, slab, q, pos, log[pos]);
    }
  }

  lemma {:induction false} AdmitKeeps(g: Geometry, m: Memory)
    requires MemoryOk(g, m) && CanAdmit(m.s)
    ensures MemoryOk(g, Admitting(m))
  {
    var m' := Admitting(m);
    var n := |m.s.active|;
    AdmitConserves(m.s, g.pages);
    forall j | 0 <= j < |m'.s.active|
      ensures RemembersAll(g, m'.slab, m'.s.active[j], LogOf(m'.logs, m'.s.active[j]))
    {
      if j < n {
        FirstPagesDiffer(m'.s, g.pages, n, j);
        assert LogOf(m'.logs, m'.s.active[j]) == LogOf(m.logs, m.s.active[j]);
      }
    }
  }

  lemma {:induction false} ApplyKeepsQueues(s: State, total: nat, out: Output)
    requires Conserved(s, total) && QueuesOk(s)
    ensures var s' := s.(active := ApplyOutput(s.active, out)); Conserved(s', total) && QueuesOk(s')
  {
    var after := ApplyOutput(s.active, out);
    ApplyKeepsPages(s.active, after);
    forall j | 0 <= j < |after| ensures IsResident(after[j]) {
      assert IsResident(s.active[j]);
    }
  }

  lemma {:induction false} ApplyKeeps(g: Geometry, m: Memory, out: Output)
    requires MemoryOk(g, m)
    ensures MemoryOk(g, Applying(m, out))
  {
    var m' := Applying(m, out);
    ApplyKeepsQueues(m.s, g.pages, out);
    forall j | 0 <= j < |m'.s.active|
      ensures RemembersAll(g, m'.slab, m'.s.active[j], LogOf(m'.logs, m'.s.active[j]))
    {
      var q, q' := m.s.active[j], m'.s.active[j];
      assert IsResident(q) && RemembersAll(g, m.slab, q, LogOf(m.logs, q));
      RemembersMore(g, m.slab, q, q', LogOf(m.logs, q));
    }
  }

  lemma {:induction false} SweepKeeps(g: Geometry, m: Memory, i: nat)
    requires MemoryOk(g, m) && i < |m.s.active|
    ensures MemoryOk(g, Sweeping(m, i))
  {
    var m' := Sweeping(m, i);
    SweepStepConserves(m.s, g.pages, i);
    SweepStepBatch(m.s, i);
    forall j | 0 <= j < |m'.s.active|
      ensures RemembersAll(g, m'.slab, m'.s.active[j], LogOf(m'.logs, m'.s.active[j]))
    {
      var k := if |m'.s.active| == |m.s.active| || j < i then j else j + 1;
      var q, q' := m.s.active[k], m'.s.active[j];
      assert IsResident(q) && RemembersAll(g, m.slab, q, LogOf(m.logs, q));
      RemembersMore(g, m.slab, q, q', LogOf(m.logs, q));
    }
  }

  lemma {:induction false} SweepStepConserves(s: State, total: nat, i: nat)
    requires Conserved(s, total) && QueuesOk(s) && i < |s.active|
    ensures Conserved(SweepStep(Sweep(s, i, [])).s, total) && QueuesOk(SweepStep(Sweep(s, i, [])).s)
  {
    var q := s.active[i];
    assert IsResident(q);
    SweepStepQueues(s, i);
    if q.Exhausted() {
      ReleaseConserves(s, total, i, s.waiting);
    } else if DivCeil(q.numTokens + 1, PAGE_TOKENS) > |q.physicalPages| {
      if s.free != {} {
        GrowConserves(s, total, i);
      } else {
        ReleaseConserves(s, total, i, [q.Preempted()] + s.waiting);
      }
    }
  }

  lemma {:induction false} SweepStepQueues(s: State, i: nat)
    requires QueuesOk(s) && i < |s.active|
    ensures QueuesOk(SweepStep(Sweep(s, i, [])).s)
  {
    assert IsResident(s.active[i]);
  }

  /** Cleanup of one sequence takes it out, or leaves it, perhaps with a page more. */
  lemma {:induction false} SweepStepBatch(s: State, i: nat)
    requires i < |s.active|
    ensures var a := SweepStep(Sweep(s, i, [])).s.active;
            a == s.active || a == Without(s.active, i) || exists p :: a == s.active[i := s.active[i].Grown(p)]
  {
  }

  lemma {:induction false} EventKeeps(g: Geometry, m: Memory, m': Memory)
    requires MemoryOk(g, m) && IsEvent(g, m, m')
    ensures MemoryOk(g, m')
  {
    if m' == m {
    } else if IsArrival(m, m') {
    } else if CanAdmit(m.s) && m' == Admitting(m) {
      AdmitKeeps(g, m);
    } else if i: nat, t: Token :| CanWrite(g, m, i, t) && m' == Writing(g, m, i, t) {
      WriteKeeps(g, m, i, t);
    } else if out: Output :| m' == Applying(m, out) {
      ApplyKeeps(g, m, out);
    } else {
      var i: nat :| i < |m.s.active| && m' == Sweeping(m, i);
      SweepKeeps(g, m, i);
    }
  }

  /** A run of events, in any order. */
  ghost predicate IsTrace(g: Geometry, ms: seq<Memory>) {
    ms != [] && forall k | 0 < k < |ms| :: IsEvent(g, ms[k - 1], ms[k])
  }

  function Empty(g: Geometry, slab: seq<i8>): Memory {
    Memory(State(AllPages(g.pages), [], []), slab, map[], map[])
  }

  lemma {:induction false} AlwaysOk(g: Geometry, ms: seq<Memory>, n: nat)
    requires IsTrace(g, ms) && MemoryOk(g, ms[0]) && n < |ms|
    ensures MemoryOk(g, ms[n])
  {
    if n > 0 {
      AlwaysOk(g, ms, n - 1);
      EventKeeps(g, ms[n - 1], ms[n]);
    }
  }

  // ---------- what attention reads ----------

  /** The reader's byte for position `pos` of `q`. */
  function ReadCell(g: Geometry, heads: nat, slab: seq<i8>, q: SequenceState, pos: nat, isV: bool, head: nat,
                    d: nat): i8
    requires pos / PAGE_TOKENS < |q.blockTable|
    requires ReadAddr(g, heads, q.PhysicalPage(pos), isV, q.SlotInPage(pos), head, d) < |slab|
  {
    slab[ReadAddr(g, heads, q.PhysicalPage(pos), isV, q.SlotInPage(pos), head, d)]
  }

  /** Reading position `pos` through the block table gives what the sequence last wrote there since its
      admission. */
  lemma {:induction false} ReadsLogged(g: Geometry, heads: nat, m: Memory, i: nat, pos: nat, isV: bool, head: nat,
                                       d: nat)
    requires MemoryOk(g, m) && Compatible(g, heads)
    requires i < |m.s.active| && pos in LogOf(m.logs, m.s.active[i]) && head < heads && d < g.headDim
    ensures var q, t := m.s.active[i], LogOf(m.logs, m.s.active[i])[pos];
            && pos / PAGE_TOKENS < |q.blockTable|
            && |t.k| == |t.v| == heads * g.headDim
            && HeadOffset(g, head, d) < heads * g.headDim
            && ReadAddr(g, heads, q.PhysicalPage(pos), isV, q.SlotInPage(pos), head, d) < |m.slab|
            && ReadCell(g, heads, m.slab, q, pos, isV, head, d) == (if isV then t.v else t.k)[HeadOffset(g, head, d)]
  {
    var q := m.s.active[i];
    var t := LogOf(m.logs, q)[pos];
    assert RemembersAll(g, m.slab, q, LogOf(m.logs, q));
    assert Remembers(g, m.slab, q, pos, t);
    var page, slot, j := q.PhysicalPage(pos), q.SlotInPage(pos), HeadOffset(g, head, d);
    HeadOffsetFits(g, head, d);
    CompatibleAgrees(g, heads, page, slot, head, d);
    WriteInPage(g, page, isV, slot, j);
    PageInSlab(g, page);
    assert Cell(g, m.slab, page, isV, slot, j) == if isV then t.v[j] else t.k[j];
  }

  /** The same after any run of events from an empty pool, in any order. */
  lemma {:induction false} ReadsBackLastWrite(g: Geometry, heads: nat, slab: seq<i8>, ms: seq<Memory>, n: nat,
                                              i: nat, pos: nat, isV: bool, head: nat, d: nat)
    requires g.Valid() && Compatible(g, heads) && |slab| == g.SlabLen()
    requires IsTrace(g, ms) && ms[0] == Empty(g, slab) && n < |ms|
    requires i < |ms[n].s.active| && pos in LogOf(ms[n].logs, ms[n].s.active[i]) && head < heads && d < g.headDim
    ensures var q, t := ms[n].s.active[i], LogOf(ms[n].logs, ms[n].s.active[i])[pos];
            && pos / PAGE_TOKENS < |q.blockTable|
            && |t.k| == |t.v| == heads * g.headDim
            && HeadOffset(g, head, d) < heads * g.headDim
            && ReadAddr(g, heads, q.PhysicalPage(pos), isV, q.SlotInPage(pos), head, d) < |ms[n].slab|
            && ReadCell(g, heads, ms[n].slab, q, pos, isV, head, d)
              == (if isV then t.v else t.k)[HeadOffset(g, head, d)]
  {
    AlwaysOk(g, ms, n);
    ReadsLogged(g, heads, ms[n], i, pos, isV, head, d);
  }

  /** No sequence ever writes a position of its prompt, so attention, which reads from position 0, reads cells
      its sequence never wrote. */
  lemma {:induction false} PromptNeverWritten(g: Geometry, m: Memory, i: nat, pos: nat)
    requires MemoryOk(g, m) && i < |m.s.active| && pos in LogOf(m.logs, m.s.active[i])
    ensures 0 < |m.s.active[i].promptTokens| - m.s.active[i].generatedTokens <= pos
  {
    var q := m.s.active[i];
    assert IsResident(q) && RemembersAll(g, m.slab, q, LogOf(m.logs, q));
    assert Remembers(g, m.slab, q, pos, LogOf(m.logs, q)[pos]);
  }
}
