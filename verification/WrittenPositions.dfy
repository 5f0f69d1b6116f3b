/** Which positions a running sequence has written: exactly those it has reached since its latest admission.
    Attention reads the others too: its prompt, which was never written, and what it generated before it was
    preempted, which was written in an earlier residency only. */
module WrittenPositions {
  import opened PagePools
  import opened Batching
  import opened Sampling
  import opened Conservation
  import opened Serving
  import opened Requests
  import opened KvLayout
  import opened PagedMemory
  import opened FlashAttention
  import opened AttentionMemory
  import opened Engine
  import opened EngineMemory

  // ---------- what the logs cover ----------

  /** The log of `q` holds the positions from its admission up to `end`, and no other. */
  ghost predicate Covers(logs: map<nat, Log>, since: map<nat, nat>, q: SequenceState, end: nat) {
    && q.blockTable != [] && q.blockTable[0] in since
    && |q.promptTokens| - q.generatedTokens <= since[q.blockTable[0]] <= q.numTokens
    && forall pos: nat :: pos in LogOf(logs, q) <==> since[q.blockTable[0]] <= pos < end
  }

  /** Between steps: every running sequence has written up to its current position. */
  ghost predicate AllCovered(logs: map<nat, Log>, since: map<nat, nat>, active: seq<SequenceState>) {
    forall i | 0 <= i < |active| :: Covers(logs, since, active[i], active[i].numTokens)
  }

  lemma {:induction false} AdmitCovers(g: Geometry, m: Memory)
    requires MemoryOk(g, m) && CanAdmit(m.s) && AllCovered(m.logs, m.since, m.s.active)
    ensures AllCovered(Admitting(m).logs, Admitting(m).since, Admitting(m).s.active)
  {
    var m', n := Admitting(m), |m.s.active|;
    AdmitConserves(m.s, g.pages);
    forall i | 0 <= i < |m'.s.active| ensures Covers(m'.logs, m'.since, m'.s.active[i], m'.s.active[i].numTokens) {
      if i < n {
        FirstPagesDiffer(m'.s, g.pages, n, i);
        assert Covers(m.logs, m.since, m.s.active[i], m.s.active[i].numTokens);
      }
    }
  }

  lemma {:induction false} PromotedCovers(g: Geometry, m: Memory)
    requires MemoryOk(g, m) && AllCovered(m.logs, m.since, m.s.active)
    ensures AllCovered(Promoted(m).logs, Promoted(m).since, Promoted(m).s.active)
    decreases |m.s.waiting|
  {
    if CanAdmit(m.s) {
      AdmitKeeps(g, m);
      AdmitCovers(g, m);
      PromotedCovers(g, Admitting(m));
    }
  }

  lemma {:induction false} WroteCovers(logs: map<nat, Log>, logs': map<nat, Log>, since: map<nat, nat>,
                                       q: SequenceState, t: Token)
    requires Covers(logs, since, q, q.numTokens) && Wrote(logs, logs', q, t)
    ensures Covers(logs', since, q, q.numTokens + 1)
  {
  }

  lemma {:induction false} AdvancedCovers(logs: map<nat, Log>, since: map<nat, nat>, q: SequenceState, token: nat)
    requires IsResident(q) && Covers(logs, since, q, q.numTokens + 1)
    ensures Covers(logs, since, Advanced(q, token), Advanced(q, token).numTokens)
  {
    assert LogOf(logs, Advanced(q, token)) == LogOf(logs, q);
  }

  lemma {:induction false} AppliedCovers(logs: map<nat, Log>, since: map<nat, nat>, active: seq<SequenceState>,
                                         logits: Logits)
    requires DistinctIds(active) && forall i | 0 <= i < |active| :: IsResident(active[i])
    requires forall i | 0 <= i < |active| :: Covers(logs, since, active[i], active[i].numTokens + 1)
    ensures var outs := Outputs(active, logits); AllCovered(logs, since, ApplyOutputs(active, outs, |outs|))
  {
    var outs := Outputs(active, logits);
    var after := ApplyOutputs(active, outs, |outs|);
    StepAppends(active, logits);
    forall i | 0 <= i < |after| ensures Covers(logs, since, after[i], after[i].numTokens) {
      assert after[i] == Advanced(active[i], outs[i].1);
      AdvancedCovers(logs, since, active[i], outs[i].1);
    }
  }

  lemma {:induction false} GrownCovers(logs: map<nat, Log>, since: map<nat, nat>, active: seq<SequenceState>, i: nat,
                                       p: nat)
    requires AllCovered(logs, since, active) && i < |active|
    ensures AllCovered(logs, since, active[i := active[i].Grown(p)])
  {
    assert Covers(logs, since, active[i], active[i].numTokens);
    assert LogOf(logs, active[i].Grown(p)) == LogOf(logs, active[i]);
    assert Covers(logs, since, active[i].Grown(p), active[i].Grown(p).numTokens);
  }

  lemma {:induction false} SweepStepCovers(logs: map<nat, Log>, since: map<nat, nat>, c: Sweep)
    requires AllCovered(logs, since, c.s.active) && c.i < |c.s.active|
    ensures AllCovered(logs, since, SweepStep(c).s.active)
  {
    SweepStepBatch(c.s, c.i);
    var a, a' := c.s.active, SweepStep(c).s.active;
    if p :| a' == a[c.i := a[c.i].Grown(p)] {
      GrownCovers(logs, since, a, c.i, p);
    }
  }

  lemma {:induction false} SweptCovers(logs: map<nat, Log>, since: map<nat, nat>, c: Sweep)
    requires AllCovered(logs, since, c.s.active) && c.i <= |c.s.active|
    ensures AllCovered(logs, since, SweepAll(c).s.active)
    decreases |c.s.active| - c.i
  {
    if c.i < |c.s.active| {
      SweepStepCovers(logs, since, c);
      SweptCovers(logs, since, SweepStep(c));
    }
  }

  // ---------- distinct ids ----------

  /** A request arrives under an id that no live request has. */
  ghost predicate IsFreshArrival(m: Memory, m': Memory) {
    exists req: SequenceRequest :: req.promptTokens != [] && (forall r | r in LiveRequests(m.s) :: r.seqId != req.seqId)
      && m' == m.(s := m.s.(waiting := m.s.waiting + [NewSequence(req)]))
  }

  lemma {:induction false} FewerDistinct(b: multiset<SequenceRequest>, b': multiset<SequenceRequest>)
    requires Distinct(b) && b' <= b
    ensures Distinct(b')
  {
    forall r | r in b' ensures b'[r] == 1 {
      assert b'[r] <= b[r];
    }
    forall r, r' | SameId(b', r, r') ensures r == r' {
      assert b'[r] <= b[r] && b'[r'] <= b[r'];
      assert SameId(b, r, r');
    }
  }

  lemma {:induction false} OneMoreDistinct(b: multiset<SequenceRequest>, r: SequenceRequest)
    requires Distinct(b) && forall r' | r' in b :: r'.seqId != r.seqId
    ensures Distinct(b + multiset{r})
  {
    var b' := b + multiset{r};
    assert r !in b;
    forall x, y | SameId(b', x, y) ensures x == y {
      if x in b && y in b {
        assert SameId(b, x, y);
      }
    }
  }

  lemma {:induction false} ArrivalDistinct(m: Memory, m': Memory)
    requires IsFreshArrival(m, m') && Distinct(LiveRequests(m.s))
    ensures Distinct(LiveRequests(m'.s))
  {
    var req: SequenceRequest :| req.promptTokens != [] && (forall r | r in LiveRequests(m.s) :: r.seqId != req.seqId)
      && m' == m.(s := m.s.(waiting := m.s.waiting + [NewSequence(req)]));
    RequestsAppend(m.s.waiting, [NewSequence(req)]);
    RequestsSingle(NewSequence(req));
    assert RequestOf(NewSequence(req)) == req;
    OneMoreDistinct(LiveRequests(m.s), req);
    assert LiveRequests(m'.s) == LiveRequests(m.s) + multiset{req};
  }

  // ---------- a step ----------

  /** Ready for a step, with distinct ids and the logs as described. */
  ghost predicate Settled(g: Geometry, m: Memory) {
    Ready(g, m) && Distinct(LiveRequests(m.s)) && AllCovered(m.logs, m.since, m.s.active)
  }

  lemma {:induction false} PromotedDistinct(s: State)
    requires Distinct(LiveRequests(s))
    ensures DistinctIds(Promote(s).active)
  {
    PromoteKeepsRequests(s);
    IdsDistinct(Promote(s).active, LiveRequests(s));
  }

  /** Once the running sequences have stored their tokens, each has written its current position too. */
  lemma {:induction false} StoredCovers(p: Memory, m': Memory, o: Oracle, layers: nat)
    requires AllCovered(p.logs, p.since, p.s.active) && AllWrote(p, m', o, layers) && layers > 0
    ensures forall i | 0 <= i < |p.s.active| :: Covers(m'.logs, p.since, p.s.active[i], p.s.active[i].numTokens + 1)
  {
    forall i | 0 <= i < |p.s.active| ensures Covers(m'.logs, p.since, p.s.active[i], p.s.active[i].numTokens + 1) {
      WroteCovers(p.logs, m'.logs, p.since, p.s.active[i], TokenAt(o, layers - 1, i));
    }
  }

  lemma {:induction false} StepCovers(g: Geometry, m: Memory, o: Oracle, layers: nat)
    requires Settled(g, m) && Shaped(o, g) && layers > 0
    ensures var m' := StepMemory(g, m, o, layers); AllCovered(m'.logs, m'.since, m'.s.active)
  {
    var m', p := StepMemory(g, m, o, layers), Promoted(m);
    PromotedOk(g, m);
    PromotedCovers(g, m);
    PromotedDistinct(m.s);
    if p.s.active != [] {
      StoredCovers(p, m', o, layers);
      AppliedCovers(m'.logs, p.since, p.s.active, o.logits);
      var outs := Outputs(p.s.active, o.logits);
      SweptCovers(m'.logs, p.since, Sweep(p.s.(active := ApplyOutputs(p.s.active, outs, |outs|)), 0, []));
    }
  }

  /** From a settled memory, one step with some oracle or one arrival under a fresh id. */
  ghost predicate IsFreshStep(g: Geometry, m: Memory, m': Memory, layers: nat) {
    Ready(g, m) ==> IsFreshArrival(m, m') || exists o :: Shaped(o, g) && m' == StepMemory(g, m, o, layers)
  }

  lemma {:induction false} StaysSettled(g: Geometry, m: Memory, m': Memory, layers: nat)
    requires Settled(g, m) && IsFreshStep(g, m, m', layers) && layers > 0
    ensures Settled(g, m')
  {
    if IsFreshArrival(m, m') {
      ArrivalDistinct(m, m');
    } else {
      var o :| Shaped(o, g) && m' == StepMemory(g, m, o, layers);
      StepKeepsRequests(m.s, g.pages, o.logits);
      FewerDistinct(LiveRequests(m.s), LiveRequests(m'.s));
      StepCovers(g, m, o, layers);
    }
    StepStaysReady(g, m, m', layers);
  }

  ghost predicate IsFreshRun(g: Geometry, slab: seq<i8>, ms: seq<Memory>, layers: nat) {
    && g.Valid() && |slab| == g.SlabLen() && ms != [] && ms[0] == Empty(g, slab)
    && forall k | 0 < k < |ms| :: IsFreshStep(g, ms[k - 1], ms[k], layers)
  }

  /** Every memory of every run is settled. */
  lemma {:induction false} AlwaysSettled(g: Geometry, slab: seq<i8>, ms: seq<Memory>, layers: nat, n: nat)
    requires IsFreshRun(g, slab, ms, layers) && layers > 0 && n < |ms|
    ensures Settled(g, ms[n])
  {
    if n > 0 {
      AlwaysSettled(g, slab, ms, layers, n - 1);
      StaysSettled(g, ms[n - 1], ms[n], layers);
    }
  }

  // ---------- the theorems ----------

  /** Between steps, a running sequence has written exactly the positions from its admission up to its current
      one; its admission came after its prompt. */
  lemma {:induction false} WrittenExactly(g: Geometry, slab: seq<i8>, ms: seq<Memory>, layers: nat, n: nat, i: nat,
                                          pos: nat)
    requires IsFreshRun(g, slab, ms, layers) && layers > 0 && n < |ms| && i < |ms[n].s.active|
    ensures var q := ms[n].s.active[i];
            && q.blockTable != [] && q.blockTable[0] in ms[n].since
            && 0 < |Original(q)| <= ms[n].since[q.blockTable[0]] <= q.numTokens
            && (pos in LogOf(ms[n].logs, q) <==> ms[n].since[q.blockTable[0]] <= pos < q.numTokens)
  {
    AlwaysSettled(g, slab, ms, layers, n);
    assert IsResident(ms[n].s.active[i]);
    assert Covers(ms[n].logs, ms[n].since, ms[n].s.active[i], ms[n].s.active[i].numTokens);
  }

  /** Inside a step, once a layer has been stored, the same up to and including the current position. */
  lemma {:induction false} WrittenInStep(g: Geometry, m: Memory, o: Oracle, done: nat, i: nat)
    requires Settled(g, m) && Shaped(o, g) && done > 0 && i < |Promote(m.s).active|
    ensures var m', q := MidStep(g, m, o, done), Promote(m.s).active[i]; Covers(m'.logs, m'.since, q, q.numTokens + 1)
  {
    PromotedOk(g, m);
    PromotedCovers(g, m);
    StoredCovers(Promoted(m), MidStep(g, m, o, done), o, done);
  }

  /** What attention finds at position `pos` of sequence `i`: the codes in its log. */
  ghost predicate SeesLog(g: Geometry, m: Memory, i: nat, heads: nat, pos: nat)
    requires i < |m.s.active|
  {
    && pos in LogOf(m.logs, m.s.active[i]) && FitsToken(g, LogOf(m.logs, m.s.active[i])[pos])
    && forall head, isV: bool, d | 0 <= head < heads && 0 <= d < g.headDim ::
      SeesCode(g, m, i, heads, head, pos, isV, d)
  }

  ghost predicate SeesCode(g: Geometry, m: Memory, i: nat, heads: nat, head: nat, pos: nat, isV: bool, d: nat)
    requires i < |m.s.active| && pos in LogOf(m.logs, m.s.active[i])
  {
    var t, c := LogOf(m.logs, m.s.active[i])[pos], CacheOf(g, m, i, heads, head);
    && head < heads && d < g.headDim && HeadOffset(g, head, d) < |t.k| == |t.v|
    && ReadableAt(c, pos) && InSlab(c, pos, isV, d)
    && Element(c, pos, isV, d) == (if isV then t.v else t.k)[HeadOffset(g, head, d)] as real
  }

  lemma {:induction false} LoggedIsSeen(g: Geometry, m: Memory, i: nat, heads: nat, pos: nat)
    requires MemoryOk(g, m) && Compatible(g, heads)
    requires i < |m.s.active| && HasRoom(m.s.active[i]) && pos in LogOf(m.logs, m.s.active[i])
    ensures SeesLog(g, m, i, heads, pos)
  {
    var q := m.s.active[i];
    assert RemembersAll(g, m.slab, q, LogOf(m.logs, q));
    assert Remembers(g, m.slab, q, pos, LogOf(m.logs, q)[pos]);
    forall head, isV: bool, d | 0 <= head < heads && 0 <= d < g.headDim
      ensures SeesCode(g, m, i, heads, head, pos, isV, d)
    {
      AttentionSeesLog(g, m, i, heads, head, pos, isV, d);
    }
  }

  /** So of the positions attention is given in a layer, 0 to the current one, it sees codes that the sequence wrote
      at exactly those from the admission on; the others, always at least one, it has not written since its
      admission. */
  lemma {:induction false} AttentionSeesFromAdmission(g: Geometry, m: Memory, o: Oracle, done: nat, i: nat, heads: nat,
                                                      pos: nat)
    requires Settled(g, m) && Shaped(o, g) && done > 0 && i < |MidStep(g, m, o, done).s.active|
    requires Compatible(g, heads) && pos <= MidStep(g, m, o, done).s.active[i].numTokens
    ensures var m' := MidStep(g, m, o, done);
            var q := m'.s.active[i];
            && q.blockTable != [] && q.blockTable[0] in m'.since && 0 < m'.since[q.blockTable[0]]
            && (SeesLog(g, m', i, heads, pos) <==> m'.since[q.blockTable[0]] <= pos)
  {
    var m' := MidStep(g, m, o, done);
    var q := m'.s.active[i];
    WrittenInStep(g, m, o, done, i);
    assert IsResident(q) && PlacedAt(g, q);
    if m'.since[q.blockTable[0]] <= pos {
      LoggedIsSeen(g, m', i, heads, pos);
    }
  }
}
