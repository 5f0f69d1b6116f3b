/** Pages are conserved, and every running sequence has room for its next token: what promotion and
    cleanup keep, whatever the queues hold. */
module Conservation {
  import opened PagePools
  import opened Batching

  function AllPages(total: nat): (pages: set<nat>)
    ensures forall p: nat :: p in pages <==> p < total
  {
    if total == 0 then {} else AllPages(total - 1) + {total - 1}
  }

  /** Free pages and mapped pages, counted with multiplicity, are the pages of the pool, each once. */
  ghost predicate Conserved(s: State, total: nat) {
    multiset(s.free) + PagesOf(s.active) == multiset(AllPages(total))
  }

  ghost predicate IsResident(q: SequenceState) {
    q.status == Running && q.physicalPages == q.blockTable && q.blockTable != []
    && q.generatedTokens < |q.promptTokens| == q.numTokens
  }

  ghost predicate IsIdle(q: SequenceState) {
    q.status == Waiting && q.physicalPages == q.blockTable == []
    && q.generatedTokens < |q.promptTokens| == q.numTokens
  }

  ghost predicate QueuesOk(s: State) {
    && (forall i | 0 <= i < |s.active| :: IsResident(s.active[i]))
    && (forall i | 0 <= i < |s.waiting| :: IsIdle(s.waiting[i]))
  }

  ghost predicate WellFormed(s: State, total: nat) {
    Conserved(s, total) && QueuesOk(s) && |s.active| <= MAX_BATCH_SIZE
  }

  /** The write at `numTokens` and the reads below it fall on mapped pages. */
  ghost predicate HasRoom(q: SequenceState) {
    q.numTokens / PAGE_TOKENS < |q.blockTable|
  }

  ghost predicate Covered(s: State) {
    forall i | 0 <= i < |s.active| :: HasRoom(s.active[i])
  }

  /** At most one page short of room. */
  ghost predicate NearlyCovered(s: State) {
    forall i | 0 <= i < |s.active| :: s.active[i].numTokens / PAGE_TOKENS <= |s.active[i].blockTable|
  }

  // ---------- page counting ----------

  lemma {:induction false} PagesOfAppend(a: seq<SequenceState>, b: seq<SequenceState>)
    ensures PagesOf(a + b) == PagesOf(a) + PagesOf(b)
  {
    if a == [] {
      assert a + b == b;
    } else {
      assert (a + b)[0] == a[0] && (a + b)[1..] == a[1..] + b;
      calc {
        PagesOf(a + b);
        multiset(a[0].physicalPages) + PagesOf(a[1..] + b);
        { PagesOfAppend(a[1..], b); }
        multiset(a[0].physicalPages) + (PagesOf(a[1..]) + PagesOf(b));
        multiset(a[0].physicalPages) + PagesOf(a[1..]) + PagesOf(b);
        PagesOf(a) + PagesOf(b);
      }
    }
  }

  lemma {:induction false} PagesOfSingle(q: SequenceState)
    ensures PagesOf([q]) == multiset(q.physicalPages)
  {
  }

  lemma {:induction false} PagesOfWithout(a: seq<SequenceState>, i: nat)
    requires i < |a|
    ensures PagesOf(a) == PagesOf(Without(a, i)) + multiset(a[i].physicalPages)
  {
    assert a == a[..i] + ([a[i]] + a[i + 1..]);
    PagesOfAppend(a[..i], [a[i]] + a[i + 1..]);
    PagesOfAppend([a[i]], a[i + 1..]);
    PagesOfSingle(a[i]);
    PagesOfAppend(a[..i], a[i + 1..]);
  }

  lemma {:induction false} PagesOfUpdate(a: seq<SequenceState>, i: nat, q: SequenceState)
    requires i < |a|
    ensures PagesOf(a[i := q]) == PagesOf(Without(a, i)) + multiset(q.physicalPages)
  {
    PagesOfWithout(a[i := q], i);
    assert Without(a[i := q], i) == Without(a, i);
  }

  /** A mapped page is in the pool, not free, mapped once, and mapped by one sequence. */
  lemma {:induction false} Exclusive(s: State, total: nat, i: nat, p: nat)
    requires Conserved(s, total)
    requires i < |s.active| && p in s.active[i].physicalPages
    ensures p < total && p !in s.free
    ensures multiset(s.active[i].physicalPages)[p] == 1
    ensures forall j | 0 <= j < |s.active| && j != i :: p !in s.active[j].physicalPages
  {
    var m := multiset(s.active[i].physicalPages);
    assert p in m;
    PagesOfWithout(s.active, i);
    assert multiset(AllPages(total))[p] == multiset(s.free)[p] + PagesOf(Without(s.active, i))[p] + m[p];
    forall j | 0 <= j < |s.active| && j != i ensures p !in s.active[j].physicalPages {
      var rest := Without(s.active, i);
      var k := if j < i then j else j - 1;
      assert rest[k] == s.active[j];
      PagesOfWithout(rest, k);
      assert multiset(s.active[j].physicalPages)[p] == 0;
    }
  }

  lemma {:induction false} TwoIndices(pages: seq<nat>, i: nat, j: nat)
    requires i < j < |pages| && pages[i] == pages[j]
    ensures multiset(pages)[pages[i]] >= 2
  {
    assert pages == pages[..j] + pages[j..];
    assert pages[..j][i] == pages[i] && pages[j..][0] == pages[i];
    assert pages[i] in multiset(pages[..j]) && pages[i] in multiset(pages[j..]);
  }

  lemma {:induction false} OnceMeansOneIndex(pages: seq<nat>, i: nat, j: nat)
    requires i < |pages| && j < |pages| && pages[i] == pages[j] && multiset(pages)[pages[i]] == 1
    ensures i == j
  {
    if i < j {
      TwoIndices(pages, i, j);
    } else if j < i {
      TwoIndices(pages, j, i);
    }
  }

  /** Pages that are mapped come back to the free set without overlap. */
  lemma {:induction false} ReleaseCounts(s: State, total: nat, i: nat)
    requires Conserved(s, total) && i < |s.active|
    ensures multiset(s.free + Elems(s.active[i].physicalPages)) == multiset(s.free)
        + multiset(s.active[i].physicalPages)
  {
    var m: multiset<nat> := multiset(s.active[i].physicalPages);
    forall p: nat
      ensures multiset(s.free + Elems(s.active[i].physicalPages))[p] == multiset(s.free)[p] + m[p]
    {
      if p in m {
        Exclusive(s, total, i, p);
      }
    }
  }

  lemma {:induction false} ReleaseConserves(s: State, total: nat, i: nat, waiting: seq<SequenceState>)
    requires Conserved(s, total) && i < |s.active|
    ensures Conserved(State(s.free + Elems(s.active[i].physicalPages), Without(s.active, i), waiting), total)
  {
    ReleaseCounts(s, total, i);
    PagesOfWithout(s.active, i);
  }

  lemma {:induction false} GrowConserves(s: State, total: nat, i: nat)
    requires Conserved(s, total) && i < |s.active| && s.free != {}
    ensures var p := Least(s.free);
            Conserved(State(s.free - {p}, s.active[i := s.active[i].Grown(p)], s.waiting), total)
  {
    var p := Least(s.free);
    PagesOfWithout(s.active, i);
    PagesOfUpdate(s.active, i, s.active[i].Grown(p));
    assert multiset(s.free) == multiset(s.free - {p}) + multiset{p};
  }

  lemma {:induction false} AdmitConserves(s: State, total: nat)
    requires Conserved(s, total) && s.waiting != [] && s.waiting[0].PrefetchPages() <= |s.free|
    ensures Conserved(AdmitHead(s), total)
  {
    var n := s.waiting[0].PrefetchPages();
    var q := s.waiting[0].Admitted(Take(s.free, n));
    TakeSplits(s.free, n);
    PagesOfAppend(s.active, [q]);
    PagesOfSingle(q);
  }

  // ---------- promotion ----------

  /** What promotion does to the queues: a prefix of the waiting queue is admitted, in order. */
  ghost predicate AdmittedInOrder(s: State, s': State) {
    && |s'.waiting| <= |s.waiting|
    && (var k := |s.waiting| - |s'.waiting|;
        && s'.waiting == s.waiting[k..]
        && |s'.active| == |s.active| + k
        && s'.active[..|s.active|] == s.active
        && (forall j | 0 <= j < k ::
              var pages := s'.active[|s.active| + j].physicalPages;
              s'.active[|s.active| + j]
                == s.waiting[j].(physicalPages := pages, blockTable := pages, status := Running))
        && (forall j | 0 <= j < k ::
              |s'.active[|s.active| + j].physicalPages| == (s.waiting[j].numTokens + 15) / 16 + 1))
  }

  lemma {:induction false} PromoteOrder(s: State)
    ensures AdmittedInOrder(s, Promote(s))
    decreases |s.waiting|
  {
    if CanAdmit(s) {
      var m, s' := AdmitHead(s), Promote(s);
      PromoteOrder(m);
      var n, k := |s.active|, |s.waiting| - |s'.waiting|;
      assert s'.active[..n] == s'.active[..n + 1][..n];
      forall j | 0 <= j < k
        ensures s'.active[n + j] == s.waiting[j].Admitted(s'.active[n + j].physicalPages)
        ensures |s'.active[n + j].physicalPages| == (s.waiting[j].numTokens + 15) / 16 + 1
      {
        if j == 0 {
          assert s'.active[n] == s'.active[..n + 1][n];
        } else {
          assert s'.active[(n + 1) + (j - 1)] == m.waiting[j - 1].Admitted(s'.active[(n + 1) + (j - 1)].physicalPages);
        }
      }
    }
  }

  lemma {:induction false} PromoteKeeps(s: State, total: nat)
    requires WellFormed(s, total) && Covered(s)
    ensures WellFormed(Promote(s), total) && Covered(Promote(s))
    decreases |s.waiting|
  {
    if CanAdmit(s) {
      AdmitConserves(s, total);
      PromoteKeeps(AdmitHead(s), total);
    }
  }

  /** Promotion stops only when the batch is full, the queue empty, or the head does not fit. */
  lemma {:induction false} PromoteIsMaximal(s: State)
    ensures !CanAdmit(Promote(s))
    ensures |s.active| <= 16 ==> |Promote(s).active| <= 16
    ensures var p := Promote(s);
            |p.active| >= 16 || p.waiting == [] || (p.waiting[0].numTokens + 15) / 16 + 1 > |p.free|
    decreases |s.waiting|
  {
    if CanAdmit(s) {
      PromoteIsMaximal(AdmitHead(s));
    }
  }

  // ---------- cleanup ----------

  /** Sequences the sweep has passed are unfinished and covered; those ahead are nearly covered. */
  ghost predicate SweepOk(c: Sweep, total: nat) {
    && c.i <= |c.s.active|
    && Conserved(c.s, total) && QueuesOk(c.s)
    && (forall j | 0 <= j < c.i :: HasRoom(c.s.active[j]) && !c.s.active[j].Exhausted())
    && NearlyCovered(c.s)
  }

  lemma {:induction false} EvictKeeps(c: Sweep, total: nat, waiting: seq<SequenceState>, retired: seq<SequenceState>)
    requires SweepOk(c, total) && c.i < |c.s.active|
    requires forall j | 0 <= j < |waiting| :: IsIdle(waiting[j])
    ensures SweepOk(Sweep(State(c.s.free + Elems(c.s.active[c.i].physicalPages), Without(c.s.active, c.i), waiting),
        c.i, retired), total)
  {
    ReleaseConserves(c.s, total, c.i, waiting);
  }

  lemma {:induction false} GrowKeeps(c: Sweep, total: nat)
    requires SweepOk(c, total) && c.i < |c.s.active| && !c.s.active[c.i].Exhausted() && c.s.free != {}
    ensures var p := Least(c.s.free);
            SweepOk(Sweep(State(c.s.free - {p}, c.s.active[c.i := c.s.active[c.i].Grown(p)], c.s.waiting), c.i + 1,
              c.retired), total)
  {
    GrowConserves(c.s, total, c.i);
  }

  lemma {:induction false} SweepStepKeeps(c: Sweep, total: nat)
    requires SweepOk(c, total) && c.i < |c.s.active|
    ensures SweepOk(SweepStep(c), total)
    ensures |SweepStep(c).s.active| <= |c.s.active|
  {
    var q := c.s.active[c.i];
    assert IsResident(q);
    if q.Exhausted() {
      EvictKeeps(c, total, c.s.waiting, c.retired + [q.(status := Finished)]);
    } else if DivCeil(q.numTokens + 1, PAGE_TOKENS) > |q.physicalPages| {
      if c.s.free != {} {
        GrowKeeps(c, total);
      } else {
        EvictKeeps(c, total, [q.Preempted()] + c.s.waiting, c.retired);
      }
    }
  }

  lemma {:induction false} SweepAllKeeps(c: Sweep, total: nat)
    requires SweepOk(c, total)
    ensures SweepOk(SweepAll(c), total)
    ensures SweepAll(c).i == |SweepAll(c).s.active| <= |c.s.active|
    decreases |c.s.active| - c.i
  {
    if c.i < |c.s.active| {
      SweepStepKeeps(c, total);
      SweepAllKeeps(SweepStep(c), total);
    }
  }

  /** One page of growth is enough to restore coverage, and no exhausted sequence stays. */
  lemma {:induction false} CleanupKeeps(s: State, total: nat)
    requires WellFormed(s, total) && NearlyCovered(s)
    ensures WellFormed(Cleanup(s).s, total) && Covered(Cleanup(s).s)
    ensures forall i | 0 <= i < |Cleanup(s).s.active| :: !Cleanup(s).s.active[i].Exhausted()
  {
    SweepAllKeeps(Sweep(s, 0, []), total);
  }

  /** What cleanup does with one unfinished sequence, in terms of its counts: it is taken out when it has generated
      its budget; it stays as it is while its pages have a free slot; otherwise it gets one free page behind its
      others; and if there is none it goes, without pages, to the front of the queue. */
  lemma {:induction false} SweepStepMeans(c: Sweep)
    requires c.i < |c.s.active| && c.s.active[c.i].status != Finished
    ensures var q, c' := c.s.active[c.i], SweepStep(c);
            if q.generatedTokens >= q.maxNewTokens then
              && c'.s.active == c.s.active[..c.i] + c.s.active[c.i + 1..] && c'.s.waiting == c.s.waiting
              && (forall p: nat :: p in c'.s.free <==> p in c.s.free || p in q.physicalPages)
              && c'.retired == c.retired + [q.(status := Finished)]
            else if q.numTokens < 16 * |q.physicalPages| then c' == Sweep(c.s, c.i + 1, c.retired)
            else if c.s.free != {} then
              exists p :: p in c.s.free && (forall x | x in c.s.free :: p <= x)
                && c'.s.active == c.s.active[c.i := q.(physicalPages := q.physicalPages + [p],
                  blockTable := q.blockTable + [p])]
                && c'.s.free == c.s.free - {p} && c'.s.waiting == c.s.waiting && c'.retired == c.retired
            else
              && c'.s.active == c.s.active[..c.i] + c.s.active[c.i + 1..] && c'.retired == c.retired
              && c'.s.waiting == [q.(physicalPages := [], blockTable := [], status := Waiting)] + c.s.waiting
              && (forall p: nat :: p in c'.s.free <==> p in q.physicalPages)
  {
    var q := c.s.active[c.i];
    RoomMeans(q.numTokens, |q.physicalPages|);
    if !q.Exhausted() && q.numTokens >= 16 * |q.physicalPages| && c.s.free != {} {
      assert Least(c.s.free) in c.s.free;
    }
  }

  lemma {:induction false} RoomMeans(tokens: nat, pages: nat)
    ensures DivCeil(tokens + 1, PAGE_TOKENS) <= pages <==> tokens < 16 * pages
  {
  }
}
