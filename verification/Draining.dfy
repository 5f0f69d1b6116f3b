/** Progress: with no new arrivals, the queues drain within a number of steps known beforehand. */
module Draining {
  import opened PagePools
  import opened Batching
  import opened Sampling
  import opened Conservation
  import opened Serving
  import opened Requests
  import opened Provisioning

  /** Tokens a live sequence will still be given. */
  function Work(q: SequenceState): nat {
    if q.Exhausted() then 1 else q.maxNewTokens - q.generatedTokens
  }

  /** The same between the append and the cleanup, where exhausted sequences are about to go. */
  function Owed(q: SequenceState): nat {
    if q.Exhausted() then 0 else q.maxNewTokens - q.generatedTokens
  }

  function Sum(qs: seq<SequenceState>, f: SequenceState -> nat): nat {
    if qs == [] then 0 else f(qs[0]) + Sum(qs[1..], f)
  }

  function LiveWork(s: State): nat {
    Sum(s.active, Work) + Sum(s.waiting, Work)
  }

  ghost predicate Unfinished(qs: seq<SequenceState>) {
    forall i | 0 <= i < |qs| :: qs[i].generatedTokens < Budget(qs[i].maxNewTokens)
  }

  ghost predicate AllServable(b: multiset<SequenceRequest>, total: nat) {
    forall r | r in b :: Servable(r, total)
  }

  /** A state between steps, all of whose live requests are among `b`. */
  ghost predicate Underway(s: State, total: nat, b: multiset<SequenceRequest>) {
    && Conservation.WellFormed(s, total) && Covered(s) && Sound(s)
    && LiveRequests(s) <= b
    && Unfinished(s.active) && Unfinished(s.waiting)
  }

  lemma {:induction false} SumAppend(a: seq<SequenceState>, b: seq<SequenceState>, f: SequenceState -> nat)
    ensures Sum(a + b, f) == Sum(a, f) + Sum(b, f)
  {
    if a == [] {
      assert a + b == b;
    } else {
      SumAppend(a[1..], b, f);
      assert (a + b)[0] == a[0] && (a + b)[1..] == a[1..] + b;
    }
  }

  lemma {:induction false} SumWithout(a: seq<SequenceState>, i: nat, f: SequenceState -> nat)
    requires i < |a|
    ensures Sum(a, f) == Sum(Without(a, i), f) + f(a[i])
  {
    assert a == a[..i] + ([a[i]] + a[i + 1..]);
    SumAppend(a[..i], [a[i]] + a[i + 1..], f);
    SumAppend([a[i]], a[i + 1..], f);
    SumAppend(a[..i], a[i + 1..], f);
  }

  lemma {:induction false} SumShifted(a: seq<SequenceState>, b: seq<SequenceState>, f: SequenceState -> nat,
                                      g: SequenceState -> nat, d: nat)
    requires |a| == |b|
    requires forall i | 0 <= i < |a| :: f(a[i]) == g(b[i]) + d
    ensures Sum(a, f) == Sum(b, g) + d * |a|
  {
    if a != [] {
      SumShifted(a[1..], b[1..], f, g, d);
    }
  }

  // ---------- promotion ----------

  /** The same request, equally far. */
  predicate SameProgress(q: SequenceState, q': SequenceState) {
    q.seqId == q'.seqId && q.generatedTokens == q'.generatedTokens && q.maxNewTokens == q'.maxNewTokens
  }

  /** `f` depends only on the request and how far it has come; `g` is the same, but nothing for the exhausted. */
  ghost predicate Steady(f: SequenceState -> nat, g: SequenceState -> nat) {
    forall q, q' | SameProgress(q, q') :: f(q') == f(q) && g(q') == if q.Exhausted() then 0 else f(q)
  }

  lemma {:induction false} PromoteKeepsSum(s: State, f: SequenceState -> nat, g: SequenceState -> nat)
    requires Steady(f, g)
    ensures Sum(Promote(s).active, f) + Sum(Promote(s).waiting, f) == Sum(s.active, f) + Sum(s.waiting, f)
    decreases |s.waiting|
  {
    if CanAdmit(s) {
      var m := AdmitHead(s);
      PromoteKeepsSum(m, f, g);
      SumAppend(s.active, [m.active[|s.active|]], f);
      assert SameProgress(s.waiting[0], m.active[|s.active|]);
    }
  }

  lemma {:induction false} WorkSteady()
    ensures Steady(Work, Owed)
  {
  }

  lemma {:induction false} AllFree(s: State, total: nat)
    requires Conserved(s, total) && s.active == []
    ensures s.free == AllPages(total) && |s.free| == total
  {
    assert multiset(s.free) == multiset(AllPages(total));
    forall p: nat ensures p in s.free <==> p in AllPages(total) {
      assert p in multiset(s.free) <==> p in multiset(AllPages(total));
    }
    AllPagesSize(total);
  }

  /** While anything is live, promotion leaves something running. */
  lemma {:induction false} PromoteRuns(s: State, total: nat, b: multiset<SequenceRequest>)
    requires AllServable(b, total) && Underway(s, total, b)
    requires |s.active| + |s.waiting| > 0
    ensures |Promote(s).active| > 0
  {
    PromoteOrder(s);
    if s.active == [] {
      AllFree(s, total);
      var q := s.waiting[0];
      assert RequestOf(q) in LiveRequests(s);
      assert RequestOf(q) in b;
      assert IsIdle(q) && Parked(q) && Servable(RequestOf(q), total);
      ParkedFits(q, total);
      assert CanAdmit(s);
      PromoteOrder(AdmitHead(s));
    }
  }

  // ---------- cleanup ----------

  ghost function SweepSum(c: Sweep, f: SequenceState -> nat, g: SequenceState -> nat): nat {
    Sum(c.s.active, g) + Sum(c.s.waiting, f)
  }

  lemma {:induction false} SumSameProgress(a: seq<SequenceState>, b: seq<SequenceState>, f: SequenceState -> nat,
                                           g: SequenceState -> nat)
    requires |a| == |b| && Steady(f, g) && forall i | 0 <= i < |a| :: SameProgress(a[i], b[i])
    ensures Sum(a, g) == Sum(b, g)
  {
    forall i | 0 <= i < |a| ensures g(a[i]) == g(b[i]) + 0 {
      assert SameProgress(a[i], b[i]) && SameProgress(a[i], a[i]);
    }
    SumShifted(a, b, g, g, 0);
  }

  lemma {:induction false} SweepStepKeepsSum(c: Sweep, f: SequenceState -> nat, g: SequenceState -> nat)
    requires c.i < |c.s.active| && c.s.active[c.i].status != Finished && Steady(f, g)
    ensures SweepSum(SweepStep(c), f, g) == SweepSum(c, f, g)
  {
    var s, i, c' := c.s, c.i, SweepStep(c);
    SumWithout(s.active, i, g);
    assert SameProgress(s.active[i], s.active[i]);
    if |c'.s.active| == |s.active| {
      SumSameProgress(s.active, c'.s.active, f, g);
    } else if |c'.retired| == |c.retired| {
      assert SameProgress(s.active[i], c'.s.waiting[0]);
      SumAppend([c'.s.waiting[0]], s.waiting, f);
    }
  }

  ghost predicate AllRunning(qs: seq<SequenceState>) {
    forall i | 0 <= i < |qs| :: qs[i].status == Running
  }

  lemma {:induction false} SweepKeepsSum(c: Sweep, f: SequenceState -> nat, g: SequenceState -> nat)
    requires c.i <= |c.s.active| && AllRunning(c.s.active) && Steady(f, g)
    ensures SweepSum(SweepAll(c), f, g) == SweepSum(c, f, g)
    decreases |c.s.active| - c.i
  {
    if c.i < |c.s.active| {
      SweepStepKeepsSum(c, f, g);
      SweepKeepsSum(SweepStep(c), f, g);
    }
  }

  /** Retired sequences are exhausted, and what goes back to the queue is unfinished. */
  ghost predicate SweepSorted(c: Sweep) {
    && Unfinished(c.s.waiting)
    && AllRunning(c.s.active)
    && (forall i | 0 <= i < |c.s.active| :: 0 < c.s.active[i].generatedTokens <= Budget(c.s.active[i].maxNewTokens))
    && AllServed(c.retired)
  }

  lemma {:induction false} SweepStepSorted(c: Sweep)
    requires c.i < |c.s.active| && SweepSorted(c)
    ensures SweepSorted(SweepStep(c))
  {
  }

  lemma {:induction false} SweepStaysSorted(c: Sweep)
    requires c.i <= |c.s.active| && SweepSorted(c)
    ensures SweepSorted(SweepAll(c))
    decreases |c.s.active| - c.i
  {
    if c.i < |c.s.active| {
      SweepStepSorted(c);
      SweepStaysSorted(SweepStep(c));
    }
  }

  // ---------- steps ----------

  /** The work left drops by exactly the number running; what is retired has been given its whole budget, and the
      pool was large enough for it. */
  lemma {:induction false} StepWork(s: State, total: nat, logits: Logits, b: multiset<SequenceRequest>)
    requires Distinct(b) && Underway(s, total, b)
    ensures Underway(Step(s, logits).s, total, b)
    ensures LiveWork(Step(s, logits).s) == LiveWork(s) - |Promote(s).active|
    ensures AllServed(Step(s, logits).retired) && AllWithin(Step(s, logits).retired, total)
  {
    StepKeeps(s, total, logits);
    StepKeepsRequests(s, total, logits);
    StepSound(s, total, logits, b);
    WorkSteady();
    PromoteKeepsSum(s, Work, Owed);
    PromoteUnfinished(s);
    if Promote(s).active != [] {
      BatchProgress(s, total, logits, b);
    }
  }

  /** With servable requests every step with something live runs at least one of them, so that the work left drops. */
  lemma {:induction false} StepProgress(s: State, total: nat, logits: Logits, b: multiset<SequenceRequest>)
    requires Distinct(b) && AllServable(b, total) && Underway(s, total, b)
    ensures Underway(Step(s, logits).s, total, b)
    ensures LiveWork(Step(s, logits).s) == LiveWork(s) - |Promote(s).active|
    ensures |s.active| + |s.waiting| > 0 ==> |Promote(s).active| > 0
    ensures AllServed(Step(s, logits).retired)
  {
    StepWork(s, total, logits, b);
    if |s.active| + |s.waiting| > 0 {
      PromoteRuns(s, total, b);
    }
  }

  /** Every sequence has been given exactly its budget. */
  ghost predicate AllServed(qs: seq<SequenceState>) {
    forall i | 0 <= i < |qs| :: qs[i].generatedTokens == Budget(qs[i].maxNewTokens)
  }

  lemma {:induction false} AdvancedOwes(q: SequenceState, token: nat)
    requires IsResident(q) && q.generatedTokens < Budget(q.maxNewTokens)
    ensures Work(q) == Owed(Advanced(q, token)) + 1
    ensures Advanced(q, token).status == Running
    ensures 0 < Advanced(q, token).generatedTokens <= Budget(q.maxNewTokens)
  {
  }

  lemma {:induction false} BatchAppended(p: State, after: seq<SequenceState>, outs: seq<Output>)
    requires QueuesOk(p) && Unfinished(p.active) && Unfinished(p.waiting)
    requires |after| == |outs| == |p.active|
    requires forall i | 0 <= i < |p.active| :: after[i] == Advanced(p.active[i], outs[i].1)
    ensures SweepSorted(Sweep(p.(active := after), 0, []))
    ensures Sum(p.active, Work) == Sum(after, Owed) + |p.active|
  {
    forall i | 0 <= i < |p.active|
      ensures Work(p.active[i]) == Owed(after[i]) + 1
      ensures after[i].status == Running && 0 < after[i].generatedTokens <= Budget(after[i].maxNewTokens)
    {
      AdvancedOwes(p.active[i], outs[i].1);
    }
    SumShifted(p.active, after, Work, Owed, 1);
  }

  lemma {:induction false} BatchProgress(s: State, total: nat, logits: Logits, b: multiset<SequenceRequest>)
    requires Distinct(b) && Underway(s, total, b) && Promote(s).active != []
    ensures var t := Step(s, logits);
            && LiveWork(t.s) == LiveWork(Promote(s)) - |Promote(s).active|
            && Unfinished(t.s.active) && Unfinished(t.s.waiting)
            && AllServed(t.retired)
  {
    var p := Promote(s);
    var outs := Outputs(p.active, logits);
    var after := ApplyOutputs(p.active, outs, |outs|);
    PromoteKeeps(s, total);
    PromoteKeepsRequests(s);
    PromoteUnfinished(s);
    IdsDistinct(p.active, b);
    StepAppends(p.active, logits);
    BatchAppended(p, after, outs);
    AppliedOk(p, total, logits);
    CleanupProgress(p.(active := after), total);
  }

  lemma {:induction false} PromoteUnfinished(s: State)
    requires Unfinished(s.active) && Unfinished(s.waiting)
    ensures Unfinished(Promote(s).active) && Unfinished(Promote(s).waiting)
  {
    PromoteOrder(s);
    var p, n := Promote(s), |s.active|;
    forall i | 0 <= i < |p.active|
      ensures p.active[i].generatedTokens < Budget(p.active[i].maxNewTokens)
    {
      if i < n {
        assert p.active[..n][i] == s.active[i];
      } else {
        assert p.active[n + (i - n)] == s.waiting[i - n].Admitted(p.active[n + (i - n)].physicalPages);
      }
    }
  }

  lemma {:induction false} CleanupProgress(s: State, total: nat)
    requires Conservation.WellFormed(s, total) && NearlyCovered(s)
    requires SweepSorted(Sweep(s, 0, []))
    ensures var c := Cleanup(s);
            && LiveWork(c.s) == Sum(s.active, Owed) + Sum(s.waiting, Work)
            && SweepSorted(c) && Unfinished(c.s.active)
  {
    WorkSteady();
    SweepKeepsSum(Sweep(s, 0, []), Work, Owed);
    SweepStaysSorted(Sweep(s, 0, []));
    CleanupKeeps(s, total);
    var c := Cleanup(s);
    SumShifted(c.s.active, c.s.active, Work, Owed, 0);
  }

  // ---------- runs without arrivals ----------

  /** The outputs and retirements of `r`, and then those of `t`. */
  function Then(r: Stepped, t: Stepped): Stepped {
    Stepped(t.s, r.outputs + t.outputs, r.retired + t.retired)
  }

  /** A run without arrivals: state, outputs and retirements so far, before each step. */
  ghost predicate IsRun(rs: seq<Stepped>, s: State) {
    && rs != [] && rs[0] == Stepped(s, [], [])
    && forall k | 0 < k < |rs| :: IsNext(rs[k - 1], rs[k])
  }

  /** A step with some logits. */
  ghost predicate IsNext(r: Stepped, r': Stepped) {
    exists logits: Logits :: r' == Then(r, Step(r.s, logits))
  }

  lemma {:induction false} AllServedAppend(a: seq<SequenceState>, b: seq<SequenceState>)
    requires AllServed(a) && AllServed(b)
    ensures AllServed(a + b)
  {
  }

  /** What has been retired so far was given its whole budget, within the pool. */
  ghost predicate OnTrack(r: Stepped, total: nat, b: multiset<SequenceRequest>) {
    Underway(r.s, total, b) && AllServed(r.retired) && AllWithin(r.retired, total)
  }

  /** After `n` steps with something live, the work left has dropped by `n` or more. */
  ghost predicate Progressed(r: Stepped, n: nat, work: nat) {
    |r.s.active| + |r.s.waiting| == 0 || LiveWork(r.s) + n <= work
  }

  lemma {:induction false} StepOnTrack(r: Stepped, r': Stepped, n: nat, total: nat, b: multiset<SequenceRequest>,
                                       work: nat)
    requires Distinct(b) && OnTrack(r, total, b) && IsNext(r, r')
    ensures OnTrack(r', total, b)
    ensures AllServable(b, total) && Progressed(r, n, work) ==> Progressed(r', n + 1, work)
  {
    var logits: Logits :| r' == Then(r, Step(r.s, logits));
    StepWork(r.s, total, logits, b);
    AllServedAppend(r.retired, Step(r.s, logits).retired);
    AllWithinAppend(r.retired, Step(r.s, logits).retired, total);
    if AllServable(b, total) {
      StepProgress(r.s, total, logits, b);
      if r.s.active == [] && r.s.waiting == [] {
        EmptyStays(r.s, logits);
      }
    }
  }

  lemma {:induction false} EmptyStays(s: State, logits: Logits)
    requires s.active == [] && s.waiting == []
    ensures Step(s, logits).s.active == [] && Step(s, logits).s.waiting == []
  {
    assert !CanAdmit(s);
    assert Promote(s) == s;
  }

  /** In a run without arrivals the work left drops by one or more for each step while anything is live, if the
      requests are servable. */
  lemma {:induction false} RunProgress(rs: seq<Stepped>, s: State, total: nat, n: nat, b: multiset<SequenceRequest>)
    requires Distinct(b) && Underway(s, total, b)
    requires IsRun(rs, s) && n < |rs|
    ensures OnTrack(rs[n], total, b)
    ensures AllServable(b, total) ==> Progressed(rs[n], n, LiveWork(s))
  {
    if n > 0 {
      RunProgress(rs, s, total, n - 1, b);
      StepOnTrack(rs[n - 1], rs[n], n - 1, total, b, LiveWork(s));
    }
  }

  /** No request has been lost, duplicated or altered since the requests were `b`. */
  ghost predicate Accounted(r: Stepped, total: nat, b: multiset<SequenceRequest>) {
    && Conservation.WellFormed(r.s, total) && Covered(r.s)
    && LiveRequests(r.s) + RequestsOf(r.retired) == b
  }

  lemma {:induction false} StepAccounted(r: Stepped, r': Stepped, total: nat, b: multiset<SequenceRequest>)
    requires Accounted(r, total, b) && IsNext(r, r')
    ensures Accounted(r', total, b)
  {
    var logits: Logits :| r' == Then(r, Step(r.s, logits));
    StepKeeps(r.s, total, logits);
    StepKeepsRequests(r.s, total, logits);
    RequestsAppend(r.retired, Step(r.s, logits).retired);
  }

  lemma {:induction false} RunAccounted(rs: seq<Stepped>, s: State, total: nat, n: nat)
    requires Conservation.WellFormed(s, total) && Covered(s)
    requires IsRun(rs, s) && n < |rs|
    ensures Accounted(rs[n], total, LiveRequests(s))
  {
    if n > 0 {
      RunAccounted(rs, s, total, n - 1);
      StepAccounted(rs[n - 1], rs[n], total, LiveRequests(s));
    }
  }

  /** Every live sequence still has work. */
  lemma {:induction false} WorkCounts(qs: seq<SequenceState>)
    requires Unfinished(qs)
    ensures Sum(qs, Work) >= |qs|
  {
    if qs != [] {
      WorkCounts(qs[1..]);
    }
  }

  /** After as many steps as there is work, every request has been retired with its original prompt followed
      by exactly its budget of tokens, however often sequences were preempted, if the requests are servable. */
  lemma {:induction false} Drains(rs: seq<Stepped>, s: State, total: nat)
    requires Underway(s, total, LiveRequests(s)) && Distinct(LiveRequests(s)) && AllServable(LiveRequests(s), total)
    requires IsRun(rs, s) && |rs| > LiveWork(s)
    ensures var r := rs[LiveWork(s)];
            && r.s.active == [] && r.s.waiting == []
            && r.s.free == AllPages(total)
            && RequestsOf(r.retired) == LiveRequests(s)
            && AllServed(r.retired)
  {
    RunProgress(rs, s, total, LiveWork(s), LiveRequests(s));
    RunAccounted(rs, s, total, LiveWork(s));
    var r := rs[LiveWork(s)];
    WorkCounts(r.s.active);
    WorkCounts(r.s.waiting);
    AllFree(r.s, total);
  }

  /** A sequence whose request is `r`. */
  lemma {:induction false} FindRequest(qs: seq<SequenceState>, r: SequenceRequest) returns (i: nat)
    requires r in RequestsOf(qs)
    ensures i < |qs| && RequestOf(qs[i]) == r
  {
    if RequestOf(qs[0]) == r {
      i := 0;
    } else {
      i := FindRequest(qs[1..], r);
      i := i + 1;
    }
  }

  /** Only servable requests are among the requests of such sequences. */
  lemma {:induction false} RetiredServable(qs: seq<SequenceState>, total: nat)
    requires AllServed(qs) && AllWithin(qs, total)
    ensures AllServable(RequestsOf(qs), total)
  {
    forall r | r in RequestsOf(qs) ensures Servable(r, total) {
      var i := FindRequest(qs, r);
      assert Within(qs[i], total);
      WithinIsServable(qs[i], total);
    }
  }

  /** A run without arrivals retires no request that is not servable, however long it is. */
  lemma {:induction false} RunRetiresServable(rs: seq<Stepped>, s: State, total: nat, n: nat)
    requires Underway(s, total, LiveRequests(s)) && Distinct(LiveRequests(s)) && IsRun(rs, s) && n < |rs|
    ensures AllServable(RequestsOf(rs[n].retired), total)
  {
    RunProgress(rs, s, total, n, LiveRequests(s));
    RetiredServable(rs[n].retired, total);
  }

  /** A run without arrivals retires every request, within as many steps as there is work, exactly when every
      request is servable. */
  lemma {:induction false} DrainsIffServable(rs: seq<Stepped>, s: State, total: nat)
    requires Underway(s, total, LiveRequests(s)) && Distinct(LiveRequests(s))
    requires IsRun(rs, s) && |rs| > LiveWork(s)
    ensures RequestsOf(rs[LiveWork(s)].retired) == LiveRequests(s) <==> AllServable(LiveRequests(s), total)
  {
    if AllServable(LiveRequests(s), total) {
      Drains(rs, s, total);
    }
    RunRetiresServable(rs, s, total, LiveWork(s));
  }
}
