/** Whether the pool can serve a request at all, and what the scheduler keeps of that: how many pages a running
    sequence has at least, and at which lengths a sequence can be preempted. */
module Provisioning {
  import opened PagePools
  import opened Batching
  import opened Sampling
  import opened Conservation
  import opened Serving
  import opened Requests

  /** The tokens a request is served: even one that asks for none gets one. */
  function Budget(maxNewTokens: nat): nat {
    if maxNewTokens == 0 then 1 else maxNewTokens
  }

  /** The pool has the pages that the prompt asks for on admission, and room for prompt and budget. */
  predicate Servable(r: SequenceRequest, total: nat) {
    && DivCeil(|r.promptTokens|, PAGE_TOKENS) + 1 <= total
    && |r.promptTokens| + Budget(r.maxNewTokens) <= PAGE_TOKENS * total
  }

  /** At least the pages that the original prompt asked for. */
  predicate Provisioned(q: SequenceState) {
    DivCeil(|Original(q)|, PAGE_TOKENS) + 1 <= |q.physicalPages|
  }

  /** A waiting sequence has not run, or was preempted with its pages full. */
  predicate Parked(q: SequenceState) {
    q.generatedTokens == 0 || q.numTokens % PAGE_TOKENS == 0
  }

  /** What holds of every state that the engine reaches when ids are distinct. */
  ghost predicate Sound(s: State) {
    && (forall i | 0 <= i < |s.active| :: Provisioned(s.active[i]))
    && (forall i | 0 <= i < |s.waiting| :: Parked(s.waiting[i]))
  }

  lemma {:induction false} DivCeilMonotone(n: nat, m: nat)
    requires n <= m
    ensures DivCeil(n, PAGE_TOKENS) <= DivCeil(m, PAGE_TOKENS)
  {
  }

  /** A waiting sequence of a servable request asks for no more pages than there are. */
  lemma {:induction false} ParkedFits(q: SequenceState, total: nat)
    requires IsIdle(q) && Parked(q) && q.generatedTokens < Budget(q.maxNewTokens) && Servable(RequestOf(q), total)
    ensures q.PrefetchPages() <= total
  {
    assert |Original(q)| + q.generatedTokens == q.numTokens;
  }

  // ---------- promotion ----------

  lemma {:induction false} AdmittedProvisioned(q: SequenceState, pages: seq<nat>)
    requires IsIdle(q) && |pages| == q.PrefetchPages()
    ensures Provisioned(q.Admitted(pages))
  {
    DivCeilMonotone(|Original(q)|, q.numTokens);
  }

  lemma {:induction false} PromoteSound(s: State)
    requires QueuesOk(s) && Sound(s)
    ensures Sound(Promote(s))
    decreases |s.waiting|
  {
    if CanAdmit(s) {
      var q := s.waiting[0];
      AdmittedProvisioned(q, Take(s.free, q.PrefetchPages()));
      PromoteSound(AdmitHead(s));
    }
  }

  // ---------- cleanup ----------

  /** Between the append and the cleanup: no more tokens than the pages hold. */
  ghost predicate Filled(q: SequenceState) {
    Provisioned(q) && q.numTokens <= PAGE_TOKENS * |q.physicalPages|
  }

  /** The pool was large enough for the tokens of `q`. */
  ghost predicate Within(q: SequenceState, total: nat) {
    && q.generatedTokens < |q.promptTokens|
    && DivCeil(|Original(q)|, PAGE_TOKENS) + 1 <= total
    && |q.promptTokens| <= PAGE_TOKENS * total
  }

  ghost predicate AllWithin(qs: seq<SequenceState>, total: nat) {
    forall i | 0 <= i < |qs| :: Within(qs[i], total)
  }

  lemma {:induction false} AllWithinAppend(a: seq<SequenceState>, b: seq<SequenceState>, total: nat)
    requires AllWithin(a, total) && AllWithin(b, total)
    ensures AllWithin(a + b, total)
  {
  }

  ghost predicate AllFilled(qs: seq<SequenceState>) {
    forall i | 0 <= i < |qs| :: Filled(qs[i])
  }

  ghost predicate AllParked(qs: seq<SequenceState>) {
    forall i | 0 <= i < |qs| :: Parked(qs[i])
  }

  lemma {:induction false} AdvancedFilled(q: SequenceState, token: nat)
    requires IsResident(q) && HasRoom(q) && Provisioned(q)
    ensures Filled(Advanced(q, token))
  {
    assert Original(Advanced(q, token)) == Original(q);
  }

  lemma {:induction false} AllPagesSize(total: nat)
    ensures |AllPages(total)| == total
  {
    if total > 0 {
      AllPagesSize(total - 1);
    }
  }

  lemma {:induction false} PagesAtMost(s: State, total: nat, i: nat)
    requires Conserved(s, total) && i < |s.active|
    ensures |s.active[i].physicalPages| <= total
  {
    var m: multiset<nat> := multiset(s.active[i].physicalPages);
    PagesOfWithout(s.active, i);
    var rest := multiset(s.free) + PagesOf(Without(s.active, i));
    assert multiset(AllPages(total)) == rest + m;
    assert |rest + m| == |rest| + |m|;
    AllPagesSize(total);
  }

  lemma {:induction false} FilledWithin(q: SequenceState, total: nat)
    requires IsResident(q) && Filled(q) && |q.physicalPages| <= total
    ensures Within(q.(status := Finished), total)
  {
    assert Original(q.(status := Finished)) == Original(q);
  }

  /** A sequence without room for its next token has filled its pages. */
  lemma {:induction false} PreemptedParked(q: SequenceState)
    requires Filled(q) && DivCeil(q.numTokens + 1, PAGE_TOKENS) > |q.physicalPages|
    ensures Parked(q.Preempted())
  {
    assert q.numTokens == PAGE_TOKENS * |q.physicalPages|;
  }

  lemma {:induction false} GrownFilled(q: SequenceState, p: nat)
    requires Filled(q)
    ensures Filled(q.Grown(p))
  {
    assert Original(q.Grown(p)) == Original(q);
  }

  ghost predicate SweepSound(c: Sweep, total: nat) {
    AllFilled(c.s.active) && AllParked(c.s.waiting) && AllWithin(c.retired, total)
  }

  lemma {:induction false} SweepStepSound(c: Sweep, total: nat)
    requires c.i < |c.s.active| && Conserved(c.s, total) && QueuesOk(c.s) && SweepSound(c, total)
    ensures SweepSound(SweepStep(c), total)
  {
    var q := c.s.active[c.i];
    assert IsResident(q) && Filled(q);
    if q.Exhausted() {
      PagesAtMost(c.s, total, c.i);
      FilledWithin(q, total);
    } else if DivCeil(q.numTokens + 1, PAGE_TOKENS) > |q.physicalPages| {
      if c.s.free != {} {
        GrownFilled(q, Least(c.s.free));
      } else {
        PreemptedParked(q);
      }
    }
  }

  lemma {:induction false} SweepStaysSound(c: Sweep, total: nat)
    requires SweepOk(c, total) && SweepSound(c, total)
    ensures SweepSound(SweepAll(c), total)
    decreases |c.s.active| - c.i
  {
    if c.i < |c.s.active| {
      SweepStepKeeps(c, total);
      SweepStepSound(c, total);
      SweepStaysSound(SweepStep(c), total);
    }
  }

  // ---------- a step ----------

  lemma {:induction false} AppendedFilled(active: seq<SequenceState>, logits: Logits)
    requires DistinctIds(active)
    requires forall i | 0 <= i < |active| :: IsResident(active[i]) && HasRoom(active[i]) && Provisioned(active[i])
    ensures var outs := Outputs(active, logits); AllFilled(ApplyOutputs(active, outs, |outs|))
  {
    var outs := Outputs(active, logits);
    StepAppends(active, logits);
    forall i | 0 <= i < |active| ensures Filled(ApplyOutputs(active, outs, |outs|)[i]) {
      AdvancedFilled(active[i], outs[i].1);
    }
  }

  /** With distinct ids, a step keeps all this, and retires only sequences for which the pool was large enough. */
  lemma {:induction false} StepSound(s: State, total: nat, logits: Logits, b: multiset<SequenceRequest>)
    requires Conservation.WellFormed(s, total) && Covered(s) && Distinct(b) && LiveRequests(s) <= b && Sound(s)
    ensures Sound(Step(s, logits).s) && AllWithin(Step(s, logits).retired, total)
  {
    PromoteKeeps(s, total);
    PromoteSound(s);
    var p := Promote(s);
    if p.active != [] {
      PromoteKeepsRequests(s);
      IdsDistinct(p.active, b);
      AppendedFilled(p.active, logits);
      AppliedOk(p, total, logits);
      var outs := Outputs(p.active, logits);
      SweepStaysSound(Sweep(p.(active := ApplyOutputs(p.active, outs, |outs|)), 0, []), total);
    }
  }

  /** A sequence that was given its whole budget, and for which the pool was large enough, had a servable request. */
  lemma {:induction false} WithinIsServable(q: SequenceState, total: nat)
    requires Within(q, total) && q.generatedTokens == Budget(q.maxNewTokens)
    ensures Servable(RequestOf(q), total)
  {
    assert |Original(q)| + q.generatedTokens == |q.promptTokens|;
  }
}
