/** The requests behind the sequences: what a step keeps of them, and what it adds to each. */
module Requests {
  import opened PagePools
  import opened Batching
  import opened Sampling
  import opened Conservation
  import opened Serving

  /** The prompt as submitted. */
  function Original(q: SequenceState): seq<nat> {
    if q.generatedTokens <= |q.promptTokens| then q.promptTokens[..|q.promptTokens| - q.generatedTokens] else []
  }

  /** The tokens appended since. */
  function Generated(q: SequenceState): seq<nat> {
    if q.generatedTokens <= |q.promptTokens| then q.promptTokens[|q.promptTokens| - q.generatedTokens..] else []
  }

  function RequestOf(q: SequenceState): SequenceRequest {
    SequenceRequest(q.seqId, Original(q), q.maxNewTokens)
  }

  /** The requests of a list of sequences, with multiplicity. */
  function RequestsOf(qs: seq<SequenceState>): multiset<SequenceRequest> {
    if qs == [] then multiset{} else multiset{RequestOf(qs[0])} + RequestsOf(qs[1..])
  }

  function LiveRequests(s: State): multiset<SequenceRequest> {
    RequestsOf(s.active) + RequestsOf(s.waiting)
  }

  predicate SameId(b: multiset<SequenceRequest>, r: SequenceRequest, r': SequenceRequest) {
    r in b && r' in b && r.seqId == r'.seqId
  }

  /** No id is used twice. */
  ghost predicate Distinct(b: multiset<SequenceRequest>) {
    && (forall r | r in b :: b[r] == 1)
    && (forall r, r' | SameId(b, r, r') :: r == r')
  }

  lemma {:induction false} RequestsAppend(a: seq<SequenceState>, b: seq<SequenceState>)
    ensures RequestsOf(a + b) == RequestsOf(a) + RequestsOf(b)
  {
    if a == [] {
      assert a + b == b;
    } else {
      assert (a + b)[0] == a[0] && (a + b)[1..] == a[1..] + b;
      calc {
        RequestsOf(a + b);
        multiset{RequestOf(a[0])} + RequestsOf(a[1..] + b);
        { RequestsAppend(a[1..], b); }
        multiset{RequestOf(a[0])} + (RequestsOf(a[1..]) + RequestsOf(b));
        multiset{RequestOf(a[0])} + RequestsOf(a[1..]) + RequestsOf(b);
        RequestsOf(a) + RequestsOf(b);
      }
    }
  }

  lemma {:induction false} RequestsSingle(q: SequenceState)
    ensures RequestsOf([q]) == multiset{RequestOf(q)}
  {
  }

  lemma {:induction false} Regroup<T>(a: multiset<T>, b: multiset<T>, c: multiset<T>)
    ensures a + (b + c) == a + c + b
  {
  }

  lemma {:induction false} RequestsWithout(a: seq<SequenceState>, i: nat)
    requires i < |a|
    ensures RequestsOf(a) == RequestsOf(Without(a, i)) + multiset{RequestOf(a[i])}
  {
    var pre, post := a[..i], a[i + 1..];
    assert a == pre + ([a[i]] + post);
    RequestsAppend(pre, [a[i]] + post);
    RequestsAppend([a[i]], post);
    RequestsSingle(a[i]);
    RequestsAppend(pre, post);
    Regroup(RequestsOf(pre), multiset{RequestOf(a[i])}, RequestsOf(post));
  }

  lemma {:induction false} RequestsSame(a: seq<SequenceState>, b: seq<SequenceState>)
    requires |a| == |b|
    requires forall i | 0 <= i < |a| :: RequestOf(a[i]) == RequestOf(b[i])
    ensures RequestsOf(a) == RequestsOf(b)
  {
    if a != [] {
      RequestsSame(a[1..], b[1..]);
    }
  }

  lemma {:induction false} TwoRequests(qs: seq<SequenceState>, i: nat, j: nat)
    requires i < |qs| && j < |qs| && i != j
    ensures multiset{RequestOf(qs[i]), RequestOf(qs[j])} <= RequestsOf(qs)
  {
    var rest := Without(qs, i);
    var k := if j < i then j else j - 1;
    assert rest[k] == qs[j];
    RequestsWithout(qs, i);
    RequestsWithout(rest, k);
  }

  /** In a list whose requests have distinct ids, sequences have distinct ids. */
  lemma {:induction false} DistinctAt(qs: seq<SequenceState>, b: multiset<SequenceRequest>, i: nat, j: nat)
    requires Distinct(b) && RequestsOf(qs) <= b
    requires i < |qs| && j < |qs| && i != j
    ensures qs[i].seqId != qs[j].seqId
  {
    var r, r' := RequestOf(qs[i]), RequestOf(qs[j]);
    TwoRequests(qs, i, j);
    assert multiset{r, r'} <= b;
    assert multiset{r, r'}[r] <= b[r] && multiset{r, r'}[r'] <= b[r'];
    assert SameId(b, r, r') <==> r.seqId == r'.seqId;
  }

  ghost predicate DistinctIds(qs: seq<SequenceState>) {
    forall i, j | 0 <= i < j < |qs| :: qs[i].seqId != qs[j].seqId
  }

  lemma {:induction false} IdsDistinct(qs: seq<SequenceState>, b: multiset<SequenceRequest>)
    requires Distinct(b) && RequestsOf(qs) <= b
    ensures DistinctIds(qs)
  {
    forall i, j | 0 <= i < j < |qs| ensures qs[i].seqId != qs[j].seqId {
      DistinctAt(qs, b, i, j);
    }
  }

  // ---------- a step keeps the requests ----------

  lemma {:induction false} AdmitKeepsRequests(s: State)
    requires |s.waiting| > 0 && s.waiting[0].PrefetchPages() <= |s.free|
    ensures LiveRequests(AdmitHead(s)) == LiveRequests(s)
  {
    var q := AdmitHead(s).active[|s.active|];
    RequestsAppend(s.active, [q]);
    RequestsSingle(q);
    assert RequestOf(q) == RequestOf(s.waiting[0]);
  }

  lemma {:induction false} PromoteKeepsRequests(s: State)
    ensures LiveRequests(Promote(s)) == LiveRequests(s)
    decreases |s.waiting|
  {
    if CanAdmit(s) {
      AdmitKeepsRequests(s);
      PromoteKeepsRequests(AdmitHead(s));
    }
  }

  lemma {:induction false} ExtendsKeepsRequest(q: SequenceState, q': SequenceState, k: nat)
    requires q.generatedTokens < |q.promptTokens| && Extends(q, q', k)
    ensures RequestOf(q') == RequestOf(q)
  {
    assert Original(q') == Original(q);
  }

  lemma {:induction false} ApplyKeepsRequests(active: seq<SequenceState>, outs: seq<Output>)
    requires forall i | 0 <= i < |active| :: IsResident(active[i])
    ensures RequestsOf(ApplyOutputs(active, outs, |outs|)) == RequestsOf(active)
  {
    var after := ApplyOutputs(active, outs, |outs|);
    ApplyMoves(active, outs, |outs|);
    forall i | 0 <= i < |active| ensures RequestOf(active[i]) == RequestOf(after[i]) {
      ExtendsKeepsRequest(active[i], after[i], |after[i].promptTokens| - |active[i].promptTokens|);
    }
    RequestsSame(active, after);
  }

  ghost function SweepRequests(c: Sweep): multiset<SequenceRequest> {
    LiveRequests(c.s) + RequestsOf(c.retired)
  }

  lemma {:induction false} RetireKeepsRequests(s: State, i: nat, retired: seq<SequenceState>, f: SequenceState)
    requires i < |s.active| && RequestOf(f) == RequestOf(s.active[i])
    ensures RequestsOf(Without(s.active, i)) + RequestsOf(s.waiting) + RequestsOf(retired + [f])
         == LiveRequests(s) + RequestsOf(retired)
  {
    RequestsWithout(s.active, i);
    RequestsAppend(retired, [f]);
    RequestsSingle(f);
  }

  lemma {:induction false} PreemptKeepsRequests(s: State, i: nat, q: SequenceState)
    requires i < |s.active| && RequestOf(q) == RequestOf(s.active[i])
    ensures RequestsOf(Without(s.active, i)) + RequestsOf([q] + s.waiting) == LiveRequests(s)
  {
    RequestsWithout(s.active, i);
    RequestsAppend([q], s.waiting);
    RequestsSingle(q);
  }

  lemma {:induction false} SweepStepKeepsRequests(c: Sweep)
    requires c.i < |c.s.active|
    ensures SweepRequests(SweepStep(c)) == SweepRequests(c)
  {
    var s, i, c' := c.s, c.i, SweepStep(c);
    if |c'.retired| > |c.retired| {
      RetireKeepsRequests(s, i, c.retired, c'.retired[|c.retired|]);
    } else if |c'.s.active| < |s.active| {
      PreemptKeepsRequests(s, i, c'.s.waiting[0]);
    } else {
      RequestsSame(s.active, c'.s.active);
    }
  }

  lemma {:induction false} SweepKeepsRequests(c: Sweep)
    requires c.i <= |c.s.active|
    ensures SweepRequests(SweepAll(c)) == SweepRequests(c)
    decreases |c.s.active| - c.i
  {
    if c.i < |c.s.active| {
      SweepStepKeepsRequests(c);
      SweepKeepsRequests(SweepStep(c));
    }
  }

  /** No request is lost, duplicated or altered by a step: each stays live or is retired. */
  lemma {:induction false} StepKeepsRequests(s: State, total: nat, logits: Logits)
    requires Conservation.WellFormed(s, total) && Covered(s)
    ensures LiveRequests(Step(s, logits).s) + RequestsOf(Step(s, logits).retired) == LiveRequests(s)
  {
    PromoteKeeps(s, total);
    PromoteKeepsRequests(s);
    var p := Promote(s);
    if p.active != [] {
      var outs := Outputs(p.active, logits);
      ApplyKeepsRequests(p.active, outs);
      SweepKeepsRequests(Sweep(p.(active := ApplyOutputs(p.active, outs, |outs|)), 0, []));
    }
  }

  // ---------- one token each ----------

  /** With distinct ids, the `n` first outputs advance the `n` first sequences by one token each. */
  lemma {:induction false} ApplyEach(active: seq<SequenceState>, outs: seq<Output>, n: nat)
    requires |outs| == |active| && n <= |outs|
    requires DistinctIds(active)
    requires forall i | 0 <= i < |active| :: outs[i].0 == active[i].seqId
    ensures forall i | 0 <= i < |active| ::
      ApplyOutputs(active, outs, n)[i] == if i < n then Advanced(active[i], outs[i].1) else active[i]
  {
    if n > 0 {
      ApplyEach(active, outs, n - 1);
      var before := ApplyOutputs(active, outs, n - 1);
      assert before[n - 1].seqId == outs[n - 1].0;
      assert Find(before, outs[n - 1].0) == n - 1;
    }
  }

  /** The first sequence with the id of `out` has generated a token. */
  ghost predicate OwnerGenerated(active: seq<SequenceState>, out: Output) {
    exists i :: 0 <= i < |active| && active[i].seqId == out.0 && active[i].generatedTokens > 0
      && forall j | 0 <= j < i :: active[j].seqId != out.0
  }

  lemma {:induction false} OwnerMeans(active: seq<SequenceState>, out: Output)
    ensures HasGenerated(active, out.0) <==> OwnerGenerated(active, out)
  {
    var i := Find(active, out.0);
    if OwnerGenerated(active, out) {
      var k :| 0 <= k < |active| && active[k].seqId == out.0 && active[k].generatedTokens > 0
        && forall j | 0 <= j < k :: active[j].seqId != out.0;
      assert i == k;
    }
  }

  /** The filter keeps every output whose sequence has generated, as often as it occurs, and no other. */
  lemma {:induction false} FilterMeans(outs: seq<Output>, active: seq<SequenceState>, out: Output)
    ensures multiset(FilterGenerated(outs, active))[out]
         == if OwnerGenerated(active, out) then multiset(outs)[out] else 0
  {
    if outs != [] {
      FilterMeans(outs[1..], active, out);
      OwnerMeans(active, outs[0]);
      assert outs == [outs[0]] + outs[1..];
    }
  }

  lemma {:induction false} FilterKeepsAll(outs: seq<Output>, active: seq<SequenceState>)
    requires forall i | 0 <= i < |outs| :: HasGenerated(active, outs[i].0)
    ensures FilterGenerated(outs, active) == outs
  {
    if outs != [] {
      FilterKeepsAll(outs[1..], active);
    }
  }

  /** What a step does between promotion and cleanup, when ids are distinct: every running sequence gets
      the chosen token, and the tokens returned are exactly those. */
  lemma {:induction false} StepAppends(active: seq<SequenceState>, logits: Logits)
    requires DistinctIds(active) && forall i | 0 <= i < |active| :: IsResident(active[i])
    ensures var outs := Outputs(active, logits);
            var after := ApplyOutputs(active, outs, |outs|);
            && FilterGenerated(outs, after) == outs
            && forall i | 0 <= i < |active| ::
                 after[i] == Advanced(active[i], outs[i].1) && after[i].generatedTokens == active[i].generatedTokens + 1
    ensures var outs := Outputs(active, logits);
            var after := ApplyOutputs(active, outs, |outs|);
            forall i | 0 <= i < |active| :: after[i] == active[i].(
              promptTokens := active[i].promptTokens + [outs[i].1],
              numTokens := active[i].numTokens + 1,
              generatedTokens := active[i].generatedTokens + 1)
  {
    var outs := Outputs(active, logits);
    var after := ApplyOutputs(active, outs, |outs|);
    ApplyEach(active, outs, |outs|);
    forall i | 0 <= i < |outs| ensures HasGenerated(after, outs[i].0) {
      assert after[i].seqId == outs[i].0;
      assert IsResident(active[Find(after, outs[i].0)]);
    }
    FilterKeepsAll(outs, after);
  }

  /** A sequence that shares its id with an earlier one is never reached. */
  lemma {:induction false} SharedIdStays(active: seq<SequenceState>, outs: seq<Output>, n: nat, i: nat, j: nat)
    requires n <= |outs| && i < j < |active| && active[i].seqId == active[j].seqId
    ensures ApplyOutputs(active, outs, n)[i].seqId == active[i].seqId
    ensures ApplyOutputs(active, outs, n)[j] == active[j]
  {
    if n > 0 {
      SharedIdStays(active, outs, n - 1, i, j);
    }
  }

  /** Every sequence has one token more. */
  ghost predicate OneMoreEach(active: seq<SequenceState>, after: seq<SequenceState>) {
    |after| == |active| && forall i | 0 <= i < |active| :: after[i].generatedTokens == active[i].generatedTokens + 1
  }

  /** Every running sequence gets a token from a step exactly when their ids are distinct. */
  lemma {:induction false} OneEachIffDistinct(active: seq<SequenceState>, logits: Logits)
    requires forall i | 0 <= i < |active| :: IsResident(active[i])
    ensures var outs := Outputs(active, logits);
            OneMoreEach(active, ApplyOutputs(active, outs, |outs|)) <==> DistinctIds(active)
  {
    var outs := Outputs(active, logits);
    var after := ApplyOutputs(active, outs, |outs|);
    if DistinctIds(active) {
      StepAppends(active, logits);
    } else {
      var i, j :| 0 <= i < j < |active| && active[i].seqId == active[j].seqId;
      SharedIdStays(active, outs, |outs|, i, j);
      assert after[j].generatedTokens != active[j].generatedTokens + 1;
    }
  }
}
