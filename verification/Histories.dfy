/** Whole runs of the engine with requests arriving at any time: what is returned for each request, and in
    which order requests are first admitted. */
module Histories {
  import opened PagePools
  import opened Batching
  import opened Sampling
  import opened Conservation
  import opened Serving
  import opened Requests
  import opened Provisioning
  import opened Draining

  /** The engine with its history: requests submitted, outputs returned, sequences retired, and the ids of
      the sequences admitted for the first time, each in order. */
  datatype Service = Service(
    s: State,
    submitted: seq<SequenceRequest>,
    log: seq<Output>,
    retired: seq<SequenceState>,
    admitted: seq<nat>)

  /** The ids of those admitted, among `qs`, that had not run before. */
  function FirstRuns(qs: seq<SequenceState>): seq<nat> {
    if qs == [] then []
    else (if qs[0].generatedTokens == 0 then [qs[0].seqId] else []) + FirstRuns(qs[1..])
  }

  function Submitted(v: Service, req: SequenceRequest): Service {
    v.(s := v.s.(waiting := v.s.waiting + [NewSequence(req)]), submitted := v.submitted + [req])
  }

  ghost function Ticked(v: Service, logits: Logits): Service {
    var t := Step(v.s, logits);
    Service(t.s, v.submitted, v.log + t.outputs, v.retired + t.retired,
            v.admitted + FirstRuns(Promote(v.s).active[|v.s.active|..]))
  }

  predicate HasId(reqs: seq<SequenceRequest>, id: nat) {
    exists i :: 0 <= i < |reqs| && reqs[i].seqId == id
  }

  ghost predicate IsSubmit(v: Service, v': Service) {
    exists req: SequenceRequest :: req.promptTokens != [] && !HasId(v.submitted, req.seqId) && v' == Submitted(v, req)
  }

  ghost predicate IsTick(v: Service, v': Service) {
    exists logits: Logits :: (forall i: nat :: |logits(i)| >= 2) && v' == Ticked(v, logits)
  }

  ghost predicate Follows(vs: seq<Service>, k: nat)
    requires 0 < k < |vs|
  {
    IsSubmit(vs[k - 1], vs[k]) || IsTick(vs[k - 1], vs[k])
  }

  /** A run from the empty engine: at each point a request with a new id and a non-empty prompt arrives, or a
      step is taken with any logits over two tokens or more. */
  ghost predicate IsHistory(vs: seq<Service>, total: nat) {
    && vs != [] && vs[0] == Service(State(AllPages(total), [], []), [], [], [], [])
    && forall k | 0 < k < |vs| :: Follows(vs, k)
  }

  // ---------- conservation of pages and requests ----------

  ghost predicate Consistent(v: Service, total: nat) {
    && Conservation.WellFormed(v.s, total) && Covered(v.s)
    && LiveRequests(v.s) + RequestsOf(v.retired) == multiset(v.submitted)
    && Distinct(multiset(v.submitted))
    && Sound(v.s) && AllWithin(v.retired, total)
  }

  lemma {:induction false} NewRequestDistinct(reqs: seq<SequenceRequest>, req: SequenceRequest)
    requires Distinct(multiset(reqs)) && !HasId(reqs, req.seqId)
    ensures Distinct(multiset(reqs + [req]))
  {
    var b := multiset(reqs);
    assert multiset(reqs + [req]) == b + multiset{req};
    assert req !in reqs;
    forall r, r' | SameId(b + multiset{req}, r, r') ensures r == r' {
      if r in reqs && r' in reqs {
        assert SameId(b, r, r');
      }
    }
  }

  lemma {:induction false} SubmitConsistent(v: Service, req: SequenceRequest, total: nat)
    requires Consistent(v, total) && req.promptTokens != [] && !HasId(v.submitted, req.seqId)
    ensures Consistent(Submitted(v, req), total)
  {
    NewRequestDistinct(v.submitted, req);
    SubmitKeeps(v.s, total, req);
    SubmittedLive(v.s, req);
    assert multiset(v.submitted + [req]) == multiset(v.submitted) + multiset{req};
  }

  lemma {:induction false} SubmittedLive(s: State, req: SequenceRequest)
    ensures LiveRequests(s.(waiting := s.waiting + [NewSequence(req)])) == LiveRequests(s) + multiset{req}
  {
    var q := NewSequence(req);
    RequestsAppend(s.waiting, [q]);
    RequestsSingle(q);
    assert RequestOf(q) == req;
  }

  lemma {:induction false} LiveIsPart(v: Service)
    requires LiveRequests(v.s) + RequestsOf(v.retired) == multiset(v.submitted)
    ensures LiveRequests(v.s) <= multiset(v.submitted)
  {
  }

  lemma {:induction false} TickConsistent(v: Service, logits: Logits, total: nat)
    requires Consistent(v, total)
    ensures Consistent(Ticked(v, logits), total)
  {
    StepKeeps(v.s, total, logits);
    StepKeepsRequests(v.s, total, logits);
    RequestsAppend(v.retired, Step(v.s, logits).retired);
    LiveIsPart(v);
    StepSound(v.s, total, logits, multiset(v.submitted));
    AllWithinAppend(v.retired, Step(v.s, logits).retired, total);
  }

  lemma {:induction false} NextConsistent(v: Service, v': Service, total: nat)
    requires Consistent(v, total) && (IsSubmit(v, v') || IsTick(v, v'))
    ensures Consistent(v', total)
  {
    if IsSubmit(v, v') {
      var req: SequenceRequest :| req.promptTokens != [] && !HasId(v.submitted, req.seqId) && v' == Submitted(v, req);
      SubmitConsistent(v, req, total);
    } else {
      var logits: Logits :| (forall i: nat :: |logits(i)| >= 2) && v' == Ticked(v, logits);
      TickConsistent(v, logits, total);
    }
  }

  /** At every point of every run pages and requests are conserved and every running sequence has room. */
  lemma {:induction false} AlwaysConsistent(vs: seq<Service>, total: nat, n: nat)
    requires IsHistory(vs, total) && n < |vs|
    ensures Consistent(vs[n], total)
  {
    if n > 0 {
      AlwaysConsistent(vs, total, n - 1);
      assert Follows(vs, n);
      NextConsistent(vs[n - 1], vs[n], total);
    }
  }

  // ---------- the output trace ----------

  /** The tokens returned for a request, in order. */
  function Emitted(log: seq<Output>, id: nat): seq<nat> {
    if log == [] then []
    else (if log[0].0 == id then [log[0].1] else []) + Emitted(log[1..], id)
  }

  /** No appended token equals its predecessor. */
  ghost predicate NoStutter(q: SequenceState) {
    forall j | |q.promptTokens| - q.generatedTokens <= j < |q.promptTokens| && j > 0 ::
        q.promptTokens[j] != q.promptTokens[j - 1]
  }

  /** What was returned for the sequence is what was appended to its prompt. */
  ghost predicate Traced(q: SequenceState, log: seq<Output>) {
    q.generatedTokens < |q.promptTokens| && Emitted(log, q.seqId) == Generated(q) && NoStutter(q)
  }

  ghost predicate AllTraced(qs: seq<SequenceState>, log: seq<Output>) {
    forall i | 0 <= i < |qs| :: Traced(qs[i], log)
  }

  ghost predicate StateTraced(s: State, log: seq<Output>) {
    AllTraced(s.active, log) && AllTraced(s.waiting, log)
  }

  lemma {:induction false} EmittedAppend(a: seq<Output>, b: seq<Output>, id: nat)
    ensures Emitted(a + b, id) == Emitted(a, id) + Emitted(b, id)
  {
    if a == [] {
      assert a + b == b;
    } else {
      var first := if a[0].0 == id then [a[0].1] else [];
      assert (a + b)[0] == a[0] && (a + b)[1..] == a[1..] + b;
      EmittedAppend(a[1..], b, id);
      assert first + (Emitted(a[1..], id) + Emitted(b, id)) == first + Emitted(a[1..], id) + Emitted(b, id);
    }
  }

  lemma {:induction false} EmittedNone(outs: seq<Output>, id: nat)
    requires forall k | 0 <= k < |outs| :: outs[k].0 != id
    ensures Emitted(outs, id) == []
  {
    if outs != [] {
      EmittedNone(outs[1..], id);
    }
  }

  lemma {:induction false} EmittedOnce(outs: seq<Output>, i: nat)
    requires i < |outs|
    requires forall j, k | 0 <= j < k < |outs| :: outs[j].0 != outs[k].0
    ensures Emitted(outs, outs[i].0) == [outs[i].1]
  {
    if i == 0 {
      EmittedNone(outs[1..], outs[0].0);
    } else {
      EmittedOnce(outs[1..], i - 1);
    }
  }

  lemma {:induction false} PromoteTraced(s: State, log: seq<Output>)
    requires StateTraced(s, log)
    ensures StateTraced(Promote(s), log)
    decreases |s.waiting|
  {
    if CanAdmit(s) {
      assert Traced(s.waiting[0], log);
      PromoteTraced(AdmitHead(s), log);
    }
  }

  lemma {:induction false} TracedSame(q: SequenceState, q': SequenceState, log: seq<Output>)
    requires Traced(q, log)
    requires q'.seqId == q.seqId && q'.promptTokens == q.promptTokens && q'.generatedTokens == q.generatedTokens
    ensures Traced(q', log)
  {
  }

  lemma {:induction false} SweepStepTraced(c: Sweep, log: seq<Output>)
    requires c.i < |c.s.active|
    requires StateTraced(c.s, log) && AllTraced(c.retired, log)
    ensures StateTraced(SweepStep(c).s, log) && AllTraced(SweepStep(c).retired, log)
  {
    var q, c' := c.s.active[c.i], SweepStep(c);
    if |c'.retired| > |c.retired| {
      TracedSame(q, c'.retired[|c.retired|], log);
    } else if |c'.s.active| < |c.s.active| {
      TracedSame(q, c'.s.waiting[0], log);
    } else {
      TracedSame(q, c'.s.active[c.i], log);
    }
  }

  lemma {:induction false} SweepTraced(c: Sweep, log: seq<Output>)
    requires c.i <= |c.s.active|
    requires StateTraced(c.s, log) && AllTraced(c.retired, log)
    ensures StateTraced(SweepAll(c).s, log) && AllTraced(SweepAll(c).retired, log)
    decreases |c.s.active| - c.i
  {
    if c.i < |c.s.active| {
      SweepStepTraced(c, log);
      SweepTraced(SweepStep(c), log);
    }
  }

  lemma {:induction false} AdvancedAppends(q: SequenceState, token: nat)
    requires q.generatedTokens < |q.promptTokens| == q.numTokens
    ensures Generated(Advanced(q, token)) == Generated(q) + [token]
  {
  }

  lemma {:induction false} AdvancedNoStutter(q: SequenceState, token: nat)
    requires q.generatedTokens < |q.promptTokens| == q.numTokens
    requires NoStutter(q) && token != q.promptTokens[|q.promptTokens| - 1]
    ensures NoStutter(Advanced(q, token))
  {
  }

  /** A running sequence and its new token stay in step with the log. */
  lemma {:induction false} AdvancedTraced(q: SequenceState, logits: seq<real>, log: seq<Output>, outs: seq<Output>,
                                          i: nat)
    requires Traced(q, log) && q.numTokens == |q.promptTokens| && |logits| >= 2
    requires i < |outs| && outs[i] == (q.seqId, Argmax(logits, q.promptTokens))
    requires forall j, k | 0 <= j < k < |outs| :: outs[j].0 != outs[k].0
    ensures Traced(Advanced(q, outs[i].1), log + outs)
  {
    EmittedAppend(log, outs, q.seqId);
    EmittedOnce(outs, i);
    RepeatsOnlyIfForced(logits, q.promptTokens);
    AdvancedAppends(q, outs[i].1);
    AdvancedNoStutter(q, outs[i].1);
  }

  lemma {:induction false} OthersTraced(qs: seq<SequenceState>, log: seq<Output>, outs: seq<Output>)
    requires AllTraced(qs, log)
    requires forall i, k | 0 <= i < |qs| && 0 <= k < |outs| :: outs[k].0 != qs[i].seqId
    ensures AllTraced(qs, log + outs)
  {
    forall i | 0 <= i < |qs| ensures Traced(qs[i], log + outs) {
      EmittedAppend(log, outs, qs[i].seqId);
      EmittedNone(outs, qs[i].seqId);
    }
  }

  ghost predicate DisjointIds(a: seq<SequenceState>, b: seq<SequenceState>) {
    forall i, j | 0 <= i < |a| && 0 <= j < |b| :: a[i].seqId != b[j].seqId
  }

  /** The batch with its tokens appended, the queue and the retired stay in step with the log. */
  lemma {:induction false} BatchTraced(p: State, logits: Logits, log: seq<Output>, outs: seq<Output>,
                                       after: seq<SequenceState>, retired: seq<SequenceState>)
    requires QueuesOk(p) && DistinctIds(p.active) && DisjointIds(p.active, p.waiting) && DisjointIds(p.active, retired)
    requires StateTraced(p, log) && AllTraced(retired, log) && forall i: nat :: |logits(i)| >= 2
    requires |after| == |outs| == |p.active|
    requires forall i | 0 <= i < |p.active| ::
        outs[i] == (p.active[i].seqId, Argmax(logits(i), p.active[i].promptTokens))
    requires forall i | 0 <= i < |p.active| :: after[i] == Advanced(p.active[i], outs[i].1)
    ensures StateTraced(p.(active := after), log + outs) && AllTraced(retired, log + outs)
  {
    forall i | 0 <= i < |after| ensures Traced(after[i], log + outs) {
      AdvancedTraced(p.active[i], logits(i), log, outs, i);
    }
    OthersTraced(p.waiting, log, outs);
    OthersTraced(retired, log, outs);
  }

  /** A step keeps every sequence in step with the log, those running, waiting and retired alike. */
  lemma {:induction false} StepTraced(s: State, total: nat, logits: Logits, log: seq<Output>,
                                      retired: seq<SequenceState>, b: multiset<SequenceRequest>)
    requires Conservation.WellFormed(s, total) && Covered(s) && Distinct(b)
    requires LiveRequests(s) + RequestsOf(retired) == b
    requires StateTraced(s, log) && AllTraced(retired, log) && forall i: nat :: |logits(i)| >= 2
    ensures var t := Step(s, logits);
            && StateTraced(t.s, log + t.outputs) && AllTraced(t.retired, log + t.outputs)
            && AllTraced(retired, log + t.outputs)
  {
    PromoteKeeps(s, total);
    PromoteKeepsRequests(s);
    PromoteTraced(s, log);
    var p := Promote(s);
    if p.active == [] {
      assert log + [] == log;
    } else {
      AllIdsDistinct(p, retired, b);
      StepAppends(p.active, logits);
      var outs := Outputs(p.active, logits);
      var after := ApplyOutputs(p.active, outs, |outs|);
      BatchTraced(p, logits, log, outs, after, retired);
      SweepTraced(Sweep(p.(active := after), 0, []), log + outs);
    }
  }

  lemma {:induction false} AllIdsDistinct(p: State, retired: seq<SequenceState>, b: multiset<SequenceRequest>)
    requires Distinct(b) && LiveRequests(p) + RequestsOf(retired) == b
    ensures DistinctIds(p.active) && DisjointIds(p.active, p.waiting) && DisjointIds(p.active, retired)
  {
    var all := p.active + (p.waiting + retired);
    RequestsAppend(p.waiting, retired);
    RequestsAppend(p.active, p.waiting + retired);
    assert RequestsOf(all) == b;
    IdsDistinct(all, b);
    SplitDistinct(p.active, p.waiting, retired);
  }

  lemma {:induction false} SplitDistinct(a: seq<SequenceState>, b: seq<SequenceState>, c: seq<SequenceState>)
    requires DistinctIds(a + (b + c))
    ensures DistinctIds(a) && DisjointIds(a, b) && DisjointIds(a, c)
  {
    var all := a + (b + c);
    forall i, j | 0 <= i < |a| && 0 <= j < |b| ensures a[i].seqId != b[j].seqId {
      assert all[i] == a[i] && all[|a| + j] == b[j];
    }
    forall i, j | 0 <= i < |a| && 0 <= j < |c| ensures a[i].seqId != c[j].seqId {
      assert all[i] == a[i] && all[|a| + (|b| + j)] == c[j];
    }
    forall i, j | 0 <= i < j < |a| ensures a[i].seqId != a[j].seqId {
      assert all[i] == a[i] && all[j] == a[j];
    }
  }

  ghost predicate LogKnown(v: Service) {
    forall k | 0 <= k < |v.log| :: HasId(v.submitted, v.log[k].0)
  }

  ghost predicate InStep(v: Service) {
    && LogKnown(v) && StateTraced(v.s, v.log) && AllTraced(v.retired, v.log)
    && Unfinished(v.s.active) && Unfinished(v.s.waiting) && AllServed(v.retired)
  }

  lemma {:induction false} FilterSubset(outs: seq<Output>, active: seq<SequenceState>)
    ensures forall k | 0 <= k < |FilterGenerated(outs, active)| :: FilterGenerated(outs, active)[k] in outs
  {
    if outs != [] {
      FilterSubset(outs[1..], active);
    }
  }

  lemma {:induction false} KnownId(qs: seq<SequenceState>, reqs: seq<SequenceRequest>, i: nat)
    requires RequestsOf(qs) <= multiset(reqs) && i < |qs|
    ensures HasId(reqs, qs[i].seqId)
  {
    RequestsWithout(qs, i);
    assert RequestOf(qs[i]) in RequestsOf(qs);
    assert RequestOf(qs[i]) in multiset(reqs);
    assert RequestOf(qs[i]) in reqs;
    var k :| 0 <= k < |reqs| && reqs[k] == RequestOf(qs[i]);
  }

  /** Every output of a step is that of a running sequence. */
  lemma {:induction false} OutputOf(s: State, logits: Logits, k: nat) returns (i: nat)
    requires k < |Step(s, logits).outputs|
    ensures i < |Promote(s).active| && Promote(s).active[i].seqId == Step(s, logits).outputs[k].0
  {
    var p := Promote(s);
    var outs := Outputs(p.active, logits);
    FilterSubset(outs, ApplyOutputs(p.active, outs, |outs|));
    assert Step(s, logits).outputs[k] in outs;
    i :| 0 <= i < |outs| && outs[i] == Step(s, logits).outputs[k];
  }

  lemma {:induction false} TickKnown(v: Service, logits: Logits, total: nat)
    requires Consistent(v, total) && LogKnown(v)
    ensures LogKnown(Ticked(v, logits))
  {
    var t, p := Step(v.s, logits), Promote(v.s);
    PromoteKeepsRequests(v.s);
    forall k | 0 <= k < |t.outputs| ensures HasId(v.submitted, t.outputs[k].0) {
      var i := OutputOf(v.s, logits, k);
      KnownId(p.active, v.submitted, i);
    }
  }

  lemma {:induction false} SubmitInStep(v: Service, req: SequenceRequest)
    requires InStep(v) && req.promptTokens != [] && !HasId(v.submitted, req.seqId)
    ensures InStep(Submitted(v, req))
  {
    var v' := Submitted(v, req);
    forall k | 0 <= k < |v'.log| ensures HasId(v'.submitted, v'.log[k].0) {
      assert HasId(v.submitted, v.log[k].0);
      var i :| 0 <= i < |v.submitted| && v.submitted[i].seqId == v.log[k].0;
      assert v'.submitted[i].seqId == v.log[k].0;
    }
    EmittedNone(v.log, req.seqId);
    assert Traced(NewSequence(req), v.log);
  }

  lemma {:induction false} TickServed(v: Service, logits: Logits, total: nat)
    requires Consistent(v, total)
    requires Unfinished(v.s.active) && Unfinished(v.s.waiting) && AllServed(v.retired)
    ensures var v' := Ticked(v, logits);
            Unfinished(v'.s.active) && Unfinished(v'.s.waiting) && AllServed(v'.retired)
  {
    if Promote(v.s).active == [] {
      PromoteUnfinished(v.s);
    } else {
      BatchProgress(v.s, total, logits, multiset(v.submitted));
    }
    AllServedAppend(v.retired, Step(v.s, logits).retired);
  }

  lemma {:induction false} TickInStep(v: Service, logits: Logits, total: nat)
    requires Consistent(v, total) && InStep(v) && forall i: nat :: |logits(i)| >= 2
    ensures InStep(Ticked(v, logits))
  {
    TickKnown(v, logits, total);
    TickServed(v, logits, total);
    StepTraced(v.s, total, logits, v.log, v.retired, multiset(v.submitted));
  }

  lemma {:induction false} HistoryStep(vs: seq<Service>, total: nat, prev: nat, n: nat)
    requires IsHistory(vs, total) && n == prev + 1 < |vs|
    ensures IsSubmit(vs[prev], vs[n]) || IsTick(vs[prev], vs[n])
  {
    assert Follows(vs, n);
  }

  /** At every point of every run: what was returned for a request is what was appended to its prompt, no
      appended token equals its predecessor, and a retired request was given exactly its budget. */
  lemma {:induction false} OutputsAreTheTokens(vs: seq<Service>, total: nat, n: nat)
    requires IsHistory(vs, total) && n < |vs|
    ensures InStep(vs[n])
  {
    if n > 0 {
      var prev := n - 1;
      OutputsAreTheTokens(vs, total, prev);
      AlwaysConsistent(vs, total, prev);
      HistoryStep(vs, total, prev, n);
      NextInStep(vs[prev], vs[n], total);
    }
  }

  lemma {:induction false} NextInStep(v: Service, v': Service, total: nat)
    ensures Consistent(v, total) && InStep(v) && (IsSubmit(v, v') || IsTick(v, v')) ==> InStep(v')
  {
    if Consistent(v, total) && InStep(v) {
      if IsSubmit(v, v') {
        var req: SequenceRequest :| req.promptTokens != [] && !HasId(v.submitted, req.seqId) && v' == Submitted(v, req);
        SubmitInStep(v, req);
      } else if IsTick(v, v') {
        var logits: Logits :| (forall i: nat :: |logits(i)| >= 2) && v' == Ticked(v, logits);
        TickInStep(v, logits, total);
      }
    }
  }

  // ---------- admission order ----------

  function IdsOf(reqs: seq<SequenceRequest>): (ids: seq<nat>)
    ensures |ids| == |reqs| && forall i | 0 <= i < |reqs| :: ids[i] == reqs[i].seqId
  {
    seq(|reqs|, i requires 0 <= i < |reqs| => reqs[i].seqId)
  }

  /** The first `k` have run before; the others have not. */
  ghost predicate RunThenFresh(qs: seq<SequenceState>, k: nat) {
    && k <= |qs|
    && (forall i | 0 <= i < k :: qs[i].generatedTokens > 0)
    && (forall i | k <= i < |qs| :: qs[i].generatedTokens == 0)
  }

  ghost predicate AllRan(qs: seq<SequenceState>) {
    forall i | 0 <= i < |qs| :: qs[i].generatedTokens > 0
  }

  /** The queue is `k` preempted sequences and then the requests never run, which are the last submitted; no more
      than a batch are running or preempted. */
  ghost predicate InOrder(v: Service, k: nat) {
    && k + |v.s.active| <= MAX_BATCH_SIZE
    && AllRan(v.s.active) && RunThenFresh(v.s.waiting, k)
    && IdsOf(v.submitted) == v.admitted + Ids(v.s.waiting[k..])
  }

  lemma {:induction false} FirstRunsOf(qs: seq<SequenceState>, k: nat)
    requires RunThenFresh(qs, k)
    ensures FirstRuns(qs) == Ids(qs[k..])
  {
    if qs != [] {
      if k > 0 {
        FirstRunsOf(qs[1..], k - 1);
        assert qs[1..][k - 1..] == qs[k..];
      } else {
        FirstRunsOf(qs[1..], 0);
        assert qs[1..][0..] == qs[1..];
        assert Ids(qs[0..]) == [qs[0].seqId] + Ids(qs[1..]);
      }
    }
  }

  /** Cleanup puts only sequences that have run in front of the queue. */
  ghost predicate Fronted(w: seq<SequenceState>, w': seq<SequenceState>) {
    |w'| >= |w| && w'[|w'| - |w|..] == w && AllRan(w'[..|w'| - |w|])
  }

  lemma {:induction false} FrontedPush(w: seq<SequenceState>, q: SequenceState, w': seq<SequenceState>)
    requires q.generatedTokens > 0 && Fronted([q] + w, w')
    ensures Fronted(w, w')
  {
    var d := |w'| - |w| - 1;
    assert w'[d..][0] == q;
    assert w'[d + 1..] == w'[d..][1..];
    var front := w'[..d + 1];
    forall i | 0 <= i < |front| ensures front[i].generatedTokens > 0 {
      if i < d { assert w'[..d][i] == front[i]; }
    }
  }

  lemma {:induction false} SweepFronts(c: Sweep)
    requires c.i <= |c.s.active| && AllRan(c.s.active)
    ensures AllRan(SweepAll(c).s.active) && Fronted(c.s.waiting, SweepAll(c).s.waiting)
    ensures |SweepAll(c).s.active| + |SweepAll(c).s.waiting| <= |c.s.active| + |c.s.waiting|
    decreases |c.s.active| - c.i
  {
    if c.i < |c.s.active| {
      var c' := SweepStep(c);
      SweepFronts(c');
      if |c'.s.waiting| > |c.s.waiting| {
        FrontedPush(c.s.waiting, c'.s.waiting[0], SweepAll(c').s.waiting);
      }
    }
  }

  /** What is left of the preempted prefix once `m` sequences have gone from the front. */
  function Left(k: nat, m: nat): nat {
    if k < m then 0 else k - m
  }

  lemma {:induction false} IdsAppend(a: seq<SequenceState>, b: seq<SequenceState>)
    ensures Ids(a + b) == Ids(a) + Ids(b)
  {
  }

  /** The queue's never-run ids are those among the first `m`, and then those after them. */
  lemma {:induction false} QueueSplits(w: seq<SequenceState>, added: seq<SequenceState>, k: nat)
    requires RunThenFresh(w, k) && |added| <= |w|
    requires forall i | 0 <= i < |added| ::
        added[i].generatedTokens == w[i].generatedTokens && added[i].seqId == w[i].seqId
    ensures RunThenFresh(w[|added|..], Left(k, |added|))
    ensures Ids(w[k..]) == FirstRuns(added) + Ids(w[|added|..][Left(k, |added|)..])
  {
    var m := |added|;
    if k < m {
      FirstRunsOf(added, k);
      assert Ids(added[k..]) == Ids(w[k..m]);
      assert w[k..] == w[k..m] + w[m..] && w[m..][0..] == w[m..];
      IdsAppend(w[k..m], w[m..]);
    } else {
      FirstRunsOf(added, m);
      assert added[m..] == [] && w[m..][k - m..] == w[k..];
      assert [] + Ids(w[k..]) == Ids(w[k..]);
    }
  }

  lemma {:induction false} AddedFromQueue(s: State)
    ensures var p := Promote(s); var added := p.active[|s.active|..];
            && |added| <= |s.waiting| && p.waiting == s.waiting[|added|..]
            && forall i | 0 <= i < |added| ::
                 added[i].generatedTokens == s.waiting[i].generatedTokens && added[i].seqId == s.waiting[i].seqId
  {
    PromoteOrder(s);
    var p, n := Promote(s), |s.active|;
    forall i | 0 <= i < |p.active| - n
      ensures p.active[n..][i].generatedTokens == s.waiting[i].generatedTokens
          && p.active[n..][i].seqId == s.waiting[i].seqId
    {
      assert p.active[n + i] == s.waiting[i].Admitted(p.active[n + i].physicalPages);
    }
  }

  lemma {:induction false} LeftFits(k: nat, m: nat, n: nat)
    requires k + n <= MAX_BATCH_SIZE && n + m <= MAX_BATCH_SIZE
    ensures Left(k, m) + (n + m) <= MAX_BATCH_SIZE
  {
  }

  lemma {:induction false} Reassociate(all: seq<nat>, a: seq<nat>, bc: seq<nat>, b: seq<nat>, c: seq<nat>)
    requires all == a + bc && bc == b + c
    ensures all == a + b + c
  {
  }

  /** Promotion takes the front of the queue: those who run for the first time are the next submitted. */
  lemma {:induction false} PromoteInOrder(v: Service, k: nat) returns (k': nat)
    requires InOrder(v, k) && |Promote(v.s).active| <= MAX_BATCH_SIZE
    ensures RunThenFresh(Promote(v.s).waiting, k') && k' + |Promote(v.s).active| <= MAX_BATCH_SIZE
    ensures IdsOf(v.submitted) == v.admitted + FirstRuns(Promote(v.s).active[|v.s.active|..])
        + Ids(Promote(v.s).waiting[k'..])
  {
    var p := Promote(v.s);
    var added := p.active[|v.s.active|..];
    AddedFromQueue(v.s);
    QueueSplits(v.s.waiting, added, k);
    k' := Left(k, |added|);
    LeftFits(k, |added|, |v.s.active|);
    Reassociate(IdsOf(v.submitted), v.admitted, Ids(v.s.waiting[k..]), FirstRuns(added), Ids(p.waiting[k'..]));
  }

  lemma {:induction false} AppendedRan(active: seq<SequenceState>, logits: Logits)
    requires DistinctIds(active) && forall i | 0 <= i < |active| :: IsResident(active[i])
    ensures var outs := Outputs(active, logits); AllRan(ApplyOutputs(active, outs, |outs|))
  {
    StepAppends(active, logits);
  }

  lemma {:induction false} BatchRan(s: State, total: nat, logits: Logits, retired: seq<SequenceState>,
                                    b: multiset<SequenceRequest>)
    requires Conservation.WellFormed(s, total) && Covered(s) && Distinct(b)
    requires LiveRequests(s) + RequestsOf(retired) == b
    ensures AllRan(Step(s, logits).s.active) && Fronted(Promote(s).waiting, Step(s, logits).s.waiting)
    ensures |Step(s, logits).s.active| + |Step(s, logits).s.waiting| <= |Promote(s).active| + |Promote(s).waiting|
  {
    PromoteKeeps(s, total);
    PromoteKeepsRequests(s);
    var p := Promote(s);
    if p.active != [] {
      AllIdsDistinct(p, retired, b);
      AppendedRan(p.active, logits);
      var outs := Outputs(p.active, logits);
      SweepFronts(Sweep(p.(active := ApplyOutputs(p.active, outs, |outs|)), 0, []));
    }
  }

  lemma {:induction false} TickInOrder(v: Service, logits: Logits, total: nat, k: nat)
    requires Consistent(v, total) && InOrder(v, k)
    ensures Ordered(Ticked(v, logits))
  {
    var v' := Ticked(v, logits);
    PromoteKeeps(v.s, total);
    var k' := PromoteInOrder(v, k);
    BatchRan(v.s, total, logits, v.retired, multiset(v.submitted));
    var w, w' := Promote(v.s).waiting, v'.s.waiting;
    FrontedRun(w, w', k');
    assert InOrder(v', |w'| - |w| + k');
  }

  lemma {:induction false} FrontedRun(w: seq<SequenceState>, w': seq<SequenceState>, k: nat)
    requires RunThenFresh(w, k) && Fronted(w, w')
    ensures RunThenFresh(w', |w'| - |w| + k)
    ensures w'[|w'| - |w| + k..] == w[k..]
  {
    var d := |w'| - |w|;
    assert w'[d + k..] == w'[d..][k..];
    forall i | 0 <= i < |w'|
      ensures if i < d + k then w'[i].generatedTokens > 0 else w'[i].generatedTokens == 0
    {
      if i < d { assert w'[..d][i] == w'[i]; } else { assert w'[d..][i - d] == w'[i]; }
    }
  }

  lemma {:induction false} SubmitInOrder(v: Service, req: SequenceRequest, k: nat)
    requires InOrder(v, k)
    ensures InOrder(Submitted(v, req), k)
  {
    var w := v.s.waiting;
    var q := NewSequence(req);
    assert (w + [q])[k..] == w[k..] + [q];
    assert Ids(w[k..] + [q]) == Ids(w[k..]) + [req.seqId];
    assert IdsOf(v.submitted + [req]) == IdsOf(v.submitted) + [req.seqId];
  }

  ghost predicate Ordered(v: Service) {
    exists k :: InOrder(v, k)
  }

  lemma {:induction false} NextInOrder(v: Service, v': Service, total: nat)
    requires IsSubmit(v, v') || IsTick(v, v')
    ensures Consistent(v, total) && Ordered(v) ==> Ordered(v')
  {
    if Consistent(v, total) && Ordered(v) {
      var k :| InOrder(v, k);
      if IsSubmit(v, v') {
        var req: SequenceRequest :| req.promptTokens != [] && !HasId(v.submitted, req.seqId) && v' == Submitted(v, req);
        SubmitInOrder(v, req, k);
      } else {
        var logits: Logits :| (forall i: nat :: |logits(i)| >= 2) && v' == Ticked(v, logits);
        TickInOrder(v, logits, total, k);
      }
    }
  }

  lemma {:induction false} EmptyInOrder(v: Service, total: nat)
    requires v == Service(State(AllPages(total), [], []), [], [], [], [])
    ensures Ordered(v)
  {
    assert InOrder(v, 0);
  }

  lemma {:induction false} StaysOrdered(vs: seq<Service>, total: nat, n: nat)
    requires IsHistory(vs, total) && n < |vs|
    ensures Ordered(vs[n])
  {
    if n == 0 {
      EmptyInOrder(vs[0], total);
    } else {
      var prev := n - 1;
      AlwaysConsistent(vs, total, prev);
      StaysOrdered(vs, total, prev);
      HistoryStep(vs, total, prev, n);
      NextInOrder(vs[prev], vs[n], total);
    }
  }

  /** At every point of every run the requests admitted so far are the first submitted, in that order, every
      preempted sequence is ahead of every request still to be admitted, and the batch is within its limit. */
  lemma {:induction false} AdmissionInOrder(vs: seq<Service>, total: nat, n: nat)
    requires IsHistory(vs, total) && n < |vs|
    ensures Ordered(vs[n]) && |vs[n].s.active| <= 16
  {
    StaysOrdered(vs, total, n);
    AlwaysConsistent(vs, total, n);
  }
}
