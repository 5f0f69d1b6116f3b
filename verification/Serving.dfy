/** One step of the engine on the queues: promote, choose a token for every running sequence, append the
    tokens, clean up. The logits are arbitrary. */
module Serving {
  import opened PagePools
  import opened Batching
  import opened Sampling
  import opened Conservation

  /** The logits of the `i`-th running sequence. */
  type Logits = nat -> seq<real>

  type Output = (nat, nat)  // sequence id, token

  function Outputs(active: seq<SequenceState>, logits: Logits): (outs: seq<Output>)
    ensures |outs| == |active|
    ensures forall i | 0 <= i < |active| :: outs[i] == (active[i].seqId, Argmax(logits(i), active[i].promptTokens))
  {
    seq(|active|, i requires 0 <= i < |active| => (active[i].seqId, Argmax(logits(i), active[i].promptTokens)))
  }

  /** The first sequence with this id, or the length of the batch. */
  function Find(active: seq<SequenceState>, id: nat): (i: nat)
    ensures i <= |active|
    ensures i < |active| ==> active[i].seqId == id
    ensures forall j | 0 <= j < i :: active[j].seqId != id
  {
    if active == [] || active[0].seqId == id then 0
    else
      var i := Find(active[1..], id);
      assert forall j | 0 < j < i + 1 :: active[j] == active[1..][j - 1];
      i + 1
  }

  /** A sequence after one token: the prefill branch only moves the position. */
  function Advanced(q: SequenceState, token: nat): SequenceState {
    if q.numTokens < |q.promptTokens| - 1 then q.(numTokens := q.numTokens + 1)
    else q.(promptTokens := q.promptTokens + [token],
            numTokens := q.numTokens + 1,
            generatedTokens := q.generatedTokens + 1)
  }

  /** The position moves by one; below the end of the prompt nothing else happens, and from there on the token is
      appended and counted. */
  lemma {:induction false} AdvancedMeans(q: SequenceState, token: nat)
    ensures var q' := Advanced(q, token);
            && q'.numTokens == q.numTokens + 1 && q'.seqId == q.seqId
            && (q.numTokens + 1 < |q.promptTokens| ==> q' == q.(numTokens := q.numTokens + 1))
            && (q.numTokens + 1 >= |q.promptTokens| ==>
                 q'.promptTokens == q.promptTokens + [token] && q'.generatedTokens == q.generatedTokens + 1)
  {
  }

  function ApplyOutput(active: seq<SequenceState>, out: Output): seq<SequenceState> {
    var i := Find(active, out.0);
    if i < |active| then active[i := Advanced(active[i], out.1)] else active
  }

  /** The batch after the first `n` outputs. */
  function ApplyOutputs(active: seq<SequenceState>, outs: seq<Output>, n: nat): (after: seq<SequenceState>)
    requires n <= |outs|
    ensures |after| == |active|
    decreases n
  {
    if n == 0 then active else ApplyOutput(ApplyOutputs(active, outs, n - 1), outs[n - 1])
  }

  predicate HasGenerated(active: seq<SequenceState>, id: nat) {
    var i := Find(active, id);
    i < |active| && active[i].generatedTokens > 0
  }

  function FilterGenerated(outs: seq<Output>, active: seq<SequenceState>): seq<Output> {
    if outs == [] then []
    else if HasGenerated(active, outs[0].0) then [outs[0]] + FilterGenerated(outs[1..], active)
    else FilterGenerated(outs[1..], active)
  }

  datatype Stepped = Stepped(s: State, outputs: seq<Output>, retired: seq<SequenceState>)

  ghost function Step(s: State, logits: Logits): Stepped {
    var p := Promote(s);
    if p.active == [] then Stepped(p, [], [])
    else
      var outs := Outputs(p.active, logits);
      var after := ApplyOutputs(p.active, outs, |outs|);
      var c := Cleanup(p.(active := after));
      Stepped(c.s, FilterGenerated(outs, after), c.retired)
  }

  // ---------- applying the outputs ----------

  /** How far a sequence may have moved: by tokens appended after its old ones. */
  ghost predicate Extends(q: SequenceState, q': SequenceState, k: nat) {
    && q'.generatedTokens == q.generatedTokens + k
    && q'.numTokens == q.numTokens + k
    && |q'.promptTokens| == |q.promptTokens| + k
    && q.promptTokens <= q'.promptTokens
    && q' == q.(promptTokens := q'.promptTokens, numTokens := q'.numTokens, generatedTokens := q'.generatedTokens)
  }

  /** After `n` outputs the batch holds the same sequences, none of them moved by more than `n` tokens. */
  ghost predicate MovedAtMost(active: seq<SequenceState>, after: seq<SequenceState>, n: nat) {
    |after| == |active| &&
    forall i | 0 <= i < |active| ::
      |active[i].promptTokens| <= |after[i].promptTokens| <= |active[i].promptTokens| + n
      && Extends(active[i], after[i], |after[i].promptTokens| - |active[i].promptTokens|)
  }

  lemma {:induction false} ApplyMoves(active: seq<SequenceState>, outs: seq<Output>, n: nat)
    requires n <= |outs|
    requires forall i | 0 <= i < |active| :: IsResident(active[i])
    ensures MovedAtMost(active, ApplyOutputs(active, outs, n), n)
    ensures forall i | 0 <= i < |active| :: IsResident(ApplyOutputs(active, outs, n)[i])
  {
    if n > 0 {
      ApplyMoves(active, outs, n - 1);
    }
  }

  lemma {:induction false} ApplyKeepsPages(active: seq<SequenceState>, after: seq<SequenceState>)
    requires |after| == |active|
    requires forall i | 0 <= i < |active| :: after[i].physicalPages == active[i].physicalPages
    ensures PagesOf(after) == PagesOf(active)
  {
    if active != [] {
      ApplyKeepsPages(active[1..], after[1..]);
    }
  }

  /** Appending the outputs leaves the batch well formed and at most one page short, even when several
      sequences share an id: a batch has no more sequences than a page has tokens. */
  lemma {:induction false} AppliedOk(p: State, total: nat, logits: Logits)
    requires WellFormed(p, total) && Covered(p)
    ensures var outs := Outputs(p.active, logits);
            var after := ApplyOutputs(p.active, outs, |outs|);
            WellFormed(p.(active := after), total) && NearlyCovered(p.(active := after))
  {
    var outs := Outputs(p.active, logits);
    var after := ApplyOutputs(p.active, outs, |outs|);
    ApplyMoves(p.active, outs, |outs|);
    ApplyKeepsPages(p.active, after);
    forall i | 0 <= i < |after| ensures after[i].numTokens / PAGE_TOKENS <= |after[i].blockTable| {
      assert HasRoom(p.active[i]);
    }
  }

  /** Conservation, well-formed queues and coverage hold between steps, whatever the logits. */
  lemma {:induction false} StepKeeps(s: State, total: nat, logits: Logits)
    requires WellFormed(s, total) && Covered(s)
    ensures WellFormed(Step(s, logits).s, total) && Covered(Step(s, logits).s)
  {
    PromoteKeeps(s, total);
    var p := Promote(s);
    if p.active != [] {
      AppliedOk(p, total, logits);
      var outs := Outputs(p.active, logits);
      CleanupKeeps(p.(active := ApplyOutputs(p.active, outs, |outs|)), total);
    }
  }

  /** Submitting a non-empty prompt keeps them too. */
  lemma {:induction false} SubmitKeeps(s: State, total: nat, req: SequenceRequest)
    requires WellFormed(s, total) && Covered(s) && req.promptTokens != []
    ensures var s' := s.(waiting := s.waiting + [NewSequence(req)]); WellFormed(s', total) && Covered(s')
  {
  }
}
