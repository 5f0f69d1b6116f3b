/** Token choice: greedy, with a flat penalty for every earlier occurrence and a ban on the last token. */
module Sampling {
  datatype Score = NegInfinity | Finite(value: real)

  predicate AtMost(a: Score, b: Score) {
    a.NegInfinity? || (b.Finite? && a.value <= b.value)
  }

  /** The score of token `i` once penalties and the ban are applied. */
  function ScoreOf(logits: seq<real>, tokens: seq<nat>, i: nat): Score
    requires i < |logits|
  {
    if tokens != [] && tokens[|tokens| - 1] == i then NegInfinity
    else Finite(logits[i] - 50.0 * multiset(tokens)[i] as real)
  }

  /** The best token among the first `n`; of equal ones, the last. */
  function Best(scores: seq<Score>, n: nat): (t: nat)
    requires 0 < n <= |scores|
    ensures t < n
    ensures forall j | 0 <= j < n :: AtMost(scores[j], scores[t])
    ensures forall j | t < j < n :: !AtMost(scores[t], scores[j])
  {
    if n == 1 then 0
    else
      var t := Best(scores, n - 1);
      if AtMost(scores[t], scores[n - 1]) then n - 1 else t
  }

  function Scores(logits: seq<real>, tokens: seq<nat>): (scores: seq<Score>)
    ensures |scores| == |logits|
    ensures forall i | 0 <= i < |logits| :: scores[i] == ScoreOf(logits, tokens, i)
  {
    seq(|logits|, i requires 0 <= i < |logits| => ScoreOf(logits, tokens, i))
  }

  function Argmax(logits: seq<real>, tokens: seq<nat>): (t: nat)
    ensures logits != [] ==> t < |logits|
  {
    if logits == [] then 0 else Best(Scores(logits, tokens), |logits|)
  }

  predicate IsLast(tokens: seq<nat>, j: nat) {
    tokens != [] && tokens[|tokens| - 1] == j
  }

  /** Token `t` beats token `j`: `j` is the one that came last, or `t` is not and has the larger logit, each less 50
      for every time the token has occurred; of equal ones the later wins. */
  ghost predicate Beats(logits: seq<real>, tokens: seq<nat>, t: nat, j: nat)
    requires t < |logits| && j < |logits|
  {
    var a, b := logits[t] - 50.0 * (multiset(tokens)[t] as real), logits[j] - 50.0 * (multiset(tokens)[j] as real);
    IsLast(tokens, j) || (!IsLast(tokens, t) && b <= a && (j > t ==> b < a))
  }

  /** Token `t` is the greedy choice: it beats every other. Without logits the choice is 0. */
  ghost predicate IsGreedy(logits: seq<real>, tokens: seq<nat>, t: nat) {
    if logits == [] then t == 0
    else t < |logits| && forall j: nat | j < |logits| && j != t :: Beats(logits, tokens, t, j)
  }

  lemma {:induction false} BestIsGreedy(logits: seq<real>, tokens: seq<nat>)
    ensures IsGreedy(logits, tokens, Argmax(logits, tokens))
  {
    if logits != [] {
      var s, t := Scores(logits, tokens), Argmax(logits, tokens);
      forall j: nat | j < |logits| && j != t ensures Beats(logits, tokens, t, j) {
        assert AtMost(s[j], s[t]) && (j > t ==> !AtMost(s[t], s[j]));
      }
    }
  }

  lemma {:induction false} OneWay(logits: seq<real>, tokens: seq<nat>, t: nat, u: nat)
    requires t < |logits| && u < |logits| && t != u
    ensures !Beats(logits, tokens, t, u) || !Beats(logits, tokens, u, t)
  {
  }

  /** The choice, written out against any other token. */
  lemma {:induction false} ChoiceMeans(logits: seq<real>, tokens: seq<nat>, j: nat)
    requires j < |logits|
    ensures var t := Argmax(logits, tokens);
            && t < |logits|
            && (t != j && (tokens == [] || tokens[|tokens| - 1] != j) ==>
                 && (tokens == [] || tokens[|tokens| - 1] != t)
                 && var a, b := multiset(tokens)[t] as real, multiset(tokens)[j] as real;
                    logits[j] - 50.0 * b <= logits[t] - 50.0 * a
                    && (j > t ==> logits[j] - 50.0 * b < logits[t] - 50.0 * a))
  {
    BestIsGreedy(logits, tokens);
    var t := Argmax(logits, tokens);
    assert t != j ==> Beats(logits, tokens, t, j);
  }

  /** There is only one. */
  lemma {:induction false} GreedyUnique(logits: seq<real>, tokens: seq<nat>, t: nat)
    ensures IsGreedy(logits, tokens, t) <==> t == Argmax(logits, tokens)
  {
    BestIsGreedy(logits, tokens);
    var u := Argmax(logits, tokens);
    if IsGreedy(logits, tokens, t) && t != u {
      OneWay(logits, tokens, t, u);
    }
  }

  /** The penalty pass and the ban. */
  method Penalise(logits: seq<real>, generatedTokens: seq<nat>) returns (penalized: seq<Score>)
    ensures penalized == Scores(logits, generatedTokens)
  {
    penalized := seq(|logits|, i requires 0 <= i < |logits| => Finite(logits[i]));
    for k := 0 to |generatedTokens|
      invariant |penalized| == |logits|
      invariant forall i | 0 <= i < |logits| ::
          penalized[i] == Finite(logits[i] - 50.0 * multiset(generatedTokens[..k])[i] as real)
    {
      var tok := generatedTokens[k];
      assert generatedTokens[..k + 1] == generatedTokens[..k] + [tok];
      if tok < |penalized| {
        penalized := penalized[tok := Finite(penalized[tok].value - 50.0)];
      }
    }
    assert generatedTokens[..|generatedTokens|] == generatedTokens;
    if |generatedTokens| > 0 {
      var last := generatedTokens[|generatedTokens| - 1];
      if last < |penalized| {
        penalized := penalized[last := NegInfinity];
      }
    }
  }

  /** The greedy choice: penalty pass, ban, and a scan for the last maximum. */
  method ArgmaxF32(logits: seq<real>, generatedTokens: seq<nat>) returns (t: nat)
    ensures t == Argmax(logits, generatedTokens)
    ensures IsGreedy(logits, generatedTokens, t)
  {
    var penalized := Penalise(logits, generatedTokens);
    BestIsGreedy(logits, generatedTokens);
    if |penalized| == 0 {
      return 0;
    }
    t := 0;
    for k := 1 to |penalized|
      invariant t == Best(penalized, k)
    {
      if AtMost(penalized[t], penalized[k]) {
        t := k;
      }
    }
  }

  /** The choice is the unique token that no token beats and no later token matches. */
  lemma ArgmaxUnique(logits: seq<real>, tokens: seq<nat>, t: nat)
    requires t < |logits|
    requires forall j | 0 <= j < |logits| :: AtMost(ScoreOf(logits, tokens, j), ScoreOf(logits, tokens, t))
    requires forall j | t < j < |logits| :: !AtMost(ScoreOf(logits, tokens, t), ScoreOf(logits, tokens, j))
    ensures Argmax(logits, tokens) == t
  {
    var s := Scores(logits, tokens);
    var u := Argmax(logits, tokens);
    assert AtMost(s[t], s[u]) && AtMost(s[u], s[t]);
  }

  /** The last token is chosen again exactly when there is nothing else to choose. */
  lemma RepeatsOnlyIfForced(logits: seq<real>, tokens: seq<nat>)
    requires tokens != []
    ensures Argmax(logits, tokens) == tokens[|tokens| - 1] <==> |logits| <= 1 && tokens[|tokens| - 1] == 0
  {
    var last := tokens[|tokens| - 1];
    if |logits| >= 2 && last < |logits| {
      var other := if last == 0 then 1 else 0;
      var s := Scores(logits, tokens);
      assert s[other].Finite? && s[last].NegInfinity?;
    }
  }
}
