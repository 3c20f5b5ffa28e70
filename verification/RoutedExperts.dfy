/** What the routed experts make of a rank's tokens: each pair of a token and one of its experts
    is processed, with or without expert parallelism, weighted by its score and added to the
    token's output. */
module RoutedExperts {
  import opened Arithmetic
  import opened ExpertParallel
  import opened Orders

  /** Adds every source row to the output row that its index names. */
  function ScatterAdd<V>(add: (V, V) -> V, start: seq<V>, index: seq<nat>, src: seq<V>): (out: seq<V>)
    requires |index| == |src| && forall i :: 0 <= i < |index| ==> index[i] < |start|
    ensures |out| == |start|
  {
    if index == [] then start
    else
      var n := |index| - 1;
      var out := ScatterAdd(add, start, index[..n], src[..n]);
      out[index[n] := add(out[index[n]], src[n])]
  }

  /** The tokens of sorted pairs. */
  function TokenIds(order: seq<nat>, topK: nat): (ids: seq<nat>)
    requires topK > 0
    ensures |ids| == |order| && forall i :: 0 <= i < |order| ==> ids[i] == TokenOf(order[i], topK)
  {
    seq(|order|, i requires 0 <= i < |order| => TokenOf(order[i], topK))
  }

  lemma TokensExist(order: seq<nat>, tokens: nat, topK: nat)
    requires topK > 0 && forall i :: 0 <= i < |order| ==> order[i] < tokens * topK
    ensures forall i :: 0 <= i < |order| ==> TokenOf(order[i], topK) < tokens
  {
    hide TokenOf;
    forall i | 0 <= i < |order| ensures TokenOf(order[i], topK) < tokens {
      TokenExists(order[i], tokens, topK);
    }
  }

  lemma TokenExists(p: nat, tokens: nat, topK: nat)
    requires topK > 0 && p < tokens * topK
    ensures TokenOf(p, topK) < tokens
  {
    QuotientBelow(p, tokens, topK);
  }

  /** The experts' outputs for the sorted pairs, each weighted by its pair's score. */
  function Weighted<S, U, V>(weight: (S, U) -> V, scores: seq<S>, order: seq<nat>, out: seq<U>): (src: seq<V>)
    requires |out| == |order| && forall i :: 0 <= i < |order| ==> order[i] < |scores|
    ensures |src| == |order| && forall i :: 0 <= i < |order| ==> src[i] == weight(scores[order[i]], out[i])
  {
    seq(|order|, i requires 0 <= i < |order| => weight(scores[order[i]], out[i]))
  }

  /** What becomes of `tokens` tokens, given the experts' outputs for their sorted pairs. */
  function Forward<S, U, V>(add: (V, V) -> V, zero: V, weight: (S, U) -> V, tokens: nat, topK: nat, scores: seq<S>,
                            order: seq<nat>, out: seq<U>): (result: seq<V>)
    requires topK > 0 && |out| == |order| && |scores| == tokens * topK
    requires forall i :: 0 <= i < |order| ==> order[i] < |scores|
    ensures |result| == tokens
  {
    TokensExist(order, tokens, topK);
    ScatterAdd(add, seq(tokens, _ => zero), TokenIds(order, topK), Weighted(weight, scores, order, out))
  }

  // ----- The sum over a token's experts

  /** What each pair contributes, in the pairs' own order: the score times what the pair's expert
      makes of its token. */
  function PairValues<S, T, U, V>(f: (nat, T) -> U, weight: (S, U) -> V, tokens: seq<T>, topK: nat, ids: seq<nat>,
                                  scores: seq<S>): (values: seq<V>)
    requires topK > 0 && |ids| == |scores| == |tokens| * topK
    ensures |values| == |ids|
  {
    seq(|ids|, p requires 0 <= p < |ids| =>
      TokenExists(p, |tokens|, topK);
      weight(scores[p], f(ids[p], tokens[TokenOf(p, topK)])))
  }

  /** The sum over the first `k` pairs from pair `lo` on. */
  function SumPairs<V>(add: (V, V) -> V, zero: V, values: seq<V>, lo: nat, k: nat): V
    requires lo + k <= |values|
  {
    if k == 0 then zero else add(SumPairs(add, zero, values, lo, k - 1), values[lo + k - 1])
  }

  lemma RowFits(t: nat, tokens: nat, topK: nat)
    requires t < tokens
    ensures 0 <= t * topK && t * topK + topK <= tokens * topK
  {
    assert tokens * topK == t * topK + topK + (tokens - t - 1) * topK;
    NonNegative(tokens - t - 1, topK);
    NonNegative(t, topK);
  }

  /** The sum over all pairs of token `t`. */
  function TokenSum<V>(add: (V, V) -> V, zero: V, values: seq<V>, tokens: nat, topK: nat, t: nat): V
    requires |values| == tokens * topK && t < tokens
  {
    RowFits(t, tokens, topK);
    SumPairs(add, zero, values, t * topK, topK)
  }

  /** Summands can change places. */
  ghost predicate Exchangeable<V(!new)>(add: (V, V) -> V) {
    forall a, x, y :: add(add(a, x), y) == add(add(a, y), x)
  }

  function SumListed<V>(add: (V, V) -> V, zero: V, values: seq<V>, pairs: seq<nat>): V
    requires forall i :: 0 <= i < |pairs| ==> pairs[i] < |values|
  {
    if pairs == [] then zero
    else
      var n := |pairs| - 1;
      add(SumListed(add, zero, values, pairs[..n]), values[pairs[n]])
  }

  predicate Distinct(s: seq<nat>) {
    forall i, j :: 0 <= i < j < |s| ==> s[i] != s[j]
  }

  /** `pairs` lists each of the `k` pairs from `lo` on, once. */
  ghost predicate Lists(pairs: seq<nat>, lo: nat, k: nat) {
    && (forall i :: 0 <= i < |pairs| ==> lo <= pairs[i] < lo + k)
    && Distinct(pairs)
    && forall p :: lo <= p < lo + k ==> p in pairs
  }

  /** Any summand can come last. */
  lemma {:induction false} SumLast<V(!new)>(add: (V, V) -> V, zero: V, values: seq<V>, pairs: seq<nat>, i: nat)
    requires Exchangeable(add) && i < |pairs| && forall j :: 0 <= j < |pairs| ==> pairs[j] < |values|
    ensures SumListed(add, zero, values, pairs)
        == add(SumListed(add, zero, values, Without(pairs, i)), values[pairs[i]])
  {
    var n := |pairs| - 1;
    var rest := Without(pairs, i);
    if i == n {
      assert rest == pairs[..n];
    } else {
      hide Exchangeable;
      SumLast(add, zero, values, pairs[..n], i);
      assert rest[..n - 1] == Without(pairs[..n], i);
      assert rest[n - 1] == pairs[n];
      Exchange(add, SumListed(add, zero, values, rest[..n - 1]), values[pairs[i]], values[pairs[n]]);
    }
  }

  lemma Exchange<V(!new)>(add: (V, V) -> V, a: V, x: V, y: V)
    requires Exchangeable(add)
    ensures add(add(a, x), y) == add(add(a, y), x)
  {
  }

  lemma RestLists(pairs: seq<nat>, lo: nat, k: nat, i: nat)
    requires k > 0 && Lists(pairs, lo, k) && i < |pairs| && pairs[i] == lo + k - 1
    ensures Lists(Without(pairs, i), lo, k - 1)
  {
    var rest := Without(pairs, i);
    forall p | lo <= p < lo + k - 1 ensures p in rest {
      assert p in pairs;
      var j: nat :| j < |pairs| && pairs[j] == p;
      assert rest[if j < i then j else j - 1] == p;
    }
    forall j, l | 0 <= j < l < |rest| ensures rest[j] != rest[l] {
      var x, y := if j < i then j else j + 1, if l < i then l else l + 1;
      assert pairs[x] != pairs[y];
    }
  }

  /** The order in which the pairs are listed does not matter. */
  lemma {:induction false} ListedSum<V(!new)>(add: (V, V) -> V, zero: V, values: seq<V>,
                                       pairs: seq<nat>, lo: nat, k: nat)
    requires Exchangeable(add) && Lists(pairs, lo, k) && lo + k <= |values|
    ensures SumListed(add, zero, values, pairs) == SumPairs(add, zero, values, lo, k)
    decreases k
  {
    if k > 0 {
      assert lo + k - 1 in pairs;
      var i: nat :| i < |pairs| && pairs[i] == lo + k - 1;
      SumLast(add, zero, values, pairs, i);
      RestLists(pairs, lo, k, i);
      ListedSum(add, zero, values, Without(pairs, i), lo, k - 1);
    }
  }

  // ----- The pairs of one token

  /** The listed pairs of token `t`. */
  function PairsOf(order: seq<nat>, topK: nat, t: nat): (pairs: seq<nat>)
    requires topK > 0
    ensures forall i :: 0 <= i < |pairs| ==> pairs[i] in order && TokenOf(pairs[i], topK) == t
    ensures forall p :: p in order && TokenOf(p, topK) == t ==> p in pairs
  {
    if order == [] then []
    else
      var n := |order| - 1;
      assert order == order[..n] + [order[n]];
      PairsOf(order[..n], topK, t) + if TokenOf(order[n], topK) == t then [order[n]] else []
  }

  lemma {:induction false} PairsOnce(order: seq<nat>, topK: nat, t: nat)
    requires topK > 0 && Distinct(order)
    ensures Distinct(PairsOf(order, topK, t))
  {
    hide TokenOf;
    if order != [] {
      var n := |order| - 1;
      PairsOnce(order[..n], topK, t);
      assert order[n] !in order[..n];
      OneMoreDistinct(PairsOf(order[..n], topK, t), order[n]);
    }
  }

  lemma OneMoreDistinct(s: seq<nat>, x: nat)
    requires Distinct(s)
    ensures x !in s ==> Distinct(s + [x])
  {
  }

  /** The output row of a token is the sum over its pairs, as listed. */
  lemma {:induction false} ScatterSums<V>(add: (V, V) -> V, zero: V, start: seq<V>, values: seq<V>, order: seq<nat>,
                                          topK: nat, index: seq<nat>, src: seq<V>, t: nat)
    requires topK > 0 && t < |start| && start[t] == zero && |src| == |index| == |order|
    requires forall i :: 0 <= i < |order| ==> order[i] < |values| && src[i] == values[order[i]]
    requires forall i :: 0 <= i < |order| ==> index[i] < |start| && index[i] == TokenOf(order[i], topK)
    ensures ScatterAdd(add, start, index, src)[t] == SumListed(add, zero, values, PairsOf(order, topK, t))
  {
    hide TokenOf;
    if order != [] {
      var n := |order| - 1;
      ScatterSums(add, zero, start, values, order[..n], topK, index[..n], src[..n], t);
      var before := PairsOf(order[..n], topK, t);
      var pairs := PairsOf(order, topK, t);
      if index[n] == t {
        assert pairs == before + [order[n]];
        assert pairs[..|before|] == before;
      } else {
        assert pairs == before;
      }
    }
  }

  lemma InToken(p: nat, t: nat, topK: nat)
    requires topK > 0
    ensures TokenOf(p, topK) == t <==> t * topK <= p < t * topK + topK
  {
    if t * topK <= p < t * topK + topK {
      QuotientIs(p, t, p - t * topK, topK);
    }
  }

  lemma TokenListed(order: seq<nat>, topK: nat, t: nat)
    requires topK > 0 && t * topK + topK <= |order| && IsOrder(order, |order|)
    ensures Lists(PairsOf(order, topK, t), t * topK, topK)
  {
    PairsOnce(order, topK, t);
    var pairs := PairsOf(order, topK, t);
    var lo := t * topK;
    forall i | 0 <= i < |pairs| ensures lo <= pairs[i] < lo + topK {
      assert pairs[i] in pairs;
      InToken(pairs[i], t, topK);
    }
    forall p | lo <= p < lo + topK ensures p in pairs {
      InToken(p, t, topK);
      Everywhere(order, |order|, p);
    }
  }

  /** Every token gets the sum over its `topK` pairs of the score times the pair's output. */
  lemma ForwardSums<S, U, V(!new)>(add: (V, V) -> V, zero: V, weight: (S, U) -> V,
                            tokens: nat, topK: nat, scores: seq<S>,
                                   order: seq<nat>, out: seq<U>, values: seq<V>, t: nat)
    requires topK > 0 && t < tokens && |scores| == |order| == |out| == |values| == tokens * topK && Exchangeable(add)
    requires IsOrder(order, |order|)
    requires forall i :: 0 <= i < |order| ==> values[order[i]] == weight(scores[order[i]], out[i])
    ensures Forward(add, zero, weight, tokens, topK, scores, order, out)[t]
        == TokenSum(add, zero, values, tokens, topK, t)
  {
    hide ScatterAdd, SumListed, SumPairs, Exchangeable, PairsOf, Lists;
    RowFits(t, tokens, topK);
    TokensExist(order, tokens, topK);
    ScatterSums(add, zero, seq(tokens, _ => zero), values, order, topK, TokenIds(order, topK),
                Weighted(weight, scores, order, out), t);
    TokenListed(order, topK, t);
    ListedSum(add, zero, values, PairsOf(order, topK, t), t * topK, topK);
  }

  lemma OutputsAre<S, T, U, V>(f: (nat, T) -> U, weight: (S, U) -> V, tokens: seq<T>, topK: nat, ids: seq<nat>,
                               scores: seq<S>, order: seq<nat>, out: seq<U>)
    requires topK > 0 && |ids| == |scores| == |tokens| * topK && |order| == |ids| && |out| == |order|
    requires forall i :: 0 <= i < |order| ==> order[i] < |ids|
    requires forall i :: 0 <= i < |order| ==> out[i] == f(ids[order[i]], RoutedRows(tokens, topK, order)[i])
    ensures var values := PairValues(f, weight, tokens, topK, ids, scores);
            forall i :: 0 <= i < |order| ==> values[order[i]] == weight(scores[order[i]], out[i])
  {
    hide TokenOf;
  }

  /** A rank's routed experts give the same with expert parallelism as without it. If summands can
      change places, that is, for every token, the sum over its `topK` pairs of the score times what
      the pair's expert makes of the token. */
  lemma ForwardAgrees<S, T, U, V(!new)>(
      f: (nat, T) -> U, weight: (S, U) -> V, add: (V, V) -> V, zero: V, tokens: seq<T>, topK: nat, ids: seq<nat>,
      scores: seq<S>, order: seq<nat>, rows: seq<seq<T>>, counts: seq<seq<nat>>, e: nat, scratch: seq<seq<U>>, r: nat,
      t: nat)
    requires CountsOk(rows, counts, e) && ScratchOk(scratch, counts, e) && r < |counts|
    requires Routes(tokens, topK, ids, order, counts[r], rows[r]) && |scores| == |ids|
    requires t < |tokens|
    ensures |rows[r]| == |Combine(f, rows, counts, e, scratch, r)| == |Grouped(f, 0, counts[r], rows[r])| == |order|
    ensures Forward(add, zero, weight, |tokens|, topK, scores, order, Combine(f, rows, counts, e, scratch, r))
         == Forward(add, zero, weight, |tokens|, topK, scores, order, Grouped(f, 0, counts[r], rows[r]))
    ensures Exchangeable(add) ==>
              Forward(add, zero, weight, |tokens|, topK, scores, order, Combine(f, rows, counts, e, scratch, r))[t]
              == TokenSum(add, zero, PairValues(f, weight, tokens, topK, ids, scores), |tokens|, topK, t)
  {
    hide Combine, Forward, TokenSum, Exchangeable, CountsOk, ScratchOk, Grouped, Count, PairValues;
    RoutedExpertsAgree(f, tokens, topK, ids, order, rows, counts, e, scratch, r);
    var out := Combine(f, rows, counts, e, scratch, r);
    var values := PairValues(f, weight, tokens, topK, ids, scores);
    OutputsAre(f, weight, tokens, topK, ids, scores, order, out);
    if Exchangeable(add) {
      ForwardSums(add, zero, weight, |tokens|, topK, scores, order, out, values, t);
    }
  }
}
