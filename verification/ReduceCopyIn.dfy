/** The reduce-scatter input of a bucket: what every element of the send rows must be, the simple
    way to make them through a zeroed bucket, and the plan that writes them in one pass. */
module ReduceCopyIn {
  import opened Arithmetic
  import opened BucketRows
  import opened BucketGather
  import opened Buffers
  // ----- What is sent

  /** Column `c` of rank `r`'s row is an element of parameter `i`. */
  predicate Has(l: Layout, i: nat, r: nat, c: nat)
    requires Indexed(l)
  {
    r < |l.rankNumels| && c < l.rankNumels[r] && InParam(l, i, l.rankOffsets[r] + c)
  }

  /** Which element of the parameter that is. */
  function ElementAt(l: Layout, i: nat, r: nat, c: nat): (e: nat)
    requires Indexed(l) && Has(l, i, r, c)
    ensures e < Numel(l.params[i])
  {
    l.rankOffsets[r] + c - l.offsets[i]
  }

  /** The element to send: the parameter's gradient where there is one, else zero. */
  ghost predicate Sent<V>(l: Layout, grads: seq<seq<V>>, zero: V, r: nat, c: nat, v: V)
    requires Indexed(l) && Shaped(l, grads)
  {
    && (forall i: nat | Has(l, i, r, c) :: v == grads[i][ElementAt(l, i, r, c)])
    && ((forall i: nat :: !Has(l, i, r, c)) ==> v == zero)
  }

  /** There is only one such element. */
  lemma SentOnce<V>(l: Layout, grads: seq<seq<V>>, zero: V, r: nat, c: nat, v: V, w: V)
    requires Indexed(l) && Shaped(l, grads) && Sent(l, grads, zero, r, c, v) && Sent(l, grads, zero, r, c, w)
    ensures v == w
  {
    if i: nat :| Has(l, i, r, c) {
      assert v == grads[i][ElementAt(l, i, r, c)];
    }
  }

  lemma HasOnce(l: Layout, alignment: nat, i: nat, j: nat, r: nat, c: nat)
    requires LayoutOk(l, alignment) && Indexed(l) && Has(l, i, r, c) && Has(l, j, r, c)
    ensures i == j
  {
    hide LayoutOk;
    ParamsApart(l, alignment);
  }

  /** Where column `c` of row `r` is, when rows are `stride` apart. */
  function Spot(stride: nat, r: nat, c: nat): nat {
    r * stride + c
  }

  lemma SpotIs(stride: nat, r: nat, c: nat)
    ensures Spot(stride, r, c) == Spot(stride, r, 0) + c && Spot(stride, r + 1, 0) == Spot(stride, r, 0) + stride
    ensures Spot(stride, 0, c) == c
  {
    OneMore(r, stride);
  }

  lemma SpotBefore(stride: nat, q: nat, r: nat)
    requires q < r
    ensures Spot(stride, q, 0) + stride <= Spot(stride, r, 0)
  {
    OneMore(q, stride);
    NonNegative(r - q - 1, stride);
    assert r * stride == (q + 1) * stride + (r - q - 1) * stride;
  }

  // ----- The simple way

  ghost predicate FilledUpTo<V>(l: Layout, grads: seq<seq<V>>, zero: V, bucket: seq<V>, n: nat)
    requires Indexed(l) && Shaped(l, grads) && n <= |l.params|
  {
    && |bucket| == l.globalNumel
    && (forall i: nat, p: nat | i < n && InParam(l, i, p) :: p < |bucket| && bucket[p] == grads[i][p - l.offsets[i]])
    && (forall p: nat | p < |bucket| && (forall i: nat :: i < n ==> !InParam(l, i, p)) :: bucket[p] == zero)
  }

  lemma FilledNext<V>(l: Layout, alignment: nat, grads: seq<seq<V>>, zero: V, bucket: seq<V>, n: nat)
    requires LayoutOk(l, alignment) && Indexed(l) && Shaped(l, grads) && n < |l.params|
    requires FilledUpTo(l, grads, zero, bucket, n)
    ensures l.offsets[n] + |grads[n]| <= |bucket|
    ensures FilledUpTo(l, grads, zero, Spliced(bucket, grads[n], l.offsets[n]), n + 1)
  {
    hide LayoutOk, Numel;
    ParamsApart(l, alignment);
    assert ParamEnd(l, n) == l.offsets[n] + |grads[n]|;
    var after := Spliced(bucket, grads[n], l.offsets[n]);
    forall i: nat, p: nat | i < n + 1 && InParam(l, i, p)
        ensures p < |after| && after[p] == grads[i][p - l.offsets[i]] {
      if i < n {
        assert p < ParamEnd(l, i) <= l.offsets[n];
      }
    }
    forall p: nat | p < |after| && forall i: nat :: i < n + 1 ==> !InParam(l, i, p)
      ensures after[p] == zero
    {
      assert !InParam(l, n, p);
      assert forall i: nat :: i < n ==> !InParam(l, i, p);
    }
  }

  /** The gradient bucket: zeros, with every gradient at its place. */
  method FillBucket<V>(l: Layout, ghost alignment: nat, grads: seq<seq<V>>, zero: V) returns (bucket: seq<V>)
    requires LayoutOk(l, alignment) && Indexed(l) && Shaped(l, grads)
    ensures FilledUpTo(l, grads, zero, bucket, |l.params|)
  {
    hide LayoutOk, FilledUpTo;
    var buffer := new V[l.globalNumel](_ => zero);
    NoneFilled(l, grads, zero, buffer[..]);
    for i := 0 to |l.params|
      invariant FilledUpTo(l, grads, zero, buffer[..], i)
    {
      FilledNext(l, alignment, grads, zero, buffer[..], i);
      Copy(grads[i], buffer, l.offsets[i]);
    }
    bucket := buffer[..];
  }

  lemma NoneFilled<V>(l: Layout, grads: seq<seq<V>>, zero: V, bucket: seq<V>)
    requires Indexed(l) && Shaped(l, grads) && |bucket| == l.globalNumel
    requires forall p :: 0 <= p < |bucket| ==> bucket[p] == zero
    ensures FilledUpTo(l, grads, zero, bucket, 0)
  {
  }

  /** The element of the bucket that column `c` of rank `r`'s row is. */
  lemma BucketSends<V>(l: Layout, grads: seq<seq<V>>, zero: V, bucket: seq<V>, r: nat, c: nat)
    requires Indexed(l) && Shaped(l, grads) && FilledUpTo(l, grads, zero, bucket, |l.params|)
    requires r < |l.rankNumels| && c < l.rankNumels[r] && l.rankOffsets[r] + c < |bucket|
    ensures Sent(l, grads, zero, r, c, bucket[l.rankOffsets[r] + c])
  {
    var p := l.rankOffsets[r] + c;
    forall i: nat | Has(l, i, r, c) ensures bucket[p] == grads[i][ElementAt(l, i, r, c)] {
      assert InParam(l, i, p);
    }
    if forall i: nat :: !Has(l, i, r, c) {
      forall i: nat | i < |l.params| ensures !InParam(l, i, p) {
        assert !Has(l, i, r, c);
      }
    }
  }

  lemma PaddingSends<V>(l: Layout, grads: seq<seq<V>>, zero: V, r: nat, c: nat)
    requires Indexed(l) && Shaped(l, grads) && r < |l.rankNumels| && l.rankNumels[r] <= c
    ensures Sent(l, grads, zero, r, c, zero)
  {
  }

  /** Every element of the first `n` send rows is what it must be. */
  ghost predicate RowsSent<V>(l: Layout, grads: seq<seq<V>>, zero: V, stride: nat, send: seq<V>, n: nat)
    requires Indexed(l) && Shaped(l, grads)
  {
    forall r: nat, c: nat | r < n && c < Longest(l.rankNumels) ::
      Spot(stride, r, c) < |send| && Sent(l, grads, zero, r, c, send[Spot(stride, r, c)])
  }

  /** The send rows through a zeroed bucket: the bucket itself, unless some range is padded. */
  method PackSimple<V>(l: Layout, ghost alignment: nat, grads: seq<seq<V>>, zero: V) returns (send: seq<V>)
    requires LayoutOk(l, alignment) && Indexed(l) && Shaped(l, grads)
    ensures |send| == Spot(Longest(l.rankNumels), |l.rankNumels|, 0)
    ensures RowsSent(l, grads, zero, Longest(l.rankNumels), send, |l.rankNumels|)
  {
    hide FilledUpTo, Sent, LayoutOk, RangesOk, RowsSent, Spot;
    RangesAre(l, alignment);
    var bucket := FillBucket(l, alignment, grads, zero);
    FilledLength(l, grads, zero, bucket);
    var n, m := |l.rankNumels|, Longest(l.rankNumels);
    if Spot(m, n, 0) == l.globalNumel {
      WholeSends(l, grads, zero, bucket);
      return bucket;
    }
    var buffer := new V[Spot(m, n, 0)](_ => zero);
    NoRowsSent(l, grads, zero, m, buffer[..]);
    SpotIs(m, 0, 0);
    for r := 0 to n
      invariant RowsSent(l, grads, zero, m, buffer[..], r) && Spot(m, r, 0) <= buffer.Length
      invariant forall x :: Spot(m, r, 0) <= x < buffer.Length ==> buffer[x] == zero
    {
      SpotBefore(m, r, n);
      RankFacts(l, r);
      NextRowSends(l, grads, zero, bucket, buffer[..], r);
      if l.rankNumels[r] > 0 {
        Copy(bucket[l.rankOffsets[r]..RankEnd(l, r)], buffer, Spot(m, r, 0));
      }
      SpotIs(m, r, 0);
    }
    send := buffer[..];
  }

  lemma NoRowsSent<V>(l: Layout, grads: seq<seq<V>>, zero: V, stride: nat, send: seq<V>)
    requires Indexed(l) && Shaped(l, grads)
    ensures RowsSent(l, grads, zero, stride, send, 0)
  {
  }

  lemma RangesAre(l: Layout, alignment: nat)
    requires LayoutOk(l, alignment)
    ensures RangesOk(l.rankOffsets, l.rankNumels, l.globalNumel)
  {
  }

  lemma FilledLength<V>(l: Layout, grads: seq<seq<V>>, zero: V, bucket: seq<V>)
    requires Indexed(l) && Shaped(l, grads) && FilledUpTo(l, grads, zero, bucket, |l.params|)
    ensures |bucket| == l.globalNumel
  {
  }

  lemma WholeSends<V>(l: Layout, grads: seq<seq<V>>, zero: V, bucket: seq<V>)
    requires Indexed(l) && Shaped(l, grads) && FilledUpTo(l, grads, zero, bucket, |l.params|)
    requires |bucket| == l.globalNumel
    requires RangesOk(l.rankOffsets, l.rankNumels, l.globalNumel)
    requires Spot(Longest(l.rankNumels), |l.rankNumels|, 0) == l.globalNumel
    ensures RowsSent(l, grads, zero, Longest(l.rankNumels), bucket, |l.rankNumels|)
  {
    hide FilledUpTo, Sent, RangesOk, Longest, Spot;
    var m := Longest(l.rankNumels);
    forall r: nat, c: nat | r < |l.rankNumels| && c < m
      ensures Spot(m, r, c) < |bucket| && Sent(l, grads, zero, r, c, bucket[Spot(m, r, c)])
    {
      WholeRow(l, r);
      SpotIs(m, r, c);
      SpotBefore(m, r, |l.rankNumels|);
      BucketSends(l, grads, zero, bucket, r, c);
    }
  }

  lemma WholeRow(l: Layout, r: nat)
    requires Indexed(l) && RangesOk(l.rankOffsets, l.rankNumels, l.globalNumel) && r < |l.rankNumels|
    requires Spot(Longest(l.rankNumels), |l.rankNumels|, 0) == l.globalNumel
    ensures l.rankNumels[r] == Longest(l.rankNumels) && l.rankOffsets[r] == Spot(Longest(l.rankNumels), r, 0)
  {
    NoPadding(l, r);
  }

  lemma NextRowSends<V>(l: Layout, grads: seq<seq<V>>, zero: V, bucket: seq<V>, before: seq<V>, r: nat)
    requires Indexed(l) && Shaped(l, grads) && FilledUpTo(l, grads, zero, bucket, |l.params|) && r < |l.rankNumels|
    requires RankEnd(l, r) <= |bucket| && Spot(Longest(l.rankNumels), r, 0) + Longest(l.rankNumels) <= |before|
    requires RowsSent(l, grads, zero, Longest(l.rankNumels), before, r)
    requires forall x :: Spot(Longest(l.rankNumels), r, 0) <= x < |before| ==> before[x] == zero
    ensures RowsSent(l, grads, zero, Longest(l.rankNumels),
                     Spliced(before, bucket[l.rankOffsets[r]..RankEnd(l, r)], Spot(Longest(l.rankNumels), r, 0)), r + 1)
    ensures l.rankNumels[r] == 0 ==> RowsSent(l, grads, zero, Longest(l.rankNumels), before, r + 1)
  {
    hide FilledUpTo, Sent, Spot;
    var m := Longest(l.rankNumels);
    hide Longest;
    var after := Spliced(before, bucket[l.rankOffsets[r]..RankEnd(l, r)], Spot(m, r, 0));
    forall q: nat, c: nat | q < r + 1 && c < m
      ensures Spot(m, q, c) < |after| && Sent(l, grads, zero, q, c, after[Spot(m, q, c)])
    {
      SpotIs(m, q, c);
      if q < r {
        SpotBefore(m, q, r);
      } else if c < l.rankNumels[r] {
        BucketSends(l, grads, zero, bucket, r, c);
      } else {
        PaddingSends(l, grads, zero, r, c);
      }
    }
    if l.rankNumels[r] == 0 {
      assert after == before;
    }
  }
}
