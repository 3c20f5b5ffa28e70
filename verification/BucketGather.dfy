/** Storing a bucket's parameters by ranges and gathering the ranges, padded to one length, back into
    the bucket. */
module BucketGather {
  import opened Basics
  import opened Arithmetic
  import opened BucketRows
  import opened Buffers

  /** The parameters' flattened values. */
  predicate Shaped<V>(l: Layout, values: seq<seq<V>>) {
    |values| == |l.params| && forall i :: 0 <= i < |values| ==> |values[i]| == Numel(l.params[i])
  }

  /** A rank's storage has, at each place that a parameter covers, that parameter's element. */
  ghost predicate Stores<V>(l: Layout, r: nat, values: seq<seq<V>>, storage: seq<V>)
    requires Indexed(l) && r < |l.rankNumels| && Shaped(l, values)
  {
    && |storage| == l.rankNumels[r]
    && forall i: nat, p: nat | i < |l.params| && InParam(l, i, p) && InRank(l, r, p) ::
         storage[p - l.rankOffsets[r]] == values[i][p - l.offsets[i]]
  }

  ghost predicate StoredUpTo<V>(l: Layout, r: nat, values: seq<seq<V>>, storage: seq<V>, n: nat)
    requires Indexed(l) && r < |l.rankNumels| && Shaped(l, values) && n <= |l.params|
  {
    && |storage| == l.rankNumels[r]
    && forall i: nat, p: nat | i < n && InParam(l, i, p) && InRank(l, r, p) ::
         storage[p - l.rankOffsets[r]] == values[i][p - l.offsets[i]]
  }

  lemma StoredNext<V>(l: Layout, r: nat, values: seq<seq<V>>, storage: seq<V>, n: nat)
    requires Indexed(l) && r < |l.rankNumels| && Shaped(l, values) && n < |l.params|
    requires StoredUpTo(l, r, values, storage, n)
    requires forall i, j :: 0 <= i < j < |l.params| ==> ParamEnd(l, i) <= l.offsets[j]
    ensures var part := PartOf(l, n, r);
            if part.numel == 0 then StoredUpTo(l, r, values, storage, n + 1)
            else
              && 0 <= part.start - l.offsets[n] && part.start - l.offsets[n] + part.numel <= |values[n]|
              && 0 <= part.start - l.rankOffsets[r] && part.start - l.rankOffsets[r] + part.numel <= |storage|
              && var own := values[n][part.start - l.offsets[n]..part.start - l.offsets[n] + part.numel];
                 StoredUpTo(l, r, values, Spliced(storage, own, part.start - l.rankOffsets[r]), n + 1)
  {
    PartBounds(l, n, r);
    hide Numel, PartOf;
  }

  /** Copies a rank's parts of all parameters into its storage. */
  method StoreParams<V>(l: Layout, r: nat, ghost alignment: nat, values: seq<seq<V>>, storage: array<V>)
    requires LayoutOk(l, alignment) && Indexed(l) && r < |l.rankNumels| && Shaped(l, values)
    requires storage.Length == l.rankNumels[r]
    modifies storage
    ensures Stores(l, r, values, storage[..])
  {
    hide LayoutOk, PartOf, Numel, StoredUpTo, Shaped, Stores;
    ParamsApart(l, alignment);
    NoneStored(l, r, values, storage[..]);
    for i := 0 to |l.params|
      invariant StoredUpTo(l, r, values, storage[..], i)
    {
      var part := LocalPart(l, i, r);
      StoredNext(l, r, values, storage[..], i);
      if part.numel > 0 {
        var from := part.start - l.offsets[i];
        Copy(values[i][from..from + part.numel], storage, part.start - l.rankOffsets[r]);
      }
    }
    AllStored(l, r, values, storage[..]);
  }

  lemma NoneStored<V>(l: Layout, r: nat, values: seq<seq<V>>, storage: seq<V>)
    requires Indexed(l) && r < |l.rankNumels| && Shaped(l, values) && |storage| == l.rankNumels[r]
    ensures StoredUpTo(l, r, values, storage, 0)
    ensures |values| == |l.params|
  {
  }

  lemma AllStored<V>(l: Layout, r: nat, values: seq<seq<V>>, storage: seq<V>)
    requires Indexed(l) && r < |l.rankNumels| && Shaped(l, values) && StoredUpTo(l, r, values, storage, |l.params|)
    ensures Stores(l, r, values, storage)
  {
  }

  lemma PartBounds(l: Layout, i: nat, r: nat)
    requires Indexed(l) && i < |l.params| && r < |l.rankNumels|
    ensures PartOf(l, i, r).numel > 0 ==>
              && l.offsets[i] <= PartOf(l, i, r).start && PartOf(l, i, r).start
                  + PartOf(l, i, r).numel <= ParamEnd(l, i)
              && l.rankOffsets[r] <= PartOf(l, i, r).start && PartOf(l, i, r).start
                  + PartOf(l, i, r).numel <= RankEnd(l, r)
    ensures forall p: nat :: InParam(l, i, p) && InRank(l, r, p) <==>
                             PartOf(l, i, r).start <= p < PartOf(l, i, r).start + PartOf(l, i, r).numel
  {
  }

  function Longest(numels: seq<nat>): (m: nat)
    ensures forall r :: 0 <= r < |numels| ==> numels[r] <= m
    ensures numels != [] ==> exists r :: 0 <= r < |numels| && numels[r] == m
  {
    if numels == [] then 0
    else
      var n := |numels| - 1;
      var m := Longest(numels[..n]);
      if m < numels[n] || n == 0 then numels[n] else m
  }

  predicate RowsFit<V>(l: Layout, rows: seq<seq<V>>) {
    |rows| == |l.rankNumels| && forall r :: 0 <= r < |rows| ==> |rows[r]| == Longest(l.rankNumels)
  }

  lemma {:induction false} SumAtMost(numels: seq<nat>, m: nat)
    requires forall r :: 0 <= r < |numels| ==> numels[r] <= m
    ensures 0 <= Sum(numels) <= |numels| * m
    ensures Sum(numels) == |numels| * m ==> forall r :: 0 <= r < |numels| ==> numels[r] == m
  {
    if numels != [] {
      var n := |numels| - 1;
      SumAtMost(numels[..n], m);
      OneMore(n, m);
      assert Sum(numels) == n * m + m ==> numels[n] == m && Sum(numels[..n]) == n * m;
      forall r | 0 <= r < |numels| && Sum(numels) == |numels| * m ensures numels[r] == m {
        assert r < n ==> numels[..n][r] == numels[r];
      }
    }
  }

  lemma {:induction false} RangesSum(offsets: seq<nat>, numels: seq<nat>, n: nat)
    requires |offsets| == |numels| && n <= |numels|
    requires forall r: nat :: r < |offsets| ==> offsets[r] == EndOf(offsets, numels, r)
    ensures EndOf(offsets, numels, n) == Sum(numels[..n])
  {
    if n > 0 {
      RangesSum(offsets, numels, n - 1);
      SumNext(numels, n - 1);
    }
  }

  lemma {:induction false} EqualSum(numels: seq<nat>, m: nat)
    requires forall r :: 0 <= r < |numels| ==> numels[r] == m
    ensures Sum(numels) == |numels| * m
  {
    if numels != [] {
      EqualSum(numels[..|numels| - 1], m);
      OneMore(|numels| - 1, m);
    }
  }

  /** When the padded ranges are as long as the bucket, no range is padded, and range `r` starts at
      row `r`. */
  lemma NoPadding(l: Layout, r: nat)
    requires RangesOk(l.rankOffsets, l.rankNumels, l.globalNumel) && r < |l.rankNumels|
    requires |l.rankNumels| * Longest(l.rankNumels) == l.globalNumel
    ensures l.rankNumels[r] == Longest(l.rankNumels) && l.rankOffsets[r] == r * Longest(l.rankNumels)
  {
    var m := Longest(l.rankNumels);
    RangesSum(l.rankOffsets, l.rankNumels, |l.rankNumels|);
    assert l.rankNumels[..|l.rankNumels|] == l.rankNumels;
    SumAtMost(l.rankNumels, m);
    RangesSum(l.rankOffsets, l.rankNumels, r);
    EqualSum(l.rankNumels[..r], m);
  }

  /** Whether the bucket has each range where the layout puts it. */
  ghost predicate Gathered<V>(l: Layout, rows: seq<seq<V>>, bucket: seq<V>)
    requires Indexed(l) && RowsFit(l, rows)
  {
    && |bucket| == l.globalNumel
    && forall r: nat, p: nat | r < |rows| && InRank(l, r, p) ::
         p < |bucket| && bucket[p] == rows[r][p - l.rankOffsets[r]]
  }

  ghost predicate GatheredUpTo<V>(l: Layout, rows: seq<seq<V>>, bucket: seq<V>, n: nat)
    requires Indexed(l) && RowsFit(l, rows)
  {
    && |bucket| == l.globalNumel
    && forall r: nat, p: nat | r < n && r < |rows| && InRank(l, r, p) ::
         p < |bucket| && bucket[p] == rows[r][p - l.rankOffsets[r]]
  }

  lemma GatheredNext<V>(l: Layout, rows: seq<seq<V>>, bucket: seq<V>, r: nat, numel: nat)
    requires Indexed(l) && RangesOk(l.rankOffsets, l.rankNumels, l.globalNumel) && RowsFit(l, rows)
    requires r < |rows| && GatheredUpTo(l, rows, bucket, r) && numel == l.rankNumels[r]
    ensures numel <= |rows[r]| && l.rankOffsets[r] + numel <= |bucket|
    ensures GatheredUpTo(l, rows, Spliced(bucket, rows[r][..numel], l.rankOffsets[r]), r + 1)
    ensures numel == 0 ==> GatheredUpTo(l, rows, bucket, r + 1)
  {
    hide RangesOk, Longest;
    RankFacts(l, r);
    RowFacts(l, rows, r);
    var after := Spliced(bucket, rows[r][..numel], l.rankOffsets[r]);
    forall q: nat, p: nat | q < r + 1 && q < |rows| && InRank(l, q, p)
      ensures p < |bucket| && after[p] == rows[q][p - l.rankOffsets[q]]
      ensures numel == 0 ==> bucket[p] == rows[q][p - l.rankOffsets[q]]
    {
      RowFacts(l, rows, q);
      if q < r {
        assert RankEnd(l, q) <= l.rankOffsets[r];
      }
    }
  }

  lemma RankFacts(l: Layout, r: nat)
    requires Indexed(l) && RangesOk(l.rankOffsets, l.rankNumels, l.globalNumel) && r < |l.rankNumels|
    ensures RankEnd(l, r) <= l.globalNumel && forall q: nat :: q < r ==> RankEnd(l, q) <= l.rankOffsets[r]
  {
    RanksApart(l);
  }

  lemma RowFacts<V>(l: Layout, rows: seq<seq<V>>, r: nat)
    requires Indexed(l) && RowsFit(l, rows) && r < |rows|
    ensures l.rankNumels[r] <= |rows[r]|
  {
  }

  /** Gathers the rows of all ranks: straight into the bucket if no range is padded, and otherwise
      range by range. */
  method GatherBucket<V>(l: Layout, rows: seq<seq<V>>, bucket: array<V>)
    requires Indexed(l) && RangesOk(l.rankOffsets, l.rankNumels, l.globalNumel) && RowsFit(l, rows)
    requires bucket.Length == l.globalNumel
    modifies bucket
    ensures Gathered(l, rows, bucket[..])
  {
    hide GatheredUpTo, RangesOk;
    NoneGathered(l, rows, bucket[..]);
    var n, m := |rows|, Longest(l.rankNumels);
    if n * m == l.globalNumel {
      AllGather(l, rows, bucket);
      return;
    }
    for r := 0 to n
      invariant GatheredUpTo(l, rows, bucket[..], r)
    {
      GatheredNext(l, rows, bucket[..], r, l.rankNumels[r]);
      if l.rankNumels[r] > 0 {
        Copy(rows[r][..l.rankNumels[r]], bucket, l.rankOffsets[r]);
      }
    }
    AllGathered(l, rows, bucket[..]);
  }

  lemma NoneGathered<V>(l: Layout, rows: seq<seq<V>>, bucket: seq<V>)
    requires Indexed(l) && RowsFit(l, rows) && |bucket| == l.globalNumel
    ensures GatheredUpTo(l, rows, bucket, 0)
  {
  }

  lemma AllGathered<V>(l: Layout, rows: seq<seq<V>>, bucket: seq<V>)
    requires Indexed(l) && RowsFit(l, rows) && GatheredUpTo(l, rows, bucket, |rows|)
    ensures Gathered(l, rows, bucket)
  {
  }

  /** The rows one after the other, which is what the collective writes. */
  method AllGather<V>(l: Layout, rows: seq<seq<V>>, bucket: array<V>)
    requires Indexed(l) && RangesOk(l.rankOffsets, l.rankNumels, l.globalNumel) && RowsFit(l, rows)
    requires bucket.Length == l.globalNumel == |rows| * Longest(l.rankNumels)
    modifies bucket
    ensures Gathered(l, rows, bucket[..])
  {
    hide GatheredUpTo, RangesOk;
    NoneGathered(l, rows, bucket[..]);
    var m := Longest(l.rankNumels);
    for r := 0 to |rows|
      invariant GatheredUpTo(l, rows, bucket[..], r)
    {
      NoPadding(l, r);
      assert rows[r][..m] == rows[r];
      GatheredNext(l, rows, bucket[..], r, m);
      Copy(rows[r], bucket, r * m);
    }
    AllGathered(l, rows, bucket[..]);
  }

  /** Storing, sending padded ranges and gathering them rebuilds every parameter, and what padding
      carries doesn't matter. */
  lemma ParamsRebuilt<V>(l: Layout, alignment: nat, values: seq<seq<V>>, storage: seq<seq<V>>,
                         rows: seq<seq<V>>, bucket: seq<V>, i: nat)
    requires LayoutOk(l, alignment) && Indexed(l) && Shaped(l, values) && RowsFit(l, rows) && |storage| == |rows|
    requires forall r :: 0 <= r < |rows| ==> Stores(l, r, values, storage[r]) && rows[r][..|storage[r]|] == storage[r]
    requires Gathered(l, rows, bucket) && i < |l.params|
    ensures ParamEnd(l, i) <= |bucket| && bucket[l.offsets[i]..ParamEnd(l, i)] == values[i]
  {
    hide LayoutOk, Stores, Gathered, InParam, PartOf, Longest, Numel;
    ParamsApart(l, alignment);
    GatheredLength(l, rows, bucket);
    var o, n := l.offsets[i], Numel(l.params[i]);
    assert ParamEnd(l, i) == o + n <= |bucket|;
    forall k: nat | k < n ensures bucket[o + k] == values[i][k] {
      var r := StoredOnce(l, alignment, i, o + k);
      ElementRebuilt(l, values, storage, rows, bucket, i, r, o + k);
    }
    SliceIs(bucket, o, values[i]);
  }

  lemma SliceIs<V>(s: seq<V>, o: nat, t: seq<V>)
    requires o + |t| <= |s| && forall k: nat :: k < |t| ==> s[o + k] == t[k]
    ensures s[o..o + |t|] == t
  {
  }

  lemma GatheredLength<V>(l: Layout, rows: seq<seq<V>>, bucket: seq<V>)
    requires Indexed(l) && RowsFit(l, rows) && Gathered(l, rows, bucket)
    ensures |bucket| == l.globalNumel
  {
  }

  lemma ElementRebuilt<V>(l: Layout, values: seq<seq<V>>, storage: seq<seq<V>>, rows: seq<seq<V>>,
                          bucket: seq<V>, i: nat, r: nat, p: nat)
    requires Indexed(l) && Shaped(l, values) && RowsFit(l, rows) && |storage| == |rows|
    requires i < |l.params| && r < |rows| && Stores(l, r, values, storage[r]) && rows[r][..|storage[r]|] == storage[r]
    requires Gathered(l, rows, bucket) && PartOf(l, i, r).start <= p < PartOf(l, i, r).start + PartOf(l, i, r).numel
    ensures InParam(l, i, p) && p < |bucket| && bucket[p] == values[i][p - l.offsets[i]]
  {
    PartIs(l, i, r, p);
    hide PartOf, Numel;
    assert InParam(l, i, p) && InRank(l, r, p);
    assert bucket[p] == rows[r][p - l.rankOffsets[r]];
    assert rows[r][..|storage[r]|][p - l.rankOffsets[r]] == rows[r][p - l.rankOffsets[r]];
  }
}
