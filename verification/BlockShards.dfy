/** Rows of a tensor as a repeating pattern of blocks, the shards of whole blocks, and the strided
    views that list the matrices of one shard. */
module BlockShards {
  import opened Arithmetic
  import opened Basics
  import opened Multiples

  /** Block sizes are a nonempty list of positive numbers. */
  predicate SizesOk(sizes: seq<nat>) {
    sizes != [] && forall k :: 0 <= k < |sizes| ==> sizes[k] > 0
  }

  /** The number of blocks, if the dimension has whole repetitions of the pattern. */
  function NumBlocks(sizes: seq<nat>, dimSize: nat): (count: Option<nat>)
    requires SizesOk(sizes)
  {
    PeriodPositive(sizes);
    if dimSize % Sum(sizes) != 0 then None
    else
      NonNegative(dimSize / Sum(sizes), |sizes|);
      Some(dimSize / Sum(sizes) * |sizes|)
  }

  /** Where a block starts. */
  function BlockStart(sizes: seq<nat>, k: nat): (start: nat)
    requires SizesOk(sizes)
  {
    NonNegative(k / |sizes|, Sum(sizes));
    k / |sizes| * Sum(sizes) + Sum(sizes[..k % |sizes|])
  }

  lemma PeriodPositive(sizes: seq<nat>)
    requires SizesOk(sizes)
    ensures Sum(sizes) > 0
  {
  }

  lemma OneSizeMore(sizes: seq<nat>, j: nat)
    requires j < |sizes|
    ensures Sum(sizes[..j + 1]) == Sum(sizes[..j]) + sizes[j]
  {
    assert sizes[..j + 1][..j] == sizes[..j];
  }

  /** Blocks follow each other, in the order of the pattern. */
  lemma NextBlock(sizes: seq<nat>, k: nat)
    requires SizesOk(sizes)
    ensures BlockStart(sizes, k + 1) == BlockStart(sizes, k) + sizes[k % |sizes|]
  {
    var n, q, j := |sizes|, k / |sizes|, k % |sizes|;
    OneSizeMore(sizes, j);
    if j + 1 < n {
      QuotientIs(k + 1, q, j + 1, n);
    } else {
      QuotientIs(k + 1, q + 1, 0, n);
      assert sizes[..n] == sizes;
      OneMore(q, Sum(sizes));
    }
  }

  /** A block starts behind all blocks before it. */
  lemma {:induction false} BlocksInOrder(sizes: seq<nat>, k: nat, l: nat)
    requires SizesOk(sizes) && k < l
    ensures BlockStart(sizes, k) + sizes[k % |sizes|] <= BlockStart(sizes, l)
  {
    hide BlockStart;
    NextBlock(sizes, l - 1);
    if k < l - 1 {
      BlocksInOrder(sizes, k, l - 1);
    } else {
      NextBlock(sizes, k);
    }
  }

  /** The blocks of a dimension of whole repetitions end at its end. */
  lemma BlocksEnd(sizes: seq<nat>, dimSize: nat)
    requires SizesOk(sizes) && NumBlocks(sizes, dimSize).Some?
    ensures BlockStart(sizes, 0) == 0 && BlockStart(sizes, NumBlocks(sizes, dimSize).value) == dimSize
  {
    PeriodPositive(sizes);
    var q := dimSize / Sum(sizes);
    QuotientIs(q * |sizes|, q, 0, |sizes|);
    QuotientIs(0, 0, 0, |sizes|);
  }

  /** Every row is in some block. */
  lemma {:induction false} BlockOf(sizes: seq<nat>, row: nat, n: nat) returns (k: nat)
    requires SizesOk(sizes) && row < BlockStart(sizes, n)
    ensures k < n && BlockStart(sizes, k) <= row < BlockStart(sizes, k + 1)
  {
    hide BlockStart;
    if n == 0 {
      FirstBlock(sizes);
    } else if BlockStart(sizes, n - 1) <= row {
      k := n - 1;
    } else {
      k := BlockOf(sizes, row, n - 1);
    }
  }

  lemma FirstBlock(sizes: seq<nat>)
    requires SizesOk(sizes)
    ensures BlockStart(sizes, 0) == 0
  {
    QuotientIs(0, 0, 0, |sizes|);
  }

  /** A block a period of the pattern later starts a period of rows later. */
  lemma {:induction false} PeriodLater(sizes: seq<nat>, k: nat, m: nat)
    requires SizesOk(sizes)
    ensures m * |sizes| >= 0 && m * Sum(sizes) >= 0
    ensures (k + m * |sizes|) % |sizes| == k % |sizes|
    ensures BlockStart(sizes, k + m * |sizes|) == BlockStart(sizes, k) + m * Sum(sizes)
  {
    var n, q, j := |sizes|, k / |sizes|, k % |sizes|;
    NonNegative(m, n);
    NonNegative(m, Sum(sizes));
    Distributes(n, q, m);
    QuotientIs(k + m * n, q + m, j, n);
    Distributes(Sum(sizes), q, m);
  }

  // ----- Shards of units

  /** The size and the offset of one of `n` shards of nearly equal size: each but the last ones has
      the same number of units. */
  function LocalShard(size: nat, n: nat, index: nat): (shard: (nat, nat))
    requires n > 0
    ensures shard.1 + shard.0 <= size
  {
    var full := CeilDiv(size, n);
    NonNegative(full, index);
    var offset := Least(index * full, size);
    (Least(offset + full, size) - offset, offset)
  }

  function Least(a: int, b: int): int {
    if a < b then a else b
  }

  /** Shards follow each other. */
  lemma ShardsFollow(size: nat, n: nat, index: nat)
    requires n > 0
    ensures LocalShard(size, n, index + 1).1 == LocalShard(size, n, index).1 + LocalShard(size, n, index).0
    ensures index == 0 ==> LocalShard(size, n, index).1 == 0
  {
    OneMore(index, CeilDiv(size, n));
  }

  /** The shards before the last end at the end. */
  lemma ShardsEnd(size: nat, n: nat)
    requires n > 0
    ensures LocalShard(size, n, n).1 == size
  {
    CeilDivCovers(size, n);
  }

  /** Every unit is in some shard. */
  lemma {:induction false} ShardOf(size: nat, n: nat, unit: nat, k: nat) returns (index: nat)
    requires n > 0 && unit < LocalShard(size, n, k).1
    ensures index < k
    ensures LocalShard(size, n, index).1 <= unit < LocalShard(size, n, index).1 + LocalShard(size, n, index).0
  {
    hide LocalShard;
    if k == 0 {
      ShardsFollow(size, n, 0);
    } else {
      ShardsFollow(size, n, k - 1);
      if LocalShard(size, n, k - 1).1 <= unit {
        index := k - 1;
      } else {
        index := ShardOf(size, n, unit, k - 1);
      }
    }
  }

  /** A shard starts behind all shards before it. */
  lemma {:induction false} ShardsInOrder(size: nat, n: nat, i: nat, j: nat)
    requires n > 0 && i < j
    ensures LocalShard(size, n, i).1 + LocalShard(size, n, i).0 <= LocalShard(size, n, j).1
  {
    hide LocalShard;
    ShardsFollow(size, n, j - 1);
    if i < j - 1 {
      ShardsInOrder(size, n, i, j - 1);
    }
  }

  /** `n` shards of `total` units, one behind the other: none has more than `total / n`, rounded up,
      and behind one that has fewer there is nothing left. */
  predicate EvenEdges(edges: seq<nat>, n: nat, total: nat) {
    && |edges| == n + 1 && edges[0] == 0 && edges[n] == total
    && forall j :: 0 <= j < n ==> EvenShard(edges[j], edges[j + 1], n, total)
  }

  predicate EvenShard(start: nat, end: nat, n: nat, total: nat) {
    && start <= end && n * (end - start) < total + n
    && (n * (end - start) < total ==> end == total)
  }

  function EdgesOf(total: nat, n: nat): (edges: seq<nat>)
    requires n > 0
    ensures |edges| == n + 1 && forall j :: 0 <= j <= n ==> edges[j] == LocalShard(total, n, j).1
  {
    seq(n + 1, j requires 0 <= j <= n => LocalShard(total, n, j).1)
  }

  lemma EdgesEven(total: nat, n: nat)
    requires n > 0
    ensures EvenEdges(EdgesOf(total, n), n, total)
  {
    hide LocalShard, EvenShard;
    var edges := EdgesOf(total, n);
    ShardsFollow(total, n, 0);
    ShardsEnd(total, n);
    forall j | 0 <= j < n ensures EvenShard(edges[j], edges[j + 1], n, total) {
      ShardsFollow(total, n, j);
      ShardIsEven(total, n, j);
    }
  }

  lemma ShardIsEven(total: nat, n: nat, j: nat)
    requires n > 0
    ensures var shard := LocalShard(total, n, j); EvenShard(shard.1, shard.1 + shard.0, n, total)
  {
    var shard, full := LocalShard(total, n, j), CeilDiv(total, n);
    CeilDivCovers(total, n);
    var less: int := full - shard.0;
    NonNegative(n, less);
    Distributes(n, shard.0, less);
  }
}
