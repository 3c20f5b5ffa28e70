/** A bucket whose parameters lie back to back, flattened, and are cut into one range per rank: the
    layout, what each rank stores, and the gather that rebuilds the parameters. */
module BucketRows {
  import opened Basics
  import opened Arithmetic
  import opened Multiples

  /** A parameter: `rows` flattened prefix rows of `width` elements each. */
  datatype Param = Param(rows: nat, width: nat)

  function Numel(p: Param): nat {
    p.rows * p.width
  }

  /** Where the parameters start in the bucket, and the range of each rank. */
  datatype Layout = Layout(params: seq<Param>, offsets: seq<nat>, rankOffsets: seq<nat>,
                           rankNumels: seq<nat>, globalNumel: nat)

  /** What a rank stores of a parameter, by its place in the bucket. */
  datatype Part = Part(start: nat, numel: nat)

  datatype Result<+T> = Ok(value: T) | NotRowAligned | OnlyPadding

  // ----- The layout

  predicate Widths(params: seq<Param>, alignment: nat) {
    alignment > 0 && forall i :: 0 <= i < |params| ==> params[i].width > 0 && Multiple(alignment, params[i].width)
  }

  /** Where the first `i` of some stretches end, the stretch `k` starting at `starts[k]`. */
  function EndOf(starts: seq<nat>, numels: seq<nat>, i: nat): nat
    requires i <= |starts| && i <= |numels|
  {
    if i == 0 then 0 else starts[i - 1] + numels[i - 1]
  }

  function Numels(params: seq<Param>): (numels: seq<nat>)
    ensures |numels| == |params| && forall i :: 0 <= i < |params| ==> numels[i] == Numel(params[i])
  {
    seq(|params|, i requires 0 <= i < |params| => Numel(params[i]))
  }

  /** Each parameter starts at the first aligned place after the one before. */
  predicate OffsetsOk(params: seq<Param>, alignment: nat, offsets: seq<nat>)
    requires alignment > 0
  {
    && |offsets| == |params|
    && forall i: nat :: i < |offsets| ==> offsets[i] == AlignUp(EndOf(offsets, Numels(params), i), alignment)
  }

  /** The ranges follow each other and make up the whole bucket. */
  predicate RangesOk(offsets: seq<nat>, numels: seq<nat>, global: nat) {
    && |offsets| == |numels|
    && (forall r: nat :: r < |offsets| ==> offsets[r] == EndOf(offsets, numels, r))
    && global == EndOf(offsets, numels, |numels|)
  }

  predicate Indexed(l: Layout) {
    |l.params| == |l.offsets| && |l.rankOffsets| == |l.rankNumels|
  }

  predicate LayoutOk(l: Layout, alignment: nat) {
    && Indexed(l)
    && Widths(l.params, alignment)
    && OffsetsOk(l.params, alignment, l.offsets)
    && EndOf(l.offsets, Numels(l.params), |l.params|) <= l.globalNumel
    && RangesOk(l.rankOffsets, l.rankNumels, l.globalNumel)
    && forall r :: 0 <= r < |l.rankNumels| ==> Multiple(l.rankNumels[r], alignment)
  }

  /** The least common multiple of the parameters' row sizes. */
  method ParamAlignment(params: seq<Param>) returns (alignment: nat)
    requires forall i :: 0 <= i < |params| ==> params[i].width > 0
    ensures Widths(params, alignment)
    ensures forall m: nat | (forall i :: 0 <= i < |params| ==> Multiple(m, params[i].width)) :: Multiple(m, alignment)
  {
    alignment := 1;
    for k := 0 to |params|
      invariant alignment > 0 && forall i :: 0 <= i < k ==> Multiple(alignment, params[i].width)
      invariant forall m: nat | (forall i :: 0 <= i < k ==> Multiple(m, params[i].width)) :: Multiple(m, alignment)
    {
      var w := params[k].width;
      LcmIs(alignment, w);
      forall i | 0 <= i < k ensures Multiple(Lcm(alignment, w), params[i].width) {
        MultipleTrans(Lcm(alignment, w), alignment, params[i].width);
      }
      forall m: nat | forall i :: 0 <= i < k + 1 ==> Multiple(m, params[i].width)
          ensures Multiple(m, Lcm(alignment, w)) {
        LcmLeast(alignment, w, m);
      }
      alignment := Lcm(alignment, w);
    }
  }

  method ParamOffsets(params: seq<Param>, alignment: nat) returns (offsets: seq<nat>, end: nat)
    requires alignment > 0
    ensures OffsetsOk(params, alignment, offsets) && end == EndOf(offsets, Numels(params), |params|)
  {
    hide AlignUp, Numel;
    offsets, end := [], 0;
    for k := 0 to |params|
      invariant |offsets| == k
      invariant forall i: nat :: i < k ==> offsets[i] == AlignUp(EndOf(offsets, Numels(params), i), alignment)
      invariant end == EndOf(offsets, Numels(params), k)
    {
      ghost var before := offsets;
      end := AlignUp(end, alignment);
      offsets := offsets + [end];
      forall i: nat | i <= k ensures EndOf(offsets, Numels(params), i) == EndOf(before, Numels(params), i) {
      }
      end := end + Numel(params[k]);
    }
  }

  /** Cuts the padded bucket into blocks and gives each rank as many as it asks for. */
  method RankLayout(end: nat, alignment: nat, blocks: seq<nat>)
      returns (global: nat, offsets: seq<nat>, numels: seq<nat>)
    requires alignment > 0 && Sum(blocks) > 0
    ensures RangesOk(offsets, numels, global) && |numels| == |blocks| && end <= global < end + alignment * Sum(blocks)
    ensures alignment * Sum(blocks) > 0 && Multiple(global, alignment * Sum(blocks))
    ensures forall r :: 0 <= r < |numels| ==>
              Multiple(numels[r], alignment) && numels[r] * Sum(blocks) == blocks[r] * global
  {
    hide RangesOk, Multiple, AlignUp, Sum;
    var total := Sum(blocks);
    Product(alignment, total);
    global := AlignUp(end, alignment * total);
    AlignUpIs(end, alignment * total);
    BlocksTile(global, alignment, total);
    var block := global / total;
    offsets, numels := CutBlocks(blocks, block);
    forall r | 0 <= r < |numels| ensures Multiple(numels[r], alignment) && numels[r] * total == blocks[r] * global {
      MultipleTimes(block, alignment, blocks[r]);
      Associates(blocks[r], block, total);
    }
  }

  function Times(a: nat, b: nat): nat {
    a * b
  }

  method CutBlocks(blocks: seq<nat>, block: nat) returns (offsets: seq<nat>, numels: seq<nat>)
    ensures RangesOk(offsets, numels, Times(Sum(blocks), block)) && |numels| == |blocks|
    ensures forall r :: 0 <= r < |numels| ==> numels[r] == Times(blocks[r], block)
  {
    hide Times, EndOf, Sum;
    offsets, numels := [], [];
    NothingSoFar();
    NothingTimes(block);
    var offset: nat := 0;
    for r := 0 to |blocks|
      invariant |offsets| == |numels| == r && offset == Times(Sum(blocks[..r]), block)
      invariant offset == EndOf(offsets, numels, r)
      invariant forall q: nat :: q < r ==> offsets[q] == EndOf(offsets, numels, q)
      invariant forall q :: 0 <= q < r ==> numels[q] == Times(blocks[q], block)
    {
      var numel := Times(blocks[r], block);
      EndOfMore(offsets, numels, offset, numel);
      offsets, numels := offsets + [offset], numels + [numel];
      SumNext(blocks, r);
      TimesAdds(Sum(blocks[..r]), blocks[r], block);
      offset := offset + numel;
    }
    assert blocks[..|blocks|] == blocks;
  }

  lemma NothingSoFar()
    ensures EndOf([], [], 0) == 0 && Sum([]) == 0
  {
  }

  lemma EndOfMore(starts: seq<nat>, numels: seq<nat>, start: nat, numel: nat)
    requires |starts| == |numels|
    ensures forall q: nat :: q <= |starts| ==> EndOf(starts + [start], numels + [numel], q) == EndOf(starts, numels, q)
    ensures EndOf(starts + [start], numels + [numel], |starts| + 1) == start + numel
  {
  }

  lemma SumNext(s: seq<nat>, r: nat)
    requires r < |s|
    ensures Sum(s[..r + 1]) == Sum(s[..r]) + s[r]
  {
    assert s[..r + 1][..r] == s[..r];
  }

  lemma NothingTimes(block: nat)
    ensures Times(0, block) == 0
  {
  }

  lemma TimesAdds(x: nat, y: nat, z: nat)
    ensures Times(x + y, z) == Times(x, z) + Times(y, z)
  {
  }

  /** A multiple of `alignment * total` makes `total` blocks of a multiple of `alignment` each. */
  lemma BlocksTile(global: nat, alignment: nat, total: nat)
    requires alignment > 0 && total > 0 && alignment * total > 0 && Multiple(global, alignment * total)
    ensures Multiple(global / total, alignment) && total * (global / total) == global
    ensures global / total * total == global
  {
    var k := global / (alignment * total);
    assert global == k * (alignment * total);
    Associates(k, alignment, total);
    QuotientIs(global, k * alignment, 0, total);
    MultipleIs(k * alignment, alignment, k);
  }

  /** The layout of any parameters and block counts: the alignment is the least that every row size
      divides, and the bucket is padded to the first whole number of blocks. */
  method BucketLayout(params: seq<Param>, blocks: seq<nat>) returns (l: Layout, ghost alignment: nat)
    requires Sum(blocks) > 0 && forall i :: 0 <= i < |params| ==> params[i].width > 0
    ensures LayoutOk(l, alignment) && l.params == params && |l.rankNumels| == |blocks|
    ensures forall m: nat | (forall i :: 0 <= i < |params| ==> Multiple(m, params[i].width)) :: Multiple(m, alignment)
    ensures l.globalNumel < EndOf(l.offsets, Numels(params), |params|) + alignment * Sum(blocks)
    ensures alignment * Sum(blocks) > 0 && Multiple(l.globalNumel, alignment * Sum(blocks))
    ensures forall r :: 0 <= r < |blocks| ==> l.rankNumels[r] * Sum(blocks) == blocks[r] * l.globalNumel
  {
    hide Multiple, AlignUp, Sum;
    var a := ParamAlignment(params);
    var offsets, end := ParamOffsets(params, a);
    var global, rankOffsets, rankNumels := RankLayout(end, a, blocks);
    l := Layout(params, offsets, rankOffsets, rankNumels, global);
    alignment := a;
  }

  // ----- What the layout gives

  function ParamEnd(l: Layout, i: nat): nat
    requires i < |l.params| == |l.offsets|
  {
    l.offsets[i] + Numel(l.params[i])
  }

  function RankEnd(l: Layout, r: nat): nat
    requires r < |l.rankOffsets| == |l.rankNumels|
  {
    l.rankOffsets[r] + l.rankNumels[r]
  }

  /** Stretches that start no sooner than the one before ends don't overlap. */
  lemma {:induction false} StretchesApart(starts: seq<nat>, numels: seq<nat>, i: nat, j: nat)
    requires |starts| == |numels| && i < j <= |numels|
    requires forall k: nat :: k < |starts| ==> EndOf(starts, numels, k) <= starts[k]
    ensures starts[i] + numels[i] <= EndOf(starts, numels, j)
  {
    if i < j - 1 {
      StretchesApart(starts, numels, i, j - 1);
    }
  }

  /** Parameters don't overlap and end inside the bucket. */
  lemma ParamsApart(l: Layout, alignment: nat)
    requires LayoutOk(l, alignment)
    ensures forall i :: 0 <= i < |l.params| ==> ParamEnd(l, i) <= l.globalNumel
    ensures forall i, j :: 0 <= i < j < |l.params| ==> ParamEnd(l, i) <= l.offsets[j]
  {
    hide AlignUp, Numel, Multiple, RangesOk;
    var numels := Numels(l.params);
    forall k: nat | k < |l.offsets| ensures EndOf(l.offsets, numels, k) <= l.offsets[k] {
      AlignUpIs(EndOf(l.offsets, numels, k), alignment);
    }
    forall i: nat, j: nat | i < j <= |l.params| ensures ParamEnd(l, i) <= EndOf(l.offsets, numels, j) {
      StretchesApart(l.offsets, numels, i, j);
    }
    forall i: nat, j: nat | i < j < |l.params| ensures ParamEnd(l, i) <= l.offsets[j] {
      assert ParamEnd(l, i) <= EndOf(l.offsets, numels, j);
    }
    forall i: nat | i < |l.params| ensures ParamEnd(l, i) <= l.globalNumel {
      assert ParamEnd(l, i) <= EndOf(l.offsets, numels, |l.params|);
    }
  }

  /** The ranges don't overlap and end inside the bucket. */
  lemma RanksApart(l: Layout)
    requires RangesOk(l.rankOffsets, l.rankNumels, l.globalNumel)
    ensures forall r :: 0 <= r < |l.rankNumels| ==> RankEnd(l, r) <= l.globalNumel
    ensures forall r, q :: 0 <= r < q < |l.rankNumels| ==> RankEnd(l, r) <= l.rankOffsets[q]
  {
    forall r: nat, q: nat | r < q <= |l.rankNumels| ensures RankEnd(l, r) <= EndOf(l.rankOffsets, l.rankNumels, q) {
      StretchesApart(l.rankOffsets, l.rankNumels, r, q);
    }
    forall r: nat, q: nat | r < q < |l.rankNumels| ensures RankEnd(l, r) <= l.rankOffsets[q] {
      assert RankEnd(l, r) <= EndOf(l.rankOffsets, l.rankNumels, q);
    }
    forall r: nat | r < |l.rankNumels| ensures RankEnd(l, r) <= l.globalNumel {
      assert RankEnd(l, r) <= EndOf(l.rankOffsets, l.rankNumels, |l.rankNumels|);
    }
  }

  /** Every position of the bucket is in some rank's range. */
  lemma {:induction false} RankOf(offsets: seq<nat>, numels: seq<nat>, global: nat, p: nat) returns (r: nat)
    requires RangesOk(offsets, numels, global) && p < global
    ensures r < |numels| && offsets[r] <= p < offsets[r] + numels[r]
  {
    var n := |numels| - 1;
    if p >= offsets[n] {
      r := n;
    } else {
      assert offsets[n] == EndOf(offsets, numels, n);
      assert forall q: nat :: q <= n ==> EndOf(offsets[..n], numels[..n], q) == EndOf(offsets, numels, q);
      r := RankOf(offsets[..n], numels[..n], offsets[n], p);
    }
  }

  lemma RangeStarts(offsets: seq<nat>, numels: seq<nat>, global: nat, r: nat)
    requires RangesOk(offsets, numels, global) && r < |numels|
    ensures |offsets| == |numels| && offsets[r] == if r == 0 then 0 else offsets[r - 1] + numels[r - 1]
  {
  }

  lemma {:induction false} RangesAligned(offsets: seq<nat>, numels: seq<nat>, global: nat, alignment: nat, r: nat)
    requires alignment > 0 && RangesOk(offsets, numels, global) && r < |numels| == |offsets|
    requires forall q :: 0 <= q < |numels| ==> Multiple(numels[q], alignment)
    ensures Multiple(offsets[r], alignment) && Multiple(offsets[r] + numels[r], alignment)
  {
    hide Multiple, RangesOk;
    RangeStarts(offsets, numels, global, r);
    if r == 0 {
      MultipleIs(0, alignment, 0);
    } else {
      RangesAligned(offsets, numels, global, alignment, r - 1);
    }
    MultipleSum(offsets[r], numels[r], alignment);
  }

  // ----- What each rank stores

  function PartOf(l: Layout, i: nat, r: nat): Part
    requires Indexed(l) && i < |l.params| && r < |l.rankNumels|
  {
    var start := if l.offsets[i] < l.rankOffsets[r] then l.rankOffsets[r] else l.offsets[i];
    var end := if RankEnd(l, r) < ParamEnd(l, i) then RankEnd(l, r) else ParamEnd(l, i);
    Part(start, if start < end then end - start else 0)
  }

  lemma PartIs(l: Layout, i: nat, r: nat, p: nat)
    requires Indexed(l) && i < |l.params| && r < |l.rankNumels|
    ensures PartOf(l, i, r).start <= p < PartOf(l, i, r).start + PartOf(l, i, r).numel <==>
            l.offsets[i] <= p < ParamEnd(l, i) && l.rankOffsets[r] <= p < RankEnd(l, r)
  {
  }

  /** Parameters and ranges start and end at multiples of the parameter's row size. */
  lemma EdgesAligned(l: Layout, alignment: nat, i: nat, r: nat)
    requires LayoutOk(l, alignment) && i < |l.params| && r < |l.rankNumels|
    ensures var w := l.params[i].width;
            && w > 0 && Multiple(l.offsets[i], w) && Multiple(Numel(l.params[i]), w)
            && Multiple(l.rankOffsets[r], w) && Multiple(RankEnd(l, r), w)
  {
    hide Multiple, AlignUp, OffsetsOk, RangesOk;
    var w := l.params[i].width;
    ParamAligned(l, alignment, i);
    MultipleTrans(l.offsets[i], alignment, w);
    RangesAligned(l.rankOffsets, l.rankNumels, l.globalNumel, alignment, r);
    MultipleTrans(l.rankOffsets[r], alignment, w);
    MultipleTrans(RankEnd(l, r), alignment, w);
    MultipleIs(Numel(l.params[i]), w, l.params[i].rows);
  }

  lemma ParamAligned(l: Layout, alignment: nat, i: nat)
    requires LayoutOk(l, alignment) && i < |l.params| && alignment > 0
    ensures Multiple(l.offsets[i], alignment)
  {
    hide Multiple, AlignUp, RangesOk;
    AlignUpIs(EndOf(l.offsets, Numels(l.params), i), alignment);
  }

  /** A rank's part of a parameter is whole rows of it: neither of the two checks for that can
      fail. */
  lemma PartIsRows(l: Layout, alignment: nat, i: nat, r: nat)
    requires LayoutOk(l, alignment) && Indexed(l) && i < |l.params| && r < |l.rankNumels|
    ensures l.params[i].width > 0 && Multiple(PartOf(l, i, r).numel, l.params[i].width)
    ensures PartOf(l, i, r).numel > 0 ==> Multiple(PartOf(l, i, r).start - l.offsets[i], l.params[i].width)
  {
    hide LayoutOk, Multiple, Numel;
    EdgesAligned(l, alignment, i, r);
    var w := l.params[i].width;
    var o, n, a, z := l.offsets[i], Numel(l.params[i]), l.rankOffsets[r], RankEnd(l, r);
    MultipleSum(o, n, w);
    MultipleSum(a, o, w);
    MultipleSum(z, o, w);
    MultipleSum(z, a, w);
    MultipleSum(o + n, a, w);
    MultipleSum(o, o, w);
  }

  /** Every element of every parameter is stored by exactly one rank. */
  lemma StoredOnce(l: Layout, alignment: nat, i: nat, p: nat) returns (r: nat)
    requires LayoutOk(l, alignment) && Indexed(l) && i < |l.params| && l.offsets[i] <= p < ParamEnd(l, i)
    ensures r < |l.rankNumels| && PartOf(l, i, r).start <= p < PartOf(l, i, r).start + PartOf(l, i, r).numel
    ensures forall q | 0 <= q < |l.rankNumels| && PartOf(l, i, q).start <= p < PartOf(l, i, q).start
        + PartOf(l, i, q).numel :: q == r
  {
    hide Numel, Multiple, AlignUp;
    ParamsApart(l, alignment);
    RanksApart(l);
    r := RankOf(l.rankOffsets, l.rankNumels, l.globalNumel, p);
    PartIs(l, i, r, p);
  }

  predicate HasData(l: Layout, r: nat)
    requires Indexed(l) && r < |l.rankNumels|
  {
    exists i: nat :: i < |l.params| && PartOf(l, i, r).numel > 0
  }

  predicate InParam(l: Layout, i: nat, p: nat)
    requires Indexed(l)
  {
    i < |l.params| && l.offsets[i] <= p < ParamEnd(l, i)
  }

  predicate InRank(l: Layout, r: nat, p: nat)
    requires Indexed(l)
  {
    r < |l.rankNumels| && l.rankOffsets[r] <= p < RankEnd(l, r)
  }

  /** A rank has data exactly if its range and some parameter share a position. */
  lemma HasDataIs(l: Layout, r: nat)
    requires Indexed(l) && r < |l.rankNumels|
    ensures HasData(l, r) <==> exists i: nat, p: nat :: InParam(l, i, p) && InRank(l, r, p)
  {
    if i: nat, p: nat :| InParam(l, i, p) && InRank(l, r, p) {
      PartIs(l, i, r, p);
      assert PartOf(l, i, r).numel > 0;
    }
    if i: nat :| i < |l.params| && PartOf(l, i, r).numel > 0 {
      var p := PartOf(l, i, r).start;
      PartIs(l, i, r, p);
      assert InParam(l, i, p) && InRank(l, r, p);
    }
  }

  /** The parts that a rank stores. It fails exactly if the rank's range isn't empty and has nothing
      of any parameter; the check that parts are whole rows never fails. */
  method LocalParts(l: Layout, r: nat, ghost alignment: nat) returns (result: Result<seq<Part>>)
    requires LayoutOk(l, alignment) && Indexed(l) && r < |l.rankNumels|
    ensures result.OnlyPadding? <==> l.rankNumels[r] > 0 && !HasData(l, r)
    ensures !result.NotRowAligned?
    ensures result.Ok? ==> |result.value| == |l.params|
    ensures result.Ok? ==> forall i: nat :: i < |l.params| ==> result.value[i] == PartOf(l, i, r)
  {
    hide LayoutOk;
    var hasData := false;
    var parts := [];
    for i := 0 to |l.params|
      invariant |parts| == i && forall j: nat :: j < i ==> parts[j] == PartOf(l, j, r)
      invariant hasData <==> exists j: nat :: j < i && PartOf(l, j, r).numel > 0
    {
      PartIsRows(l, alignment, i, r);
      var part := LocalPart(l, i, r);
      if part.numel > 0 {
        hasData := true;
      }
      if part.numel % l.params[i].width != 0 {
        return NotRowAligned;
      }
      hide PartOf;
      parts := parts + [part];
    }
    if l.rankNumels[r] > 0 && !hasData {
      return OnlyPadding;
    }
    return Ok(parts);
  }

  method LocalPart(l: Layout, i: nat, r: nat) returns (part: Part)
    requires Indexed(l) && i < |l.params| && r < |l.rankNumels|
    ensures part == PartOf(l, i, r)
  {
    var start := if l.offsets[i] < l.rankOffsets[r] then l.rankOffsets[r] else l.offsets[i];
    var end := if RankEnd(l, r) < ParamEnd(l, i) then RankEnd(l, r) else ParamEnd(l, i);
    part := Part(start, if start < end then end - start else 0);
  }
}
