/** The one-pass reduce copy-in: segments of the gradients and of zeros that write every element of
    the send rows once, and the proof that running them makes the rows that the zeroed bucket would
    make. */
module ReducePlan {
  import opened BucketRows
  import opened BucketGather
  import opened SegmentCopy
  import opened ReduceCopyIn
  import H = Holes

  /** Per parameter the segments of its gradient, and the segments to zero, which lie at their
      destinations in an all-zero source. */
  datatype Plan = Plan(params: seq<seq<Seg>>, zeros: seq<Seg>)

  // ----- The plan

  /** The segment of a parameter in one rank's row, if there is one. */
  function RowSegs(l: Layout, i: nat, r: nat, stride: nat): seq<Seg>
    requires Indexed(l) && i < |l.params| && r < |l.rankNumels|
  {
    var part := PartOf(l, i, r);
    if part.numel > 0 then [Seg(part.start - l.offsets[i], part.numel, Spot(stride, r, part.start - l.rankOffsets[r]))]
        else []
  }

  function ParamSegs(l: Layout, i: nat, stride: nat, n: nat): seq<Seg>
    requires Indexed(l) && i < |l.params| && n <= |l.rankNumels|
  {
    if n == 0 then [] else ParamSegs(l, i, stride, n - 1) + RowSegs(l, i, n - 1, stride)
  }

  /** Element `s` of the parameter belongs at place `d`, in one of the first `n` rows. */
  ghost predicate Lands(l: Layout, i: nat, stride: nat, n: nat, s: int, d: int)
    requires Indexed(l)
  {
    exists r: nat, c: nat :: r < n && LandsAt(l, i, stride, r, c, s, d)
  }

  predicate LandsAt(l: Layout, i: nat, stride: nat, r: nat, c: nat, s: int, d: int)
    requires Indexed(l)
  {
    Has(l, i, r, c) && s == ElementAt(l, i, r, c) && d == Spot(stride, r, c)
  }

  lemma SpotOnce(stride: nat, r: nat, c: nat, q: nat, e: nat)
    requires c < stride && e < stride && Spot(stride, r, c) == Spot(stride, q, e)
    ensures r == q && c == e
  {
    SpotIs(stride, r, c);
    SpotIs(stride, q, e);
    if r < q {
      SpotBefore(stride, r, q);
    } else if q < r {
      SpotBefore(stride, q, r);
    }
  }

  lemma RowMoves(l: Layout, i: nat, r: nat, stride: nat, s: int, d: int)
    requires Indexed(l) && i < |l.params| && r < |l.rankNumels|
    ensures Moves(RowSegs(l, i, r, stride), s, d) <==> exists c: nat :: LandsAt(l, i, stride, r, c, s, d)
  {
    hide Numel, Spot;
    PartBounds(l, i, r);
    var part := PartOf(l, i, r);
    hide PartOf;
    if c: nat :| LandsAt(l, i, stride, r, c, s, d) {
      var p := l.rankOffsets[r] + c;
      assert InParam(l, i, p) && InRank(l, r, p);
      var g := Seg(part.start - l.offsets[i], part.numel, Spot(stride, r, part.start - l.rankOffsets[r]));
      SpotIs(stride, r, part.start - l.rankOffsets[r]);
      SpotIs(stride, r, c);
      assert RowSegs(l, i, r, stride)[0] == g && MovesOne(g, s, d);
    }
    if k :| 0 <= k < |RowSegs(l, i, r, stride)| && MovesOne(RowSegs(l, i, r, stride)[k], s, d) {
      var at := part.start - l.rankOffsets[r];
      SpotIs(stride, r, at);
      var c: nat := at + (d - Spot(stride, r, at));
      SpotIs(stride, r, c);
      assert InParam(l, i, l.rankOffsets[r] + c) && InRank(l, r, l.rankOffsets[r] + c);
      assert LandsAt(l, i, stride, r, c, s, d);
    }
  }

  /** A parameter's segments move each of its elements to where it belongs, and nothing else. */
  lemma {:induction false} ParamMoves(l: Layout, i: nat, stride: nat, n: nat, s: int, d: int)
    requires Indexed(l) && i < |l.params| && n <= |l.rankNumels|
    ensures Moves(ParamSegs(l, i, stride, n), s, d) <==> Lands(l, i, stride, n, s, d)
  {
    hide LandsAt, RowSegs, MovesOne;
    if n > 0 {
      ParamMoves(l, i, stride, n - 1, s, d);
      RowMoves(l, i, n - 1, stride, s, d);
      MovesSum(ParamSegs(l, i, stride, n - 1), RowSegs(l, i, n - 1, stride), s, d);
      if Lands(l, i, stride, n, s, d) {
        var r: nat, c: nat :| r < n && LandsAt(l, i, stride, r, c, s, d);
      }
    }
  }

  /** They stay inside the gradient and the rows, and no two write one place. */
  lemma {:induction false} ParamSegsFit(l: Layout, i: nat, stride: nat, n: nat)
    requires Indexed(l) && i < |l.params| && n <= |l.rankNumels| && Longest(l.rankNumels) <= stride
    ensures Apart(ParamSegs(l, i, stride, n))
    ensures forall k :: 0 <= k < |ParamSegs(l, i, stride, n)| ==>
              var g := ParamSegs(l, i, stride, n)[k];
              g.src + g.numel <= Numel(l.params[i]) && g.dst + g.numel <= Spot(stride, n, 0)
              && n > 0 && g.dst + g.numel <= Spot(stride, n - 1, 0) + Longest(l.rankNumels)
  {
    hide Numel, Spot, Longest;
    if n > 0 {
      ParamSegsFit(l, i, stride, n - 1);
      RowSegsFit(l, i, n - 1, stride);
      SpotIs(stride, n - 1, 0);
      hide RowSegs;
      var before, more := ParamSegs(l, i, stride, n - 1), RowSegs(l, i, n - 1, stride);
      assert ParamSegs(l, i, stride, n) == before + more;
    }
  }

  lemma RowSegsFit(l: Layout, i: nat, r: nat, stride: nat)
    requires Indexed(l) && i < |l.params| && r < |l.rankNumels|
    ensures |RowSegs(l, i, r, stride)| <= 1
    ensures forall k :: 0 <= k < |RowSegs(l, i, r, stride)| ==>
              var g := RowSegs(l, i, r, stride)[k];
              g.src + g.numel <= Numel(l.params[i]) && Spot(stride, r, 0) <= g.dst
                  && g.dst + g.numel <= Spot(stride, r, 0) + l.rankNumels[r]
              && l.rankNumels[r] <= Longest(l.rankNumels)
  {
    hide Numel, Spot, Longest;
    PartBounds(l, i, r);
    var part := PartOf(l, i, r);
    hide PartOf;
    if part.numel > 0 {
      SpotIs(stride, r, part.start - l.rankOffsets[r]);
    }
  }

  /** Column `c` of rank `r`'s row is covered by no parameter. */
  ghost predicate Gap(l: Layout, r: nat, c: nat)
    requires Indexed(l)
  {
    forall i: nat :: !Has(l, i, r, c)
  }

  ghost predicate GapAt(l: Layout, stride: nat, n: nat, d: int)
    requires Indexed(l)
  {
    exists r: nat, c: nat :: r < n && c < Longest(l.rankNumels) && d == Spot(stride, r, c) && Gap(l, r, c)
  }

  /** The segments zero exactly the gaps of the first `n` rows. */
  ghost predicate ZeroesGaps(l: Layout, stride: nat, zeros: seq<Seg>, n: nat)
    requires Indexed(l)
  {
    && (forall s, d :: Moves(zeros, s, d) <==> s == d && GapAt(l, stride, n, d))
    && Apart(zeros)
    && (forall k :: 0 <= k < |zeros| ==>
          zeros[k].src == zeros[k].dst && zeros[k].numel > 0 && zeros[k].dst + zeros[k].numel <= Spot(stride, n, 0))
  }

  /** What the parameters cover of one row, as holes. */
  ghost predicate CoveredBy(l: Layout, r: nat, covered: seq<H.Hole>, n: nat)
    requires Indexed(l)
  {
    forall c: nat :: H.InHole(covered, c) <==> exists i: nat :: i < n && Has(l, i, r, c)
  }

  /** Adds the segments of one row, and collects what they cover. */
  method AddRow(l: Layout, stride: nat, r: nat, from: seq<seq<Seg>>) returns (segs: seq<seq<Seg>>, covered: seq<H.Hole>)
    requires Indexed(l) && r < |l.rankNumels| && |from| == |l.params|
    requires forall i: nat :: i < |from| ==> from[i] == ParamSegs(l, i, stride, r)
    ensures |segs| == |l.params| && forall i: nat :: i < |segs| ==> segs[i] == ParamSegs(l, i, stride, r + 1)
    ensures CoveredBy(l, r, covered, |l.params|) && H.HolesWithin(0, l.rankNumels[r], covered)
  {
    hide Has, Numel, Spot, CoveredBy;
    segs, covered := from, [];
    NoneCovered(l, r);
    for i := 0 to |l.params|
      invariant |segs| == |l.params|
      invariant forall j: nat :: j < i ==> segs[j] == ParamSegs(l, j, stride, r + 1)
      invariant forall j: nat :: i <= j < |segs| ==> segs[j] == ParamSegs(l, j, stride, r)
      invariant CoveredBy(l, r, covered, i) && H.HolesWithin(0, l.rankNumels[r], covered)
    {
      var part := LocalPart(l, i, r);
      CoversMore(l, r, covered, i);
      if part.numel > 0 {
        segs := segs[i := segs[i] + [Seg(part.start - l.offsets[i], part.numel,
            Spot(stride, r, part.start - l.rankOffsets[r]))]];
        covered := covered + [H.Hole(part.start - l.rankOffsets[r], part.numel)];
      } else {
        assert segs[i] == ParamSegs(l, i, stride, r + 1);
      }
    }
  }

  lemma NoneCovered(l: Layout, r: nat)
    requires Indexed(l)
    ensures CoveredBy(l, r, [], 0)
  {
  }

  lemma CoversMore(l: Layout, r: nat, covered: seq<H.Hole>, n: nat)
    requires Indexed(l) && r < |l.rankNumels| && n < |l.params| && CoveredBy(l, r, covered, n)
    ensures var part := PartOf(l, n, r);
            if part.numel == 0 then CoveredBy(l, r, covered, n + 1)
            else
              && part.start >= l.rankOffsets[r] && part.start + part.numel <= RankEnd(l, r)
              && CoveredBy(l, r, covered + [H.Hole(part.start - l.rankOffsets[r], part.numel)], n + 1)
  {
    hide Numel, H.InHole;
    PartBounds(l, n, r);
    var part := PartOf(l, n, r);
    hide PartOf;
    forall c: nat ensures Has(l, n, r, c) <==> part.start <= l.rankOffsets[r] + c < part.start + part.numel {
      assert InParam(l, n, l.rankOffsets[r] + c) && InRank(l, r, l.rankOffsets[r] + c) <==> Has(l, n, r, c);
    }
    forall c: nat ensures (exists i: nat :: i < n + 1 && Has(l, i, r, c))
        <==> (exists i: nat :: i < n && Has(l, i, r, c)) || Has(l, n, r, c) {
    }
    if part.numel > 0 {
      var h := H.Hole(part.start - l.rankOffsets[r], part.numel);
      forall c: nat ensures H.InHole(covered + [h], c) <==> H.InHole(covered, c) || Has(l, n, r, c) {
        H.InHoleAppend(covered, h, c);
      }
    }
  }

  /** The plan for the rows of all ranks. */
  method ReduceCopyInPlan(l: Layout, stride: nat) returns (plan: Plan)
    requires Indexed(l) && Longest(l.rankNumels) <= stride
    ensures |plan.params| == |l.params|
    ensures forall i: nat :: i < |l.params| ==> plan.params[i] == ParamSegs(l, i, stride, |l.rankNumels|)
    ensures ZeroesGaps(l, stride, plan.zeros, |l.rankNumels|)
  {
    hide ZeroesGaps, Longest, CoveredBy, H.InHole, Spot;
    var segs: seq<seq<Seg>> := seq(|l.params|, _ => []);
    var zeros := [];
    var m := Longest(l.rankNumels);
    NoGaps(l, stride);
    for r := 0 to |l.rankNumels|
      invariant |segs| == |l.params| && forall i: nat :: i < |segs| ==> segs[i] == ParamSegs(l, i, stride, r)
      invariant ZeroesGaps(l, stride, zeros, r)
    {
      var covered;
      segs, covered := AddRow(l, stride, r, segs);
      assert l.rankNumels[r] <= m;
      var left := H.Subtract(0, m, covered);
      MoreGaps(l, stride, zeros, r, covered, left);
      zeros := zeros + RowZeros(left, stride, r);
    }
    plan := Plan(segs, zeros);
  }

  function RowZeros(left: seq<H.Hole>, stride: nat, r: nat): (segs: seq<Seg>)
    ensures |segs| == |left|
    ensures forall k :: 0 <= k < |left|
             ==> segs[k] == Seg(Spot(stride, r, left[k].start), left[k].numel, Spot(stride, r, left[k].start))
  {
    seq(|left|, k requires 0 <= k < |left| => Seg(Spot(stride, r, left[k].start), left[k].numel,
        Spot(stride, r, left[k].start)))
  }

  lemma NoGaps(l: Layout, stride: nat)
    requires Indexed(l)
    ensures ZeroesGaps(l, stride, [], 0)
  {
  }

  ghost predicate RowGap(l: Layout, stride: nat, r: nat, d: int)
    requires Indexed(l)
  {
    exists c: nat :: c < Longest(l.rankNumels) && d == Spot(stride, r, c) && Gap(l, r, c)
  }

  lemma GapsNext(l: Layout, stride: nat, r: nat, d: int)
    requires Indexed(l)
    ensures GapAt(l, stride, r + 1, d) <==> GapAt(l, stride, r, d) || RowGap(l, stride, r, d)
  {
    hide Longest, Spot, Gap;
    if GapAt(l, stride, r + 1, d) {
      var q: nat, c: nat :| q < r + 1 && c < Longest(l.rankNumels) && d == Spot(stride, q, c) && Gap(l, q, c);
    }
  }

  /** What is left of a row after its holes are its gaps. */
  lemma RowZerosAre(l: Layout, stride: nat, r: nat, covered: seq<H.Hole>, left: seq<H.Hole>, s: int, d: int)
    requires Indexed(l) && r < |l.rankNumels| && CoveredBy(l, r, covered, |l.params|)
    requires forall p: nat :: H.InHole(left, p) <==> H.Covers(0, Longest(l.rankNumels), p) && !H.InHole(covered, p)
    ensures Moves(RowZeros(left, stride, r), s, d) <==> s == d && RowGap(l, stride, r, d)
  {
    hide Longest, Spot, Has, Numel;
    var segs := RowZeros(left, stride, r);
    if k :| 0 <= k < |segs| && MovesOne(segs[k], s, d) {
      SpotIs(stride, r, left[k].start);
      var c: nat := left[k].start + (d - segs[k].dst);
      SpotIs(stride, r, c);
      assert H.Covers(left[k].start, left[k].numel, c);
      assert H.InHole(left, c);
      GapIs(l, r, covered, c);
      assert d == Spot(stride, r, c);
    }
    if s == d && RowGap(l, stride, r, d) {
      var c: nat :| c < Longest(l.rankNumels) && d == Spot(stride, r, c) && Gap(l, r, c);
      GapIs(l, r, covered, c);
      assert H.InHole(left, c);
      var k :| 0 <= k < |left| && H.Covers(left[k].start, left[k].numel, c);
      SpotIs(stride, r, left[k].start);
      SpotIs(stride, r, c);
      assert MovesOne(segs[k], s, d);
    }
  }

  lemma GapIs(l: Layout, r: nat, covered: seq<H.Hole>, c: nat)
    requires Indexed(l) && CoveredBy(l, r, covered, |l.params|)
    ensures Gap(l, r, c) <==> !H.InHole(covered, c)
  {
    if i: nat :| Has(l, i, r, c) {
      assert i < |l.params|;
    }
  }

  lemma MoreGaps(l: Layout, stride: nat, zeros: seq<Seg>, r: nat, covered: seq<H.Hole>, left: seq<H.Hole>)
    requires Indexed(l) && r < |l.rankNumels| && CoveredBy(l, r, covered, |l.params|) && Longest(l.rankNumels) <= stride
    requires ZeroesGaps(l, stride, zeros, r)
    requires forall p: nat :: H.InHole(left, p) <==> H.Covers(0, Longest(l.rankNumels), p) && !H.InHole(covered, p)
    requires forall k :: 0 <= k < |left| ==> left[k].numel > 0
    requires forall j, k :: 0 <= j < k < |left| ==> left[j].start + left[j].numel <= left[k].start
    ensures ZeroesGaps(l, stride, zeros + RowZeros(left, stride, r), r + 1)
  {
    hide Longest, Spot, CoveredBy, GapAt, RowGap, Moves, H.InHole;
    var more := RowZeros(left, stride, r);
    forall s, d ensures Moves(zeros + more, s, d) <==> s == d && GapAt(l, stride, r + 1, d) {
      MovesSum(zeros, more, s, d);
      RowZerosAre(l, stride, r, covered, left, s, d);
      GapsNext(l, stride, r, d);
    }
    SpotIs(stride, r, 0);
    forall k: nat | k < |left| ensures Spot(stride, r, 0) <= more[k].dst && more[k].dst + more[k].numel
        <= Spot(stride, r + 1, 0) {
      SpotIs(stride, r, left[k].start);
      LastInRow(left, k, Longest(l.rankNumels), covered);
    }
    forall j: nat, k: nat | j < k < |left| ensures DstApart(more[j], more[k]) {
      SpotIs(stride, r, left[j].start);
      SpotIs(stride, r, left[k].start);
    }
  }

  lemma LastInRow(left: seq<H.Hole>, k: nat, m: nat, covered: seq<H.Hole>)
    requires k < |left| && left[k].numel > 0
    requires forall p: nat :: H.InHole(left, p) <==> H.Covers(0, m, p) && !H.InHole(covered, p)
    ensures left[k].start + left[k].numel <= m
  {
    var p: nat := left[k].start + left[k].numel - 1;
    assert H.Covers(left[k].start, left[k].numel, p);
    assert H.InHole(left, p);
  }

  /** The plan writes every element of the rows, each by one segment: of the one parameter that it
      belongs to, or of the zeros. */
  lemma WrittenOnce(l: Layout, alignment: nat, stride: nat, zeros: seq<Seg>, r: nat, c: nat)
    requires LayoutOk(l, alignment) && Indexed(l) && Longest(l.rankNumels) <= stride
    requires ZeroesGaps(l, stride, zeros, |l.rankNumels|)
    requires r < |l.rankNumels| && c < Longest(l.rankNumels)
    ensures forall i: nat :: i < |l.params| ==> Apart(ParamSegs(l, i, stride, |l.rankNumels|))
    ensures Apart(zeros)
    ensures forall i: nat, s | i < |l.params|
        && Moves(ParamSegs(l, i, stride, |l.rankNumels|), s, Spot(stride, r, c)) :: Has(l, i, r, c)
    ensures forall i: nat, j: nat | Has(l, i, r, c) && Has(l, j, r, c) :: i == j
    ensures forall s | Moves(zeros, s, Spot(stride, r, c)) :: forall i: nat :: !Has(l, i, r, c)
    ensures Moves(zeros, Spot(stride, r, c), Spot(stride, r, c)) ||
            exists i: nat :: Has(l, i, r, c)
                && Moves(ParamSegs(l, i, stride, |l.rankNumels|), ElementAt(l, i, r, c), Spot(stride, r, c))
  {
    hide LayoutOk, Moves, Longest, Apart, Has, Spot;
    var n, d := |l.rankNumels|, Spot(stride, r, c);
    forall i: nat | i < |l.params| ensures Apart(ParamSegs(l, i, stride, n)) {
      ParamSegsFit(l, i, stride, n);
    }
    forall i: nat, s | i < |l.params| && Moves(ParamSegs(l, i, stride, n), s, d) ensures Has(l, i, r, c) {
      ParamMoves(l, i, stride, n, s, d);
      LandsHere(l, i, stride, n, r, c, s);
    }
    forall i: nat, j: nat | Has(l, i, r, c) && Has(l, j, r, c) ensures i == j {
      HasOnce(l, alignment, i, j, r, c);
    }
    forall s | Moves(zeros, s, d) ensures forall i: nat :: !Has(l, i, r, c) {
      GapHere(l, stride, n, r, c);
    }
    if i: nat :| Has(l, i, r, c) {
      HasLands(l, i, stride, n, r, c);
      ParamMoves(l, i, stride, n, ElementAt(l, i, r, c), d);
    } else {
      assert Gap(l, r, c);
      assert GapAt(l, stride, n, d);
    }
  }

  lemma HasLands(l: Layout, i: nat, stride: nat, n: nat, r: nat, c: nat)
    requires Indexed(l) && Has(l, i, r, c) && r < n
    ensures i < |l.params| && Lands(l, i, stride, n, ElementAt(l, i, r, c), Spot(stride, r, c))
  {
    assert LandsAt(l, i, stride, r, c, ElementAt(l, i, r, c), Spot(stride, r, c));
  }

  lemma HasShort(l: Layout, i: nat, r: nat, c: nat)
    requires Indexed(l) && Has(l, i, r, c)
    ensures c < Longest(l.rankNumels)
  {
  }

  lemma LandsHere(l: Layout, i: nat, stride: nat, n: nat, r: nat, c: nat, s: int)
    requires Indexed(l) && Longest(l.rankNumels) <= stride && c < Longest(l.rankNumels)
    requires Lands(l, i, stride, n, s, Spot(stride, r, c))
    ensures Has(l, i, r, c) && s == ElementAt(l, i, r, c)
  {
    hide Longest, Spot, Has;
    var q: nat, e: nat :| q < n && LandsAt(l, i, stride, q, e, s, Spot(stride, r, c));
    HasShort(l, i, q, e);
    SpotOnce(stride, r, c, q, e);
  }

  lemma GapHere(l: Layout, stride: nat, n: nat, r: nat, c: nat)
    requires Indexed(l) && Longest(l.rankNumels) <= stride && c < Longest(l.rankNumels)
    requires GapAt(l, stride, n, Spot(stride, r, c))
    ensures Gap(l, r, c)
  {
    hide Longest, Spot, Gap;
    var q: nat, e: nat :| q < n && e < Longest(l.rankNumels) && Spot(stride, r, c)
        == Spot(stride, q, e) && Gap(l, q, e);
    SpotOnce(stride, r, c, q, e);
  }
}
