/** The one-pass reduce copy-in from plan to launches, and that it makes the rows of the simple way. */
module ReduceOnePass {
  import opened Multiples
  import opened BucketRows
  import opened BucketGather
  import opened ReduceCopyIn
  import opened ReducePlan
  import opened ReducePack

  const BLOCK_SIZE: nat := 4096
  const MAX_CHUNKS: nat := 8

  /** Place `d` is where some element of parameter `i` belongs. */
  ghost predicate LandsIn(l: Layout, i: nat, stride: nat, d: nat)
    requires Indexed(l)
  {
    exists r: nat, c: nat :: Has(l, i, r, c) && d == Spot(stride, r, c)
  }

  ghost predicate Untouched(l: Layout, stride: nat, n: nat, d: nat)
    requires Indexed(l)
  {
    forall i: nat :: i < n ==> !LandsIn(l, i, stride, d)
  }

  /** The gradients of the first `n` parameters are in place, and nothing else has changed. */
  ghost predicate PlacedUpTo<V>(l: Layout, grads: seq<seq<V>>, stride: nat, before: seq<V>, out: seq<V>, n: nat)
    requires Indexed(l) && Shaped(l, grads)
  {
    && |out| == |before|
    && (forall i: nat, r: nat, c: nat | i < n && Has(l, i, r, c) ::
          Spot(stride, r, c) < |out| && out[Spot(stride, r, c)] == grads[i][ElementAt(l, i, r, c)])
    && (forall d: nat | d < |out| && Untouched(l, stride, n, d) :: out[d] == before[d])
  }

  /** Segments that move what parameter `i`'s segments move. */
  ghost predicate MovesParam(l: Layout, i: nat, stride: nat, segs: seq<S.Seg>)
    requires Indexed(l)
  {
    forall s: nat, d: nat :: S.Moves(segs, s, d) <==> Lands(l, i, stride, |l.rankNumels|, s, d)
  }

  lemma NonePlaced<V>(l: Layout, grads: seq<seq<V>>, stride: nat, out: seq<V>)
    requires Indexed(l) && Shaped(l, grads)
    ensures PlacedUpTo(l, grads, stride, out, out, 0)
  {
  }

  /** Places of different parameters differ. */
  lemma LandsApart(l: Layout, alignment: nat, stride: nat, i: nat, r: nat, c: nat, n: nat, s: int)
    requires LayoutOk(l, alignment) && Indexed(l) && Longest(l.rankNumels) <= stride && Has(l, i, r, c) && i != n
    ensures !Lands(l, n, stride, |l.rankNumels|, s, Spot(stride, r, c))
  {
    hide LayoutOk, Longest, Spot, Has;
    if Lands(l, n, stride, |l.rankNumels|, s, Spot(stride, r, c)) {
      HasShort(l, i, r, c);
      LandsHere(l, n, stride, |l.rankNumels|, r, c, s);
      HasOnce(l, alignment, i, n, r, c);
    }
  }

  lemma LandsInIs(l: Layout, i: nat, stride: nat, s: int, d: nat)
    requires Indexed(l) && Lands(l, i, stride, |l.rankNumels|, s, d)
    ensures LandsIn(l, i, stride, d) && i < |l.params| && 0 <= s < Numel(l.params[i])
  {
    var r: nat, c: nat :| r < |l.rankNumels| && LandsAt(l, i, stride, r, c, s, d);
  }

  lemma PlaceNext<V>(l: Layout, alignment: nat, grads: seq<seq<V>>, stride: nat, before: seq<V>,
                     out: seq<V>, n: nat, segs: seq<S.Seg>,
                     after: seq<V>)
    requires LayoutOk(l, alignment) && Indexed(l) && Shaped(l, grads) && n < |l.params|
    requires Longest(l.rankNumels) <= stride
    requires PlacedUpTo(l, grads, stride, before, out, n) && MovesParam(l, n, stride, segs)
    requires S.Copied(grads[n], out, segs, after)
    requires forall r: nat, c: nat :: Has(l, n, r, c) ==> Spot(stride, r, c) < |out|
    ensures PlacedUpTo(l, grads, stride, before, after, n + 1)
  {
    hide LayoutOk, Longest, Spot, Has, Numel, S.Moves, Lands, LandsIn;
    forall i: nat, r: nat, c: nat | i < n + 1 && Has(l, i, r, c)
      ensures Spot(stride, r, c) < |after| && after[Spot(stride, r, c)] == grads[i][ElementAt(l, i, r, c)]
    {
      var d := Spot(stride, r, c);
      if i == n {
        HasIsRow(l, n, r, c);
        HasLands(l, n, stride, |l.rankNumels|, r, c);
        assert S.Moves(segs, ElementAt(l, n, r, c), d);
      } else {
        forall s ensures !S.Moves(segs, s, d) {
          NoNegative(segs, s, d);
          LandsApart(l, alignment, stride, i, r, c, n, s);
        }
      }
    }
    forall d: nat | d < |after| && Untouched(l, stride, n + 1, d) ensures after[d] == before[d] {
      assert !LandsIn(l, n, stride, d);
      forall s ensures !S.Moves(segs, s, d) {
        NoNegative(segs, s, d);
        if s >= 0 && Lands(l, n, stride, |l.rankNumels|, s, d) {
          LandsInIs(l, n, stride, s, d);
        }
      }
      assert Untouched(l, stride, n, d);
    }
  }

  lemma HasIsRow(l: Layout, i: nat, r: nat, c: nat)
    requires Indexed(l) && Has(l, i, r, c)
    ensures r < |l.rankNumels| && i < |l.params|
  {
  }

  lemma NoNegative(segs: seq<S.Seg>, s: int, d: int)
    ensures S.Moves(segs, s, d) ==> s >= 0 && d >= 0
  {
  }

  /** No element of the rows is at this place. */
  ghost predicate Outside(l: Layout, stride: nat, d: nat)
    requires Indexed(l)
  {
    forall r: nat, c: nat | r < |l.rankNumels| && c < Longest(l.rankNumels) :: d != Spot(stride, r, c)
  }

  /** Segments that zero exactly the gaps. */
  ghost predicate MovesGaps(l: Layout, stride: nat, segs: seq<S.Seg>)
    requires Indexed(l)
  {
    forall s: nat, d: nat :: S.Moves(segs, s, d) <==> s == d && GapAt(l, stride, |l.rankNumels|, d)
  }

  lemma ZeroNext<V>(l: Layout, grads: seq<seq<V>>, zero: V, stride: nat, before: seq<V>, out: seq<V>,
                    source: seq<V>, segs: seq<S.Seg>,
                    after: seq<V>)
    requires Indexed(l) && Shaped(l, grads) && Longest(l.rankNumels) <= stride
    requires PlacedUpTo(l, grads, stride, before, out, |l.params|) && MovesGaps(l, stride, segs)
    requires S.Copied(source, out, segs, after)
    requires |source| == |out| && forall x :: 0 <= x < |source| ==> source[x] == zero
    requires forall r: nat, c: nat :: r < |l.rankNumels| && c < Longest(l.rankNumels) ==> Spot(stride, r, c) < |out|
    ensures RowsSent(l, grads, zero, stride, after, |l.rankNumels|)
    ensures forall d: nat | d < |after| && Outside(l, stride, d) :: after[d] == before[d]
  {
    hide Longest, Spot, Has, Numel, S.Moves, LandsIn, Sent, Gap, GapAt;
    forall r: nat, c: nat | r < |l.rankNumels| && c < Longest(l.rankNumels)
      ensures Spot(stride, r, c) < |after| && Sent(l, grads, zero, r, c, after[Spot(stride, r, c)])
    {
      var d := Spot(stride, r, c);
      if Gap(l, r, c) {
        GapLands(l, stride, r, c);
        assert S.Moves(segs, d, d);
        assert after[d] == source[d];
        GapSends(l, grads, zero, r, c);
      } else {
        forall s ensures !S.Moves(segs, s, d) {
          NoNegative(segs, s, d);
          if s >= 0 && GapAt(l, stride, |l.rankNumels|, d) {
            GapHere(l, stride, |l.rankNumels|, r, c);
          }
        }
        var i := Owner(l, r, c);
        OwnerSends(l, grads, zero, stride, before, out, i, r, c);
      }
    }
    forall d: nat | d < |after| && Outside(l, stride, d) ensures after[d] == before[d] {
      forall s ensures !S.Moves(segs, s, d) {
        NoNegative(segs, s, d);
        OutsideIsNoGap(l, stride, d);
      }
      OutsideUntouched(l, stride, d);
    }
  }

  lemma GapLands(l: Layout, stride: nat, r: nat, c: nat)
    requires Indexed(l) && Gap(l, r, c) && r < |l.rankNumels| && c < Longest(l.rankNumels)
    ensures GapAt(l, stride, |l.rankNumels|, Spot(stride, r, c))
  {
  }

  lemma GapSends<V>(l: Layout, grads: seq<seq<V>>, zero: V, r: nat, c: nat)
    requires Indexed(l) && Shaped(l, grads) && Gap(l, r, c)
    ensures Sent(l, grads, zero, r, c, zero)
  {
  }

  lemma Owner(l: Layout, r: nat, c: nat) returns (i: nat)
    requires Indexed(l) && !Gap(l, r, c)
    ensures Has(l, i, r, c) && i < |l.params|
  {
    i :| Has(l, i, r, c);
  }

  lemma OwnerSends<V>(l: Layout, grads: seq<seq<V>>, zero: V, stride: nat, before: seq<V>,
                      out: seq<V>, i: nat, r: nat, c: nat)
    requires Indexed(l) && Shaped(l, grads) && PlacedUpTo(l, grads, stride, before, out, |l.params|) && Has(l, i, r, c)
    ensures Spot(stride, r, c) < |out| && Sent(l, grads, zero, r, c, out[Spot(stride, r, c)])
  {
    hide Numel, Spot;
    assert i < |l.params|;
    forall j: nat | Has(l, j, r, c) ensures out[Spot(stride, r, c)] == grads[j][ElementAt(l, j, r, c)] {
      assert j < |l.params|;
    }
  }

  lemma OutsideIsNoGap(l: Layout, stride: nat, d: nat)
    requires Indexed(l) && Outside(l, stride, d)
    ensures !GapAt(l, stride, |l.rankNumels|, d)
  {
  }

  lemma OutsideUntouched(l: Layout, stride: nat, d: nat)
    requires Indexed(l) && Outside(l, stride, d)
    ensures Untouched(l, stride, |l.params|, d)
  {
    hide Spot, Longest;
    forall i: nat | i < |l.params| ensures !LandsIn(l, i, stride, d) {
      if LandsIn(l, i, stride, d) {
        var r: nat, c: nat :| Has(l, i, r, c) && d == Spot(stride, r, c);
        HasShort(l, i, r, c);
        HasIsRow(l, i, r, c);
      }
    }
  }

  // ----- From plan to launches

  predicate FitsGrid(plan: Plan) {
    && |plan.zeros| <= S.MAX_GRID_SEGMENTS
    && forall i :: 0 <= i < |plan.params| ==> |plan.params[i]| <= S.MAX_GRID_SEGMENTS
  }

  /** The descriptors of all gradients and of the zeros. */
  method Descriptors(plan: Plan, unit: nat) returns (ok: bool, params: seq<seq<S.Seg>>, zeros: seq<S.Seg>)
    requires unit > 0 && PlanInUnits(plan, unit) && S.Apart(plan.zeros)
    requires forall i :: 0 <= i < |plan.params| ==> S.Apart(plan.params[i])
    ensures ok <==> FitsGrid(plan)
    ensures ok ==> |params| == |plan.params|
    ensures ok ==> forall i :: 0 <= i < |params| ==> Describes(params[i], plan.params[i], unit)
    ensures ok ==> Describes(zeros, plan.zeros, unit)
  {
    hide S.Apart, InUnits, S.Moves;
    params, zeros := [], [];
    for i := 0 to |plan.params|
      invariant |params| == i && forall j :: 0 <= j < i ==> Describes(params[j], plan.params[j], unit)
      invariant forall j :: 0 <= j < i ==> |plan.params[j]| <= S.MAX_GRID_SEGMENTS
    {
      var r := Descriptor(plan.params[i], unit, BLOCK_SIZE, MAX_CHUNKS);
      if r.ValueError? {
        return false, params, zeros;
      }
      params := params + [r.value];
    }
    var r := Descriptor(plan.zeros, unit, BLOCK_SIZE, MAX_CHUNKS);
    if r.ValueError? {
      return false, params, zeros;
    }
    return true, params, r.value;
  }

  ghost predicate Describes(cut: seq<S.Seg>, segs: seq<S.Seg>, unit: nat) {
    && S.Apart(S.ExpandAll(cut, unit))
    && (forall k :: 0 <= k < |cut| ==> cut[k].numel > 0)
    && (forall s: nat, d: nat :: S.Moves(S.ExpandAll(cut, unit), s, d) <==> S.Moves(segs, s, d))
  }

  /** Pieces of segments that stay in bounds do too. */
  lemma DescribedWithin(cut: seq<S.Seg>, segs: seq<S.Seg>, unit: nat, source: nat, out: nat)
    requires unit > 0 && Describes(cut, segs, unit) && forall k :: 0 <= k < |segs| ==> S.Within(segs[k], source, out)
    ensures forall k :: 0 <= k < |cut| ==> S.Within(S.Expand(cut[k], unit), source, out)
  {
    hide S.Apart, S.Expand;
    forall k | 0 <= k < |cut| ensures S.Within(S.Expand(cut[k], unit), source, out) {
      var e := S.Expand(cut[k], unit);
      ExpandedLonger(cut[k], unit);
      var s, d := e.src + e.numel - 1, e.dst + e.numel - 1;
      assert S.MovesOne(S.ExpandAll(cut, unit)[k], s, d);
      assert S.Moves(S.ExpandAll(cut, unit), s, d);
      var j :| 0 <= j < |segs| && S.MovesOne(segs[j], s, d);
      assert S.Within(segs[j], source, out);
    }
  }

  lemma ExpandedLonger(g: S.Seg, unit: nat)
    requires unit > 0 && g.numel > 0
    ensures S.Expand(g, unit).numel > 0
  {
  }

  /** Every element that the rows hold has a place in the output. */
  lemma RowsFitOut(l: Layout, stride: nat, size: nat)
    requires Indexed(l) && |l.rankNumels| > 0 && Longest(l.rankNumels) <= stride
    requires size == Spot(stride, |l.rankNumels| - 1, Longest(l.rankNumels))
    ensures forall r: nat, c: nat :: r < |l.rankNumels| && c < Longest(l.rankNumels) ==> Spot(stride, r, c) < size
    ensures forall i: nat, r: nat, c: nat :: Has(l, i, r, c) ==> Spot(stride, r, c) < size
  {
    hide Longest, Spot;
    var n := |l.rankNumels| - 1;
    SpotIs(stride, n, Longest(l.rankNumels));
    forall r: nat, c: nat | r < |l.rankNumels| && c < Longest(l.rankNumels) ensures Spot(stride, r, c) < size {
      SpotIs(stride, r, c);
      if r < n {
        SpotBefore(stride, r, n);
      }
    }
    forall i: nat, r: nat, c: nat | Has(l, i, r, c) ensures Spot(stride, r, c) < size {
      HasShort(l, i, r, c);
      HasIsRow(l, i, r, c);
    }
  }

  /** A parameter's segments as the plan has them, and as the launches do. */
  lemma ParamDescribed(l: Layout, i: nat, stride: nat, cut: seq<S.Seg>, unit: nat, source: nat, size: nat)
    requires Indexed(l) && i < |l.params| && |l.rankNumels| > 0 && Longest(l.rankNumels) <= stride && unit > 0
    requires source == Numel(l.params[i]) && size == Spot(stride, |l.rankNumels| - 1, Longest(l.rankNumels))
    requires Describes(cut, ParamSegs(l, i, stride, |l.rankNumels|), unit)
    ensures MovesParam(l, i, stride, S.ExpandAll(cut, unit)) && S.Apart(S.ExpandAll(cut, unit))
    ensures forall k :: 0 <= k < |cut| ==> S.Within(S.Expand(cut[k], unit), source, size)
  {
    hide Longest, Spot, S.Moves, S.Apart, Lands, Numel, ParamSegs;
    var n := |l.rankNumels|;
    ParamSegsFit(l, i, stride, n);
    SpotIs(stride, n - 1, Longest(l.rankNumels));
    forall s: nat, d: nat ensures S.Moves(S.ExpandAll(cut, unit), s, d) <==> Lands(l, i, stride, n, s, d) {
      ParamMoves(l, i, stride, n, s, d);
    }
    DescribedWithin(cut, ParamSegs(l, i, stride, n), unit, source, size);
  }

  lemma ZerosDescribed(l: Layout, stride: nat, zeros: seq<S.Seg>, cut: seq<S.Seg>, unit: nat, size: nat)
    requires Indexed(l) && |l.rankNumels| > 0 && Longest(l.rankNumels) <= stride && unit > 0
    requires size == Spot(stride, |l.rankNumels| - 1, Longest(l.rankNumels))
    requires ZeroesGaps(l, stride, zeros, |l.rankNumels|) && Describes(cut, zeros, unit)
    ensures MovesGaps(l, stride, S.ExpandAll(cut, unit)) && S.Apart(S.ExpandAll(cut, unit))
    ensures forall k :: 0 <= k < |cut| ==> S.Within(S.Expand(cut[k], unit), size, size)
  {
    hide Longest, Spot, S.Apart, GapAt;
    forall k | 0 <= k < |zeros| ensures S.Within(zeros[k], size, size) {
      var d := zeros[k].dst + zeros[k].numel - 1;
      assert S.MovesOne(zeros[k], d, d);
      assert S.Moves(zeros, d, d);
      GapInside(l, stride, d, size);
    }
    DescribedWithin(cut, zeros, unit, size, size);
  }

  lemma GapInside(l: Layout, stride: nat, d: nat, size: nat)
    requires Indexed(l) && |l.rankNumels| > 0 && Longest(l.rankNumels) <= stride && GapAt(l, stride, |l.rankNumels|, d)
    requires size == Spot(stride, |l.rankNumels| - 1, Longest(l.rankNumels))
    ensures d < size
  {
    RowsFitOut(l, stride, size);
  }

  lemma PlanInNarrower(plan: Plan, alignment: nat, unit: nat)
    requires alignment > 0 && unit > 0 && PlanInUnits(plan, alignment) && Multiple(alignment, unit)
    ensures PlanInUnits(plan, unit)
  {
    hide InUnits, Multiple;
    UnitsTrans(plan.zeros, alignment, unit);
    forall i | 0 <= i < |plan.params| ensures InUnits(plan.params[i], unit) {
      UnitsTrans(plan.params[i], alignment, unit);
    }
  }

  /** Writes the send rows, `stride` apart, in one launch per gradient and one for the zeros. It
      fails only for plans with more segments than a grid has room for, before it writes anything;
      otherwise every element of the rows is what it must be, and nothing between them changes. */
  method PackOnePass<V>(l: Layout, ghost alignment: nat, grads: seq<seq<V>>, zero: V, stride: nat, out: array<V>,
                        itemsize: nat, fits: nat -> bool) returns (ok: bool, ghost plan: Plan)
    requires LayoutOk(l, alignment) && Indexed(l) && Shaped(l, grads) && |l.rankNumels| > 0
    requires Longest(l.rankNumels) <= stride
    requires out.Length == Spot(stride, |l.rankNumels| - 1, Longest(l.rankNumels))
    requires itemsize in {1, 2, 4, 8} && fits(itemsize)
    modifies out
    ensures |plan.params| == |l.params|
    ensures forall i: nat :: i < |l.params| ==> plan.params[i] == ParamSegs(l, i, stride, |l.rankNumels|)
    ensures ZeroesGaps(l, stride, plan.zeros, |l.rankNumels|)
    ensures ok <==> FitsGrid(plan)
    ensures !ok ==> out[..] == old(out[..])
    ensures ok ==> RowsSent(l, grads, zero, stride, out[..], |l.rankNumels|)
    ensures ok ==> forall d: nat | d < out.Length && Outside(l, stride, d) :: out[d] == old(out[d])
  {
    hide LayoutOk, Longest, Spot, ZeroesGaps, ParamSegs, PlanInUnits, PlacedUpTo, RowsSent, Outside, Describes,
         MovesParam, MovesGaps, S.Copied, Numel, S.Apart, S.Within, Has, UnitOk, FitsGrid, Multiple;
    var p := ReduceCopyInPlan(l, stride);
    plan := p;
    PlanApart(l, stride, p);
    var a := PlanAlignment(p);
    var unit := ChooseUnit(a, itemsize, fits);
    PlanInNarrower(p, a, unit);
    var params, zeros;
    ok, params, zeros := Descriptors(p, unit);
    if !ok {
      return;
    }
    RowsFitOut(l, stride, out.Length);
    ghost var before := out[..];
    NonePlaced(l, grads, stride, before);
    for i := 0 to |l.params|
      invariant PlacedUpTo(l, grads, stride, before, out[..], i)
    {
      ShapedAt(l, grads, i);
      ParamDescribed(l, i, stride, params[i], unit, |grads[i]|, out.Length);
      ghost var middle := out[..];
      S.CopySegments(grads[i], out, params[i], unit, BLOCK_SIZE);
      PlaceNext(l, alignment, grads, stride, before, middle, i, S.ExpandAll(params[i], unit), out[..]);
    }
    ZerosDescribed(l, stride, p.zeros, zeros, unit, out.Length);
    var source := seq(out.Length, _ => zero);
    ghost var middle := out[..];
    S.CopySegments(source, out, zeros, unit, BLOCK_SIZE);
    ZeroNext(l, grads, zero, stride, before, middle, source, S.ExpandAll(zeros, unit), out[..]);
  }

  lemma ShapedAt<V>(l: Layout, grads: seq<seq<V>>, i: nat)
    requires Shaped(l, grads) && i < |l.params|
    ensures |grads| == |l.params| && |grads[i]| == Numel(l.params[i])
  {
  }

  lemma PlanApart(l: Layout, stride: nat, plan: Plan)
    requires Indexed(l) && Longest(l.rankNumels) <= stride && |plan.params| == |l.params|
    requires forall i: nat :: i < |l.params| ==> plan.params[i] == ParamSegs(l, i, stride, |l.rankNumels|)
    requires ZeroesGaps(l, stride, plan.zeros, |l.rankNumels|)
    ensures S.Apart(plan.zeros) && forall i :: 0 <= i < |plan.params| ==> S.Apart(plan.params[i])
  {
    hide S.Apart, ParamSegs, Longest;
    forall i: nat | i < |plan.params| ensures S.Apart(plan.params[i]) {
      ParamSegsFit(l, i, stride, |l.rankNumels|);
    }
  }

  /** Both ways send the same rows: element for element, wherever the rows lie. */
  lemma PackingsAgree<V>(l: Layout, grads: seq<seq<V>>, zero: V, simple: seq<V>, stride: nat,
                         onePass: seq<V>, r: nat, c: nat)
    requires Indexed(l) && Shaped(l, grads) && r < |l.rankNumels| && c < Longest(l.rankNumels)
    requires RowsSent(l, grads, zero, Longest(l.rankNumels), simple, |l.rankNumels|)
    requires RowsSent(l, grads, zero, stride, onePass, |l.rankNumels|)
    ensures Spot(Longest(l.rankNumels), r, c) < |simple| && Spot(stride, r, c) < |onePass|
    ensures onePass[Spot(stride, r, c)] == simple[Spot(Longest(l.rankNumels), r, c)]
  {
    hide Spot, Longest, Sent;
    SentOnce(l, grads, zero, r, c, onePass[Spot(stride, r, c)], simple[Spot(Longest(l.rankNumels), r, c)]);
  }
}
