/** Running the one-pass reduce copy-in: the widest copy unit that the plan allows, the plan in
    units, split for the grid, and the launches. */
module ReducePack {
  import opened Arithmetic
  import opened Multiples
  import S = SegmentCopy
  import opened ReducePlan

  type Seg = S.Seg

  // ----- Units

  /** All offsets and lengths are multiples of the unit. */
  predicate InUnits(segs: seq<Seg>, unit: nat)
    requires unit > 0
  {
    forall k :: 0 <= k < |segs| ==> SegInUnits(segs[k], unit)
  }

  predicate PlanInUnits(plan: Plan, unit: nat)
    requires unit > 0
  {
    InUnits(plan.zeros, unit) && forall i :: 0 <= i < |plan.params| ==> InUnits(plan.params[i], unit)
  }

  predicate SegInUnits(s: Seg, unit: nat)
    requires unit > 0
  {
    Multiple(s.src, unit) && Multiple(s.numel, unit) && Multiple(s.dst, unit)
  }

  function SegGcd(g: nat, s: Seg): nat {
    Gcd(Gcd(Gcd(g, s.src), s.numel), s.dst)
  }

  lemma SegGcdIs(g: nat, s: Seg, d: nat)
    requires d > 0
    ensures Multiple(SegGcd(g, s), d) <==> Multiple(g, d) && SegInUnits(s, d)
  {
    hide Multiple, Gcd;
    var a := Gcd(g, s.src);
    var b := Gcd(a, s.numel);
    GcdGreatest(g, s.src, d);
    GcdGreatest(a, s.numel, d);
    GcdGreatest(b, s.dst, d);
  }

  /** The greatest common divisor of a number and all offsets and lengths of the segments: its
      divisors are their common divisors. */
  method SegmentsGcd(segs: seq<Seg>, from: nat) returns (g: nat)
    ensures forall d: nat :: d > 0 ==> (Multiple(g, d) <==> Multiple(from, d) && InUnits(segs, d))
  {
    hide SegGcd, Multiple, SegInUnits;
    g := from;
    for k := 0 to |segs|
      invariant forall d: nat :: d > 0 ==> (Multiple(g, d) <==> Multiple(from, d) && InUnits(segs[..k], d))
    {
      ghost var before := g;
      g := SegGcd(g, segs[k]);
      forall d: nat | d > 0 ensures Multiple(g, d) <==> Multiple(from, d) && InUnits(segs[..k + 1], d) {
        SegGcdIs(before, segs[k], d);
        OneMoreInUnits(segs, k, d);
      }
    }
    assert segs[..|segs|] == segs;
  }

  lemma OneMoreInUnits(segs: seq<Seg>, k: nat, d: nat)
    requires d > 0 && k < |segs|
    ensures InUnits(segs[..k + 1], d) <==> InUnits(segs[..k], d) && SegInUnits(segs[k], d)
  {
    hide SegInUnits;
    var all := segs[..k + 1];
    assert all[k] == segs[k];
    if InUnits(all, d) {
      forall j | 0 <= j < k ensures SegInUnits(segs[..k][j], d) {
        assert all[j] == segs[..k][j];
      }
    }
  }

  lemma SegUnitsTrans(s: Seg, d: nat, e: nat)
    requires d > 0 && e > 0 && SegInUnits(s, d) && Multiple(d, e)
    ensures SegInUnits(s, e)
  {
    hide Multiple;
    MultipleTrans(s.src, d, e);
    MultipleTrans(s.numel, d, e);
    MultipleTrans(s.dst, d, e);
  }

  lemma UnitsTrans(segs: seq<Seg>, d: nat, e: nat)
    requires d > 0 && e > 0 && InUnits(segs, d) && Multiple(d, e)
    ensures InUnits(segs, e)
  {
    hide Multiple, SegInUnits;
    forall k | 0 <= k < |segs| ensures SegInUnits(segs[k], e) {
      SegUnitsTrans(segs[k], d, e);
    }
  }

  predicate ZeroSegs(segs: seq<Seg>) {
    forall k :: 0 <= k < |segs| ==> segs[k].src == segs[k].numel == segs[k].dst == 0
  }

  /** No offset or length in the plan is above zero. */
  predicate AllZero(plan: Plan) {
    ZeroSegs(plan.zeros) && forall i :: 0 <= i < |plan.params| ==> ZeroSegs(plan.params[i])
  }

  lemma OnlyZero(x: nat)
    ensures Multiple(x, x + 1) ==> x == 0
  {
    QuotientIs(x, 0, x, x + 1);
  }

  /** Only zeros have all units. */
  lemma ZeroUnits(segs: seq<Seg>)
    ensures ZeroSegs(segs) <==> forall d: nat :: d > 0 ==> InUnits(segs, d)
  {
    hide Multiple;
    if ZeroSegs(segs) {
      forall d: nat | d > 0 ensures InUnits(segs, d) {
        MultipleIs(0, d, 0);
      }
    }
    if forall d: nat :: d > 0 ==> InUnits(segs, d) {
      forall k | 0 <= k < |segs| ensures segs[k].src == segs[k].numel == segs[k].dst == 0 {
        assert InUnits(segs, segs[k].src + 1) && InUnits(segs, segs[k].numel + 1) && InUnits(segs, segs[k].dst + 1);
        OnlyZero(segs[k].src);
        OnlyZero(segs[k].numel);
        OnlyZero(segs[k].dst);
      }
    }
  }

  /** The greatest unit of the plan's offsets and lengths: its divisors are the plan's units. If
      nothing in the plan is above zero, one. */
  method PlanAlignment(plan: Plan) returns (alignment: nat)
    ensures alignment > 0 && PlanInUnits(plan, alignment)
    ensures if AllZero(plan) then alignment == 1
            else forall d: nat :: d > 0 ==> (Multiple(alignment, d) <==> PlanInUnits(plan, d))
  {
    hide Multiple, InUnits, ZeroSegs;
    var g: nat := 0;
    forall d: nat | d > 0 ensures Multiple(0, d) {
      MultipleIs(0, d, 0);
    }
    for i := 0 to |plan.params|
      invariant forall d: nat :: d > 0 ==> (Multiple(g, d) <==> forall j :: 0 <= j < i ==> InUnits(plan.params[j], d))
    {
      g := SegmentsGcd(plan.params[i], g);
    }
    g := SegmentsGcd(plan.zeros, g);
    ZeroPlan(plan, g);
    if g == 0 {
      return 1;
    }
    MultipleIs(g, g, 1);
    return g;
  }

  /** A plan with all units has only zeros, and the other way round. */
  lemma ZeroPlan(plan: Plan, g: nat)
    requires forall d: nat :: d > 0 ==> (Multiple(g, d) <==> PlanInUnits(plan, d))
    ensures g == 0 <==> AllZero(plan)
    ensures g == 0 ==> PlanInUnits(plan, 1)
  {
    hide Multiple, InUnits, ZeroSegs;
    if g == 0 {
      forall d: nat | d > 0 ensures PlanInUnits(plan, d) {
        MultipleIs(0, d, 0);
      }
      ZeroUnits(plan.zeros);
      forall i | 0 <= i < |plan.params| ensures ZeroSegs(plan.params[i]) {
        forall d: nat | d > 0 ensures InUnits(plan.params[i], d) {
          assert PlanInUnits(plan, d);
        }
        ZeroUnits(plan.params[i]);
      }
      assert PlanInUnits(plan, 1);
      forall d: nat | d > 0 ensures InUnits(plan.zeros, d) {
        assert PlanInUnits(plan, d);
      }
    } else if AllZero(plan) {
      ZeroUnits(plan.zeros);
      forall i | 0 <= i < |plan.params| ensures InUnits(plan.params[i], g + 1) {
        ZeroUnits(plan.params[i]);
      }
      assert PlanInUnits(plan, g + 1);
      OnlyZero(g);
    }
  }

  /** The widest unit of 8, 4, 2 or 1 bytes, in elements of `itemsize` bytes, that divides the
      alignment and fits the tensors' addresses and lengths. There always is one. */
  method ChooseUnit(alignment: nat, itemsize: nat, fits: nat -> bool) returns (unit: nat)
    requires alignment > 0 && itemsize in {1, 2, 4, 8} && fits(itemsize)
    ensures unit > 0 && Multiple(alignment, unit) && fits(unit * itemsize)
    ensures forall wider: nat | wider in {1, 2, 4, 8} && wider > unit * itemsize ::
        !UnitOk(alignment, itemsize, fits, wider)
  {
    hide UnitOk;
    ItemFits(alignment, itemsize, fits);
    var nbytes := 8;
    while !UnitOk(alignment, itemsize, fits, nbytes)
      invariant nbytes in {1, 2, 4, 8} && nbytes >= itemsize
      invariant forall wider: nat | wider in {1, 2, 4, 8} && wider > nbytes :: !UnitOk(alignment, itemsize, fits, wider)
      decreases nbytes
    {
      nbytes := nbytes / 2;
    }
    unit := nbytes / itemsize;
    UnitDivides(alignment, itemsize, fits, nbytes, unit);
  }

  predicate UnitOk(alignment: nat, itemsize: nat, fits: nat -> bool, nbytes: nat)
    requires itemsize > 0 && nbytes > 0
  {
    nbytes % itemsize == 0 && (alignment * itemsize) % nbytes == 0 && fits(nbytes)
  }

  lemma ItemFits(alignment: nat, itemsize: nat, fits: nat -> bool)
    requires itemsize in {1, 2, 4, 8} && fits(itemsize)
    ensures UnitOk(alignment, itemsize, fits, itemsize)
  {
    QuotientIs(alignment * itemsize, alignment, 0, itemsize);
  }

  lemma UnitDivides(alignment: nat, itemsize: nat, fits: nat -> bool, nbytes: nat, unit: nat)
    requires itemsize > 0 && nbytes > 0 && unit == nbytes / itemsize && UnitOk(alignment, itemsize, fits, nbytes)
    ensures unit > 0 && unit * itemsize == nbytes && fits(nbytes) && Multiple(alignment, unit)
  {
    assert unit * itemsize == nbytes;
    Positive(unit, itemsize);
    var k := (alignment * itemsize) / nbytes;
    assert alignment * itemsize == k * nbytes;
    Associates(k, unit, itemsize);
    Cancels(alignment, k * unit, itemsize);
    MultipleIs(alignment, unit, k);
  }

  // ----- The plan in units

  function Narrow(segs: seq<Seg>, unit: nat): (narrow: seq<Seg>)
    requires unit > 0
    ensures |narrow| == |segs|
    ensures forall k :: 0 <= k < |segs|
             ==> narrow[k] == S.Seg(segs[k].src / unit, segs[k].numel / unit, segs[k].dst / unit)
  {
    seq(|segs|, k requires 0 <= k < |segs| => S.Seg(segs[k].src / unit, segs[k].numel / unit, segs[k].dst / unit))
  }

  lemma NarrowExpands(segs: seq<Seg>, unit: nat)
    requires unit > 0 && InUnits(segs, unit)
    ensures S.ExpandAll(Narrow(segs, unit), unit) == segs
  {
    hide Multiple;
    var all := S.ExpandAll(Narrow(segs, unit), unit);
    forall k | 0 <= k < |segs| ensures all[k] == segs[k] {
      WholeUnits(segs[k].src, unit);
      WholeUnits(segs[k].numel, unit);
      WholeUnits(segs[k].dst, unit);
    }
  }

  lemma WholeUnits(x: nat, unit: nat)
    requires unit > 0 && Multiple(x, unit)
    ensures x / unit * unit == x
  {
  }

  /** Expanded segments move what the segments of units move. */
  lemma ExpandMovesOne(g: Seg, unit: nat, s: nat, d: nat)
    requires unit > 0
    ensures S.MovesOne(S.Expand(g, unit), s, d) <==> s % unit == d % unit && S.MovesOne(g, s / unit, d / unit)
  {
    var t, u, e, b := s / unit, s % unit, d / unit, d % unit;
    assert d == e * unit + b && s == t * unit + u;
    if S.MovesOne(S.Expand(g, unit), s, d) {
      QuotientBelow(d, g.dst + g.numel, unit);
      OverBelow(d, g.dst, unit);
      SourceOf(g, unit, s, e, b);
    }
    if u == b && S.MovesOne(g, t, e) {
      PlaceIn(g, e, b, unit);
    }
  }

  lemma SourceOf(g: Seg, unit: nat, s: nat, e: nat, b: nat)
    requires unit > 0 && b < unit && g.dst <= e && s == g.src * unit + (e * unit + b - g.dst * unit)
    ensures s / unit == g.src + (e - g.dst) && s % unit == b
  {
    assert (g.src + (e - g.dst)) * unit == g.src * unit + e * unit - g.dst * unit;
    QuotientIs(s, g.src + (e - g.dst), b, unit);
  }

  lemma OverBelow(d: nat, a: nat, unit: nat)
    requires unit > 0 && a * unit <= d
    ensures a <= d / unit
  {
    if d / unit < a {
      QuotientBelow2(d, a, unit);
    }
  }

  lemma QuotientBelow2(d: nat, a: nat, unit: nat)
    requires unit > 0 && d / unit < a
    ensures d < a * unit
  {
    var q := d / unit;
    assert d < (q + 1) * unit;
    NonNegative(a - q - 1, unit);
    assert a * unit == (q + 1) * unit + (a - q - 1) * unit;
  }

  lemma PlaceIn(g: Seg, e: nat, b: nat, unit: nat)
    requires unit > 0 && b < unit && g.dst <= e < g.dst + g.numel
    ensures g.dst * unit <= e * unit + b < g.dst * unit + g.numel * unit
    ensures (g.src + (e - g.dst)) * unit + b == g.src * unit + (e * unit + b - g.dst * unit)
  {
    var k := e - g.dst;
    assert e * unit == g.dst * unit + k * unit;
    assert (g.src + k) * unit == g.src * unit + k * unit;
    PlaceBelow(k, g.numel, unit, b);
  }

  lemma ExpandMoves(segs: seq<Seg>, unit: nat, s: nat, d: nat)
    requires unit > 0
    ensures S.Moves(S.ExpandAll(segs, unit), s, d) <==> s % unit == d % unit && S.Moves(segs, s / unit, d / unit)
  {
    hide S.Expand, S.MovesOne;
    var all := S.ExpandAll(segs, unit);
    if i :| 0 <= i < |all| && S.MovesOne(all[i], s, d) {
      ExpandMovesOne(segs[i], unit, s, d);
    }
    if i :| 0 <= i < |segs| && S.MovesOne(segs[i], s / unit, d / unit) {
      ExpandMovesOne(segs[i], unit, s, d);
      if s % unit == d % unit {
        assert S.MovesOne(all[i], s, d);
      }
    }
  }

  lemma ExpandApart(segs: seq<Seg>, unit: nat)
    requires unit > 0 && S.Apart(segs)
    ensures S.Apart(S.ExpandAll(segs, unit))
  {
    hide S.Expand, S.DstApart;
    forall i, j | 0 <= i < j < |segs| ensures S.DstApart(S.Expand(segs[i], unit), S.Expand(segs[j], unit)) {
      DstApartUnits(segs[i], segs[j], unit);
    }
  }

  lemma DstApartUnits(g: Seg, h: Seg, unit: nat)
    requires unit > 0 && S.DstApart(g, h)
    ensures S.DstApart(S.Expand(g, unit), S.Expand(h, unit))
  {
    if g.dst + g.numel <= h.dst {
      NonNegative(h.dst - g.dst - g.numel, unit);
      assert h.dst * unit == g.dst * unit + g.numel * unit + (h.dst - g.dst - g.numel) * unit;
    } else if h.dst + h.numel <= g.dst {
      NonNegative(g.dst - h.dst - h.numel, unit);
      assert g.dst * unit == h.dst * unit + h.numel * unit + (g.dst - h.dst - h.numel) * unit;
    }
  }

  lemma NarrowApart(segs: seq<Seg>, unit: nat)
    requires unit > 0 && InUnits(segs, unit) && S.Apart(segs)
    ensures S.Apart(Narrow(segs, unit))
  {
    NarrowExpands(segs, unit);
    hide S.Expand, S.DstApart, Multiple;
    var narrow := Narrow(segs, unit);
    forall i, j | 0 <= i < j < |segs| ensures S.DstApart(narrow[i], narrow[j]) {
      assert S.DstApart(segs[i], segs[j]);
      assert S.ExpandAll(narrow, unit)[i] == segs[i] && S.ExpandAll(narrow, unit)[j] == segs[j];
      UnitsDstApart(narrow[i], narrow[j], unit);
    }
  }

  lemma UnitsDstApart(g: Seg, h: Seg, unit: nat)
    requires unit > 0 && S.DstApart(S.Expand(g, unit), S.Expand(h, unit))
    ensures S.DstApart(g, h)
  {
    var e, f := S.Expand(g, unit), S.Expand(h, unit);
    if e.dst + e.numel <= f.dst {
      Adds(g.dst, g.numel, unit);
      TimesOrder(g.dst + g.numel, h.dst, unit);
    } else if f.dst + f.numel <= e.dst {
      Adds(h.dst, h.numel, unit);
      TimesOrder(h.dst + h.numel, g.dst, unit);
    } else if e.numel == 0 {
      TimesOrder(g.numel, 0, unit);
    } else {
      TimesOrder(h.numel, 0, unit);
    }
  }

  lemma Adds(x: int, y: int, z: int)
    ensures (x + y) * z == x * z + y * z
  {
  }

  lemma TimesOrder(a: int, b: int, unit: int)
    requires unit > 0 && a * unit <= b * unit
    ensures a <= b
  {
    assert a > b ==> (a - b) * unit > 0;
  }

  /** Segments in units, split for the grid. In elements they move what the segments move. */
  method Descriptor(segs: seq<Seg>, unit: nat, blockSize: nat, maxChunks: nat) returns (r: S.Result<seq<Seg>>)
    requires unit > 0 && blockSize > 0 && maxChunks > 0 && InUnits(segs, unit) && S.Apart(segs)
    ensures r.ValueError? <==> |segs| > S.MAX_GRID_SEGMENTS
    ensures r.Ok? ==> S.Apart(S.ExpandAll(r.value, unit)) && |r.value| <= S.MAX_GRID_SEGMENTS
    ensures r.Ok? ==> forall k :: 0 <= k < |r.value| ==> r.value[k].numel > 0
    ensures r.Ok? ==> forall s: nat, d: nat :: S.Moves(S.ExpandAll(r.value, unit), s, d) <==> S.Moves(segs, s, d)
  {
    hide S.Moves, S.Apart, S.FirstFit, Multiple, InUnits;
    var narrow := Narrow(segs, unit);
    NarrowApart(segs, unit);
    NarrowExpands(segs, unit);
    ghost var split;
    r, split := S.SplitSegments(narrow, blockSize, maxChunks);
    if r.Ok? {
      ExpandApart(r.value, unit);
      forall s: nat, d: nat ensures S.Moves(S.ExpandAll(r.value, unit), s, d) <==> S.Moves(segs, s, d) {
        ExpandMoves(r.value, unit, s, d);
        ExpandMoves(narrow, unit, s, d);
      }
    }
  }
}
