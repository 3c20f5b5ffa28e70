/** Rectangular tensor regions of any rank, as the sets of the indices they cover, and the
    row-major numbering of their elements. */
module Regions {
  import opened Arithmetic

  type Index = seq<int>

  datatype Region = Region(offsets: seq<int>, shape: seq<int>)

  function Prod(shape: seq<int>): int {
    if shape == [] then 1 else shape[0] * Prod(shape[1..])
  }

  function Numel(r: Region): int {
    Prod(r.shape)
  }

  predicate Sized(shape: seq<int>) {
    forall k :: 0 <= k < |shape| ==> shape[k] >= 0
  }

  /** A region has an offset and a size for every dimension, and no size is negative. */
  predicate Proper(r: Region) {
    |r.offsets| == |r.shape| && Sized(r.shape)
  }

  function Zeros(d: nat): (o: seq<int>)
    ensures |o| == d && forall k :: 0 <= k < d ==> o[k] == 0
  {
    seq(d, _ => 0)
  }

  /** All of a tensor. */
  function Whole(shape: seq<int>): Region {
    Region(Zeros(|shape|), shape)
  }

  // ----- The indices of a region

  function Slab(h: int, b: set<Index>): set<Index> {
    set t | t in b :: [h] + t
  }

  function Slabs(lo: int, hi: int, b: set<Index>): set<Index>
    decreases hi - lo
  {
    if hi <= lo then {} else Slabs(lo, hi - 1, b) + Slab(hi - 1, b)
  }

  function Box(offsets: seq<int>, shape: seq<int>): set<Index>
    requires |offsets| == |shape|
  {
    if shape == [] then {[]} else Slabs(offsets[0], offsets[0] + shape[0], Box(offsets[1..], shape[1..]))
  }

  function Cells(r: Region): set<Index> {
    if |r.offsets| == |r.shape| then Box(r.offsets, r.shape) else {}
  }

  /** The index lies in the region in every dimension. */
  predicate Inside(offsets: seq<int>, shape: seq<int>, ix: Index)
    requires |offsets| == |shape|
  {
    |ix| == |shape| && forall k :: 0 <= k < |ix| ==> offsets[k] <= ix[k] < offsets[k] + shape[k]
  }

  lemma InSlab(h: int, b: set<Index>, ix: Index)
    ensures ix in Slab(h, b) <==> ix != [] && ix[0] == h && ix[1..] in b
  {
    if ix != [] && ix[0] == h && ix[1..] in b {
      assert ix == [h] + ix[1..];
    }
    if ix in Slab(h, b) {
      var t :| t in b && ix == [h] + t;
      assert ix[1..] == t;
    }
  }

  lemma {:induction false} InSlabs(lo: int, hi: int, b: set<Index>, ix: Index)
    ensures ix in Slabs(lo, hi, b) <==> ix != [] && lo <= ix[0] < hi && ix[1..] in b
    decreases hi - lo
  {
    if lo < hi {
      InSlabs(lo, hi - 1, b, ix);
      InSlab(hi - 1, b, ix);
    }
  }

  lemma {:induction false} InBox(offsets: seq<int>, shape: seq<int>, ix: Index)
    requires |offsets| == |shape|
    ensures ix in Box(offsets, shape) <==> Inside(offsets, shape, ix)
  {
    if shape != [] {
      InSlabs(offsets[0], offsets[0] + shape[0], Box(offsets[1..], shape[1..]), ix);
      if ix != [] {
        InBox(offsets[1..], shape[1..], ix[1..]);
        assert ix == [ix[0]] + ix[1..];
        InsideCons(offsets, shape, ix[0], ix[1..]);
      }
    }
  }

  lemma {:induction false} SlabSize(h: int, b: set<Index>)
    ensures |Slab(h, b)| == |b|
  {
    if b != {} {
      var t :| t in b;
      var rest := b - {t};
      SlabSize(h, rest);
      forall ix ensures ix in Slab(h, b) <==> ix in Slab(h, rest) + {[h] + t} {
        InSlab(h, b, ix);
        InSlab(h, rest, ix);
        assert ([h] + t)[1..] == t;
        if ix != [] && ix[0] == h && ix[1..] == t {
          assert ix == [h] + t;
        }
      }
      assert Slab(h, b) == Slab(h, rest) + {[h] + t};
      InSlab(h, rest, [h] + t);
      assert ([h] + t)[1..] == t;
    }
  }

  lemma SlabsDisjoint(lo: int, hi: int, b: set<Index>)
    ensures Slabs(lo, hi, b) !! Slab(hi, b)
  {
    forall ix | ix in Slabs(lo, hi, b) ensures ix !in Slab(hi, b) {
      InSlabs(lo, hi, b, ix);
      InSlab(hi, b, ix);
    }
  }

  lemma {:induction false} SlabsSize(lo: int, hi: int, b: set<Index>)
    requires lo <= hi
    ensures |Slabs(lo, hi, b)| == (hi - lo) * |b|
    decreases hi - lo
  {
    hide Slab;
    if lo < hi {
      SlabsSize(lo, hi - 1, b);
      SlabSize(hi - 1, b);
      SlabsDisjoint(lo, hi - 1, b);
      OneMore(hi - 1 - lo, |b|);
    }
  }

  /** A region has as many indices as its size says. */
  lemma {:induction false} BoxSize(offsets: seq<int>, shape: seq<int>)
    requires |offsets| == |shape| && Sized(shape)
    ensures |Box(offsets, shape)| == Prod(shape)
  {
    if shape != [] {
      BoxSize(offsets[1..], shape[1..]);
      SlabsSize(offsets[0], offsets[0] + shape[0], Box(offsets[1..], shape[1..]));
    }
  }

  lemma NumelIsSize(r: Region)
    requires Proper(r)
    ensures |Cells(r)| == Numel(r) && Numel(r) >= 0 && (Numel(r) == 0 <==> Cells(r) == {})
  {
    BoxSize(r.offsets, r.shape);
  }

  // ----- Two regions

  function Max(a: int, b: int): int {
    if a < b then b else a
  }

  function Min(a: int, b: int): int {
    if a < b then a else b
  }

  /** The region two regions share, if it isn't empty. */
  datatype Shared = Nothing | Common(region: Region)

  function Intersect(a: Region, b: Region): Region
    requires Proper(a) && Proper(b) && |a.shape| == |b.shape|
  {
    Region(seq(|a.shape|, k requires 0 <= k < |a.shape| => Max(a.offsets[k], b.offsets[k])),
           seq(|a.shape|, k requires 0 <= k < |a.shape| =>
             Max(0, Min(a.offsets[k] + a.shape[k], b.offsets[k] + b.shape[k]) - Max(a.offsets[k], b.offsets[k]))))
  }

  function Intersection(a: Region, b: Region): Shared
    requires Proper(a) && Proper(b)
  {
    if |a.shape| != |b.shape| then Nothing
    else
      var r := Intersect(a, b);
      if Numel(r) == 0 then Nothing else Common(r)
  }

  lemma IntersectInside(a: Region, b: Region, ix: Index)
    requires Proper(a) && Proper(b) && |a.shape| == |b.shape|
    ensures var r := Intersect(a, b);
            Inside(r.offsets, r.shape, ix) <==> Inside(a.offsets, a.shape, ix) && Inside(b.offsets, b.shape, ix)
  {
    var r := Intersect(a, b);
    if Inside(a.offsets, a.shape, ix) && Inside(b.offsets, b.shape, ix) {
      assert Inside(r.offsets, r.shape, ix);
    }
    if Inside(r.offsets, r.shape, ix) {
      forall k | 0 <= k < |ix|
        ensures a.offsets[k] <= ix[k] < a.offsets[k] + a.shape[k] && b.offsets[k] <= ix[k] < b.offsets[k] + b.shape[k]
      {
        assert r.offsets[k] <= ix[k] < r.offsets[k] + r.shape[k];
      }
    }
  }

  lemma IntersectCells(a: Region, b: Region)
    requires Proper(a) && Proper(b) && |a.shape| == |b.shape|
    ensures Proper(Intersect(a, b)) && Cells(Intersect(a, b)) == Cells(a) * Cells(b)
  {
    hide Box, Inside, Prod;
    var r := Intersect(a, b);
    forall ix ensures ix in Cells(r) <==> ix in Cells(a) * Cells(b) {
      InBox(a.offsets, a.shape, ix);
      InBox(b.offsets, b.shape, ix);
      InBox(r.offsets, r.shape, ix);
      IntersectInside(a, b, ix);
    }
  }

  function SharedNumel(a: Region, b: Region): int
    requires Proper(a) && Proper(b)
  {
    match Intersection(a, b)
    case Nothing => 0
    case Common(r) => Numel(r)
  }

  /** Regions of the same rank share exactly the indices of their intersection. */
  lemma SharedIsCommon(a: Region, b: Region)
    requires Proper(a) && Proper(b) && |a.shape| == |b.shape|
    ensures SharedNumel(a, b) == |Cells(a) * Cells(b)|
    ensures Intersection(a, b).Nothing? <==> Cells(a) * Cells(b) == {}
    ensures Intersection(a, b).Common? ==>
              Proper(Intersection(a, b).region) && Cells(Intersection(a, b).region) == Cells(a) * Cells(b)
  {
    hide Intersect, Cells, Prod;
    IntersectCells(a, b);
    NumelIsSize(Intersect(a, b));
  }

  // ----- Row-major order

  lemma {:induction false} ProdNonNegative(shape: seq<int>)
    requires Sized(shape)
    ensures Prod(shape) >= 0
  {
    if shape != [] {
      ProdNonNegative(shape[1..]);
      NonNegative(shape[0], Prod(shape[1..]));
    }
  }

  lemma ProdTail(shape: seq<int>)
    requires Sized(shape) && shape != [] && Prod(shape) > 0
    ensures Prod(shape[1..]) > 0 && shape[0] > 0
  {
    ProdNonNegative(shape[1..]);
    Positive(shape[0], Prod(shape[1..]));
  }

  /** The index of element number `e` of a region, in row-major order. */
  function CellAt(offsets: seq<int>, shape: seq<int>, e: nat): Index
    requires |offsets| == |shape| && Sized(shape) && e < Prod(shape)
    decreases |shape|
  {
    if shape == [] then []
    else
      ProdTail(shape);
      var size := Prod(shape[1..]);
      [offsets[0] + e / size] + CellAt(offsets[1..], shape[1..], e % size)
  }

  /** An element's number says where it is in the first dimension, and its number in the rest. */
  lemma SplitNumber(offsets: seq<int>, shape: seq<int>, e: nat) returns (size: nat, q: nat, r: nat)
    requires |offsets| == |shape| && Sized(shape) && e < Prod(shape) && shape != []
    ensures size == Prod(shape[1..]) && q < shape[0] && r < size && e == q * size + r
    ensures CellAt(offsets, shape, e) == [offsets[0] + q] + CellAt(offsets[1..], shape[1..], r)
  {
    ProdTail(shape);
    size := Prod(shape[1..]);
    QuotientBelow(e, shape[0], size);
    q, r := e / size, e % size;
  }

  lemma {:induction false} CellInside(offsets: seq<int>, shape: seq<int>, e: nat)
    requires |offsets| == |shape| && Sized(shape) && e < Prod(shape)
    ensures Inside(offsets, shape, CellAt(offsets, shape, e))
    decreases |shape|
  {
    if shape != [] {
      var size, q, r := SplitNumber(offsets, shape, e);
      CellInside(offsets[1..], shape[1..], r);
      InsideCons(offsets, shape, offsets[0] + q, CellAt(offsets[1..], shape[1..], r));
    }
  }

  lemma InsideCons(offsets: seq<int>, shape: seq<int>, h: int, tail: Index)
    requires |offsets| == |shape| && shape != []
    ensures Inside(offsets, shape, [h] + tail) <==>
            offsets[0] <= h < offsets[0] + shape[0] && Inside(offsets[1..], shape[1..], tail)
  {
    var ix := [h] + tail;
    if offsets[0] <= h < offsets[0] + shape[0] && Inside(offsets[1..], shape[1..], tail) {
      forall k | 0 <= k < |ix| ensures offsets[k] <= ix[k] < offsets[k] + shape[k] {
        if k > 0 {
          assert offsets[1..][k - 1] <= tail[k - 1] < offsets[1..][k - 1] + shape[1..][k - 1];
        }
      }
    }
    if Inside(offsets, shape, ix) {
      forall k | 0 <= k < |tail| ensures offsets[1..][k] <= tail[k] < offsets[1..][k] + shape[1..][k] {
        assert offsets[k + 1] <= ix[k + 1] < offsets[k + 1] + shape[k + 1];
      }
    }
  }

  /** The number of an index. */
  function NumberOf(offsets: seq<int>, shape: seq<int>, ix: Index): int
    requires |offsets| == |shape| == |ix|
    decreases |shape|
  {
    if shape == [] then 0
    else (ix[0] - offsets[0]) * Prod(shape[1..]) + NumberOf(offsets[1..], shape[1..], ix[1..])
  }

  /** Every index of a region has its number, and numbering is one-to-one. */
  lemma {:induction false} Numbered(offsets: seq<int>, shape: seq<int>, ix: Index)
    requires |offsets| == |shape| && Sized(shape) && Inside(offsets, shape, ix)
    ensures 0 <= NumberOf(offsets, shape, ix) < Prod(shape)
    ensures CellAt(offsets, shape, NumberOf(offsets, shape, ix)) == ix
    decreases |shape|
  {
    if shape != [] {
      assert ix == [ix[0]] + ix[1..];
      InsideCons(offsets, shape, ix[0], ix[1..]);
      Numbered(offsets[1..], shape[1..], ix[1..]);
      var size, q, r := Prod(shape[1..]), ix[0] - offsets[0], NumberOf(offsets[1..], shape[1..], ix[1..]);
      PlaceBelow(q, shape[0], size, r);
      QuotientIs(q * size + r, q, r, size);
    }
  }

  lemma {:induction false} NumberOfCell(offsets: seq<int>, shape: seq<int>, e: nat)
    requires |offsets| == |shape| && Sized(shape) && e < Prod(shape)
    ensures |CellAt(offsets, shape, e)| == |shape| && NumberOf(offsets, shape, CellAt(offsets, shape, e)) == e
    decreases |shape|
  {
    CellInside(offsets, shape, e);
    if shape != [] {
      var size, q, r := SplitNumber(offsets, shape, e);
      CellInside(offsets[1..], shape[1..], r);
      NumberOfCell(offsets[1..], shape[1..], r);
      assert CellAt(offsets, shape, e)[1..] == CellAt(offsets[1..], shape[1..], r);
    }
  }

  // ----- Lists of regions

  function Union(regions: seq<Region>): set<Index> {
    if regions == [] then {} else Cells(regions[0]) + Union(regions[1..])
  }

  function Total(regions: seq<Region>): int {
    if regions == [] then 0 else Numel(regions[0]) + Total(regions[1..])
  }

  /** No two regions share an index. */
  ghost predicate Apart(regions: seq<Region>) {
    forall i, j :: 0 <= i < j < |regions| ==> Cells(regions[i]) * Cells(regions[j]) == {}
  }

  predicate Fits(r: Region, bounds: seq<int>) {
    && |r.offsets| == |r.shape| == |bounds|
    && forall k :: 0 <= k < |bounds| ==> r.offsets[k] >= 0 && r.shape[k] >= 0 && r.offsets[k] + r.shape[k] <= bounds[k]
  }

  predicate AllFit(regions: seq<Region>, bounds: seq<int>) {
    Sized(bounds) && forall i :: 0 <= i < |regions| ==> Fits(regions[i], bounds)
  }

  /** The index is in one of the regions, and in no other. */
  ghost predicate Once(regions: seq<Region>, ix: Index) {
    exists i :: 0 <= i < |regions| && ix in Cells(regions[i])
                && forall j :: 0 <= j < |regions| && j != i ==> ix !in Cells(regions[j])
  }

  /** Every index of the tensor is in exactly one of the regions. */
  ghost predicate Tiles(regions: seq<Region>, shape: seq<int>) {
    forall ix :: ix in Cells(Whole(shape)) ==> Once(regions, ix)
  }

  lemma {:induction false} InUnion(regions: seq<Region>, ix: Index)
    ensures ix in Union(regions) <==> exists i :: 0 <= i < |regions| && ix in Cells(regions[i])
  {
    hide Cells;
    if regions != [] {
      InUnion(regions[1..], ix);
      if i :| 0 <= i < |regions[1..]| && ix in Cells(regions[1..][i]) {
        assert ix in Cells(regions[i + 1]);
      }
      if i :| 0 <= i < |regions| && ix in Cells(regions[i]) {
        assert i > 0 ==> ix in Cells(regions[1..][i - 1]);
      }
    }
  }

  lemma FitsProper(r: Region, bounds: seq<int>)
    requires Fits(r, bounds)
    ensures Proper(r) && Cells(r) <= Cells(Whole(bounds))
  {
    forall ix | ix in Cells(r) ensures ix in Cells(Whole(bounds)) {
      InBox(r.offsets, r.shape, ix);
      InBox(Zeros(|bounds|), bounds, ix);
    }
  }

  lemma {:induction false} UnionFits(regions: seq<Region>, bounds: seq<int>)
    requires AllFit(regions, bounds)
    ensures Union(regions) <= Cells(Whole(bounds)) && Total(regions) >= 0
  {
    if regions != [] {
      FitsProper(regions[0], bounds);
      NumelIsSize(regions[0]);
      UnionFits(regions[1..], bounds);
    }
  }

  lemma WholeSize(shape: seq<int>)
    requires Sized(shape)
    ensures |Cells(Whole(shape))| == Prod(shape)
  {
    BoxSize(Zeros(|shape|), shape);
  }

  lemma NotBoth(regions: seq<Region>, i: nat, j: nat, ix: Index)
    requires Apart(regions) && i < |regions| && j < |regions| && i != j && ix in Cells(regions[i])
    ensures ix !in Cells(regions[j])
  {
    hide Cells;
    assert ix !in Cells(regions[if i < j then i else j]) * Cells(regions[if i < j then j else i]);
  }

  /** Regions that share nothing cover as many indices as their sizes add up to. */
  lemma {:induction false} UnionSize(regions: seq<Region>, bounds: seq<int>)
    requires AllFit(regions, bounds) && Apart(regions)
    ensures |Union(regions)| == Total(regions)
  {
    hide Cells, Numel;
    if regions != [] {
      var first, rest := regions[0], regions[1..];
      FitsProper(first, bounds);
      NumelIsSize(first);
      UnionSize(rest, bounds);
      forall ix | ix in Cells(first) ensures ix !in Union(rest) {
        InUnion(rest, ix);
        forall i | 0 <= i < |rest| ensures ix !in Cells(rest[i]) {
          NotBoth(regions, 0, i + 1, ix);
        }
      }
      assert Cells(first) !! Union(rest);
    }
  }

  /** Exact tiling is disjointness and full cover. */
  lemma TilesIs(regions: seq<Region>, shape: seq<int>)
    requires AllFit(regions, shape)
    ensures Tiles(regions, shape) <==> Apart(regions) && Union(regions) == Cells(Whole(shape))
  {
    hide Cells, Whole, Fits;
    UnionFits(regions, shape);
    if Tiles(regions, shape) {
      forall i, j | 0 <= i < j < |regions| ensures Cells(regions[i]) * Cells(regions[j]) == {} {
        forall ix | ix in Cells(regions[i]) ensures ix !in Cells(regions[j]) {
          FitsProper(regions[i], shape);
          assert Once(regions, ix);
        }
      }
      forall ix | ix in Cells(Whole(shape)) ensures ix in Union(regions) {
        assert Once(regions, ix);
        InUnion(regions, ix);
      }
    }
    if Apart(regions) && Union(regions) == Cells(Whole(shape)) {
      forall ix | ix in Cells(Whole(shape)) ensures Once(regions, ix) {
        InUnion(regions, ix);
        OnceWhenApart(regions, ix);
      }
    }
  }

  lemma OnceWhenApart(regions: seq<Region>, ix: Index)
    requires Apart(regions) && exists i :: 0 <= i < |regions| && ix in Cells(regions[i])
    ensures Once(regions, ix)
  {
    hide Cells;
    var i :| 0 <= i < |regions| && ix in Cells(regions[i]);
    forall j | 0 <= j < |regions| && j != i ensures ix !in Cells(regions[j]) {
      NotBoth(regions, i, j, ix);
    }
  }

  /** Disjoint regions in bounds tile the tensor just when their sizes add up to its size. */
  lemma VolumeTiles(regions: seq<Region>, shape: seq<int>)
    requires AllFit(regions, shape) && Apart(regions)
    ensures Total(regions) == Prod(shape) <==> Tiles(regions, shape)
  {
    hide Cells, Whole, Fits, Tiles, Apart;
    TilesIs(regions, shape);
    UnionFits(regions, shape);
    UnionSize(regions, shape);
    WholeSize(shape);
    SubsetSize(Union(regions), Cells(Whole(shape)));
  }

  lemma {:induction false} SubsetSize<T>(a: set<T>, b: set<T>)
    requires a <= b
    ensures |a| <= |b| && (|a| == |b| ==> a == b)
  {
    assert b == a + (b - a);
  }
}
