/** The checks on lists of regions: disjoint and in bounds, an exact partition, an exact
    cover of other regions. Each accepts exactly the lists that have the property. */
module RegionValidator {
  import opened Regions
  import opened Arithmetic

  /** `Valid`, or which check failed first. */
  datatype Verdict = Valid | OutOfBounds | Overlapping | WrongSize | Outside | BadParticipants

  // ----- Sorting by offsets

  /** Lexicographic order of offsets. */
  predicate Before(a: seq<int>, b: seq<int>) {
    if a == [] then true
    else if b == [] then false
    else a[0] < b[0] || (a[0] == b[0] && Before(a[1..], b[1..]))
  }

  lemma {:induction false} BeforeTotal(a: seq<int>, b: seq<int>)
    ensures Before(a, b) || Before(b, a)
  {
    if a != [] && b != [] {
      BeforeTotal(a[1..], b[1..]);
    }
  }

  lemma {:induction false} BeforeTransitive(a: seq<int>, b: seq<int>, c: seq<int>)
    requires Before(a, b) && Before(b, c)
    ensures Before(a, c)
  {
    if a != [] && b != [] && c != [] {
      if a[0] == b[0] == c[0] {
        BeforeTransitive(a[1..], b[1..], c[1..]);
      }
    }
  }

  function Insert(r: Region, sorted: seq<Region>): seq<Region> {
    if sorted == [] || Before(r.offsets, sorted[0].offsets) then [r] + sorted
    else [sorted[0]] + Insert(r, sorted[1..])
  }

  /** The regions that aren't empty, sorted by their offsets. */
  function SortedPositive(regions: seq<Region>): seq<Region> {
    if regions == [] then []
    else if Numel(regions[0]) == 0 then SortedPositive(regions[1..])
    else Insert(regions[0], SortedPositive(regions[1..]))
  }

  ghost predicate Sorted(regions: seq<Region>) {
    forall i, j :: 0 <= i < j < |regions| ==> Before(regions[i].offsets, regions[j].offsets)
  }

  lemma {:induction false} InsertHas(r: Region, sorted: seq<Region>, x: Region)
    ensures x in Insert(r, sorted) <==> x == r || x in sorted
  {
    if sorted != [] && !Before(r.offsets, sorted[0].offsets) {
      InsertHas(r, sorted[1..], x);
    }
  }

  lemma SortedCons(r: Region, sorted: seq<Region>)
    ensures Sorted([r] + sorted) <==> Sorted(sorted) && forall x :: x in sorted ==> Before(r.offsets, x.offsets)
  {
    hide Before;
    var all := [r] + sorted;
    if Sorted(all) {
      forall x | x in sorted ensures Before(r.offsets, x.offsets) {
        var i :| 0 <= i < |sorted| && sorted[i] == x;
        assert all[0] == r && all[i + 1] == x;
      }
      forall i, j | 0 <= i < j < |sorted| ensures Before(sorted[i].offsets, sorted[j].offsets) {
        assert all[i + 1] == sorted[i] && all[j + 1] == sorted[j];
      }
    }
  }

  lemma {:induction false} InsertSorted(r: Region, sorted: seq<Region>)
    requires Sorted(sorted)
    ensures Sorted(Insert(r, sorted))
  {
    hide Sorted;
    if sorted != [] {
      var first, rest := sorted[0], sorted[1..];
      assert sorted == [first] + rest;
      SortedCons(first, rest);
      if Before(r.offsets, first.offsets) {
        forall x | x in sorted ensures Before(r.offsets, x.offsets) {
          if x != first {
            BeforeTransitive(r.offsets, first.offsets, x.offsets);
          }
        }
        SortedCons(r, sorted);
      } else {
        BeforeTotal(r.offsets, first.offsets);
        InsertSorted(r, rest);
        forall x | x in Insert(r, rest) ensures Before(first.offsets, x.offsets) {
          InsertHas(r, rest, x);
        }
        SortedCons(first, Insert(r, rest));
      }
    } else {
      SortedCons(r, sorted);
      assert Sorted([]) by {
        SortedCons(r, []);
        NothingSorted();
      }
    }
  }

  lemma NothingSorted()
    ensures Sorted([])
  {
  }

  lemma {:induction false} SortedPositiveIs(regions: seq<Region>)
    ensures Sorted(SortedPositive(regions))
    ensures forall x :: x in SortedPositive(regions) <==> x in regions && Numel(x) != 0
  {
    if regions != [] {
      SortedPositiveIs(regions[1..]);
      if Numel(regions[0]) != 0 {
        InsertSorted(regions[0], SortedPositive(regions[1..]));
        forall x ensures x in SortedPositive(regions) <==> x in regions && Numel(x) != 0 {
          InsertHas(regions[0], SortedPositive(regions[1..]), x);
        }
      }
    }
  }

  // ----- Sorting keeps what is disjoint

  ghost predicate ApartFrom(r: Region, regions: seq<Region>) {
    forall j :: 0 <= j < |regions| ==> Cells(r) * Cells(regions[j]) == {}
  }

  lemma ApartCons(r: Region, regions: seq<Region>)
    ensures Apart([r] + regions) <==> ApartFrom(r, regions) && Apart(regions)
  {
    hide Cells;
    var all := [r] + regions;
    assert all[0] == r && all[1..] == regions;
    if Apart(all) {
      forall j | 0 <= j < |regions| ensures Cells(r) * Cells(regions[j]) == {} {
        assert regions[j] == all[j + 1];
      }
      forall i, j | 0 <= i < j < |regions| ensures Cells(regions[i]) * Cells(regions[j]) == {} {
        assert regions[i] == all[i + 1] && regions[j] == all[j + 1];
      }
    }
  }

  lemma ApartFromCons(r: Region, x: Region, regions: seq<Region>)
    ensures ApartFrom(r, [x] + regions) <==> Cells(r) * Cells(x) == {} && ApartFrom(r, regions)
  {
    hide Cells;
    var all := [x] + regions;
    if ApartFrom(r, all) {
      assert Cells(r) * Cells(all[0]) == {};
      forall j | 0 <= j < |regions| ensures Cells(r) * Cells(regions[j]) == {} {
        assert regions[j] == all[j + 1];
      }
    }
  }

  lemma {:induction false} ApartFromInsert(r: Region, x: Region, sorted: seq<Region>)
    ensures ApartFrom(r, Insert(x, sorted)) <==> Cells(r) * Cells(x) == {} && ApartFrom(r, sorted)
  {
    hide Cells, ApartFrom, Before;
    if sorted != [] {
      assert sorted == [sorted[0]] + sorted[1..];
      ApartFromCons(r, sorted[0], sorted[1..]);
      ApartFromInsert(r, x, sorted[1..]);
      ApartFromCons(r, sorted[0], Insert(x, sorted[1..]));
    }
    ApartFromCons(r, x, sorted);
  }

  lemma Symmetric(a: Region, b: Region)
    ensures Cells(a) * Cells(b) == Cells(b) * Cells(a)
  {
  }

  lemma {:induction false} ApartInsert(x: Region, sorted: seq<Region>)
    ensures Apart(Insert(x, sorted)) <==> ApartFrom(x, sorted) && Apart(sorted)
  {
    hide Cells, ApartFrom, Apart, Before;
    if sorted != [] {
      var first, rest := sorted[0], sorted[1..];
      assert sorted == [first] + rest;
      ApartInsert(x, rest);
      ApartCons(first, Insert(x, rest));
      ApartCons(first, rest);
      ApartFromInsert(first, x, rest);
      ApartFromCons(x, first, rest);
      Symmetric(x, first);
    }
    ApartCons(x, sorted);
  }

  lemma {:induction false} ApartFromSorted(r: Region, regions: seq<Region>)
    requires forall i :: 0 <= i < |regions| ==> Proper(regions[i])
    ensures ApartFrom(r, SortedPositive(regions)) <==> ApartFrom(r, regions)
  {
    hide Cells, ApartFrom, Insert, Numel;
    if regions != [] {
      var first, rest := regions[0], regions[1..];
      assert regions == [first] + rest;
      ApartFromSorted(r, rest);
      ApartFromCons(r, first, rest);
      NumelIsSize(first);
      if Numel(first) == 0 {
        assert Cells(r) * Cells(first) == {};
      } else {
        ApartFromInsert(r, first, SortedPositive(rest));
      }
    }
  }

  lemma EmptyApart(r: Region, regions: seq<Region>)
    requires Proper(r) && Numel(r) == 0
    ensures ApartFrom(r, regions)
  {
    NumelIsSize(r);
  }

  lemma {:induction false} ApartSorted(regions: seq<Region>)
    requires forall i :: 0 <= i < |regions| ==> Proper(regions[i])
    ensures Apart(SortedPositive(regions)) <==> Apart(regions)
  {
    hide Cells, ApartFrom, Apart, Insert, Numel;
    if regions != [] {
      var first, rest := regions[0], regions[1..];
      assert regions == [first] + rest;
      ApartSorted(rest);
      ApartCons(first, rest);
      if Numel(first) == 0 {
        EmptyApart(first, rest);
      } else {
        ApartFromSorted(first, rest);
        ApartInsert(first, SortedPositive(rest));
      }
    }
  }

  // ----- Disjoint and in bounds

  /** The regions overlap in every dimension. */
  predicate Overlap(a: Region, b: Region)
    requires |a.offsets| == |a.shape| == |b.offsets| == |b.shape|
  {
    forall k :: 0 <= k < |a.shape| ==>
      Max(a.offsets[k], b.offsets[k]) < Min(a.offsets[k] + a.shape[k], b.offsets[k] + b.shape[k])
  }

  lemma {:induction false} ProdPositive(shape: seq<int>)
    requires Sized(shape)
    ensures Prod(shape) > 0 <==> forall k :: 0 <= k < |shape| ==> shape[k] > 0
  {
    if shape != [] {
      var first, rest := shape[0], shape[1..];
      ProdPositive(rest);
      ProdNonNegative(rest);
      if first > 0 && Prod(rest) > 0 {
        NonNegative(first - 1, Prod(rest));
        forall k | 0 <= k < |shape| ensures shape[k] > 0 {
          assert k > 0 ==> rest[k - 1] > 0;
        }
      } else if Prod(rest) == 0 {
        var k :| 0 <= k < |rest| && rest[k] <= 0;
        assert shape[k + 1] <= 0;
      }
    }
  }

  lemma OverlapShares(a: Region, b: Region)
    requires Proper(a) && Proper(b) && |a.shape| == |b.shape|
    ensures Overlap(a, b) <==> Cells(a) * Cells(b) != {}
  {
    hide Cells, Prod;
    var r := Intersect(a, b);
    IntersectCells(a, b);
    NumelIsSize(r);
    ProdPositive(r.shape);
    if Overlap(a, b) {
      forall k | 0 <= k < |r.shape| ensures r.shape[k] > 0 {
      }
    } else {
      var k :| 0 <= k < |a.shape| && !(Max(a.offsets[k], b.offsets[k])
          < Min(a.offsets[k] + a.shape[k], b.offsets[k] + b.shape[k]));
      assert r.shape[k] == 0;
    }
  }

  /** Regions of which one ends where the other starts, or before, share nothing. */
  lemma PastEnd(a: Region, b: Region)
    requires Proper(a) && Proper(b) && |a.shape| == |b.shape| > 0 && a.offsets[0] + a.shape[0] <= b.offsets[0]
    ensures Cells(a) * Cells(b) == {}
  {
    OverlapShares(a, b);
  }

  method CheckDisjoint(regions: seq<Region>, bounds: seq<int>) returns (v: Verdict)
    ensures v in {Valid, OutOfBounds, Overlapping}
    ensures v == OutOfBounds <==> !AllFit(regions, bounds)
    ensures v == Valid <==> AllFit(regions, bounds) && Apart(regions)
  {
    if !AllFit(regions, bounds) {
      return OutOfBounds;
    }
    var positive := SortedPositive(regions);
    SortedPositiveIs(regions);
    forall i | 0 <= i < |regions| ensures Proper(regions[i]) {
      FitsProper(regions[i], bounds);
    }
    ApartSorted(regions);
    forall i | 0 <= i < |positive| ensures Fits(positive[i], bounds) && Proper(positive[i]) {
      assert positive[i] in positive;
      assert positive[i] in regions;
      FitsProper(positive[i], bounds);
    }
    v := Sweep(positive, bounds);
  }

  /** The sweep over sorted regions, which stops looking for a region's overlaps at the first
      region that starts past its end. */
  method Sweep(positive: seq<Region>, bounds: seq<int>) returns (v: Verdict)
    requires Sorted(positive) && forall i :: 0 <= i < |positive| ==> Fits(positive[i], bounds) && Proper(positive[i])
    ensures v == if Apart(positive) then Valid else Overlapping
  {
    for index := 0 to |positive|
      invariant forall i, j :: 0 <= i < j < |positive| && i < index ==> Cells(positive[i]) * Cells(positive[j]) == {}
    {
      hide Cells, Before, Sorted, Fits;
      var first := positive[index];
      var other := index + 1;
      while other < |positive|
        invariant index < other <= |positive|
        invariant forall j :: index < j < other ==> Cells(first) * Cells(positive[j]) == {}
      {
        var second := positive[other];
        assert |first.shape| == |bounds| && |second.shape| == |bounds| by {
          FitsRank(positive, bounds, index);
          FitsRank(positive, bounds, other);
        }
        if |bounds| > 0 && second.offsets[0] >= first.offsets[0] + first.shape[0] {
          forall j | other <= j < |positive| ensures Cells(first) * Cells(positive[j]) == {} {
            AllPast(positive, bounds, index, other, j);
          }
          break;
        }
        OverlapShares(first, second);
        if Overlap(first, second) {
          return Overlapping;
        }
        other := other + 1;
      }
    }
    return Valid;
  }

  lemma FitsRank(positive: seq<Region>, bounds: seq<int>, i: nat)
    requires i < |positive| && forall k :: 0 <= k < |positive| ==> Fits(positive[k], bounds) && Proper(positive[k])
    ensures |positive[i].shape| == |positive[i].offsets| == |bounds|
  {
  }

  lemma AllPast(positive: seq<Region>, bounds: seq<int>, index: nat, other: nat, j: nat)
    requires Sorted(positive) && forall k :: 0 <= k < |positive| ==> Fits(positive[k], bounds) && Proper(positive[k])
    requires index < other <= j < |positive| && |bounds| > 0
    requires |positive[index].shape| == |positive[index].offsets| == |positive[other].offsets| == |bounds|
    requires positive[other].offsets[0] >= positive[index].offsets[0] + positive[index].shape[0]
    ensures Cells(positive[index]) * Cells(positive[j]) == {}
  {
    assert other < j ==> Before(positive[other].offsets, positive[j].offsets);
    PastEnd(positive[index], positive[j]);
  }

  // ----- Partitions and covers

  /** A partition passes exactly if every index of the tensor is in exactly one region. */
  method CheckPartition(regions: seq<Region>, shape: seq<int>) returns (v: Verdict)
    ensures v == Valid <==> AllFit(regions, shape) && Tiles(regions, shape)
  {
    hide Tiles, Apart, Fits, Cells;
    v := CheckDisjoint(regions, shape);
    if v == Valid {
      VolumeTiles(regions, shape);
      if Total(regions) != Prod(shape) {
        v := WrongSize;
      }
    } else if AllFit(regions, shape) {
      TilesIs(regions, shape);
    }
  }

  /** How many of a region's indices the expected regions share, added up. */
  function SharedTotal(r: Region, expected: seq<Region>): int
    requires Proper(r) && forall i :: 0 <= i < |expected| ==> Proper(expected[i])
  {
    if expected == [] then 0 else SharedNumel(r, expected[0]) + SharedTotal(r, expected[1..])
  }

  lemma {:induction false} SharedTotalIs(r: Region, expected: seq<Region>, shape: seq<int>)
    requires Fits(r, shape) && Proper(r) && AllFit(expected, shape) && Apart(expected)
    requires forall i :: 0 <= i < |expected| ==> Proper(expected[i])
    ensures SharedTotal(r, expected) == |Cells(r) * Union(expected)|
  {
    hide Cells, SharedNumel;
    if expected != [] {
      var first, rest := expected[0], expected[1..];
      SharedTotalIs(r, rest, shape);
      SharedIsCommon(r, first);
      var a, b := Cells(r) * Cells(first), Cells(r) * Union(rest);
      forall ix | ix in a ensures ix !in b {
        InUnion(rest, ix);
        forall i | 0 <= i < |rest| ensures ix !in Cells(rest[i]) {
          NotBoth(expected, 0, i + 1, ix);
        }
      }
      assert a !! b && Cells(r) * Union(expected) == a + b;
    }
  }

  lemma CoveredWhenShared(r: Region, expected: seq<Region>, shape: seq<int>)
    requires Fits(r, shape) && Proper(r) && AllFit(expected, shape) && Apart(expected)
    requires forall i :: 0 <= i < |expected| ==> Proper(expected[i])
    ensures SharedTotal(r, expected) == Numel(r) <==> Cells(r) <= Union(expected)
  {
    hide Cells, SharedTotal, Numel, Union;
    SharedTotalIs(r, expected, shape);
    NumelIsSize(r);
    SubsetSize(Cells(r) * Union(expected), Cells(r));
    if Cells(r) <= Union(expected) {
      assert Cells(r) * Union(expected) == Cells(r);
    }
  }

  /** A cover of a valid partition passes exactly if the regions share nothing and have the
      same indices as the expected ones. */
  method CheckCover(regions: seq<Region>, expected: seq<Region>, shape: seq<int>) returns (v: Verdict)
    requires AllFit(expected, shape) && Apart(expected)
    ensures v == Valid <==> AllFit(regions, shape) && Apart(regions) && Union(regions) == Union(expected)
  {
    hide Cells, Fits, Apart;
    v := CheckDisjoint(regions, shape);
    if v != Valid {
      return;
    }
    UnionSize(regions, shape);
    UnionSize(expected, shape);
    if Total(regions) != Total(expected) {
      return WrongSize;
    }
    forall i | 0 <= i < |expected| ensures Proper(expected[i]) {
      FitsProper(expected[i], shape);
    }
    for i := 0 to |regions|
      invariant forall j :: 0 <= j < i ==> Cells(regions[j]) <= Union(expected)
    {
      FitsProper(regions[i], shape);
      NumelIsSize(regions[i]);
      if Numel(regions[i]) == 0 {
        continue;
      }
      CoveredWhenShared(regions[i], expected, shape);
      if SharedTotal(regions[i], expected) != Numel(regions[i]) {
        RegionInUnion(regions, i);
        return Outside;
      }
    }
    UnionWithin(regions, Union(expected));
    SubsetSize(Union(regions), Union(expected));
  }

  lemma RegionInUnion(regions: seq<Region>, i: nat)
    requires i < |regions|
    ensures Cells(regions[i]) <= Union(regions)
  {
    hide Cells;
    forall ix | ix in Cells(regions[i]) ensures ix in Union(regions) {
      InUnion(regions, ix);
    }
  }

  lemma UnionWithin(regions: seq<Region>, all: set<Index>)
    requires forall j :: 0 <= j < |regions| ==> Cells(regions[j]) <= all
    ensures Union(regions) <= all
  {
    hide Cells;
    forall ix | ix in Union(regions) ensures ix in all {
      InUnion(regions, ix);
    }
  }
}
