/** Plans whose compute participants hold shards of a tensor's rows: of single rows, or of whole
    blocks of rows. Every part that a storage region and a shard share is routed once. */
module ShardPlans {
  import opened Regions
  import opened RedistributionPlan
  // ----- Regions inside regions

  predicate Within(a: Region, b: Region) {
    && |a.offsets| == |a.shape| == |b.offsets| == |b.shape|
    && forall k :: 0 <= k < |a.shape| ==>
         b.offsets[k] <= a.offsets[k] && a.offsets[k] + a.shape[k] <= b.offsets[k] + b.shape[k]
  }

  lemma WithinCells(a: Region, b: Region, ix: Index)
    requires Within(a, b) && ix in Cells(a)
    ensures ix in Cells(b)
  {
    hide Box;
    InBox(a.offsets, a.shape, ix);
    InBox(b.offsets, b.shape, ix);
  }

  /** A region in the coordinates of a tensor that begins at `origin`. */
  function Local(r: Region, origin: seq<int>): (l: Region)
    requires |r.offsets| == |origin|
    ensures |l.offsets| == |origin| && l.shape == r.shape
  {
    Region(seq(|origin|, k requires 0 <= k < |origin| => r.offsets[k] - origin[k]), r.shape)
  }

  function Moved(ix: Index, origin: seq<int>): (t: Index)
    requires |ix| == |origin|
    ensures |t| == |ix| && forall k :: 0 <= k < |ix| ==> t[k] == ix[k] + origin[k]
  {
    seq(|ix|, k requires 0 <= k < |ix| => ix[k] + origin[k])
  }

  lemma LocalCells(r: Region, origin: seq<int>, ix: Index)
    requires |r.offsets| == |r.shape| == |origin| == |ix|
    ensures ix in Cells(Local(r, origin)) <==> Moved(ix, origin) in Cells(r)
  {
    hide Box;
    var l, t := Local(r, origin), Moved(ix, origin);
    InBox(l.offsets, l.shape, ix);
    InBox(r.offsets, r.shape, t);
    if Inside(r.offsets, r.shape, t) {
      forall k | 0 <= k < |ix| ensures l.offsets[k] <= ix[k] < l.offsets[k] + l.shape[k] {
        assert r.offsets[k] <= t[k] < r.offsets[k] + r.shape[k];
      }
    }
    if Inside(l.offsets, l.shape, ix) {
      forall k | 0 <= k < |ix| ensures r.offsets[k] <= t[k] < r.offsets[k] + r.shape[k] {
        assert l.offsets[k] <= ix[k] < l.offsets[k] + l.shape[k];
      }
    }
  }

  lemma LocalFits(r: Region, region: Region, shape: seq<int>)
    requires Within(r, region) && Fits(region, shape) && Sized(r.shape)
    ensures Fits(Local(r, region.offsets), region.shape) && Fits(r, shape)
  {
  }

  lemma CellsSize(r: Region, ix: Index)
    requires ix in Cells(r)
    ensures |ix| == |r.offsets| == |r.shape|
  {
    hide Box;
    InBox(r.offsets, r.shape, ix);
  }

  // ----- Routes of one participant

  /** The route starts inside a region, in the coordinates of that region's tensor. */
  predicate StartsIn(r: Route, region: Region) {
    Within(r.logical, region) && r.source.region == Local(r.logical, region.offsets)
  }

  /** Route `i` has the index, and no other route does. */
  ghost predicate OnlyRoute(routes: seq<Route>, ix: Index, i: nat) {
    && i < |routes| && ix in Cells(routes[i].logical)
    && forall j :: 0 <= j < |routes| && j != i ==> ix !in Cells(routes[j].logical)
  }

  lemma OnlyRouteIs(routes: seq<Route>, ix: Index)
    ensures Once(Logicals(routes), ix) <==> exists i: nat :: OnlyRoute(routes, ix, i)
  {
    hide Cells;
    if i: nat :| OnlyRoute(routes, ix, i) {
      assert ix in Cells(Logicals(routes)[i]);
    }
    if Once(Logicals(routes), ix) {
      var i: nat :| i < |routes| && ix in Cells(Logicals(routes)[i])
            && forall j :: 0 <= j < |routes| && j != i ==> ix !in Cells(Logicals(routes)[j]);
      forall j | 0 <= j < |routes| && j != i ensures ix !in Cells(routes[j].logical) {
        assert ix !in Cells(Logicals(routes)[j]);
      }
      assert OnlyRoute(routes, ix, i);
    }
  }

  lemma {:induction false} FromOnly(routes: seq<Route>, p: int, ix: Index, i: nat) returns (x: nat)
    requires OnlyRoute(routes, ix, i) && p in routes[i].source.participants
    ensures OnlyRoute(From(routes, p), ix, x)
  {
    hide Cells;
    var rest := routes[1..];
    forall j | 0 <= j < |rest| && j + 1 != i ensures ix !in Cells(rest[j].logical) {
      assert rest[j] == routes[j + 1];
    }
    if i == 0 {
      FromHas(rest, p);
      assert From(routes, p) == [routes[0]] + From(rest, p);
      forall r | r in From(rest, p) ensures ix !in Cells(r.logical) {
        assert r in rest;
      }
      x := 0;
    } else {
      var y := FromOnly(rest, p, ix, i - 1);
      FromCons(routes, p);
      x := if p in routes[0].source.participants then y + 1 else y;
    }
  }

  lemma FromCons(routes: seq<Route>, p: int)
    requires routes != []
    ensures From(routes, p) == if p in routes[0].source.participants then [routes[0]] + From(routes[1..], p)
        else From(routes[1..], p)
  {
  }

  /** What starts at a participant is some of the routes. */
  lemma {:induction false} FromHas(routes: seq<Route>, p: int)
    ensures forall r :: r in From(routes, p) ==> r in routes && p in r.source.participants
  {
    if routes != [] {
      FromHas(routes[1..], p);
    }
  }

  /** The routes that start at a participant with one region are exactly those of its elements. */
  lemma OneRegionLeaves(routes: seq<Route>, p: int, region: Region, shape: seq<int>)
    requires AllFit(Logicals(routes), shape) && Tiles(Logicals(routes), shape) && Fits(region, shape)
    requires forall r :: r in routes && p in r.source.participants ==> StartsIn(r, region)
    requires forall r :: r in routes && !(p in r.source.participants) ==> Cells(r.logical) * Cells(region) == {}
    ensures PartitionOk(Partition(p, region.shape, [region]), shape)
    ensures LeavesExactly(routes, Partition(p, region.shape, [region]), shape)
  {
    hide Cells, Within, Fits, Once, From, Local, Proper, Numel, Sized;
    var mine := From(routes, p);
    FromHas(routes, p);
    forall i | 0 <= i < |mine| ensures Fits(Logicals(mine)[i], shape) && Fits(Sources(mine)[i], region.shape) {
      assert mine[i] in mine;
      RouteFits(routes, mine[i], shape);
      FitsSized(mine[i].logical, shape);
      LocalFits(mine[i].logical, region, shape);
    }
    FitsSized(region, shape);
    forall ix | ix in Cells(region) ensures Once(Logicals(mine), ix) {
      FitsProper(region, shape);
      assert Once(Logicals(routes), ix);
      OnceOfMine(routes, p, region, ix);
    }
    OneApart(region);
    NumelIs(region);
    CoverOnce(Logicals(mine), region, shape) by {
      forall i | 0 <= i < |mine| ensures Within(Logicals(mine)[i], region) {
        assert mine[i] in mine;
      }
    }
    SourcesTile(mine, region);
  }

  lemma FitsSized(r: Region, shape: seq<int>)
    requires Fits(r, shape)
    ensures Sized(r.shape) && |r.offsets| == |r.shape|
  {
  }

  lemma RouteFits(routes: seq<Route>, r: Route, shape: seq<int>)
    requires AllFit(Logicals(routes), shape) && r in routes
    ensures Fits(r.logical, shape)
  {
    var i :| 0 <= i < |routes| && routes[i] == r;
    assert Fits(Logicals(routes)[i], shape);
  }

  lemma OnceOfMine(routes: seq<Route>, p: int, region: Region, ix: Index)
    requires Once(Logicals(routes), ix) && ix in Cells(region)
    requires forall r :: r in routes && !(p in r.source.participants) ==> Cells(r.logical) * Cells(region) == {}
    ensures Once(Logicals(From(routes, p)), ix)
  {
    hide Cells;
    OnlyRouteIs(routes, ix);
    var i: nat :| OnlyRoute(routes, ix, i);
    assert routes[i] in routes;
    Shares(Cells(routes[i].logical), Cells(region), ix);
    var x := FromOnly(routes, p, ix, i);
    OnlyRouteIs(From(routes, p), ix);
  }

  lemma Shares(a: set<Index>, b: set<Index>, ix: Index)
    requires ix in a && ix in b
    ensures a * b != {}
  {
    assert ix in a * b;
  }

  /** Regions inside another one that have each of its indices once share nothing and make it up. */
  lemma CoverOnce(regions: seq<Region>, region: Region, shape: seq<int>)
    requires forall i :: 0 <= i < |regions| ==> Within(regions[i], region)
    requires forall ix :: ix in Cells(region) ==> Once(regions, ix)
    ensures Apart(regions) && Union(regions) == Cells(region)
  {
    hide Cells, Within;
    forall i, j | 0 <= i < j < |regions| ensures Cells(regions[i]) * Cells(regions[j]) == {} {
      forall ix | ix in Cells(regions[i]) ensures ix !in Cells(regions[j]) {
        WithinCells(regions[i], region, ix);
        assert Once(regions, ix);
      }
    }
    forall ix ensures ix in Union(regions) <==> ix in Cells(region) {
      InUnion(regions, ix);
      if i :| 0 <= i < |regions| && ix in Cells(regions[i]) {
        WithinCells(regions[i], region, ix);
      }
      if ix in Cells(region) {
        assert Once(regions, ix);
      }
    }
  }

  /** In the coordinates of the region, they tile its tensor. */
  lemma SourcesTile(mine: seq<Route>, region: Region)
    requires forall r :: r in mine ==> StartsIn(r, region)
    requires forall ix :: ix in Cells(region) ==> Once(Logicals(mine), ix)
    requires |region.offsets| == |region.shape|
    ensures Tiles(Sources(mine), region.shape)
  {
    hide Cells, Local, Moved, Box;
    var whole := Whole(region.shape);
    forall ix | ix in Cells(whole) ensures Once(Sources(mine), ix) {
      CellsSize(whole, ix);
      WholeIsLocal(region);
      LocalCells(region, region.offsets, ix);
      var t := Moved(ix, region.offsets);
      assert Once(Logicals(mine), t);
      var i :| 0 <= i < |mine| && t in Cells(Logicals(mine)[i])
               && forall j :: 0 <= j < |mine| && j != i ==> t !in Cells(Logicals(mine)[j]);
      forall j | 0 <= j < |mine| ensures ix in Cells(Sources(mine)[j]) <==> t in Cells(Logicals(mine)[j]) {
        assert mine[j] in mine;
        LocalCells(mine[j].logical, region.offsets, ix);
      }
    }
  }

  lemma WholeIsLocal(region: Region)
    requires |region.offsets| == |region.shape|
    ensures Local(region, region.offsets) == Whole(region.shape)
  {
    assert Local(region, region.offsets).offsets == Zeros(|region.shape|);
  }

  // ----- All routes

  /** A compute participant, the region it computes on, and the pieces that it is routed in. */
  datatype Target = Target(participant: int, base: Region, pieces: seq<Region>)

  function Bases(targets: seq<Target>): (rs: seq<Region>)
    ensures |rs| == |targets| && forall i :: 0 <= i < |targets| ==> rs[i] == targets[i].base
  {
    seq(|targets|, i requires 0 <= i < |targets| => targets[i].base)
  }

  function TargetPartitions(targets: seq<Target>): (ps: seq<Partition>)
    ensures |ps| == |targets|
    ensures forall i :: 0 <= i < |targets|
             ==> ps[i] == Partition(targets[i].participant, targets[i].base.shape, [targets[i].base])
  {
    seq(|targets|, i requires 0 <= i < |targets| =>
        Partition(targets[i].participant, targets[i].base.shape, [targets[i].base]))
  }

  /** The pieces make up the region. */
  ghost predicate TargetOk(t: Target, shape: seq<int>) {
    && Fits(t.base, shape)
    && (forall c :: 0 <= c < |t.pieces| ==> Fits(t.pieces[c], shape) && Within(t.pieces[c], t.base))
    && forall ix :: ix in Cells(t.base) ==> Once(t.pieces, ix)
  }

  /** The regions of all participants make up the tensor. */
  ghost predicate TargetsOk(targets: seq<Target>, participants: seq<int>, shape: seq<int>) {
    && |targets| == |participants| && Tiles(Bases(targets), shape)
    && forall i :: 0 <= i < |targets| ==> targets[i].participant == participants[i] && TargetOk(targets[i], shape)
  }

  /** Which storage region, target and piece a route is for. */
  datatype Origin = Origin(a: nat, b: nat, c: nat)

  predicate OriginOk(x: Origin, mappings: seq<Mapping>, targets: seq<Target>) {
    x.a < |mappings| && x.b < |targets| && x.c < |targets[x.b].pieces|
  }

  predicate Earlier(x: Origin, y: Origin) {
    x.a < y.a || (x.a == y.a && (x.b < y.b || (x.b == y.b && x.c < y.c)))
  }

  /** A route of what a storage region and a piece share. */
  ghost predicate Carries(r: Route, m: Mapping, t: Target, piece: Region) {
    && Within(r.logical, m.region) && Within(r.logical, piece) && Sized(r.logical.shape)
    && Cells(r.logical) == Cells(m.region) * Cells(piece)
    && r.source == Endpoint(Local(r.logical, m.region.offsets), m.holders)
    && |t.base.offsets| == |r.logical.offsets|
        && r.destination == Endpoint(Local(r.logical, t.base.offsets), [t.participant])
  }

  ghost predicate RouteFor(r: Route, x: Origin, mappings: seq<Mapping>, targets: seq<Target>) {
    OriginOk(x, mappings, targets) && Carries(r, mappings[x.a], targets[x.b], targets[x.b].pieces[x.c])
  }

  ghost predicate Overlaps(x: Origin, mappings: seq<Mapping>, targets: seq<Target>) {
    OriginOk(x, mappings, targets) && Cells(mappings[x.a].region) * Cells(targets[x.b].pieces[x.c]) != {}
  }

  /** The routes up to an origin: one for every storage region and piece that share an element. */
  ghost predicate RoutedTo(routes: seq<Route>, from: seq<Origin>, mappings: seq<Mapping>,
                           targets: seq<Target>, end: Origin) {
    && |from| == |routes|
    && (forall i :: 0 <= i < |routes| ==> RouteFor(routes[i], from[i], mappings, targets) && Earlier(from[i], end))
    && (forall i, j :: 0 <= i < j < |from| ==> from[i] != from[j])
    && (forall x | Overlaps(x, mappings, targets) && Earlier(x, end) :: x in from)
  }

  lemma NoneRouted(mappings: seq<Mapping>, targets: seq<Target>)
    ensures RoutedTo([], [], mappings, targets, Origin(0, 0, 0))
  {
  }

  /** Past the last piece of a target, and past the last target. */
  lemma RoutedOn(routes: seq<Route>, from: seq<Origin>, mappings: seq<Mapping>,
                 targets: seq<Target>, x: Origin, y: Origin)
    requires RoutedTo(routes, from, mappings, targets, x) && Earlier(x, y)
    requires forall z | OriginOk(z, mappings, targets) && Earlier(z, y) :: Earlier(z, x)
    ensures RoutedTo(routes, from, mappings, targets, y)
  {
    hide RouteFor;
  }

  lemma RouteAdded(routes: seq<Route>, from: seq<Origin>, mappings: seq<Mapping>,
                   targets: seq<Target>, x: Origin, r: Route)
    requires RoutedTo(routes, from, mappings, targets, x) && RouteFor(r, x, mappings, targets)
    ensures RoutedTo(routes + [r], from + [x], mappings, targets, x.(c := x.c + 1))
  {
    hide RouteFor, Overlaps;
    forall z | Overlaps(z, mappings, targets) && Earlier(z, x.(c := x.c + 1)) ensures z in from + [x] {
      assert z == x || Earlier(z, x);
      assert (from + [x])[|from|] == x;
    }
  }

  lemma RouteSkipped(routes: seq<Route>, from: seq<Origin>, mappings: seq<Mapping>, targets: seq<Target>, x: Origin)
    requires RoutedTo(routes, from, mappings, targets, x) && !Overlaps(x, mappings, targets)
    ensures RoutedTo(routes, from, mappings, targets, x.(c := x.c + 1))
  {
    hide RouteFor, Overlaps;
    forall z | Overlaps(z, mappings, targets) && Earlier(z, x.(c := x.c + 1)) ensures z in from {
      assert z == x || Earlier(z, x);
    }
  }

  // ----- The plan is valid

  function End(mappings: seq<Mapping>): Origin {
    Origin(|mappings|, 0, 0)
  }

  /** The only origin that an index can have, if one storage region has it. */
  lemma OriginOf(mappings: seq<Mapping>, targets: seq<Target>, participants: seq<int>, shape: seq<int>, ix: Index)
      returns (b: nat, c: nat)
    requires TargetsOk(targets, participants, shape) && ix in Cells(Whole(shape))
    ensures b < |targets| && c < |targets[b].pieces| && ix in Cells(targets[b].base)
    ensures ix in Cells(targets[b].pieces[c])
    ensures forall x | OriginOk(x, mappings, targets) && ix in Cells(targets[x.b].pieces[x.c]) :: x.b == b && x.c == c
  {
    hide Cells, Fits, Within;
    b := OnlyIn(Bases(targets), ix);
    assert TargetOk(targets[b], shape);
    c := OnlyIn(targets[b].pieces, ix);
    forall x | OriginOk(x, mappings, targets) && ix in Cells(targets[x.b].pieces[x.c]) ensures x.b == b && x.c == c {
      PieceInBase(targets, x.b, x.c, shape, ix);
    }
  }

  lemma OnlyIn(regions: seq<Region>, ix: Index) returns (i: nat)
    requires Once(regions, ix)
    ensures i < |regions| && ix in Cells(regions[i])
    ensures forall j :: 0 <= j < |regions| && ix in Cells(regions[j]) ==> j == i
  {
    hide Cells;
    var k: nat :| k < |regions| && ix in Cells(regions[k])
                  && forall j :: 0 <= j < |regions| && j != k ==> ix !in Cells(regions[j]);
    i := k;
  }

  lemma PieceInBase(targets: seq<Target>, b: nat, c: nat, shape: seq<int>, ix: Index)
    requires b < |targets| && TargetOk(targets[b], shape) && c < |targets[b].pieces|
    requires ix in Cells(targets[b].pieces[c])
    ensures ix in Cells(Bases(targets)[b])
  {
    hide Cells, Fits, Within, Once;
    WithinCells(targets[b].pieces[c], targets[b].base, ix);
  }

  /** The routes have every element once exactly if the storage regions do. */
  lemma RoutesTile(routes: seq<Route>, from: seq<Origin>, mappings: seq<Mapping>, targets: seq<Target>,
                   participants: seq<int>, shape: seq<int>)
    requires RoutedTo(routes, from, mappings, targets, End(mappings))
    requires AllFit(MappedRegions(mappings), shape) && TargetsOk(targets, participants, shape)
    ensures AllFit(Logicals(routes), shape)
    ensures Tiles(Logicals(routes), shape) <==> Tiles(MappedRegions(mappings), shape)
  {
    hide Cells, Fits, Within, Once, TargetsOk, RoutedTo, MappedRegions, Local;
    RoutesFit(routes, from, mappings, targets, shape);
    forall ix | ix in Cells(Whole(shape)) ensures Once(Logicals(routes), ix) <==> Once(MappedRegions(mappings), ix) {
      var b, c := OriginOf(mappings, targets, participants, shape, ix);
      OnlyRouteIs(routes, ix);
      if Once(MappedRegions(mappings), ix) {
        var i := RouteOf(routes, from, mappings, targets, ix, b, c);
      }
      if i: nat :| OnlyRoute(routes, ix, i) {
        RegionOf(routes, from, mappings, targets, ix, b, c, i);
      }
    }
  }

  lemma RoutesFit(routes: seq<Route>, from: seq<Origin>, mappings: seq<Mapping>, targets: seq<Target>, shape: seq<int>)
    requires RoutedTo(routes, from, mappings, targets, End(mappings)) && AllFit(MappedRegions(mappings), shape)
    ensures AllFit(Logicals(routes), shape)
  {
    hide Cells, Fits, Within, Local, Overlaps;
    forall i | 0 <= i < |routes| ensures Fits(Logicals(routes)[i], shape) {
      assert RouteFor(routes[i], from[i], mappings, targets);
      assert Fits(MappedRegions(mappings)[from[i].a], shape);
      LocalFits(routes[i].logical, mappings[from[i].a].region, shape);
    }
  }

  lemma RouteOf(routes: seq<Route>, from: seq<Origin>, mappings: seq<Mapping>, targets: seq<Target>, ix: Index, b: nat,
                c: nat)
    returns (i: nat)
    requires RoutedTo(routes, from, mappings, targets, End(mappings)) && Once(MappedRegions(mappings), ix)
    requires b < |targets| && c < |targets[b].pieces| && ix in Cells(targets[b].pieces[c])
    requires forall x | OriginOk(x, mappings, targets) && ix in Cells(targets[x.b].pieces[x.c]) :: x.b == b && x.c == c
    ensures OnlyRoute(routes, ix, i)
  {
    hide Cells, Within, Local, Sized, Carries;
    var a: nat :| a < |mappings| && ix in Cells(MappedRegions(mappings)[a])
               && forall j :: 0 <= j < |mappings| && j != a ==> ix !in Cells(MappedRegions(mappings)[j]);
    var x := Origin(a, b, c);
    Shares(Cells(mappings[a].region), Cells(targets[b].pieces[c]), ix);
    assert Overlaps(x, mappings, targets);
    i :| 0 <= i < |from| && from[i] == x;
    HasCell(routes[i], from[i], mappings, targets, ix);
    forall j | 0 <= j < |routes| && ix in Cells(routes[j].logical) ensures j == i {
      HasCell(routes[j], from[j], mappings, targets, ix);
      assert ix in Cells(MappedRegions(mappings)[from[j].a]);
    }
  }

  /** A route has the elements that its storage region and its piece share. */
  lemma HasCell(r: Route, x: Origin, mappings: seq<Mapping>, targets: seq<Target>, ix: Index)
    requires RouteFor(r, x, mappings, targets)
    ensures ix in Cells(r.logical) <==> ix in Cells(mappings[x.a].region) && ix in Cells(targets[x.b].pieces[x.c])
  {
    hide Cells;
  }

  lemma RegionOf(routes: seq<Route>, from: seq<Origin>, mappings: seq<Mapping>, targets: seq<Target>,
                 ix: Index, b: nat, c: nat, i: nat)
    requires RoutedTo(routes, from, mappings, targets, End(mappings)) && OnlyRoute(routes, ix, i)
    requires b < |targets| && c < |targets[b].pieces| && ix in Cells(targets[b].pieces[c])
    requires forall x | OriginOk(x, mappings, targets) && ix in Cells(targets[x.b].pieces[x.c]) :: x.b == b && x.c == c
    ensures Once(MappedRegions(mappings), ix)
  {
    hide Cells, Within, Local, Sized;
    assert RouteFor(routes[i], from[i], mappings, targets);
    var a := from[i].a;
    assert ix in Cells(MappedRegions(mappings)[a]);
    forall j: nat | j < |mappings| && ix in Cells(MappedRegions(mappings)[j]) ensures j == a {
      var x := Origin(j, b, c);
      Shares(Cells(mappings[j].region), Cells(targets[b].pieces[c]), ix);
      assert Overlaps(x, mappings, targets);
      var k: nat :| k < |from| && from[k] == x;
      assert RouteFor(routes[k], from[k], mappings, targets);
    }
  }

  /** With the right targets, the plan is valid exactly if the storage regions make up the tensor. */
  lemma PlanIsValid(routes: seq<Route>, from: seq<Origin>, mappings: seq<Mapping>,
                    targets: seq<Target>, participants: seq<int>,
                    shape: seq<int>, held: map<int, Region>)
    requires RoutedTo(routes, from, mappings, targets, End(mappings))
    requires AllFit(MappedRegions(mappings), shape) && TargetsOk(targets, participants, shape)
    requires Distinct(participants) && OneEach(mappings, participants)
    requires Collected(mappings, |mappings|, held) && forall i :: 0 <= i < |participants| ==> participants[i] in held
    ensures ValidPlan(Plan(participants, shape, HeldPartitions(participants, held), TargetPartitions(targets), routes))
            <==> Tiles(MappedRegions(mappings), shape)
  {
    hide AllFit, Tiles, TargetsOk, RoutedTo, OneEach, Collected, PartitionOk, LeavesExactly, RouteOk;
    RoutesTile(routes, from, mappings, targets, participants, shape);
    TargetsAre(targets, participants, shape);
    if Tiles(MappedRegions(mappings), shape) {
      forall i | 0 <= i < |routes| ensures RouteOk(routes[i], participants) {
        RouteIsOk(routes, from, mappings, targets, participants, shape, i);
      }
      forall i | 0 <= i < |participants|
        ensures PartitionOk(HeldPartitions(participants, held)[i], shape)
        ensures LeavesExactly(routes, HeldPartitions(participants, held)[i], shape)
        ensures PartitionOk(TargetPartitions(targets)[i], shape)
        ensures LeavesExactly(Inverse(routes), TargetPartitions(targets)[i], shape)
      {
        StorageLeaves(routes, from, mappings, targets, participants, shape, held, i);
        ComputeLeaves(routes, from, mappings, targets, participants, shape, i);
      }
    }
  }

  lemma TargetsAre(targets: seq<Target>, participants: seq<int>, shape: seq<int>)
    requires TargetsOk(targets, participants, shape)
    ensures |targets| == |participants| && forall i :: 0 <= i < |targets| ==> targets[i].participant == participants[i]
    ensures Sized(shape) ==> AllFit(Bases(targets), shape)
  {
    hide Fits, Within, Tiles;
    forall i | 0 <= i < |targets| ensures Fits(Bases(targets)[i], shape) {
      assert TargetOk(targets[i], shape);
    }
  }

  lemma RouteIsOk(routes: seq<Route>, from: seq<Origin>, mappings: seq<Mapping>, targets: seq<Target>,
                  participants: seq<int>, shape: seq<int>,
                  i: nat)
    requires RoutedTo(routes, from, mappings, targets, End(mappings)) && i < |routes|
    requires OneEach(mappings, participants) && TargetsOk(targets, participants, shape)
    ensures RouteOk(routes[i], participants)
  {
    hide Cells, Within, Local, Tiles, Overlaps, Prod, TargetOk, Bases;
    assert RouteFor(routes[i], from[i], mappings, targets);
    assert SomeOf(mappings[from[i].a].holders, participants);
    assert participants[from[i].b] in participants;
  }

  lemma StorageLeaves(routes: seq<Route>, from: seq<Origin>, mappings: seq<Mapping>,
                      targets: seq<Target>, participants: seq<int>,
                      shape: seq<int>, held: map<int, Region>, i: nat)
    requires RoutedTo(routes, from, mappings, targets, End(mappings))
    requires AllFit(Logicals(routes), shape) && Tiles(Logicals(routes), shape)
    requires AllFit(MappedRegions(mappings), shape) && Tiles(MappedRegions(mappings), shape)
    requires OneEach(mappings, participants) && Collected(mappings, |mappings|, held) && i < |participants|
    requires participants[i] in held
    ensures PartitionOk(Partition(participants[i], held[participants[i]].shape, [held[participants[i]]]), shape)
    ensures LeavesExactly(routes, Partition(participants[i], held[participants[i]].shape, [held[participants[i]]]),
        shape)
  {
    hide Cells, Within, Local, Tiles, Fits, Overlaps, SomeOf, Sized, LeavesExactly, PartitionOk, RouteFor, StartsIn;
    var p := participants[i];
    var k: nat :| k < |mappings| && p in mappings[k].holders && held[p] == mappings[k].region;
    TilesIs(MappedRegions(mappings), shape);
    assert Fits(MappedRegions(mappings)[k], shape);
    forall r | r in routes
      ensures p in r.source.participants ==> StartsIn(r, held[p])
      ensures p !in r.source.participants ==> Cells(r.logical) * Cells(held[p]) == {}
    {
      var j: nat :| j < |routes| && routes[j] == r;
      RouteOfHolder(routes[j], from[j], mappings, targets, p, k);
    }
    OneRegionLeaves(routes, p, held[p], shape);
  }

  /** A route starts at a participant exactly if it starts in the region that the participant holds. */
  lemma RouteOfHolder(r: Route, x: Origin, mappings: seq<Mapping>, targets: seq<Target>, p: int, k: nat)
    requires RouteFor(r, x, mappings, targets) && k < |mappings| && p in mappings[k].holders
    requires Apart(MappedRegions(mappings))
    requires forall a :: 0 <= a < |mappings| && p in mappings[a].holders ==> a == k
    ensures p in r.source.participants ==> StartsIn(r, mappings[k].region)
    ensures p !in r.source.participants ==> Cells(r.logical) * Cells(mappings[k].region) == {}
  {
    hide Cells, Within, Local, Sized;
    if p !in r.source.participants {
      RegionsApart(MappedRegions(mappings), x.a, k);
    }
  }

  lemma RegionsApart(regions: seq<Region>, a: nat, k: nat)
    requires Apart(regions) && a < |regions| && k < |regions| && a != k
    ensures Cells(regions[a]) * Cells(regions[k]) == {}
  {
    hide Cells;
    assert Cells(regions[if a < k then a else k]) * Cells(regions[if a < k then k else a]) == {};
  }

  lemma ComputeLeaves(routes: seq<Route>, from: seq<Origin>, mappings: seq<Mapping>,
                      targets: seq<Target>, participants: seq<int>,
                      shape: seq<int>, i: nat)
    requires RoutedTo(routes, from, mappings, targets, End(mappings))
    requires AllFit(Logicals(routes), shape) && Tiles(Logicals(routes), shape)
    requires TargetsOk(targets, participants, shape) && Distinct(participants) && i < |targets|
    ensures PartitionOk(Partition(targets[i].participant, targets[i].base.shape, [targets[i].base]), shape)
    ensures LeavesExactly(Inverse(routes), Partition(targets[i].participant, targets[i].base.shape, [targets[i].base]),
        shape)
  {
    hide Cells, Within, Local, Tiles, Fits, Overlaps, Sized, LeavesExactly, PartitionOk, Once;
    var p, base, back := targets[i].participant, targets[i].base, Inverse(routes);
    TargetsAre(targets, participants, shape);
    TilesIs(Bases(targets), shape);
    assert TargetOk(targets[i], shape);
    assert Logicals(back) == Logicals(routes);
    forall r | r in back
      ensures p in r.source.participants ==> StartsIn(r, base)
      ensures p !in r.source.participants ==> Cells(r.logical) * Cells(base) == {}
    {
      var j: nat :| j < |back| && back[j] == r;
      assert RouteFor(routes[j], from[j], mappings, targets);
      var b := from[j].b;
      assert TargetOk(targets[b], shape);
      var piece := targets[b].pieces[from[j].c];
      WithinWithin(r.logical, piece, targets[b].base);
      if p !in r.source.participants {
        RegionsApart(Bases(targets), b, i);
        CellsWithin(r.logical, targets[b].base);
      }
    }
    OneRegionLeaves(back, p, base, shape);
  }

  lemma WithinWithin(a: Region, b: Region, c: Region)
    requires Within(a, b) && Within(b, c)
    ensures Within(a, c)
  {
  }

  lemma CellsWithin(a: Region, b: Region)
    requires Within(a, b)
    ensures Cells(a) <= Cells(b)
  {
    hide Cells, Within;
    forall ix | ix in Cells(a) ensures ix in Cells(b) {
      WithinCells(a, b, ix);
    }
  }
}
