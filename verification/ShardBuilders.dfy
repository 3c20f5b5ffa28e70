/** The plan builders for compute on shards of rows, and on shards of blocks of rows. */
module ShardBuilders {
  import opened Basics
  import opened Regions
  import opened RegionValidator
  import opened RedistributionPlan
  import opened BlockShards
  import opened ShardPlans

  // ----- Rows of a tensor

  /** The rows from `start` to `end`. */
  function RowsOf(shape: seq<int>, start: int, end: int): Region
    requires shape != []
  {
    Region([start] + Zeros(|shape| - 1), [end - start] + shape[1..])
  }

  lemma InRows(shape: seq<int>, start: int, end: int, ix: Index)
    requires shape != [] && Sized(shape) && 0 <= start <= end <= shape[0]
    ensures ix in Cells(RowsOf(shape, start, end)) <==> ix in Cells(Whole(shape)) && |ix| > 0 && start <= ix[0] < end
  {
    hide Box;
    var r, w := RowsOf(shape, start, end), Whole(shape);
    InBox(r.offsets, r.shape, ix);
    InBox(w.offsets, w.shape, ix);
    if Inside(w.offsets, w.shape, ix) && start <= ix[0] < end {
      forall k | 0 <= k < |ix| ensures r.offsets[k] <= ix[k] < r.offsets[k] + r.shape[k] {
        assert w.offsets[k] <= ix[k] < w.offsets[k] + w.shape[k];
      }
    }
    if Inside(r.offsets, r.shape, ix) {
      assert r.offsets[0] <= ix[0] < r.offsets[0] + r.shape[0];
      forall k | 0 <= k < |ix| ensures w.offsets[k] <= ix[k] < w.offsets[k] + w.shape[k] {
        assert r.offsets[k] <= ix[k] < r.offsets[k] + r.shape[k];
      }
    }
  }

  lemma RowsFit(shape: seq<int>, start: int, end: int)
    requires shape != [] && Sized(shape) && 0 <= start <= end <= shape[0]
    ensures Fits(RowsOf(shape, start, end), shape)
  {
  }

  lemma RowsWithin(shape: seq<int>, start: int, end: int, low: int, high: int)
    requires shape != [] && low <= start && end <= high
    ensures Within(RowsOf(shape, start, end), RowsOf(shape, low, high))
  {
  }

  /** Ranges of rows that follow each other have each row between their ends once. */
  lemma RowsFollow(shape: seq<int>, edges: seq<int>, regions: seq<Region>, ix: Index)
    requires shape != [] && Sized(shape) && |edges| == |regions| + 1
    requires forall j, k :: 0 <= j <= k < |edges| ==> 0 <= edges[j] <= edges[k] <= shape[0]
    requires forall j :: 0 <= j < |regions| ==> regions[j] == RowsOf(shape, edges[j], edges[j + 1])
    requires ix in Cells(Whole(shape)) && |ix| > 0 && edges[0] <= ix[0] < edges[|regions|]
    ensures Once(regions, ix)
  {
    hide Cells, RowsOf, Sized;
    var j := RangeOf(edges, ix[0], |regions|);
    InRows(shape, edges[j], edges[j + 1], ix);
    forall k | 0 <= k < |regions| && k != j ensures ix !in Cells(regions[k]) {
      InRows(shape, edges[k], edges[k + 1], ix);
      assert k < j ==> edges[k + 1] <= edges[j];
    }
  }

  lemma {:induction false} RangeOf(edges: seq<int>, row: int, n: nat) returns (j: nat)
    requires n < |edges| && edges[0] <= row < edges[n]
    ensures j < n && edges[j] <= row < edges[j + 1]
  {
    if edges[n - 1] <= row {
      j := n - 1;
    } else {
      j := RangeOf(edges, row, n - 1);
    }
  }

  // ----- The participants in the order of their shards

  function SetOf(s: seq<int>): set<int> {
    set p | p in s
  }

  predicate Reorders(shards: seq<int>, participants: seq<int>) {
    |shards| == |participants| && SetOf(shards) == SetOf(participants)
  }

  /** A participant's place, the last one if it has several. */
  function LastIndex(s: seq<int>, p: int): (k: nat)
    requires p in s
    ensures k < |s| && s[k] == p
  {
    if s[|s| - 1] == p then |s| - 1 else LastIndex(s[..|s| - 1], p)
  }

  lemma {:induction false} SizeIs(s: seq<int>)
    ensures |SetOf(s)| <= |s| && (|SetOf(s)| == |s| <==> Distinct(s))
  {
    if s != [] {
      var rest, last := s[..|s| - 1], s[|s| - 1];
      SizeIs(rest);
      assert SetOf(s) == SetOf(rest) + {last};
      if last in rest {
        assert SetOf(s) == SetOf(rest);
        var k :| 0 <= k < |rest| && rest[k] == last;
        assert s[k] == s[|s| - 1];
      } else {
        forall i, j | 0 <= i < j < |s| && Distinct(rest) ensures s[i] != s[j] {
          assert s[i] == rest[i];
        }
        if Distinct(s) {
          forall i, j | 0 <= i < j < |rest| ensures rest[i] != rest[j] {
            assert s[i] != s[j];
          }
        }
      }
    }
  }

  /** Every place of the order is the place of one participant. */
  lemma PlaceTaken(shards: seq<int>, participants: seq<int>, j: nat) returns (i: nat)
    requires Reorders(shards, participants) && Distinct(participants) && j < |shards|
    ensures i < |participants| && participants[i] in shards && LastIndex(shards, participants[i]) == j
  {
    SizeIs(shards);
    SizeIs(participants);
    assert shards[j] in SetOf(participants);
    var k: nat :| k < |participants| && participants[k] == shards[j];
    i := k;
  }

  // ----- The compute participants' shards

  /** Where the rows of shard `j` begin. */
  function Edge(sizes: seq<nat>, units: nat, n: nat, j: nat): (row: nat)
    requires SizesOk(sizes) && n > 0
  {
    BlockStart(sizes, LocalShard(units, n, j).1)
  }

  function ShardRows(shape: seq<int>, sizes: seq<nat>, units: nat, n: nat, j: nat): Region
    requires shape != [] && SizesOk(sizes) && n > 0
  {
    var shard := LocalShard(units, n, j);
    RowsOf(shape, BlockStart(sizes, shard.1), BlockStart(sizes, shard.1 + shard.0))
  }

  lemma EdgesInOrder(sizes: seq<nat>, units: nat, n: nat, j: nat, k: nat)
    requires SizesOk(sizes) && n > 0 && j <= k <= n
    ensures 0 <= Edge(sizes, units, n, j) <= Edge(sizes, units, n, k) <= BlockStart(sizes, units)
  {
    hide BlockStart, LocalShard;
    ShardsEnd(units, n);
    if j < k {
      ShardsInOrder(units, n, j, k);
    }
    if k < n {
      ShardsInOrder(units, n, k, n);
    }
    StartsInOrder(sizes, LocalShard(units, n, j).1, LocalShard(units, n, k).1);
    StartsInOrder(sizes, LocalShard(units, n, k).1, units);
  }

  lemma StartsInOrder(sizes: seq<nat>, k: nat, l: nat)
    requires SizesOk(sizes) && k <= l
    ensures BlockStart(sizes, k) <= BlockStart(sizes, l)
  {
    hide BlockStart;
    if k < l {
      BlocksInOrder(sizes, k, l);
    }
  }

  lemma ShardRowsAre(shape: seq<int>, sizes: seq<nat>, units: nat, n: nat, j: nat)
    requires shape != [] && SizesOk(sizes) && n > 0
    ensures ShardRows(shape, sizes, units, n, j) == RowsOf(shape, Edge(sizes, units, n, j),
        Edge(sizes, units, n, j + 1))
  {
    hide BlockStart, LocalShard;
    ShardsFollow(units, n, j);
  }

  /** Each participant computes on the rows of its shard. */
  ghost predicate ShardTargets(targets: seq<Target>, participants: seq<int>, shards: seq<int>, shape: seq<int>,
                               sizes: seq<nat>, units: nat)
    requires shape != [] && SizesOk(sizes)
  {
    && |targets| == |participants|
    && forall i :: 0 <= i < |targets| ==>
         && targets[i].participant == participants[i] && participants[i] in shards
         && targets[i].base == ShardRows(shape, sizes, units, |participants|, LastIndex(shards, participants[i]))
  }

  /** The shards make up the tensor. */
  lemma ShardsTile(targets: seq<Target>, participants: seq<int>, shards: seq<int>, shape: seq<int>,
                   sizes: seq<nat>, units: nat)
    requires shape != [] && Sized(shape) && SizesOk(sizes) && BlockStart(sizes, 0) == 0
    requires BlockStart(sizes, units) == shape[0]
    requires ShardTargets(targets, participants, shards, shape, sizes, units)
    requires Reorders(shards, participants) && Distinct(participants) && participants != []
    ensures Tiles(Bases(targets), shape)
  {
    hide Cells, RowsOf, BlockStart, LocalShard, Sized, Edge, ShardRows, SetOf, Distinct, LastIndex;
    var n := |participants|;
    var edges := seq(n + 1, j requires 0 <= j < n + 1 => Edge(sizes, units, n, j));
    var regions := seq(n, j requires 0 <= j < n => ShardRows(shape, sizes, units, n, j));
    forall j, k | 0 <= j <= k < |edges| ensures 0 <= edges[j] <= edges[k] <= shape[0] {
      EdgesInOrder(sizes, units, n, j, k);
    }
    forall j | 0 <= j < n ensures regions[j] == RowsOf(shape, edges[j], edges[j + 1]) {
      ShardRowsAre(shape, sizes, units, n, j);
    }
    EdgeEnds(sizes, units, n);
    forall ix | ix in Cells(Whole(shape)) ensures Once(Bases(targets), ix) {
      FirstInside(shape, ix);
      RowsFollow(shape, edges, regions, ix);
      var j := OnlyIn(regions, ix);
      var i := PlaceTaken(shards, participants, j);
      assert ix in Cells(Bases(targets)[i]);
      forall k | 0 <= k < n && ix in Cells(Bases(targets)[k]) ensures k == i {
        assert ix in Cells(regions[LastIndex(shards, participants[k])]);
        SamePlace(shards, participants, i, k);
      }
    }
  }

  lemma EdgeEnds(sizes: seq<nat>, units: nat, n: nat)
    requires SizesOk(sizes) && n > 0
    ensures Edge(sizes, units, n, 0) == BlockStart(sizes, 0) && Edge(sizes, units, n, n) == BlockStart(sizes, units)
  {
    hide BlockStart, LocalShard;
    ShardsFollow(units, n, 0);
    ShardsEnd(units, n);
  }

  lemma FirstInside(shape: seq<int>, ix: Index)
    requires shape != [] && ix in Cells(Whole(shape))
    ensures |ix| > 0 && 0 <= ix[0] < shape[0]
  {
    hide Box;
    InBox(Whole(shape).offsets, shape, ix);
  }

  lemma SamePlace(shards: seq<int>, participants: seq<int>, i: nat, k: nat)
    requires Distinct(participants) && i < |participants| && k < |participants| && participants[i] in shards
    requires participants[k] in shards
    requires LastIndex(shards, participants[i]) == LastIndex(shards, participants[k])
    ensures i == k
  {
  }

  lemma ShardFits(shape: seq<int>, sizes: seq<nat>, units: nat, n: nat, j: nat)
    requires shape != [] && Sized(shape) && SizesOk(sizes) && BlockStart(sizes, units) == shape[0] && j < n
    ensures Fits(ShardRows(shape, sizes, units, n, j), shape)
  {
    hide BlockStart, LocalShard;
    EdgesInOrder(sizes, units, n, j, j + 1);
    ShardRowsAre(shape, sizes, units, n, j);
    RowsFit(shape, Edge(sizes, units, n, j), Edge(sizes, units, n, j + 1));
  }

  lemma InShards(shards: seq<int>, participants: seq<int>, i: nat)
    requires Reorders(shards, participants) && i < |participants|
    ensures participants[i] in shards
  {
    assert participants[i] in SetOf(participants);
  }

  /** Each participant has the rows between the edges of its shard, in the order of `shards`. */
  ghost predicate Between(compute: seq<Partition>, participants: seq<int>, shards: seq<int>, shape: seq<int>,
                          edges: seq<nat>)
    requires shape != []
  {
    && |compute| == |participants| == |edges| - 1 == |shards|
    && forall i :: 0 <= i < |compute| ==>
         && participants[i] in shards
         && var j := LastIndex(shards, participants[i]);
            compute[i].regions == [RowsOf(shape, edges[j], edges[j + 1])]
  }

  /** The participants, if there are any, share the rows evenly. */
  ghost predicate RowsShared(compute: seq<Partition>, participants: seq<int>, shards: seq<int>, shape: seq<int>)
    requires shape != [] && Sized(shape)
  {
    participants == [] ||
    exists edges :: EvenEdges(edges, |participants|, shape[0]) && Between(compute, participants, shards, shape, edges)
  }

  /** The participants, if there are any, share the blocks evenly. */
  ghost predicate BlocksShared(compute: seq<Partition>, participants: seq<int>, shards: seq<int>, shape: seq<int>,
                               sizes: seq<nat>, blocks: nat)
    requires shape != [] && SizesOk(sizes)
  {
    participants == [] ||
    exists edges ::
      && EvenEdges(edges, |participants|, blocks)
      && Between(compute, participants, shards, shape, StartsOf(sizes, edges))
  }

  /** Where the blocks at the edges start. */
  function StartsOf(sizes: seq<nat>, edges: seq<nat>): (starts: seq<nat>)
    requires SizesOk(sizes)
    ensures |starts| == |edges| && forall j :: 0 <= j < |edges| ==> starts[j] == BlockStart(sizes, edges[j])
  {
    seq(|edges|, j requires 0 <= j < |edges| => BlockStart(sizes, edges[j]))
  }

  lemma TargetsShared(targets: seq<Target>, participants: seq<int>, shards: seq<int>, shape: seq<int>, sizes: seq<nat>,
                      units: nat)
    requires shape != [] && Sized(shape) && SizesOk(sizes) && participants != []
    requires ShardTargets(targets, participants, shards, shape, sizes, units) && Reorders(shards, participants)
    ensures EvenEdges(EdgesOf(units, |participants|), |participants|, units)
    ensures Between(TargetPartitions(targets), participants, shards, shape,
        StartsOf(sizes, EdgesOf(units, |participants|)))
  {
    hide LocalShard, BlockStart, RowsOf, EvenEdges, SetOf;
    SizeIs(shards);
    SizeIs(participants);
    EdgesEven(units, |participants|);
    var edges := EdgesOf(units, |participants|);
    forall i | 0 <= i < |participants|
      ensures participants[i] in shards
      ensures var j := LastIndex(shards, participants[i]);
              TargetPartitions(targets)[i].regions
                  == [RowsOf(shape, StartsOf(sizes, edges)[j], StartsOf(sizes, edges)[j + 1])]
    {
      ShardRowsAre(shape, sizes, units, |participants|, LastIndex(shards, participants[i]));
    }
  }

  // ----- Checking and finishing a plan

  /** Everything but that the storage regions make up the tensor is known to be right. */
  lemma FinishedPlan(routes: seq<Route>, from: seq<Origin>, mappings: seq<Mapping>,
                     targets: seq<Target>, participants: seq<int>,
                     shards: seq<int>, shape: seq<int>, sizes: seq<nat>, units: nat, held: map<int, Region>)
    requires shape != [] && Sized(shape) && SizesOk(sizes) && BlockStart(sizes, 0) == 0
    requires BlockStart(sizes, units) == shape[0]
    requires ShardTargets(targets, participants, shards, shape, sizes, units) && Reorders(shards, participants)
    requires forall i :: 0 <= i < |targets| ==> TargetOk(targets[i], shape)
    requires RoutedTo(routes, from, mappings, targets, End(mappings)) && AllFit(MappedRegions(mappings), shape)
    requires OneEach(mappings, participants)
    requires Collected(mappings, |mappings|, held) && forall i :: 0 <= i < |participants| ==> participants[i] in held
    ensures ValidPlan(Plan(participants, shape, HeldPartitions(participants, held), TargetPartitions(targets), routes))
            <==> StorageOk(mappings, participants, shape)
  {
    hide TargetOk, RoutedTo, OneEach, Collected, Reorders, ShardRows, Tiles, AllFit, PartitionOk, LeavesExactly,
         RouteOk, BlockStart;
    if Distinct(participants) {
      if participants == [] {
        NobodyHolds(mappings, participants);
        assert |routes| == 0 by {
          NothingRouted(routes, from, mappings, targets);
        }
        assert Logicals(routes) == [] && MappedRegions(mappings) == [];
      } else {
        ShardsTile(targets, participants, shards, shape, sizes, units);
        assert TargetsOk(targets, participants, shape);
        PlanIsValid(routes, from, mappings, targets, participants, shape, held);
      }
    }
  }

  lemma NobodyHolds(mappings: seq<Mapping>, participants: seq<int>)
    requires OneEach(mappings, participants) && participants == []
    ensures mappings == []
  {
    if mappings != [] {
      SomeOfSome(mappings[0].holders, participants);
    }
  }

  lemma SomeOfSome(some: seq<int>, all: seq<int>)
    requires SomeOf(some, all)
    ensures all != []
  {
    var p := some[0];
    assert p in some;
    assert p in all;
  }

  lemma NothingRouted(routes: seq<Route>, from: seq<Origin>, mappings: seq<Mapping>, targets: seq<Target>)
    requires RoutedTo(routes, from, mappings, targets, End(mappings))
    ensures routes != [] ==> mappings != []
  {
    hide Carries;
    assert routes != [] ==> RouteFor(routes[0], from[0], mappings, targets);
  }

  // ----- Shards of rows

  lemma SingleRows(k: nat)
    ensures SizesOk([1]) && BlockStart([1], k) == k
  {
    assert [1][..0] == [];
    assert Sum([1]) == Sum([]) + 1;
  }

  lemma Dim0Base(shape: seq<int>, n: nat, j: nat)
    requires shape != [] && Sized(shape) && n > 0 && SizesOk([1])
    ensures ShardRows(shape, [1], shape[0], n, j) ==
            Region([LocalShard(shape[0], n, j).1] + Zeros(|shape| - 1), [LocalShard(shape[0], n, j).0] + shape[1..])
  {
    hide LocalShard, BlockStart;
    var shard := LocalShard(shape[0], n, j);
    SingleRows(shard.1);
    SingleRows(shard.1 + shard.0);
  }

  method Dim0Targets(participants: seq<int>, shards: seq<int>, shape: seq<int>) returns (targets: seq<Target>)
    requires shape != [] && Sized(shape) && Reorders(shards, participants) && SizesOk([1])
    ensures ShardTargets(targets, participants, shards, shape, [1], shape[0])
    ensures forall i :: 0 <= i < |targets| ==> targets[i].pieces == [targets[i].base] && TargetOk(targets[i], shape)
  {
    hide LocalShard, BlockStart, TargetOk, ShardRows, SetOf;
    targets := [];
    for i := 0 to |participants|
      invariant |targets| == i
      invariant forall k :: 0 <= k < i ==>
                  && targets[k].participant == participants[k] && participants[k] in shards
                  && targets[k].base == ShardRows(shape, [1], shape[0], |participants|,
                      LastIndex(shards, participants[k]))
                  && targets[k].pieces == [targets[k].base] && TargetOk(targets[k], shape)
    {
      InShards(shards, participants, i);
      var j := LastIndex(shards, participants[i]);
      var shard := LocalShard(shape[0], |participants|, j);
      var base := Region([shard.1] + Zeros(|shape| - 1), [shard.0] + shape[1..]);
      Dim0Base(shape, |participants|, j);
      SingleRows(shape[0]);
      ShardFits(shape, [1], shape[0], |participants|, j);
      OnePiece(participants[i], base, shape);
      targets := targets + [Target(participants[i], base, [base])];
    }
  }

  lemma OnePiece(p: int, base: Region, shape: seq<int>)
    requires Fits(base, shape)
    ensures TargetOk(Target(p, base, [base]), shape)
  {
    hide Cells;
    forall ix | ix in Cells(base) ensures Once([base], ix) {
      assert ix in Cells([base][0]);
    }
  }

  lemma CommonCarries(m: Mapping, t: Target, piece: Region, r: Region, shape: seq<int>)
    requires Fits(m.region, shape) && Fits(piece, shape) && Fits(t.base, shape)
    requires Proper(m.region) && Proper(piece) && Intersection(m.region, piece) == Common(r)
    ensures |r.offsets| == |m.region.offsets| == |t.base.offsets|
    ensures Carries(Route(r, Endpoint(Local(r, m.region.offsets), m.holders),
        Endpoint(Local(r, t.base.offsets), [t.participant])), m, t, piece)
  {
    hide Cells, Prod, Local;
    SharedIsCommon(m.region, piece);
    CommonWithin(m.region, piece, r);
  }

  /** No dimension of what two regions share is empty, so it lies in both. */
  lemma CommonWithin(a: Region, b: Region, r: Region)
    requires Proper(a) && Proper(b) && |a.shape| == |b.shape| && Intersection(a, b) == Common(r)
    ensures Within(r, a) && Within(r, b) && Sized(r.shape)
  {
    hide Prod;
    forall k | 0 <= k < |r.shape| ensures r.shape[k] > 0 {
      NumelIs(r);
      NoneEmpty(r.shape, k);
    }
  }

  lemma {:induction false} NoneEmpty(shape: seq<int>, k: nat)
    requires Sized(shape) && Prod(shape) != 0 && k < |shape|
    ensures shape[k] > 0
  {
    ProdNonNegative(shape);
    ProdTail(shape);
    if k > 0 {
      NoneEmpty(shape[1..], k - 1);
    }
  }

  method Dim0Routes(mappings: seq<Mapping>, targets: seq<Target>, shape: seq<int>)
      returns (routes: seq<Route>, ghost from: seq<Origin>)
    requires AllFit(MappedRegions(mappings), shape)
    requires forall i :: 0 <= i < |targets| ==> targets[i].pieces == [targets[i].base] && TargetOk(targets[i], shape)
    ensures RoutedTo(routes, from, mappings, targets, End(mappings))
  {
    hide RoutedTo, Fits, Cells, Intersect, Local, Carries, Prod, Proper;
    routes, from := [], [];
    NoneRouted(mappings, targets);
    for a := 0 to |mappings|
      invariant RoutedTo(routes, from, mappings, targets, Origin(a, 0, 0))
    {
      var m := mappings[a];
      assert Fits(MappedRegions(mappings)[a], shape);
      FitsProper(m.region, shape);
      for b := 0 to |targets|
        invariant RoutedTo(routes, from, mappings, targets, Origin(a, b, 0))
      {
        var t := targets[b];
        assert TargetOk(t, shape);
        FitsProper(t.base, shape);
        FitsRank(m.region, t.base, shape);
        SharedIsCommon(m.region, t.base);
        match Intersection(m.region, t.base) {
        case Common(r) =>
          CommonCarries(m, t, t.base, r, shape);
          var route := Route(r, Endpoint(Local(r, m.region.offsets), m.holders),
              Endpoint(Local(r, t.base.offsets), [t.participant]));
          RouteAdded(routes, from, mappings, targets, Origin(a, b, 0), route);
          routes, from := routes + [route], from + [Origin(a, b, 0)];
        case Nothing =>
          RouteSkipped(routes, from, mappings, targets, Origin(a, b, 0));
        }
        RoutedOn(routes, from, mappings, targets, Origin(a, b, 1), Origin(a, b + 1, 0));
      }
      LastTarget(routes, from, mappings, targets, a);
    }
  }

  lemma FitsRank(a: Region, b: Region, shape: seq<int>)
    requires Fits(a, shape) && Fits(b, shape)
    ensures |a.shape| == |b.shape|
  {
  }

  lemma LastTarget(routes: seq<Route>, from: seq<Origin>, mappings: seq<Mapping>, targets: seq<Target>, a: nat)
    requires RoutedTo(routes, from, mappings, targets, Origin(a, |targets|, 0))
    ensures RoutedTo(routes, from, mappings, targets, Origin(a + 1, 0, 0))
  {
    hide RoutedTo;
    RoutedOn(routes, from, mappings, targets, Origin(a, |targets|, 0), Origin(a + 1, 0, 0));
  }

  /** Plans compute on shards of the first dimension, for participants in the order of `shards`. It
      succeeds exactly if these are the participants, and the storage holds every element once and
      gives every participant one region. A region out of bounds is refused before routes are made;
      the check of the finished plan would refuse it, too. */
  method BuildDim0Plan(mappings: seq<Mapping>, participants: seq<int>, shards: seq<int>, shape: seq<int>)
      returns (r: Result<Plan>)
    requires shape != [] && Sized(shape)
    ensures r.Ok? <==> Reorders(shards, participants) && StorageOk(mappings, participants, shape)
    ensures r.Ok? ==> ValidPlan(r.value) && r.value.participants == participants && r.value.shape == shape
    ensures r.Ok? ==> forall i :: 0 <= i < |participants| ==>
              && |r.value.compute| == |participants| && participants[i] in shards
              && r.value.compute[i].regions ==
                   [RowsOf(shape, LocalShard(shape[0], |participants|, LastIndex(shards, participants[i])).1,
                           LocalShard(shape[0], |participants|, LastIndex(shards, participants[i])).1 +
                           LocalShard(shape[0], |participants|, LastIndex(shards, participants[i])).0)]
    ensures r.Ok? ==> RowsShared(r.value.compute, participants, shards, shape)
  {
    hide ValidPlan, RowsShared, AllFit, Tiles, OneEach, Collected, RoutedTo, Reorders, LocalShard, BlockStart, TargetOk;
    if !Reorders(shards, participants) {
      return Err(BadParticipants);
    }
    var collected := CollectHolders(mappings, participants);
    if collected.Err? {
      return Err(collected.verdict);
    }
    if !AllFit(MappedRegions(mappings), shape) {
      return Err(OutOfBounds);
    }
    SingleRows(0);
    SingleRows(shape[0]);
    var targets := Dim0Targets(participants, shards, shape);
    var routes, from := Dim0Routes(mappings, targets, shape);
    var plan := Plan(participants, shape, HeldPartitions(participants, collected.value),
        TargetPartitions(targets), routes);
    FinishedPlan(routes, from, mappings, targets, participants, shards, shape, [1], shape[0], collected.value);
    var v := CheckPlan(plan);
    if v != Valid {
      return Err(v);
    }
    forall i | 0 <= i < |participants|
      ensures participants[i] in shards && plan.compute[i].regions ==
                [RowsOf(shape, LocalShard(shape[0], |participants|, LastIndex(shards, participants[i])).1,
                        LocalShard(shape[0], |participants|, LastIndex(shards, participants[i])).1 +
                        LocalShard(shape[0], |participants|, LastIndex(shards, participants[i])).0)]
    {
      var shard := LocalShard(shape[0], |participants|, LastIndex(shards, participants[i]));
      SingleRows(shard.1);
      SingleRows(shard.1 + shard.0);
    }
    Dim0Shared(targets, participants, shards, shape);
    return Ok(plan);
  }

  lemma Dim0Shared(targets: seq<Target>, participants: seq<int>, shards: seq<int>, shape: seq<int>)
    requires shape != [] && Sized(shape)
    requires ShardTargets(targets, participants, shards, shape, [1], shape[0]) && Reorders(shards, participants)
    ensures RowsShared(TargetPartitions(targets), participants, shards, shape)
  {
    hide EvenEdges, Between, BlockStart, LocalShard;
    if participants != [] {
      TargetsShared(targets, participants, shards, shape, [1], shape[0]);
      var edges := EdgesOf(shape[0], |participants|);
      forall j | 0 <= j < |edges| ensures BlockStart([1], edges[j]) == edges[j] {
        SingleRows(edges[j]);
      }
      assert StartsOf([1], edges) == edges;
    }
  }

  // ----- Shards of blocks of rows

  /** A block's rows. */
  function Matrix(shape: seq<int>, sizes: seq<nat>, k: nat): Region
    requires shape != [] && SizesOk(sizes)
  {
    RowsOf(shape, BlockStart(sizes, k), BlockStart(sizes, k + 1))
  }

  function Matrices(shape: seq<int>, sizes: seq<nat>, first: nat, count: nat): (ms: seq<Region>)
    requires shape != [] && SizesOk(sizes)
    ensures |ms| == count && forall c :: 0 <= c < count ==> ms[c] == Matrix(shape, sizes, first + c)
  {
    seq(count, c requires 0 <= c < count => Matrix(shape, sizes, first + c))
  }

  /** The blocks of a shard make up its rows. */
  lemma BlocksAreShard(p: int, shape: seq<int>, sizes: seq<nat>, units: nat, first: nat, count: nat)
    requires shape != [] && Sized(shape) && SizesOk(sizes) && BlockStart(sizes, units) == shape[0]
    requires first + count <= units
    ensures TargetOk(Target(p, RowsOf(shape, BlockStart(sizes, first), BlockStart(sizes, first + count)),
        Matrices(shape, sizes, first, count)), shape)
  {
    hide Cells, RowsOf, BlockStart, Sized, Within, Fits;
    var base, pieces := RowsOf(shape, BlockStart(sizes, first), BlockStart(sizes, first + count)),
        Matrices(shape, sizes, first, count);
    var edges := seq(count + 1, c requires 0 <= c < count + 1 => BlockStart(sizes, first + c));
    forall j, k | 0 <= j <= k < |edges| ensures 0 <= edges[j] <= edges[k] <= shape[0] {
      StartsInOrder(sizes, first + j, first + k);
      StartsInOrder(sizes, first + k, units);
    }
    assert edges[0] == BlockStart(sizes, first) && edges[count] == BlockStart(sizes, first + count);
    assert 0 <= edges[0] <= edges[count] <= shape[0];
    RowsFit(shape, edges[0], edges[count]);
    forall c | 0 <= c < count
      ensures pieces[c] == RowsOf(shape, edges[c], edges[c + 1]) && Fits(pieces[c], shape) && Within(pieces[c], base)
    {
      assert edges[0] <= edges[c] <= edges[c + 1] <= edges[count] <= shape[0];
      RowsFit(shape, edges[c], edges[c + 1]);
      RowsWithin(shape, edges[c], edges[c + 1], edges[0], edges[count]);
    }
    forall ix | ix in Cells(base) ensures Once(pieces, ix) {
      InRows(shape, edges[0], edges[count], ix);
      RowsFollow(shape, edges, pieces, ix);
    }
  }

  /** Every storage region is whole rows of a matrix. */
  predicate RowRegions(mappings: seq<Mapping>, shape: seq<int>)
    requires |shape| == 2
  {
    forall a :: 0 <= a < |mappings| ==> RowRegion(mappings[a].region, shape)
  }

  predicate RowRegion(region: Region, shape: seq<int>)
    requires |shape| == 2
  {
    |region.offsets| == |region.shape| == 2 && region.offsets[1] == 0 && region.shape[1] == shape[1]
  }

  method BlockTargets(participants: seq<int>, shards: seq<int>, shape: seq<int>, sizes: seq<nat>, units: nat)
      returns (targets: seq<Target>)
    requires |shape| == 2 && Sized(shape) && SizesOk(sizes) && BlockStart(sizes, units) == shape[0]
    requires Reorders(shards, participants)
    ensures ShardTargets(targets, participants, shards, shape, sizes, units)
    ensures forall i :: 0 <= i < |targets| ==>
              && TargetOk(targets[i], shape) && participants[i] in shards
              && var shard := LocalShard(units, |participants|, LastIndex(shards, participants[i]));
                 targets[i].pieces == Matrices(shape, sizes, shard.1, shard.0)
  {
    hide LocalShard, BlockStart, TargetOk, RowsOf, SetOf, Matrices;
    targets := [];
    for i := 0 to |participants|
      invariant |targets| == i
      invariant forall k :: 0 <= k < i ==>
                  && targets[k].participant == participants[k] && participants[k] in shards
                  && targets[k].base == ShardRows(shape, sizes, units, |participants|,
                      LastIndex(shards, participants[k]))
                  && TargetOk(targets[k], shape)
                  && var shard := LocalShard(units, |participants|, LastIndex(shards, participants[k]));
                     targets[k].pieces == Matrices(shape, sizes, shard.1, shard.0)
    {
      InShards(shards, participants, i);
      var shard := LocalShard(units, |participants|, LastIndex(shards, participants[i]));
      var start, end := BlockStart(sizes, shard.1), BlockStart(sizes, shard.1 + shard.0);
      BlocksAreShard(participants[i], shape, sizes, units, shard.1, shard.0);
      TwoDimensions(shape, start, end);
      targets := targets + [Target(participants[i], Region([start, 0], [end - start, shape[1]]),
          Matrices(shape, sizes, shard.1, shard.0))];
    }
  }

  lemma TwoDimensions(shape: seq<int>, start: int, end: int)
    requires |shape| == 2
    ensures RowsOf(shape, start, end) == Region([start, 0], [end - start, shape[1]])
  {
    assert shape[1..] == [shape[1]];
    assert Zeros(1) == [0];
  }

  /** Rows of a storage region and rows of a block share the rows from the later start to the
      earlier end. */
  lemma RowsCarry(m: Mapping, t: Target, shape: seq<int>, start: int, end: int, base: int, low: int, high: int)
    requires |shape| == 2 && Sized(shape) && RowRegion(m.region, shape) && Fits(m.region, shape)
    requires 0 <= start <= end <= shape[0] && t.base.offsets == [base, 0]
    requires low == Max(m.region.offsets[0], start) && high == Min(m.region.offsets[0] + m.region.shape[0], end)
    ensures low < high ==>
              Carries(Route(Region([low, 0], [high - low, shape[1]]),
                            Endpoint(Region([low - m.region.offsets[0], 0], [high - low, shape[1]]), m.holders),
                            Endpoint(Region([low - base, 0], [high - low, shape[1]]), [t.participant])),
                      m, t, RowsOf(shape, start, end))
    ensures low >= high ==> Cells(m.region) * Cells(RowsOf(shape, start, end)) == {}
  {
    hide Cells;
    var s, e := m.region.offsets[0], m.region.offsets[0] + m.region.shape[0];
    TwoDimensions(shape, start, end);
    TwoDimensions(shape, s, e);
    assert m.region == RowsOf(shape, s, e);
    forall ix ensures ix in Cells(m.region) * Cells(RowsOf(shape, start, end)) <==>
                      ix in Cells(Whole(shape)) && |ix| > 0 && low <= ix[0] < high {
      InRows(shape, s, e, ix);
      InRows(shape, start, end, ix);
    }
    if low < high {
      TwoDimensions(shape, low, high);
      var logical := Region([low, 0], [high - low, shape[1]]);
      forall ix ensures ix in Cells(logical) <==> ix in Cells(m.region) * Cells(RowsOf(shape, start, end)) {
        InRows(shape, low, high, ix);
      }
      assert Local(logical, m.region.offsets) == Region([low - s, 0], [high - low, shape[1]]);
      assert Local(logical, t.base.offsets) == Region([low - base, 0], [high - low, shape[1]]);
    }
  }

  /** What the targets of blocks are, for the loop over their blocks. */
  ghost predicate BlockTarget(t: Target, shape: seq<int>, sizes: seq<nat>, units: nat, shard: (nat, nat))
    requires |shape| == 2 && SizesOk(sizes)
  {
    && TargetOk(t, shape) && shard.1 + shard.0 <= units && t.pieces == Matrices(shape, sizes, shard.1, shard.0)
    && t.base.offsets == [BlockStart(sizes, shard.1), 0]
  }

  /** The routes from one storage region to one participant, block by block. */
  method BlockRoutes(mappings: seq<Mapping>, targets: seq<Target>, shape: seq<int>, sizes: seq<nat>,
                     units: nat, shards: seq<(nat, nat)>)
    returns (routes: seq<Route>, ghost from: seq<Origin>)
    requires |shape| == 2 && Sized(shape) && SizesOk(sizes) && BlockStart(sizes, units) == shape[0]
    requires AllFit(MappedRegions(mappings), shape) && RowRegions(mappings, shape)
    requires |shards| == |targets|
    requires forall i :: 0 <= i < |targets| ==> BlockTarget(targets[i], shape, sizes, units, shards[i])
    ensures RoutedTo(routes, from, mappings, targets, End(mappings))
  {
    hide RoutedTo, Fits, Cells, BlockStart, RowsOf, TargetOk, RowRegion, Carries;
    routes, from := [], [];
    NoneRouted(mappings, targets);
    for a := 0 to |mappings|
      invariant RoutedTo(routes, from, mappings, targets, Origin(a, 0, 0))
    {
      for b := 0 to |targets|
        invariant RoutedTo(routes, from, mappings, targets, Origin(a, b, 0))
      {
        for c := 0 to shards[b].0
          invariant RoutedTo(routes, from, mappings, targets, Origin(a, b, c))
        {
          assert BlockTarget(targets[b], shape, sizes, units, shards[b]);
          assert Fits(MappedRegions(mappings)[a], shape) && RowRegion(mappings[a].region, shape);
          var kept, route := BlockRoute(mappings[a], targets[b], shape, sizes, units, shards[b], c);
          if kept {
            RouteAdded(routes, from, mappings, targets, Origin(a, b, c), route);
            routes, from := routes + [route], from + [Origin(a, b, c)];
          } else {
            RouteSkipped(routes, from, mappings, targets, Origin(a, b, c));
          }
        }
        LastPiece(routes, from, mappings, targets, a, b);
      }
      LastTarget(routes, from, mappings, targets, a);
    }
  }

  lemma LastPiece(routes: seq<Route>, from: seq<Origin>, mappings: seq<Mapping>, targets: seq<Target>, a: nat, b: nat)
    requires b < |targets| && RoutedTo(routes, from, mappings, targets, Origin(a, b, |targets[b].pieces|))
    ensures RoutedTo(routes, from, mappings, targets, Origin(a, b + 1, 0))
  {
    hide RoutedTo;
    RoutedOn(routes, from, mappings, targets, Origin(a, b, |targets[b].pieces|), Origin(a, b + 1, 0));
  }

  /** The route of one block, if the storage region has rows of it. */
  method BlockRoute(m: Mapping, t: Target, shape: seq<int>, sizes: seq<nat>, units: nat, shard: (nat, nat), c: nat)
    returns (kept: bool, route: Route)
    requires |shape| == 2 && Sized(shape) && SizesOk(sizes) && BlockStart(sizes, units) == shape[0]
    requires Fits(m.region, shape) && RowRegion(m.region, shape) && BlockTarget(t, shape, sizes, units, shard)
    requires c < shard.0
    ensures kept ==> Carries(route, m, t, t.pieces[c])
    ensures !kept ==> Cells(m.region) * Cells(t.pieces[c]) == {}
  {
    hide Cells, BlockStart, RowsOf, TargetOk, Carries;
    var matrix, base := shard.1 + c, BlockStart(sizes, shard.1);
    var start, end := BlockStart(sizes, matrix), BlockStart(sizes, matrix + 1);
    StartsInOrder(sizes, matrix, matrix + 1);
    StartsInOrder(sizes, matrix + 1, units);
    var storageStart, storageEnd := m.region.offsets[0], m.region.offsets[0] + m.region.shape[0];
    var low, high := Max(storageStart, start), Min(storageEnd, end);
    RowsCarry(m, t, shape, start, end, base, low, high);
    route := Route(Region([low, 0], [high - low, shape[1]]),
                   Endpoint(Region([low - storageStart, 0], [high - low, shape[1]]), m.holders),
                   Endpoint(Region([low - base, 0], [high - low, shape[1]]), [t.participant]));
    kept := high - low > 0;
  }

  /** Whether a plan for blocks is asked for as it must be. */
  predicate BlocksAsked(mappings: seq<Mapping>, participants: seq<int>, shards: seq<int>,
                        shape: seq<int>, dim: int, sizes: seq<nat>)
    requires SizesOk(sizes) && Sized(shape)
  {
    && |shape| == 2 && dim == 0 && Reorders(shards, participants) && NumBlocks(sizes, shape[0]).Some?
        && RowRegions(mappings, shape)
  }

  /** Plans compute on shards of whole blocks of rows. It succeeds exactly if the tensor is a matrix
      of whole repetitions of the pattern stored in whole rows, and its storage is as for shards of
      rows; every participant then computes on whole blocks. */
  method BuildBlockPlan(mappings: seq<Mapping>, participants: seq<int>, shards: seq<int>,
                        shape: seq<int>, dim: int, sizes: seq<nat>)
    returns (r: Result<Plan>)
    requires SizesOk(sizes) && Sized(shape)
    ensures r.Ok? <==>
        BlocksAsked(mappings, participants, shards, shape, dim, sizes) && StorageOk(mappings, participants, shape)
    ensures r.Ok? ==> ValidPlan(r.value) && r.value.participants == participants && r.value.shape == shape
    ensures r.Ok? ==> forall i :: 0 <= i < |participants| ==>
              && |r.value.compute| == |participants| && participants[i] in shards
              && var shard := LocalShard(NumBlocks(sizes, shape[0]).value, |participants|,
                  LastIndex(shards, participants[i]));
                 r.value.compute[i].regions == [RowsOf(shape, BlockStart(sizes, shard.1),
                     BlockStart(sizes, shard.1 + shard.0))]
    ensures r.Ok? ==> BlocksShared(r.value.compute, participants, shards, shape, sizes,
        NumBlocks(sizes, shape[0]).value)
  {
    hide ValidPlan, BlocksShared, AllFit, Tiles, OneEach, Collected, RoutedTo, Reorders,
        LocalShard, BlockStart, TargetOk,
         RowRegions, NumBlocks, RowsOf, Matrices;
    if |shape| != 2 || dim != 0 || !Reorders(shards, participants) {
      return Err(BadParticipants);
    }
    var units := NumBlocks(sizes, shape[0]);
    if units.None? || !RowRegions(mappings, shape) {
      return Err(WrongSize);
    }
    var collected := CollectHolders(mappings, participants);
    if collected.Err? {
      return Err(collected.verdict);
    }
    if !AllFit(MappedRegions(mappings), shape) {
      return Err(OutOfBounds);
    }
    BlocksEnd(sizes, shape[0]);
    var targets := BlockTargets(participants, shards, shape, sizes, units.value);
    var locals := seq(|targets|, i requires 0 <= i < |targets| && participants[i] in shards =>
                                   LocalShard(units.value, |participants|, LastIndex(shards, participants[i])));
    forall i | 0 <= i < |targets| ensures BlockTarget(targets[i], shape, sizes, units.value, locals[i]) {
      TwoDimensions(shape, BlockStart(sizes, locals[i].1), BlockStart(sizes, locals[i].1 + locals[i].0));
    }
    var routes, from := BlockRoutes(mappings, targets, shape, sizes, units.value, locals);
    var plan := Plan(participants, shape, HeldPartitions(participants, collected.value),
        TargetPartitions(targets), routes);
    FinishedPlan(routes, from, mappings, targets, participants, shards, shape, sizes, units.value, collected.value);
    var v := CheckPlan(plan);
    if v != Valid {
      return Err(v);
    }
    BlocksAreShared(targets, participants, shards, shape, sizes, units.value);
    return Ok(plan);
  }

  lemma BlocksAreShared(targets: seq<Target>, participants: seq<int>, shards: seq<int>, shape: seq<int>,
                        sizes: seq<nat>, blocks: nat)
    requires shape != [] && Sized(shape) && SizesOk(sizes)
    requires ShardTargets(targets, participants, shards, shape, sizes, blocks) && Reorders(shards, participants)
    ensures BlocksShared(TargetPartitions(targets), participants, shards, shape, sizes, blocks)
  {
    hide EvenEdges, Between, BlockStart, LocalShard;
    if participants != [] {
      TargetsShared(targets, participants, shards, shape, sizes, blocks);
    }
  }
}
