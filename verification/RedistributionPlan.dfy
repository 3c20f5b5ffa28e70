/** Plans that move a tensor between its storage and its compute partition: which region goes
    from whom to whom, and the check that a plan is complete and consistent. */
module RedistributionPlan {
  import opened Regions
  import opened RegionValidator

  /** A participant's tensor, and the regions of the whole tensor it holds. */
  datatype Partition = Partition(participant: int, tensorShape: seq<int>, regions: seq<Region>)

  /** Where a route starts or ends: a region of the tensor of each of the participants. */
  datatype Endpoint = Endpoint(region: Region, participants: seq<int>)

  datatype Route = Route(logical: Region, source: Endpoint, destination: Endpoint)

  datatype Plan = Plan(participants: seq<int>, shape: seq<int>, storage: seq<Partition>,
                       compute: seq<Partition>, routes: seq<Route>)

  function InverseRoute(r: Route): Route {
    Route(r.logical, r.destination, r.source)
  }

  function Inverse(routes: seq<Route>): (inverse: seq<Route>)
    ensures |inverse| == |routes| && forall i :: 0 <= i < |routes| ==> inverse[i] == InverseRoute(routes[i])
  {
    seq(|routes|, i requires 0 <= i < |routes| => InverseRoute(routes[i]))
  }

  function Logicals(routes: seq<Route>): (rs: seq<Region>)
    ensures |rs| == |routes| && forall i :: 0 <= i < |routes| ==> rs[i] == routes[i].logical
  {
    seq(|routes|, i requires 0 <= i < |routes| => routes[i].logical)
  }

  function Sources(routes: seq<Route>): (rs: seq<Region>)
    ensures |rs| == |routes| && forall i :: 0 <= i < |routes| ==> rs[i] == routes[i].source.region
  {
    seq(|routes|, i requires 0 <= i < |routes| => routes[i].source.region)
  }

  /** The routes that start at a participant. */
  function From(routes: seq<Route>, p: int): seq<Route> {
    if routes == [] then []
    else (if p in routes[0].source.participants then [routes[0]] else []) + From(routes[1..], p)
  }

  predicate Distinct<T(==)>(s: seq<T>) {
    forall i, j :: 0 <= i < j < |s| ==> s[i] != s[j]
  }

  predicate SomeOf(some: seq<int>, all: seq<int>) {
    some != [] && Distinct(some) && forall p :: p in some ==> p in all
  }

  predicate RouteOk(r: Route, participants: seq<int>) {
    && SomeOf(r.source.participants, participants) && SomeOf(r.destination.participants, participants)
    && Numel(r.logical) == Numel(r.source.region) == Numel(r.destination.region)
  }

  /** The regions a participant holds are disjoint regions of the tensor, as many elements as
      its own tensor has. */
  ghost predicate PartitionOk(partition: Partition, shape: seq<int>) {
    && AllFit(partition.regions, shape) && Apart(partition.regions)
    && Total(partition.regions) == Prod(partition.tensorShape)
  }

  ghost predicate PartitionsOk(partitions: seq<Partition>, participants: seq<int>, shape: seq<int>) {
    && |partitions| == |participants|
    && forall i :: 0 <= i < |partitions| ==>
         partitions[i].participant == participants[i] && PartitionOk(partitions[i], shape)
  }

  /** The routes that start at a participant carry exactly what it holds, and its own tensor is
      made up of the regions that they start from. */
  ghost predicate LeavesExactly(routes: seq<Route>, partition: Partition, shape: seq<int>) {
    var mine := From(routes, partition.participant);
    && AllFit(Logicals(mine), shape) && Apart(Logicals(mine)) && Union(Logicals(mine)) == Union(partition.regions)
    && AllFit(Sources(mine), partition.tensorShape) && Tiles(Sources(mine), partition.tensorShape)
  }

  ghost predicate ValidPlan(plan: Plan) {
    && Distinct(plan.participants)
    && PartitionsOk(plan.storage, plan.participants, plan.shape)
    && PartitionsOk(plan.compute, plan.participants, plan.shape)
    && (forall i :: 0 <= i < |plan.routes| ==> RouteOk(plan.routes[i], plan.participants))
    && AllFit(Logicals(plan.routes), plan.shape) && Tiles(Logicals(plan.routes), plan.shape)
    && (forall i :: 0 <= i < |plan.storage| ==> LeavesExactly(plan.routes, plan.storage[i], plan.shape))
    && (forall i :: 0 <= i < |plan.compute| ==> LeavesExactly(Inverse(plan.routes), plan.compute[i], plan.shape))
  }

  // ----- The check

  method CheckParticipantPartition(partition: Partition, shape: seq<int>) returns (v: Verdict)
    ensures v == Valid <==> PartitionOk(partition, shape)
  {
    v := CheckDisjoint(partition.regions, shape);
    if v == Valid && Total(partition.regions) != Prod(partition.tensorShape) {
      v := WrongSize;
    }
  }

  method CheckPartitions(partitions: seq<Partition>, participants: seq<int>, shape: seq<int>) returns (v: Verdict)
    ensures v == Valid <==> PartitionsOk(partitions, participants, shape)
  {
    hide PartitionOk;
    if seq(|partitions|, i requires 0 <= i < |partitions| => partitions[i].participant) != participants {
      return BadParticipants;
    }
    for i := 0 to |partitions|
      invariant forall j :: 0 <= j < i ==> PartitionOk(partitions[j], shape)
    {
      v := CheckParticipantPartition(partitions[i], shape);
      if v != Valid {
        return;
      }
    }
    return Valid;
  }

  method CheckRoutes(routes: seq<Route>, participants: seq<int>) returns (v: Verdict)
    ensures v == Valid <==> forall i :: 0 <= i < |routes| ==> RouteOk(routes[i], participants)
  {
    for i := 0 to |routes|
      invariant forall j :: 0 <= j < i ==> RouteOk(routes[j], participants)
    {
      var r := routes[i];
      if !SomeOf(r.source.participants, participants) || !SomeOf(r.destination.participants, participants) {
        return BadParticipants;
      }
      if !(Numel(r.logical) == Numel(r.source.region) == Numel(r.destination.region)) {
        return WrongSize;
      }
    }
    return Valid;
  }

  method CheckLeaves(routes: seq<Route>, partition: Partition, shape: seq<int>) returns (v: Verdict)
    requires PartitionOk(partition, shape)
    ensures v == Valid <==> LeavesExactly(routes, partition, shape)
  {
    hide AllFit, Apart, Union, Tiles;
    var mine := From(routes, partition.participant);
    v := CheckCover(Logicals(mine), partition.regions, shape);
    if v == Valid {
      v := CheckPartition(Sources(mine), partition.tensorShape);
    }
  }

  /** The whole check, which a plan passes exactly if it is valid. */
  method CheckPlan(plan: Plan) returns (v: Verdict)
    ensures v == Valid <==> ValidPlan(plan)
  {
    hide PartitionOk, RouteOk, LeavesExactly, AllFit, Tiles;
    if !Distinct(plan.participants) {
      return BadParticipants;
    }
    v := CheckPartitions(plan.storage, plan.participants, plan.shape);
    if v != Valid {
      return;
    }
    v := CheckPartitions(plan.compute, plan.participants, plan.shape);
    if v != Valid {
      return;
    }
    v := CheckRoutes(plan.routes, plan.participants);
    if v != Valid {
      return;
    }
    v := CheckPartition(Logicals(plan.routes), plan.shape);
    if v != Valid {
      return;
    }
    for i := 0 to |plan.participants|
      invariant forall j :: 0 <= j < i ==> LeavesExactly(plan.routes, plan.storage[j], plan.shape)
      invariant forall j :: 0 <= j < i ==> LeavesExactly(Inverse(plan.routes), plan.compute[j], plan.shape)
    {
      v := CheckLeaves(plan.routes, plan.storage[i], plan.shape);
      if v != Valid {
        return;
      }
      v := CheckLeaves(Inverse(plan.routes), plan.compute[i], plan.shape);
      if v != Valid {
        return;
      }
    }
    return Valid;
  }

  // ----- Whole-tensor compute

  /** A region of the tensor and who holds it in storage. */
  datatype Mapping = Mapping(holders: seq<int>, region: Region)

  datatype Result<+T> = Ok(value: T) | Err(verdict: Verdict)

  function MappedRegions(mappings: seq<Mapping>): (rs: seq<Region>)
    ensures |rs| == |mappings| && forall i :: 0 <= i < |mappings| ==> rs[i] == mappings[i].region
  {
    seq(|mappings|, i requires 0 <= i < |mappings| => mappings[i].region)
  }

  predicate IsHeld(mappings: seq<Mapping>, p: int) {
    exists i :: 0 <= i < |mappings| && p in mappings[i].holders
  }

  /** Every participant holds exactly one of the regions. */
  predicate OneEach(mappings: seq<Mapping>, participants: seq<int>) {
    && (forall i :: 0 <= i < |mappings| ==> SomeOf(mappings[i].holders, participants))
    && (forall i, j :: 0 <= i < j < |mappings| ==> forall p :: p in mappings[i].holders ==> p !in mappings[j].holders)
    && (forall p :: p in participants ==> IsHeld(mappings, p))
  }

  /** What a storage layout must satisfy for a plan to exist. */
  ghost predicate StorageOk(mappings: seq<Mapping>, participants: seq<int>, shape: seq<int>) {
    && Distinct(participants) && OneEach(mappings, participants)
    && AllFit(MappedRegions(mappings), shape) && Tiles(MappedRegions(mappings), shape)
  }

  /** The participants' regions, as the builders collect them. */
  ghost predicate Collected(mappings: seq<Mapping>, n: nat, held: map<int, Region>)
    requires n <= |mappings|
  {
    && (forall p :: p in held ==> exists i :: 0 <= i < n && p in mappings[i].holders && held[p] == mappings[i].region)
    && (forall i :: 0 <= i < n ==> forall p :: p in mappings[i].holders ==> p in held && held[p] == mappings[i].region)
  }

  lemma NotEarlier(s: seq<int>, h: nat)
    requires Distinct(s) && h < |s|
    ensures s[h] !in s[..h] && s[..h + 1] == s[..h] + [s[h]]
  {
  }

  /** Adds one region's holders, unless one of them already holds another region. */
  method CollectOne(mappings: seq<Mapping>, k: nat, from: map<int, Region>) returns (ok: bool, held: map<int, Region>)
    requires k < |mappings| && Collected(mappings, k, from) && Distinct(mappings[k].holders)
    ensures ok <==> forall p :: p in mappings[k].holders ==> p !in from
    ensures ok ==> Collected(mappings, k + 1, held)
  {
    held := from;
    var m := mappings[k];
    for h := 0 to |m.holders|
      invariant forall g :: 0 <= g < h ==> m.holders[g] !in from
      invariant forall p :: p in held <==> p in from || p in m.holders[..h]
      invariant forall p :: p in held ==> held[p] == if p in from then from[p] else m.region
    {
      NotEarlier(m.holders, h);
      var holder := m.holders[h];
      assert holder in m.holders;
      if holder in held {
        return false, held;
      }
      held := held[holder := m.region];
    }
    assert m.holders[..|m.holders|] == m.holders;
    forall i | 0 <= i < k + 1 ensures forall p :: p in mappings[i].holders
                                       ==> p in held && held[p] == mappings[i].region {
    }
    ok := true;
  }

  lemma NotHeld(mappings: seq<Mapping>, participants: seq<int>, held: map<int, Region>, i: nat)
    requires Collected(mappings, |mappings|, held) && i < |participants| && participants[i] !in held
    ensures !OneEach(mappings, participants)
  {
    assert participants[i] in participants;
    forall k | 0 <= k < |mappings| ensures participants[i] !in mappings[k].holders {
      assert forall p :: p in mappings[k].holders ==> p in held;
    }
    assert !IsHeld(mappings, participants[i]);
  }

  method CollectHolders(mappings: seq<Mapping>, participants: seq<int>) returns (r: Result<map<int, Region>>)
    ensures r.Ok? <==> OneEach(mappings, participants)
    ensures r.Ok? ==> Collected(mappings, |mappings|, r.value)
    ensures r.Ok? ==> forall i :: 0 <= i < |participants| ==> participants[i] in r.value
  {
    hide SomeOf;
    var held: map<int, Region> := map[];
    for k := 0 to |mappings|
      invariant Collected(mappings, k, held)
      invariant forall i :: 0 <= i < k ==> SomeOf(mappings[i].holders, participants)
      invariant forall i, j :: 0 <= i < j < k ==> forall p :: p in mappings[i].holders ==> p !in mappings[j].holders
    {
      if !SomeOf(mappings[k].holders, participants) {
        return Err(BadParticipants);
      }
      SomeOfDistinct(mappings[k].holders, participants);
      var ok, more := CollectOne(mappings, k, held);
      if !ok {
        var p :| p in mappings[k].holders && p in held;
        var i :| 0 <= i < k && p in mappings[i].holders;
        return Err(BadParticipants);
      }
      held := more;
    }
    for i := 0 to |participants|
      invariant forall j :: 0 <= j < i ==> participants[j] in held
    {
      if participants[i] !in held {
        NotHeld(mappings, participants, held, i);
        return Err(BadParticipants);
      }
    }
    return Ok(held);
  }

  lemma SomeOfDistinct(some: seq<int>, all: seq<int>)
    requires SomeOf(some, all)
    ensures Distinct(some)
  {
  }

  function WholeRoute(m: Mapping, compute: seq<int>): Route {
    Route(m.region, Endpoint(Whole(m.region.shape), m.holders), Endpoint(m.region, compute))
  }

  function WholeRoutes(mappings: seq<Mapping>, compute: seq<int>): (routes: seq<Route>)
    ensures |routes| == |mappings| && forall i :: 0 <= i < |routes| ==> routes[i] == WholeRoute(mappings[i], compute)
  {
    seq(|mappings|, i requires 0 <= i < |mappings| => WholeRoute(mappings[i], compute))
  }

  function HeldPartitions(participants: seq<int>, held: map<int, Region>): (ps: seq<Partition>)
    requires forall i :: 0 <= i < |participants| ==> participants[i] in held
    ensures |ps| == |participants|
    ensures forall i :: 0 <= i < |ps| ==>
              ps[i] == Partition(participants[i], held[participants[i]].shape, [held[participants[i]]])
  {
    seq(|participants|, i requires 0 <= i < |participants| =>
      Partition(participants[i], held[participants[i]].shape, [held[participants[i]]]))
  }

  function WholePartition(p: int, compute: seq<int>, shape: seq<int>): Partition {
    if p in compute then Partition(p, shape, [Whole(shape)]) else Partition(p, [0], [])
  }

  function WholePartitions(participants: seq<int>, compute: seq<int>, shape: seq<int>): (ps: seq<Partition>)
    ensures |ps| == |participants|
    ensures forall i :: 0 <= i < |ps| ==> ps[i] == WholePartition(participants[i], compute, shape)
  {
    seq(|participants|, i requires 0 <= i < |participants| => WholePartition(participants[i], compute, shape))
  }

  /** Plans whole-tensor compute at some of the participants. It succeeds exactly for storage
      layouts that hold every element once and give every participant one region. */
  method BuildWholeTensorPlan(mappings: seq<Mapping>, participants: seq<int>, compute: seq<int>, shape: seq<int>)
    returns (r: Result<Plan>)
    ensures r.Ok? <==> SomeOf(compute, participants) && StorageOk(mappings, participants, shape)
    ensures r.Ok? ==> ValidPlan(r.value) && r.value.participants == participants && r.value.shape == shape
    ensures r.Ok? ==> r.value.routes == WholeRoutes(mappings, compute)
  {
    hide ValidPlan, SomeOf, OneEach, AllFit, Tiles, Collected;
    if !SomeOf(compute, participants) {
      return Err(BadParticipants);
    }
    var collected := CollectHolders(mappings, participants);
    if collected.Err? {
      return Err(collected.verdict);
    }
    var plan := Plan(participants, shape, HeldPartitions(participants, collected.value),
        WholePartitions(participants, compute, shape),
                     WholeRoutes(mappings, compute));
    WholePlanValid(mappings, participants, compute, shape, collected.value);
    var v := CheckPlan(plan);
    if v == Valid {
      return Ok(plan);
    }
    return Err(v);
  }

  lemma WholePlanValid(mappings: seq<Mapping>, participants: seq<int>, compute: seq<int>,
                       shape: seq<int>, held: map<int, Region>)
    requires SomeOf(compute, participants) && OneEach(mappings, participants)
    requires Collected(mappings, |mappings|, held) && forall i :: 0 <= i < |participants| ==> participants[i] in held
    ensures var plan := Plan(participants, shape, HeldPartitions(participants, held),
        WholePartitions(participants, compute, shape),
                             WholeRoutes(mappings, compute));
            ValidPlan(plan) <==> StorageOk(mappings, participants, shape)
  {
    hide AllFit, Tiles, SomeOf, PartitionOk, LeavesExactly, Prod, Collected;
    var routes := WholeRoutes(mappings, compute);
    assert Logicals(routes) == MappedRegions(mappings);
    if StorageOk(mappings, participants, shape) {
      forall i | 0 <= i < |routes| ensures RouteOk(routes[i], participants) {
      }
      forall i | 0 <= i < |participants|
        ensures PartitionOk(HeldPartitions(participants, held)[i], shape)
        ensures LeavesExactly(routes, HeldPartitions(participants, held)[i], shape)
        ensures PartitionOk(WholePartition(participants[i], compute, shape), shape)
        ensures LeavesExactly(Inverse(routes), WholePartition(participants[i], compute, shape), shape)
      {
        HeldLeaves(mappings, participants, compute, shape, held, participants[i]);
        WholeLeaves(mappings, participants, compute, shape, participants[i]);
      }
    }
  }

  lemma {:induction false} FromOne(routes: seq<Route>, p: int, k: nat)
    requires k < |routes| && p in routes[k].source.participants
    requires forall i :: 0 <= i < |routes| && i != k ==> p !in routes[i].source.participants
    ensures From(routes, p) == [routes[k]]
  {
    if k == 0 {
      FromNone(routes[1..], p);
    } else {
      FromOne(routes[1..], p, k - 1);
    }
  }

  lemma {:induction false} FromNone(routes: seq<Route>, p: int)
    requires forall i :: 0 <= i < |routes| ==> p !in routes[i].source.participants
    ensures From(routes, p) == []
  {
    if routes != [] {
      FromNone(routes[1..], p);
    }
  }

  lemma {:induction false} FromAll(routes: seq<Route>, p: int)
    requires forall i :: 0 <= i < |routes| ==> p in routes[i].source.participants
    ensures From(routes, p) == routes
  {
    if routes != [] {
      FromAll(routes[1..], p);
    }
  }

  lemma FitsWhole(r: Region, shape: seq<int>)
    requires Fits(r, shape)
    ensures Sized(r.shape) && Fits(Whole(r.shape), r.shape)
  {
  }

  lemma OneApart(r: Region)
    ensures Apart([r]) && Union([r]) == Cells(r) && Total([r]) == Numel(r)
  {
    assert Union([r]) == Cells(r) + Union([]);
  }

  /** A tensor is tiled by itself. */
  lemma WholeTiles(shape: seq<int>)
    requires Sized(shape)
    ensures AllFit([Whole(shape)], shape) && Tiles([Whole(shape)], shape)
  {
    OneApart(Whole(shape));
    TilesIs([Whole(shape)], shape);
  }

  lemma HeldLeaves(mappings: seq<Mapping>, participants: seq<int>, compute: seq<int>, shape: seq<int>,
                   held: map<int, Region>, p: int)
    requires OneEach(mappings, participants) && Collected(mappings, |mappings|, held) && p in participants && p in held
    requires AllFit(MappedRegions(mappings), shape)
    ensures PartitionOk(Partition(p, held[p].shape, [held[p]]), shape)
    ensures LeavesExactly(WholeRoutes(mappings, compute), Partition(p, held[p].shape, [held[p]]), shape)
  {
    hide Tiles, SomeOf, Numel, Cells, Prod;
    var k :| 0 <= k < |mappings| && p in mappings[k].holders && held[p] == mappings[k].region;
    var region, routes := held[p], WholeRoutes(mappings, compute);
    assert Fits(MappedRegions(mappings)[k], shape);
    FromOne(routes, p, k);
    OneApart(region);
    FitsWhole(region, shape);
    WholeTiles(region.shape);
    assert Logicals([routes[k]]) == [region] && Sources([routes[k]]) == [Whole(region.shape)];
    assert Total([region]) == Prod(region.shape) by {
      NumelIs(region);
    }
  }

  lemma NumelIs(r: Region)
    ensures Numel(r) == Prod(r.shape)
  {
  }

  lemma WholeLeaves(mappings: seq<Mapping>, participants: seq<int>, compute: seq<int>, shape: seq<int>, p: int)
    requires AllFit(MappedRegions(mappings), shape) && Tiles(MappedRegions(mappings), shape)
    ensures PartitionOk(WholePartition(p, compute, shape), shape)
    ensures LeavesExactly(Inverse(WholeRoutes(mappings, compute)), WholePartition(p, compute, shape), shape)
  {
    hide SomeOf, Numel, Cells, Fits, Apart, Whole;
    var routes := Inverse(WholeRoutes(mappings, compute));
    if p in compute {
      FromAll(routes, p);
      assert Logicals(routes) == MappedRegions(mappings) && Sources(routes) == MappedRegions(mappings);
      TilesIs(MappedRegions(mappings), shape);
      OneApart(Whole(shape));
      WholeTiles(shape);
      NumelIs(Whole(shape));
      WholeShape(shape);
    } else {
      FromNone(routes, p);
      NothingHeld(shape);
    }
  }

  lemma WholeShape(shape: seq<int>)
    ensures Whole(shape).shape == shape
  {
  }

  /** A participant without part in the compute has an empty tensor. */
  lemma NothingHeld(shape: seq<int>)
    requires Sized(shape)
    ensures AllFit([], shape) && Apart([]) && Union([]) == {} && Total([]) == 0
    ensures Prod([0]) == 0 && AllFit([], [0]) && Tiles([], [0])
  {
    NumelIsSize(Whole([0]));
  }
}
