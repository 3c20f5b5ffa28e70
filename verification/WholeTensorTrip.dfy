/** Whole-tensor compute on a bucket of stored tensors: each compute participant sees the whole
    tensors, and every holder of a piece gets that piece of what was computed. */
module WholeTensorTrip {
  import opened Arithmetic
  import opened Regions
  import opened RedistributionPlan
  import opened PackedSchedule
  import opened PackedExchange
  import opened PackedDelivery
  import opened RoundTrip

  // ----- The buffers of valid plans can always be filled and emptied

  lemma BuffersReady(routes: seq<seq<Route>>, participants: seq<int>, i: nat)
    requires Distinct(participants) && i < |participants|
    requires forall k :: 0 <= k < |routes| ==> RoutesGood(routes[k], participants)
    requires forall k :: 0 <= k < |routes| ==> RoutesOk(routes[k], participants)
    ensures var schedule := ScheduleFor(BucketTransfers(routes, participants), participants, participants[i]);
            && |schedule.inputSpans| == |schedule.outputSpans| == |routes|
            && AllSeparate(schedule.inputSpans)
            && (forall k :: 0 <= k < |routes| ==> FillApart(schedule.outputSpans[k]))
            && (forall k, s :: 0 <= k < |routes| && s in schedule.inputSpans[k]
                 ==> GoodSpan(s, BufferSize(schedule.inputSplits)))
            && (forall k, s :: 0 <= k < |routes| && s in schedule.outputSpans[k]
                 ==> GoodSpan(s, BufferSize(schedule.outputSplits)))
  {
    hide RoutesGood, RoutesOk, Even, AllTransfers, AllSeparate, FillApart, GoodSpan, Splits, Laid, AnyRemote,
         OfParameter, WithPeers, TransfersApart, EndsApart, ScheduleFor, BufferSize;
    var all := BucketTransfers(routes, participants);
    TransfersEven(routes, participants);
    var schedule := ScheduleFor(all, participants, participants[i]);
    LaidSeparate(all, participants, participants[i], Sending);
    LaidSeparate(all, participants, participants[i], Receiving);
    assert SpansOf(schedule, Sending) == schedule.inputSpans && SplitsOf(schedule, Sending) == schedule.inputSplits;
    assert SpansOf(schedule, Receiving) == schedule.outputSpans
        && SplitsOf(schedule, Receiving) == schedule.outputSplits;
    forall k | 0 <= k < |routes| ensures TransfersApart(all[k], participants[i]) {
      GoodEndsApart(routes[k], participants, participants[i]);
      RouteTransfersApart(routes[k], participants, participants[i]);
    }
    forall k | 0 <= k < |routes| ensures FillApart(schedule.outputSpans[k]) {
      ReceivedFillApart(all, participants, participants[i], k);
    }
  }

  lemma GoodEndsApart(routes: seq<Route>, participants: seq<int>, p: int)
    requires RoutesGood(routes, participants) && p in participants
    ensures RoutesOk(routes, participants) && EndsApart(routes, p)
  {
  }

  // ----- There and back, for any valid plans

  function RoutesOf(plans: seq<Plan>): (routes: seq<seq<Route>>)
    ensures |routes| == |plans| && forall k :: 0 <= k < |plans| ==> routes[k] == plans[k].routes
  {
    seq(|plans|, k requires 0 <= k < |plans| => plans[k].routes)
  }

  function BackRoutesOf(plans: seq<Plan>): (routes: seq<seq<Route>>)
    ensures |routes| == |plans| && forall k :: 0 <= k < |plans| ==> routes[k] == Inverse(plans[k].routes)
  {
    seq(|plans|, k requires 0 <= k < |plans| => Inverse(plans[k].routes))
  }

  /** Valid plans between the same participants. */
  ghost predicate Bucket(plans: seq<Plan>, participants: seq<int>) {
    && Distinct(participants)
    && forall k :: 0 <= k < |plans| ==> ValidPlan(plans[k]) && plans[k].participants == participants
  }

  lemma BucketGood(plans: seq<Plan>, participants: seq<int>)
    requires Bucket(plans, participants)
    ensures forall k :: 0 <= k < |plans| ==>
              RoutesGood(RoutesOf(plans)[k], participants) && RoutesGood(BackRoutesOf(plans)[k], participants)
    ensures forall k :: 0 <= k < |plans| ==>
              RoutesOk(RoutesOf(plans)[k], participants) && RoutesOk(BackRoutesOf(plans)[k], participants)
  {
    hide ValidPlan, RoutesOk, EndsApart, Proper;
    forall k | 0 <= k < |plans|
      ensures RoutesGood(RoutesOf(plans)[k], participants) && RoutesGood(BackRoutesOf(plans)[k], participants)
    {
      PlanGood(plans[k]);
    }
  }

  /** What the storage holders have reaches the compute participants, and what these make of it
      comes back to the holders, to every element of the tensors they store. */
  lemma ThereAndBack<V>(plans: seq<Plan>, participants: seq<int>,
                        stored: seq<seq<Tensor<V>>>, computing: seq<seq<Tensor<V>>>, in0: seq<seq<V>>,
                            out0: seq<seq<V>>, v: Values<V>,
                        computed: seq<seq<Tensor<V>>>, updated: seq<seq<Tensor<V>>>, in1: seq<seq<V>>,
                            out1: seq<seq<V>>, w: Values<V>)
    requires Bucket(plans, participants)
    requires forall k :: 0 <= k < |plans| ==>
               RoutesOk(RoutesOf(plans)[k], participants) && RoutesOk(BackRoutesOf(plans)[k], participants)
    requires Redistributed(RoutesOf(plans), participants, stored, computing, in0, out0)
    requires AtSources(RoutesOf(plans), participants, stored, v)
    requires Redistributed(BackRoutesOf(plans), participants, computed, updated, in1, out1)
    requires AtSources(BackRoutesOf(plans), participants, computed, w)
    ensures AtDestinations(RoutesOf(plans), participants, computing, v)
    ensures AtDestinations(BackRoutesOf(plans), participants, updated, w)
    ensures forall i, k, ix | 0 <= i < |participants| && 0 <= k < |plans| && |plans[k].storage| == |participants|
                              && ix in Cells(Whole(plans[k].storage[i].tensorShape)) ::
              FromSomeRoute(plans[k], participants[i], updated[i][k], w, k, ix)
  {
    hide RoutesGood, RoutesOk, Redistributed, AtSources, HasValues, Cells, Whole, ValidPlan, FromSomeRoute;
    BucketGood(plans, participants);
    BringsValues(RoutesOf(plans), participants, stored, computing, in0, out0, v);
    BringsValues(BackRoutesOf(plans), participants, computed, updated, in1, out1, w);
    forall i, k, ix | 0 <= i < |participants| && 0 <= k < |plans| && |plans[k].storage| == |participants|
                      && ix in Cells(Whole(plans[k].storage[i].tensorShape))
      ensures FromSomeRoute(plans[k], participants[i], updated[i][k], w, k, ix)
    {
      StorageUpdated(plans[k], i, updated[i][k], w, k, ix);
    }
  }

  /** The element has the value of some route of the participant. */
  ghost predicate FromSomeRoute<V>(plan: Plan, p: int, tensor: Tensor<V>, w: Values<V>, k: nat, ix: Index) {
    exists r: nat, e: nat :: r < |plan.routes| && IsFrom(plan.routes[r], p, tensor, w, k, r, e, ix)
  }

  ghost predicate IsFrom<V>(route: Route, p: int, tensor: Tensor<V>, w: Values<V>, k: nat, r: nat, e: nat, ix: Index) {
    && p in route.source.participants && Proper(route.source.region) && e < Numel(route.source.region)
    && Element(route.source.region, e) == ix && ix in tensor && (k, r, e) in w && tensor[ix] == w[(k, r, e)]
  }

  lemma StorageUpdated<V>(plan: Plan, i: nat, tensor: Tensor<V>, w: Values<V>, k: nat, ix: Index)
    requires ValidPlan(plan) && i < |plan.storage| == |plan.participants|
    requires ix in Cells(Whole(plan.storage[i].tensorShape))
    requires forall r :: 0 <= r < |plan.routes| && plan.participants[i] in plan.routes[r].source.participants ==>
                           HasValues(plan.routes[r].source.region, tensor, w, k, r)
    ensures FromSomeRoute(plan, plan.participants[i], tensor, w, k, ix)
  {
    hide LeavesExactly, Cells, Whole, AllFit, Tiles, RouteOk, Element, PartitionOk, Proper, Numel;
    var r, e := EveryElementMoves(plan.routes, plan.storage[i], plan.shape, ix);
    ValueAt(plan.routes[r].source.region, tensor, w, k, r, e);
    assert IsFrom(plan.routes[r], plan.participants[i], tensor, w, k, r, e, ix);
  }

  // ----- Whole-tensor compute

  /** The index shifted by the region's offsets: where a stored element is in the whole tensor. */
  function Shift(ix: Index, offsets: seq<int>): Index
    requires |ix| == |offsets|
  {
    seq(|ix|, d requires 0 <= d < |ix| => ix[d] + offsets[d])
  }

  /** Element `e` of a region is element `e` of the region at the origin, shifted. */
  lemma {:induction false} ElementShifted(offsets: seq<int>, shape: seq<int>, e: nat)
    requires |offsets| == |shape| && Sized(shape) && e < Prod(shape)
    ensures |CellAt(Zeros(|shape|), shape, e)| == |offsets|
    ensures CellAt(offsets, shape, e) == Shift(CellAt(Zeros(|shape|), shape, e), offsets)
    decreases |shape|
  {
    hide Prod;
    if shape != [] {
      var d := |shape|;
      var size, q, r := SplitNumber(offsets, shape, e);
      var size0, q0, r0 := SplitNumber(Zeros(d), shape, e);
      SameSplit(size, q, r, q0, r0);
      assert Zeros(d)[1..] == Zeros(|shape[1..]|);
      ElementShifted(offsets[1..], shape[1..], r);
      var tail := CellAt(Zeros(d)[1..], shape[1..], r);
      assert Shift([q] + tail, offsets) == [q + offsets[0]] + Shift(tail, offsets[1..]);
    }
  }

  lemma SameSplit(size: nat, q: nat, r: nat, q0: nat, r0: nat)
    requires r < size && r0 < size && q * size + r == q0 * size + r0
    ensures q == q0 && r == r0
  {
    QuotientIs(q * size + r, q, r, size);
    QuotientIs(q * size + r, q0, r0, size);
  }

  lemma StoredElement(r: Region, bounds: seq<int>, e: nat)
    requires Fits(r, bounds) && Proper(r) && Proper(Whole(r.shape)) && Numel(Whole(r.shape)) == Numel(r) && e < Numel(r)
    ensures |Element(Whole(r.shape), e)| == |r.offsets|
    ensures Element(r, e) == Shift(Element(Whole(r.shape), e), r.offsets)
  {
    ElementShifted(r.offsets, r.shape, e);
  }

  /** A participant stores its piece of the whole tensor. */
  ghost predicate Stores<V>(m: Mapping, tensor: Tensor<V>, whole: Tensor<V>) {
    forall ix :: ix in Cells(Whole(m.region.shape)) ==>
      |ix| == |m.region.offsets| && ix in tensor && Shift(ix, m.region.offsets) in whole
          && tensor[ix] == whole[Shift(ix, m.region.offsets)]
  }

  /** The tensors of a bucket: how each is stored, who computes on it, and its shape. */
  datatype Layout = Layout(mappings: seq<Mapping>, compute: seq<int>, shape: seq<int>)

  ghost predicate LayoutOk(l: Layout, participants: seq<int>) {
    SomeOf(l.compute, participants) && StorageOk(l.mappings, participants, l.shape)
  }

  function LayoutRoutes(layouts: seq<Layout>): (routes: seq<seq<Route>>)
    ensures |routes| == |layouts|
    ensures forall k :: 0 <= k < |layouts| ==> routes[k] == WholeRoutes(layouts[k].mappings, layouts[k].compute)
  {
    seq(|layouts|, k requires 0 <= k < |layouts| => WholeRoutes(layouts[k].mappings, layouts[k].compute))
  }

  function LayoutBackRoutes(layouts: seq<Layout>): (routes: seq<seq<Route>>)
    ensures |routes| == |layouts|
    ensures forall k :: 0 <= k < |layouts|
             ==> routes[k] == Inverse(WholeRoutes(layouts[k].mappings, layouts[k].compute))
  {
    seq(|layouts|, k requires 0 <= k < |layouts| => Inverse(WholeRoutes(layouts[k].mappings, layouts[k].compute)))
  }

  /** The value of each element of each route, from whole tensors. */
  ghost predicate Valued<V>(layouts: seq<Layout>, wholes: seq<Tensor<V>>, x: (nat, nat, nat)) {
    && |wholes| == |layouts| && x.0 < |layouts| && x.1 < |layouts[x.0].mappings|
    && Proper(layouts[x.0].mappings[x.1].region) && x.2 < Numel(layouts[x.0].mappings[x.1].region)
    && Element(layouts[x.0].mappings[x.1].region, x.2) in wholes[x.0]
  }

  ghost function ValuesOf<V>(layouts: seq<Layout>, wholes: seq<Tensor<V>>): Values<V> {
    imap x: (nat, nat, nat) | Valued(layouts, wholes, x) :: wholes[x.0][Element(layouts[x.0].mappings[x.1].region, x.2)]
  }

  /** Everyone's storage holds its pieces of the whole tensors. */
  ghost predicate AllStore<V>(layouts: seq<Layout>, participants: seq<int>,
                              tensors: seq<seq<Tensor<V>>>, wholes: seq<Tensor<V>>) {
    && |tensors| == |participants| && |wholes| == |layouts|
    && (forall i :: 0 <= i < |participants| ==> |tensors[i]| == |layouts|)
    && (forall i, k, r :: 0 <= i < |participants| && 0 <= k < |layouts| && 0 <= r < |layouts[k].mappings|
                          && participants[i] in layouts[k].mappings[r].holders ==>
                            Stores(layouts[k].mappings[r], tensors[i][k], wholes[k]))
  }

  /** A tensor is the whole one. */
  ghost predicate IsWhole<V>(shape: seq<int>, tensor: Tensor<V>, whole: Tensor<V>) {
    forall ix :: ix in Cells(Whole(shape)) ==> ix in tensor && ix in whole && tensor[ix] == whole[ix]
  }

  /** Everyone who computes on a tensor has all of it. */
  ghost predicate AllWhole<V>(layouts: seq<Layout>, participants: seq<int>,
                              tensors: seq<seq<Tensor<V>>>, wholes: seq<Tensor<V>>) {
    && |tensors| == |participants| && |wholes| == |layouts|
    && (forall i :: 0 <= i < |participants| ==> |tensors[i]| == |layouts|)
    && (forall i, k :: 0 <= i < |participants| && 0 <= k < |layouts| && participants[i] in layouts[k].compute ==>
          IsWhole(layouts[k].shape, tensors[i][k], wholes[k]))
  }

  lemma PieceValues<V>(layouts: seq<Layout>, participants: seq<int>, k: nat, r: nat,
                       tensor: Tensor<V>, wholes: seq<Tensor<V>>)
    requires k < |layouts| == |wholes| && LayoutOk(layouts[k], participants) && r < |layouts[k].mappings|
    ensures var m := layouts[k].mappings[r];
            Stores(m, tensor, wholes[k]) ==> HasValues(Whole(m.region.shape), tensor, ValuesOf(layouts, wholes), k, r)
    ensures var m := layouts[k].mappings[r];
            HasValues(Whole(m.region.shape), tensor, ValuesOf(layouts, wholes), k, r) ==> Stores(m, tensor, wholes[k])
  {
    hide Cells, Prod, CellAt, Tiles, SomeOf, OneEach;
    var m, shape := layouts[k].mappings[r], layouts[k].shape;
    assert Fits(MappedRegions(layouts[k].mappings)[r], shape);
    FitsProper(m.region, shape);
    FitsWhole(m.region, shape);
    FitsProper(Whole(m.region.shape), m.region.shape);
    var whole, v := Whole(m.region.shape), ValuesOf(layouts, wholes);
    if Stores(m, tensor, wholes[k]) {
      forall e: nat | e < Numel(whole) ensures IsValue(whole, tensor, v, k, r, e) {
        ElementInside(whole, e);
        StoredElement(m.region, shape, e);
        assert Valued(layouts, wholes, (k, r, e));
      }
    }
    if HasValues(whole, tensor, v, k, r) {
      forall ix | ix in Cells(whole)
        ensures |ix| == |m.region.offsets| && ix in tensor && Shift(ix, m.region.offsets) in wholes[k]
        ensures tensor[ix] == wholes[k][Shift(ix, m.region.offsets)]
      {
        var e := ElementOf(whole, ix);
        ValueAt(whole, tensor, v, k, r, e);
        StoredElement(m.region, shape, e);
        assert Valued(layouts, wholes, (k, r, e));
      }
    }
  }

  lemma WholeValues<V>(layouts: seq<Layout>, participants: seq<int>, k: nat, tensor: Tensor<V>, wholes: seq<Tensor<V>>)
    requires k < |layouts| == |wholes| && LayoutOk(layouts[k], participants)
    ensures IsWhole(layouts[k].shape, tensor, wholes[k]) ==>
              forall r :: 0 <= r < |layouts[k].mappings| ==>
                HasValues(layouts[k].mappings[r].region, tensor, ValuesOf(layouts, wholes), k, r)
    ensures (forall r :: 0 <= r < |layouts[k].mappings| ==>
               HasValues(layouts[k].mappings[r].region, tensor, ValuesOf(layouts, wholes), k, r)) ==>
              IsWhole(layouts[k].shape, tensor, wholes[k])
  {
    hide Cells, Prod, CellAt, SomeOf, OneEach, Whole, HasValues, IsValue, Proper;
    var shape, mappings, v := layouts[k].shape, layouts[k].mappings, ValuesOf(layouts, wholes);
    if IsWhole(shape, tensor, wholes[k]) {
      forall r | 0 <= r < |mappings| ensures HasValues(mappings[r].region, tensor, v, k, r) {
        var region := mappings[r].region;
        assert Fits(MappedRegions(mappings)[r], shape);
        FitsProper(region, shape);
        forall e: nat | e < Numel(region) ensures IsValue(region, tensor, v, k, r, e) {
          ElementInside(region, e);
          WholeValueAt(layouts, k, r, e, tensor, wholes);
        }
        AreValues(region, tensor, v, k, r);
      }
    }
    if forall r :: 0 <= r < |mappings| ==> HasValues(mappings[r].region, tensor, v, k, r) {
      forall ix | ix in Cells(Whole(shape)) ensures ix in tensor && ix in wholes[k] && tensor[ix] == wholes[k][ix] {
        assert Once(MappedRegions(mappings), ix);
        var r: nat :| r < |mappings| && ix in Cells(MappedRegions(mappings)[r]);
        assert HasValues(mappings[r].region, tensor, v, k, r);
        ValueInWhole(layouts, k, r, ix, tensor, wholes);
      }
    }
  }

  lemma WholeValueAt<V>(layouts: seq<Layout>, k: nat, r: nat, e: nat, tensor: Tensor<V>, wholes: seq<Tensor<V>>)
    requires k < |layouts| == |wholes| && r < |layouts[k].mappings|
    requires var region := layouts[k].mappings[r].region;
             Proper(region) && e < Numel(region) && var ix := Element(region, e);
             ix in tensor && ix in wholes[k] && tensor[ix] == wholes[k][ix]
    ensures IsValue(layouts[k].mappings[r].region, tensor, ValuesOf(layouts, wholes), k, r, e)
  {
    hide CellAt, Prod;
    assert Valued(layouts, wholes, (k, r, e));
  }

  lemma ValueInWhole<V>(layouts: seq<Layout>, k: nat, r: nat, ix: Index, tensor: Tensor<V>, wholes: seq<Tensor<V>>)
    requires k < |layouts| == |wholes| && r < |layouts[k].mappings|
    requires HasValues(layouts[k].mappings[r].region, tensor, ValuesOf(layouts, wholes), k, r)
    requires ix in Cells(layouts[k].mappings[r].region)
    ensures ix in tensor && ix in wholes[k] && tensor[ix] == wholes[k][ix]
  {
    hide CellAt, Prod, Cells;
    var region := layouts[k].mappings[r].region;
    var e := ElementOf(region, ix);
    ValueAt(region, tensor, ValuesOf(layouts, wholes), k, r, e);
    assert Valued(layouts, wholes, (k, r, e));
  }

  // ----- The round trip

  /** Layouts whose plans exist. */
  ghost predicate LayoutsOk(layouts: seq<Layout>, participants: seq<int>) {
    Distinct(participants) && forall k :: 0 <= k < |layouts| ==> LayoutOk(layouts[k], participants)
  }

  lemma LayoutGood(l: Layout, participants: seq<int>)
    requires LayoutOk(l, participants)
    ensures RoutesGood(WholeRoutes(l.mappings, l.compute), participants)
    ensures RoutesGood(Inverse(WholeRoutes(l.mappings, l.compute)), participants)
    ensures RoutesOk(WholeRoutes(l.mappings, l.compute), participants)
    ensures RoutesOk(Inverse(WholeRoutes(l.mappings, l.compute)), participants)
  {
    hide SomeOf, ValidPlan, AllFit, Tiles, RouteOk, Proper, EndsApart, Cells;
    var held := HeldRegions(l.mappings, participants);
    WholePlanValid(l.mappings, participants, l.compute, l.shape, held);
    PlanGood(Plan(participants, l.shape, HeldPartitions(participants, held),
        WholePartitions(participants, l.compute, l.shape),
                  WholeRoutes(l.mappings, l.compute)));
  }

  /** The participants' regions exist. */
  lemma HeldRegions(mappings: seq<Mapping>, participants: seq<int>) returns (held: map<int, Region>)
    requires OneEach(mappings, participants)
    ensures Collected(mappings, |mappings|, held) && forall i :: 0 <= i < |participants| ==> participants[i] in held
  {
    hide SomeOf;
    held := map p | p in participants :: HolderRegion(mappings, p);
    forall i | 0 <= i < |mappings|
      ensures forall p :: p in mappings[i].holders ==> p in held && held[p] == mappings[i].region
    {
      forall p | p in mappings[i].holders ensures p in held && held[p] == mappings[i].region {
        HolderKnown(mappings, participants, i, p);
      }
    }
    forall p | p in held ensures exists i :: 0 <= i < |mappings| && p in mappings[i].holders
                                  && held[p] == mappings[i].region {
      assert IsHeld(mappings, p);
      var i :| 0 <= i < |mappings| && p in mappings[i].holders;
      HolderKnown(mappings, participants, i, p);
    }
  }

  function HolderRegion(mappings: seq<Mapping>, p: int): Region {
    if mappings == [] then Region([], [])
    else if p in mappings[0].holders then mappings[0].region else HolderRegion(mappings[1..], p)
  }

  lemma HolderKnown(mappings: seq<Mapping>, participants: seq<int>, i: nat, p: int)
    requires OneEach(mappings, participants) && i < |mappings| && p in mappings[i].holders
    ensures p in participants && HolderRegion(mappings, p) == mappings[i].region
  {
    assert SomeOf(mappings[i].holders, participants);
    FirstHolder(mappings, i, p);
  }

  lemma {:induction false} FirstHolder(mappings: seq<Mapping>, i: nat, p: int)
    requires i < |mappings| && p in mappings[i].holders && forall j :: 0 <= j < i ==> p !in mappings[j].holders
    ensures HolderRegion(mappings, p) == mappings[i].region
  {
    if i > 0 {
      FirstHolder(mappings[1..], i - 1, p);
    }
  }

  lemma StoredValues<V>(layouts: seq<Layout>, participants: seq<int>,
                        tensors: seq<seq<Tensor<V>>>, wholes: seq<Tensor<V>>)
    requires LayoutsOk(layouts, participants) && |wholes| == |layouts|
    ensures AllStore(layouts, participants, tensors, wholes) ==>
              AtSources(LayoutRoutes(layouts), participants, tensors, ValuesOf(layouts, wholes))
    ensures AtDestinations(LayoutBackRoutes(layouts), participants, tensors, ValuesOf(layouts, wholes)) ==>
              AllStore(layouts, participants, tensors, wholes)
  {
    hide LayoutOk, Stores, HasValues, Whole, ValuesOf;
    var v := ValuesOf(layouts, wholes);
    var routes: seq<seq<Route>>, back: seq<seq<Route>> := LayoutRoutes(layouts), LayoutBackRoutes(layouts);
    if AllStore(layouts, participants, tensors, wholes) {
      forall i, k, r | 0 <= i < |participants| && 0 <= k < |routes| && 0 <= r < |routes[k]|
                       && participants[i] in routes[k][r].source.participants
        ensures HasValues(routes[k][r].source.region, tensors[i][k], v, k, r)
      {
        PieceValues(layouts, participants, k, r, tensors[i][k], wholes);
      }
    }
    if AtDestinations(back, participants, tensors, v) {
      forall i, k, r | 0 <= i < |participants| && 0 <= k < |layouts| && 0 <= r < |layouts[k].mappings|
                       && participants[i] in layouts[k].mappings[r].holders
        ensures Stores(layouts[k].mappings[r], tensors[i][k], wholes[k])
      {
        assert HasValues(back[k][r].destination.region, tensors[i][k], v, k, r);
        PieceValues(layouts, participants, k, r, tensors[i][k], wholes);
      }
    }
  }

  lemma ComputeValues<V>(layouts: seq<Layout>, participants: seq<int>,
                         tensors: seq<seq<Tensor<V>>>, wholes: seq<Tensor<V>>)
    requires LayoutsOk(layouts, participants) && |wholes| == |layouts|
    ensures AllWhole(layouts, participants, tensors, wholes) ==>
              AtSources(LayoutBackRoutes(layouts), participants, tensors, ValuesOf(layouts, wholes))
    ensures AtDestinations(LayoutRoutes(layouts), participants, tensors, ValuesOf(layouts, wholes)) ==>
              AllWhole(layouts, participants, tensors, wholes)
  {
    hide LayoutOk, IsWhole, HasValues, Whole, ValuesOf;
    var v := ValuesOf(layouts, wholes);
    var routes: seq<seq<Route>>, back: seq<seq<Route>> := LayoutRoutes(layouts), LayoutBackRoutes(layouts);
    if AllWhole(layouts, participants, tensors, wholes) {
      forall i, k, r | 0 <= i < |participants| && 0 <= k < |back| && 0 <= r < |back[k]|
                       && participants[i] in back[k][r].source.participants
        ensures HasValues(back[k][r].source.region, tensors[i][k], v, k, r)
      {
        WholeValues(layouts, participants, k, tensors[i][k], wholes);
      }
    }
    if AtDestinations(routes, participants, tensors, v) {
      forall i, k | 0 <= i < |participants| && 0 <= k < |layouts| && participants[i] in layouts[k].compute
        ensures IsWhole(layouts[k].shape, tensors[i][k], wholes[k])
      {
        forall r | 0 <= r < |layouts[k].mappings|
          ensures HasValues(layouts[k].mappings[r].region, tensors[i][k], v, k, r)
        {
          assert HasValues(routes[k][r].destination.region, tensors[i][k], v, k, r);
        }
        WholeValues(layouts, participants, k, tensors[i][k], wholes);
      }
    }
  }

  lemma LayoutsGood(layouts: seq<Layout>, participants: seq<int>)
    requires LayoutsOk(layouts, participants)
    ensures forall k :: 0 <= k < |layouts| ==>
              RoutesGood(LayoutRoutes(layouts)[k], participants)
                  && RoutesGood(LayoutBackRoutes(layouts)[k], participants)
    ensures forall k :: 0 <= k < |layouts| ==>
              RoutesOk(LayoutRoutes(layouts)[k], participants) && RoutesOk(LayoutBackRoutes(layouts)[k], participants)
  {
    hide LayoutOk, RoutesGood, RoutesOk;
    forall k | 0 <= k < |layouts|
      ensures RoutesGood(LayoutRoutes(layouts)[k], participants)
      ensures RoutesGood(LayoutBackRoutes(layouts)[k], participants)
      ensures RoutesOk(LayoutRoutes(layouts)[k], participants) && RoutesOk(LayoutBackRoutes(layouts)[k], participants)
    {
      LayoutGood(layouts[k], participants);
    }
  }

  /** Storage to compute and back: the compute participants see the whole tensors; and if each
      replaces a tensor by the same function of what it sees, everyone who stores a piece of it
      ends up with that piece of the function's result. */
  lemma WholeTensorsReturn<V>(layouts: seq<Layout>, participants: seq<int>,
                              wholes: seq<Tensor<V>>, results: seq<Tensor<V>>,
                              stored: seq<seq<Tensor<V>>>, computing: seq<seq<Tensor<V>>>,
                                  in0: seq<seq<V>>, out0: seq<seq<V>>,
                              computed: seq<seq<Tensor<V>>>, updated: seq<seq<Tensor<V>>>,
                                  in1: seq<seq<V>>, out1: seq<seq<V>>)
    requires LayoutsOk(layouts, participants) && |wholes| == |results| == |layouts|
    requires forall k :: 0 <= k < |layouts| ==>
               RoutesOk(LayoutRoutes(layouts)[k], participants) && RoutesOk(LayoutBackRoutes(layouts)[k], participants)
    requires AllStore(layouts, participants, stored, wholes)
    requires Redistributed(LayoutRoutes(layouts), participants, stored, computing, in0, out0)
    requires Redistributed(LayoutBackRoutes(layouts), participants, computed, updated, in1, out1)
    ensures AllWhole(layouts, participants, computing, wholes)
    ensures AllWhole(layouts, participants, computed, results) ==> AllStore(layouts, participants, updated, results)
  {
    hide LayoutOk, RoutesGood, RoutesOk, AllStore, AllWhole, AtSources, AtDestinations, Redistributed, ValuesOf,
         HasValues;
    LayoutsGood(layouts, participants);
    StoredValues(layouts, participants, stored, wholes);
    BringsValues(LayoutRoutes(layouts), participants, stored, computing, in0, out0, ValuesOf(layouts, wholes));
    ComputeValues(layouts, participants, computing, wholes);
    if AllWhole(layouts, participants, computed, results) {
      ComputeValues(layouts, participants, computed, results);
      BringsValues(LayoutBackRoutes(layouts), participants, computed, updated, in1, out1, ValuesOf(layouts, results));
      StoredValues(layouts, participants, updated, results);
    }
  }
}
