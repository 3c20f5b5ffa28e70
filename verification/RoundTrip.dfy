/** A bucket's way to compute and back: for valid plans the packed buffers can be filled and
    emptied without conflict, and what compute makes of a tensor reaches everyone who stores
    it. */
module RoundTrip {
  import opened Regions
  import opened RegionValidator
  import opened RedistributionPlan
  import opened PackedSchedule
  import opened PackedExchange
  import opened PackedDelivery

  // ----- What a schedule's spans are

  lemma LaidItem(items: seq<Item>, side: Side, x: IndexedSpan) returns (j: nat)
    requires x in Laid(items, side)
    ensures j < |items|
    ensures x == IndexedSpan(items[j].parameter, Span(RegionOf(items[j].transfer, side), Size(items[..j], side)))
  {
    hide Size, RegionOf;
    LaidLength(items, side);
    j :| 0 <= j < |items| && Laid(items, side)[j] == x;
    LaidAt(items, side, j);
  }

  lemma {:induction false} LaidLength(items: seq<Item>, side: Side)
    ensures |Laid(items, side)| == |items|
  {
    if items != [] {
      LaidLength(items[..|items| - 1], side);
    }
  }

  lemma SizeMonotone(items: seq<Item>, side: Side, i: nat, j: nat)
    requires EvenItems(items) && i < j < |items|
    ensures Size(items[..i], side) + Numel(RegionOf(items[i].transfer, side)) <= Size(items[..j], side)
  {
    hide Numel, Proper;
    EvenPrefix(items, j);
    SizePrefix(items[..j], side, i);
    assert items[..j][..i] == items[..i];
  }

  /** The spans of a layout are in bounds and use different parts of the buffer. */
  lemma LaidSeparate(all: seq<seq<Transfer>>, participants: seq<int>, local: int, side: Side)
    requires Even(all)
    ensures var spans := SpansOf(ScheduleFor(all, participants, local), side);
            && AllSeparate(spans) && |spans| == |all|
            && forall k, s :: 0 <= k < |spans| && s in spans[k] ==>
                                GoodSpan(s, BufferSize(SplitsOf(ScheduleFor(all, participants, local), side)))
  {
    hide Even, Laid, Size, Numel, Proper, OfParameter, WithPeers, WithPeer, AnyRemote, Splits, Separate;
    var schedule := ScheduleFor(all, participants, local);
    var items, spans := WithPeers(all, local, participants, side), SpansOf(schedule, side);
    EvenWithPeers(all, local, participants, side);
    SplitsTotal(all, local, participants, side);
    forall k, s | 0 <= k < |spans| && s in spans[k] ensures GoodSpan(s, BufferSize(SplitsOf(schedule, side))) {
      var j := SpanItem(all, participants, local, side, k, s);
      SizePrefix(items, side, j);
    }
    forall k, l, s, t | 0 <= k < |spans| && 0 <= l < |spans| && s in spans[k] && t in spans[l] && (k != l || s != t)
      ensures Separate(s, t)
    {
      var i := SpanItem(all, participants, local, side, k, s);
      var j := SpanItem(all, participants, local, side, l, t);
      SeparateItems(items, side, i, j, s, t);
    }
  }

  function BufferSize(splits: seq<int>): nat {
    if Sum(splits) < 0 then 0 else Sum(splits)
  }

  lemma SplitsTotal(all: seq<seq<Transfer>>, local: int, peers: seq<int>, side: Side)
    ensures Sum(Splits(all, local, peers, side)) == Size(WithPeers(all, local, peers, side), side)
  {
    hide Sum, Size, WithPeers, WithPeer;
    SplitsSum(all, local, peers, side, |peers|);
    assert peers[..|peers|] == peers && Splits(all, local, peers, side)[..|peers|] == Splits(all, local, peers, side);
  }

  lemma SpanItem(all: seq<seq<Transfer>>, participants: seq<int>, local: int, side: Side, k: nat, s: Span)
      returns (j: nat)
    requires k < |all| && s in SpansOf(ScheduleFor(all, participants, local), side)[k]
    ensures var items := WithPeers(all, local, participants, side);
            && j < |items| && items[j].parameter == k
            && s == Span(RegionOf(items[j].transfer, side), Size(items[..j], side))
  {
    hide Laid, Size, OfParameter, WithPeers, AnyRemote, Splits, RegionOf;
    var items := WithPeers(all, local, participants, side);
    OfParameterHas(Laid(items, side), k, s);
    j := LaidItem(items, side, IndexedSpan(k, s));
  }

  lemma SeparateItems(items: seq<Item>, side: Side, i: nat, j: nat, s: Span, t: Span)
    requires EvenItems(items) && i < |items| && j < |items| && i != j
    requires s == Span(RegionOf(items[i].transfer, side), Size(items[..i], side))
    requires t == Span(RegionOf(items[j].transfer, side), Size(items[..j], side))
    ensures Separate(s, t)
  {
    hide Numel, Proper, Size;
    if i < j {
      SizeMonotone(items, side, i, j);
    } else {
      SizeMonotone(items, side, j, i);
    }
  }

  // ----- What is received fills different parts of a tensor

  /** Transfers of one parameter to one participant fill different parts of its tensor. */
  ghost predicate TransfersApart(ts: seq<Transfer>, destination: int) {
    forall i, j :: 0 <= i < j < |ts| && ts[i].destination == destination && ts[j].destination == destination ==>
                     Cells(ts[i].to) * Cells(ts[j].to) == {}
  }

  ghost predicate ItemsApart(items: seq<Item>) {
    forall i, j :: 0 <= i < j < |items| && items[i].parameter == items[j].parameter ==>
                     Cells(items[i].transfer.to) * Cells(items[j].transfer.to) == {}
  }

  lemma ApartSum(a: seq<Item>, b: seq<Item>)
    requires ItemsApart(a) && ItemsApart(b)
    requires forall x: Item, y: Item :: x in a && y in b && x.parameter == y.parameter
              ==> Cells(x.transfer.to) * Cells(y.transfer.to) == {}
    ensures ItemsApart(a + b)
  {
    hide Cells;
    var all := a + b;
    forall i, j | 0 <= i < j < |all| && all[i].parameter == all[j].parameter
      ensures Cells(all[i].transfer.to) * Cells(all[j].transfer.to) == {}
    {
      if i < |a| && j >= |a| {
        assert all[i] in a && all[j] in b;
      }
    }
  }

  lemma TransferPlaces(ts: seq<Transfer>, destination: int, t: Transfer, u: Transfer)
    requires TransfersApart(ts, destination) && t in ts && u in ts && t != u
    requires t.destination == u.destination == destination
    ensures Cells(t.to) * Cells(u.to) == {}
  {
    hide Cells;
    var i :| 0 <= i < |ts| && ts[i] == t;
    var j :| 0 <= j < |ts| && ts[j] == u;
    Symmetric(t.to, u.to);
  }

  lemma {:induction false} MatchingApart(ts: seq<Transfer>, k: nat, source: int, destination: int)
    requires TransfersApart(ts, destination)
    ensures ItemsApart(Matching(ts, k, source, destination))
  {
    hide Cells;
    if ts != [] {
      var n: nat := |ts| - 1;
      var before, t := Matching(ts[..n], k, source, destination), ts[n];
      MatchingApart(ts[..n], k, source, destination);
      if t.source == source && t.destination == destination {
        forall x | x in before ensures Cells(x.transfer.to) * Cells(t.to) == {} {
          MatchingBelong(ts[..n], k, source, destination);
          var i :| 0 <= i < n && ts[..n][i] == x.transfer;
          assert ts[i] == x.transfer;
        }
        ApartSum(before, [Item(k, t)]);
      }
    }
  }

  lemma {:induction false} BetweenApart(all: seq<seq<Transfer>>, source: int, destination: int)
    requires forall k :: 0 <= k < |all| ==> TransfersApart(all[k], destination)
    ensures ItemsApart(Between(all, source, destination))
  {
    hide Cells, Matching, TransfersApart, ItemsApart;
    if all != [] {
      var n: nat := |all| - 1;
      BetweenApart(all[..n], source, destination);
      MatchingApart(all[n], n, source, destination);
      BetweenBelong(all[..n], source, destination);
      MatchingBelong(all[n], n, source, destination);
      ApartSum(Between(all[..n], source, destination), Matching(all[n], n, source, destination));
    } else {
      NoItemsApart();
    }
  }

  lemma NoItemsApart()
    ensures ItemsApart([])
  {
  }

  lemma {:induction false} ReceivedFrom(all: seq<seq<Transfer>>, local: int, peers: seq<int>, x: Item)
    ensures x in WithPeers(all, local, peers, Receiving) <==>
            && x.parameter < |all| && x.transfer in all[x.parameter]
            && x.transfer.source in peers && x.transfer.destination == local
  {
    hide Between;
    if peers != [] {
      var n: nat := |peers| - 1;
      ReceivedFrom(all, local, peers[..n], x);
      BetweenBelong(all, peers[n], local);
      assert x.transfer.source in peers <==> x.transfer.source in peers[..n] || x.transfer.source == peers[n];
    }
  }

  lemma {:induction false} ReceivedApart(all: seq<seq<Transfer>>, local: int, peers: seq<int>)
    requires Distinct(peers) && forall k :: 0 <= k < |all| ==> TransfersApart(all[k], local)
    ensures ItemsApart(WithPeers(all, local, peers, Receiving))
  {
    hide Cells, Between, TransfersApart, ItemsApart;
    if peers != [] {
      var n: nat := |peers| - 1;
      ReceivedApart(all, local, peers[..n]);
      BetweenApart(all, peers[n], local);
      var before, last := WithPeers(all, local, peers[..n], Receiving), Between(all, peers[n], local);
      forall x: Item, y: Item | x in before && y in last && x.parameter == y.parameter
          ensures Cells(x.transfer.to) * Cells(y.transfer.to) == {} {
        ReceivedFrom(all, local, peers[..n], x);
        BetweenBelong(all, peers[n], local);
        assert x.transfer.source in peers[..n];
        TransferPlaces(all[x.parameter], local, x.transfer, y.transfer);
      }
      ApartSum(before, last);
    } else {
      NoItemsApart();
    }
  }

  lemma ReceivedFillApart(all: seq<seq<Transfer>>, participants: seq<int>, local: int, k: nat)
    requires Distinct(participants) && k < |all| && forall l :: 0 <= l < |all| ==> TransfersApart(all[l], local)
    ensures FillApart(ScheduleFor(all, participants, local).outputSpans[k])
  {
    hide Cells, Laid, Size, OfParameter, WithPeers, AnyRemote, Splits, TransfersApart;
    ReceivedApart(all, local, participants);
    var spans := ScheduleFor(all, participants, local).outputSpans[k];
    forall s, t | s in spans && t in spans && s != t ensures Cells(s.region) * Cells(t.region) == {} {
      var i := SpanItem(all, participants, local, Receiving, k, s);
      var j := SpanItem(all, participants, local, Receiving, k, t);
      Symmetric(s.region, t.region);
    }
  }

  // ----- Routes

  /** Routes to one participant end in different parts of its tensor. */
  ghost predicate EndsApart(routes: seq<Route>, p: int) {
    forall i, j | 0 <= i < j < |routes|
      && p in routes[i].destination.participants && p in routes[j].destination.participants ::
      Cells(routes[i].destination.region) * Cells(routes[j].destination.region) == {}
  }

  ghost predicate RoutesGood(routes: seq<Route>, participants: seq<int>) {
    && RoutesOk(routes, participants)
    && (forall r :: 0 <= r < |routes| ==> Proper(routes[r].source.region) && Proper(routes[r].destination.region))
    && (forall p :: p in participants ==> EndsApart(routes, p))
  }

  lemma {:induction false} RouteTransfersApart(routes: seq<Route>, participants: seq<int>, p: int)
    requires RoutesOk(routes, participants) && EndsApart(routes, p)
    ensures TransfersApart(AllTransfers(routes, participants), p)
    decreases |routes|
  {
    hide Cells, RouteOk, Sender;
    if routes != [] {
      var n: nat := |routes| - 1;
      var before, last := AllTransfers(routes[..n], participants), routes[n];
      var more := RouteTransfers(last, participants, |last.destination.participants|);
      RouteTransfersApart(routes[..n], participants, p);
      DestinationsDistinct(routes, participants, n);
      assert forall i, j :: 0 <= i < j < |more| ==> more[i].destination != more[j].destination;
      var all: seq<Transfer> := before + more;
      forall i: nat, j: nat | i < j < |all| && all[i].destination == p && all[j].destination == p
        ensures Cells(all[i].to) * Cells(all[j].to) == {}
      {
        if j >= |before| {
          assert all[j] == more[j - |before|];
          if i < |before| {
            assert all[i] in before;
            var r := TransferFromRoute(routes[..n], participants, all[i]);
            assert routes[..n][r] == routes[r];
          }
        }
      }
    }
  }

  lemma DestinationsDistinct(routes: seq<Route>, participants: seq<int>, r: nat)
    requires RoutesOk(routes, participants) && r < |routes|
    ensures Distinct(routes[r].destination.participants)
  {
  }

  lemma TransfersEven(routes: seq<seq<Route>>, participants: seq<int>)
    requires forall k :: 0 <= k < |routes| ==> RoutesGood(routes[k], participants)
    ensures forall k :: 0 <= k < |routes| ==> RoutesOk(routes[k], participants)
    ensures Even(BucketTransfers(routes, participants))
  {
    hide Proper, Numel, EndsApart, AllTransfers, Serves;
    var all: seq<seq<Transfer>> := BucketTransfers(routes, participants);
    forall k, j | 0 <= k < |all| && 0 <= j < |all[k]|
      ensures Proper(all[k][j].from) && Proper(all[k][j].to) && Numel(all[k][j].from) == Numel(all[k][j].to)
    {
      var r := TransferFromRoute(routes[k], participants, all[k][j]);
      ServesSame(all[k][j], routes[k][r], participants);
      assert RouteOk(routes[k][r], participants);
    }
  }

  /** A transfer comes from a participant that has the route's source. */
  lemma ServesFrom(t: Transfer, route: Route, participants: seq<int>)
    requires RouteOk(route, participants) && Serves(t, route, participants)
    requires t.destination in participants
    ensures t.source in route.source.participants && t.source in participants
  {
  }

  lemma ServesSame(t: Transfer, route: Route, participants: seq<int>)
    requires Serves(t, route, participants)
    ensures t.from == route.source.region && t.to == route.destination.region
  {
  }

  // ----- What a run of one direction brings

  /** One direction of a bucket's redistribution, for all its parameters: everyone packed what
      its schedule says, the exchange ran, and everyone unpacked. */
  ghost predicate Redistributed<V>(routes: seq<seq<Route>>, participants: seq<int>, sent: seq<seq<Tensor<V>>>,
                                   received: seq<seq<Tensor<V>>>,
                                   inputs: seq<seq<V>>, outputs: seq<seq<V>>)
    requires forall k :: 0 <= k < |routes| ==> RoutesOk(routes[k], participants)
  {
    var schedules := Schedules(BucketTransfers(routes, participants), participants);
    && |sent| == |received| == |inputs| == |outputs| == |participants|
    && (forall i :: 0 <= i < |participants| ==> AllHold(schedules[i].inputSpans, sent[i], inputs[i]))
    && Ran(schedules, inputs, outputs)
    && (forall i :: 0 <= i < |participants| ==> AllHold(schedules[i].outputSpans, received[i], outputs[i]))
  }

  /** The values of a bucket: one for each element of each route of each parameter. */
  type Values<!V> = imap<(nat, nat, nat), V>

  /** Everyone at the start of a route has its values at the route's place in its tensor. */
  ghost predicate AtSources<V>(routes: seq<seq<Route>>, participants: seq<int>,
                               tensors: seq<seq<Tensor<V>>>, v: Values<V>) {
    && |tensors| == |participants|
    && (forall i :: 0 <= i < |participants| ==> |tensors[i]| == |routes|)
    && (forall i, k, r :: 0 <= i < |participants| && 0 <= k < |routes| && 0 <= r < |routes[k]|
                          && participants[i] in routes[k][r].source.participants ==>
                            HasValues(routes[k][r].source.region, tensors[i][k], v, k, r))
  }

  ghost predicate HasValues<V>(region: Region, tensor: Tensor<V>, v: Values<V>, k: nat, r: nat) {
    Proper(region) && forall e: nat :: e < Numel(region) ==> IsValue(region, tensor, v, k, r, e)
  }

  ghost predicate IsValue<V>(region: Region, tensor: Tensor<V>, v: Values<V>, k: nat, r: nat, e: nat)
    requires Proper(region) && e < Numel(region)
  {
    Element(region, e) in tensor && (k, r, e) in v && tensor[Element(region, e)] == v[(k, r, e)]
  }

  /** Everyone at the end of a route has them. */
  ghost predicate AtDestinations<V>(routes: seq<seq<Route>>, participants: seq<int>,
                                    tensors: seq<seq<Tensor<V>>>, v: Values<V>) {
    && |tensors| == |participants|
    && (forall i :: 0 <= i < |participants| ==> |tensors[i]| == |routes|)
    && (forall i, k, r :: 0 <= i < |participants| && 0 <= k < |routes| && 0 <= r < |routes[k]|
                          && participants[i] in routes[k][r].destination.participants ==>
                            HasValues(routes[k][r].destination.region, tensors[i][k], v, k, r))
  }

  lemma RanIsExchanged<V>(routes: seq<seq<Route>>, participants: seq<int>, inputs: seq<seq<V>>, outputs: seq<seq<V>>)
    requires Distinct(participants) && participants != []
    requires forall k :: 0 <= k < |routes| ==> RoutesGood(routes[k], participants)
    ensures forall k :: 0 <= k < |routes| ==> RoutesOk(routes[k], participants)
    ensures var schedules := Schedules(BucketTransfers(routes, participants), participants);
            Ran(schedules, inputs, outputs) ==> Exchanged(schedules, inputs, outputs)
  {
    hide RoutesGood, AnyRemote, Schedules, Copied, Exchanged, Even, AllTransfers;
    TransfersEven(routes, participants);
    var all := BucketTransfers(routes, participants);
    NoneRemote(all, participants);
    var schedules := Schedules(all, participants);
    if Ran(schedules, inputs, outputs) && !AnyRemote(all) {
      CopyIsExchange(all, participants, inputs, outputs);
    }
  }

  /** Whatever values the starts of the routes have, all their ends get. */
  lemma BringsValues<V>(routes: seq<seq<Route>>, participants: seq<int>, sent: seq<seq<Tensor<V>>>,
                        received: seq<seq<Tensor<V>>>,
                        inputs: seq<seq<V>>, outputs: seq<seq<V>>, v: Values<V>)
    requires Distinct(participants) && forall k :: 0 <= k < |routes| ==> RoutesGood(routes[k], participants)
    requires forall k :: 0 <= k < |routes| ==> RoutesOk(routes[k], participants)
    requires Redistributed(routes, participants, sent, received, inputs, outputs)
    requires AtSources(routes, participants, sent, v)
    ensures AtDestinations(routes, participants, received, v)
  {
    hide RoutesGood, RoutesOk, HasValues, Exchanged, Ran, Schedules, ScheduleFor, AllHold, AllTransfers;
    forall i | 0 <= i < |participants| ensures |received[i]| == |routes| {
      ReceivedLength(routes, participants, received[i], outputs[i], i);
    }
    forall i, k, r | 0 <= i < |participants| && 0 <= k < |routes| && 0 <= r < |routes[k]|
                     && participants[i] in routes[k][r].destination.participants
      ensures HasValues(routes[k][r].destination.region, received[i][k], v, k, r)
    {
      RouteBrings(routes, participants, sent, received, inputs, outputs, v, i, k, r);
    }
  }

  lemma ReceivedLength<V>(routes: seq<seq<Route>>, participants: seq<int>, tensors: seq<Tensor<V>>, buffer: seq<V>,
                          i: nat)
    requires forall k :: 0 <= k < |routes| ==> RoutesOk(routes[k], participants)
    requires i < |participants|
    requires AllHold(Schedules(BucketTransfers(routes, participants), participants)[i].outputSpans, tensors, buffer)
    ensures |tensors| == |routes|
  {
    hide RoutesOk, Holds, AllTransfers, AnyRemote, Splits, Laid, OfParameter;
  }

  lemma RouteBrings<V>(routes: seq<seq<Route>>, participants: seq<int>, sent: seq<seq<Tensor<V>>>,
                       received: seq<seq<Tensor<V>>>,
                       inputs: seq<seq<V>>, outputs: seq<seq<V>>, v: Values<V>, i: nat, k: nat, r: nat)
    requires Distinct(participants) && forall k :: 0 <= k < |routes| ==> RoutesGood(routes[k], participants)
    requires forall k :: 0 <= k < |routes| ==> RoutesOk(routes[k], participants)
    requires Redistributed(routes, participants, sent, received, inputs, outputs)
    requires AtSources(routes, participants, sent, v)
    requires i < |participants| && k < |routes| && r < |routes[k]|
    requires participants[i] in routes[k][r].destination.participants
    requires |received[i]| == |routes|
    ensures HasValues(routes[k][r].destination.region, received[i][k], v, k, r)
  {
    hide RoutesGood, Exchanged, Ran, Schedules, ScheduleFor, AllHold, AllTransfers, RouteOk, EndsApart, Proper, Numel,
         CellAt, Even, SentBy, HasValues;
    var all, route := BucketTransfers(routes, participants), routes[k][r];
    RanIsExchanged(routes, participants, inputs, outputs);
    TransfersEven(routes, participants);
    RouteRegions(routes[k], participants, r);
    var t := RouteServed(routes[k], participants, r, participants[i]);
    ServesFrom(t, route, participants);
    var s: nat :| s < |participants| && participants[s] == t.source;
    assert HasValues(route.source.region, sent[s][k], v, k, r);
    forall e: nat | e < Numel(route.destination.region)
      ensures IsValue(route.destination.region, received[i][k], v, k, r, e)
    {
      TransferArrives(all, participants, k, t, s, i, e, sent[s], received[i], inputs, outputs);
      ValueAt(route.source.region, sent[s][k], v, k, r, e);
    }
    AreValues(route.destination.region, received[i][k], v, k, r);
  }

  lemma ValueAt<V>(region: Region, tensor: Tensor<V>, v: Values<V>, k: nat, r: nat, e: nat)
    requires HasValues(region, tensor, v, k, r) && e < Numel(region)
    ensures Proper(region) && IsValue(region, tensor, v, k, r, e)
  {
  }

  lemma AreValues<V>(region: Region, tensor: Tensor<V>, v: Values<V>, k: nat, r: nat)
    requires Proper(region) && forall e: nat :: e < Numel(region) ==> IsValue(region, tensor, v, k, r, e)
    ensures HasValues(region, tensor, v, k, r)
  {
  }

  lemma RouteRegions(routes: seq<Route>, participants: seq<int>, r: nat)
    requires RoutesGood(routes, participants) && r < |routes|
    ensures RouteOk(routes[r], participants)
    ensures Proper(routes[r].source.region) && Proper(routes[r].destination.region)
    ensures Numel(routes[r].source.region) == Numel(routes[r].destination.region)
  {
    assert RouteOk(routes[r], participants);
  }

  // ----- Valid plans

  lemma {:induction false} RouteInFrom(routes: seq<Route>, p: int, route: Route)
    ensures route in From(routes, p) <==> route in routes && p in route.source.participants
  {
    if routes != [] {
      RouteInFrom(routes[1..], p, route);
      assert routes == [routes[0]] + routes[1..];
    }
  }

  lemma SourcesCons(route: Route, routes: seq<Route>)
    ensures Sources([route] + routes) == [route.source.region] + Sources(routes)
  {
  }

  lemma {:induction false} FromApart(routes: seq<Route>, p: int)
    requires Apart(Sources(From(routes, p)))
    ensures EndsApart(Inverse(routes), p)
  {
    hide Cells, Apart, ApartFrom, From, EndsApart, Sources;
    if routes != [] {
      var first, rest := routes[0], routes[1..];
      FromFirst(routes, p);
      if p in first.source.participants {
        SourcesCons(first, From(rest, p));
        ApartCons(first.source.region, Sources(From(rest, p)));
        FromApart(rest, p);
        FirstApart(routes, p);
      } else {
        FromApart(rest, p);
        FirstElsewhere(routes, p);
      }
    } else {
      NoEnds(p);
    }
  }

  lemma NoEnds(p: int)
    ensures EndsApart(Inverse([]), p)
  {
  }

  lemma FromFirst(routes: seq<Route>, p: int)
    requires routes != []
    ensures From(routes, p) == (if p in routes[0].source.participants then [routes[0]] + From(routes[1..], p)
        else From(routes[1..], p))
  {
  }

  lemma FirstElsewhere(routes: seq<Route>, p: int)
    requires routes != [] && p !in routes[0].source.participants && EndsApart(Inverse(routes[1..]), p)
    ensures EndsApart(Inverse(routes), p)
  {
    hide Cells;
    var inverse, rest := Inverse(routes), Inverse(routes[1..]);
    assert inverse[1..] == rest;
    forall i, j | 0 <= i < j < |inverse| && p in inverse[i].destination.participants
        && p in inverse[j].destination.participants
      ensures Cells(inverse[i].destination.region) * Cells(inverse[j].destination.region) == {}
    {
      assert inverse[i] == rest[i - 1] && inverse[j] == rest[j - 1];
    }
  }

  lemma FirstApart(routes: seq<Route>, p: int)
    requires routes != [] && EndsApart(Inverse(routes[1..]), p)
    requires ApartFrom(routes[0].source.region, Sources(From(routes[1..], p)))
    ensures EndsApart(Inverse(routes), p)
  {
    hide Cells, From;
    var inverse, rest, mine := Inverse(routes), Inverse(routes[1..]), From(routes[1..], p);
    assert inverse[1..] == rest;
    forall i, j | 0 <= i < j < |inverse| && p in inverse[i].destination.participants
        && p in inverse[j].destination.participants
      ensures Cells(inverse[i].destination.region) * Cells(inverse[j].destination.region) == {}
    {
      assert inverse[j] == rest[j - 1];
      if i > 0 {
        assert inverse[i] == rest[i - 1];
      } else {
        RouteInFrom(routes[1..], p, routes[j]);
        assert routes[j] == routes[1..][j - 1];
        var l :| 0 <= l < |mine| && mine[l] == routes[j];
        assert Sources(mine)[l] == routes[j].source.region;
      }
    }
  }

  /** All the routes that start at participants whose tensors they make up are good, read
      backwards. */
  lemma BackwardsGood(routes: seq<Route>, participants: seq<int>, partitions: seq<Partition>, shape: seq<int>)
    requires RoutesOk(routes, participants) && PartitionsOk(partitions, participants, shape)
    requires forall i :: 0 <= i < |partitions| ==> LeavesExactly(routes, partitions[i], shape)
    ensures RoutesOk(Inverse(routes), participants)
    ensures forall p :: p in participants ==> EndsApart(Inverse(routes), p)
    ensures forall r :: 0 <= r < |routes| ==> Proper(routes[r].source.region)
  {
    hide Cells, Apart, From, EndsApart, PartitionOk, AllFit, Tiles, Union, Proper, Numel;
    forall p | p in participants ensures EndsApart(Inverse(routes), p) {
      var i :| 0 <= i < |participants| && participants[i] == p;
      assert LeavesExactly(routes, partitions[i], shape);
      TilesIs(Sources(From(routes, p)), partitions[i].tensorShape);
      FromApart(routes, p);
    }
    forall r | 0 <= r < |routes| ensures Proper(routes[r].source.region) {
      assert RouteOk(routes[r], participants);
      var p := routes[r].source.participants[0];
      assert p in routes[r].source.participants;
      assert p in participants;
      var i :| 0 <= i < |participants| && participants[i] == p;
      assert LeavesExactly(routes, partitions[i], shape);
      SourceProper(routes, partitions[i], shape, r);
    }
    InverseOk(routes, participants);
  }

  lemma InverseOk(routes: seq<Route>, participants: seq<int>)
    requires RoutesOk(routes, participants)
    ensures RoutesOk(Inverse(routes), participants)
  {
    hide SomeOf, Numel;
    forall r | 0 <= r < |routes| ensures RouteOk(Inverse(routes)[r], participants) {
      assert RouteOk(routes[r], participants);
    }
  }

  lemma SourceProper(routes: seq<Route>, partition: Partition, shape: seq<int>, r: nat)
    requires LeavesExactly(routes, partition, shape) && r < |routes|
    requires partition.participant in routes[r].source.participants
    ensures Proper(routes[r].source.region)
  {
    hide Cells, Apart, From, Tiles, Union, Fits, Proper;
    var mine := From(routes, partition.participant);
    RouteInFrom(routes, partition.participant, routes[r]);
    var l :| 0 <= l < |mine| && mine[l] == routes[r];
    assert Fits(Sources(mine)[l], partition.tensorShape);
    FitsProper(routes[r].source.region, partition.tensorShape);
  }

  lemma InverseTwice(routes: seq<Route>)
    ensures Inverse(Inverse(routes)) == routes
  {
  }

  /** The routes of a valid plan are good in both directions. */
  lemma PlanGood(plan: Plan)
    requires ValidPlan(plan)
    ensures RoutesGood(plan.routes, plan.participants) && RoutesGood(Inverse(plan.routes), plan.participants)
  {
    hide LeavesExactly, PartitionsOk, RouteOk, EndsApart, Proper, AllFit, Tiles;
    BackwardsGood(plan.routes, plan.participants, plan.storage, plan.shape);
    PartitionCount(plan.compute, plan.participants, plan.shape);
    BackwardsGood(Inverse(plan.routes), plan.participants, plan.compute, plan.shape);
    InverseTwice(plan.routes);
    assert forall r :: 0 <= r < |plan.routes| ==>
             Inverse(plan.routes)[r].source.region == plan.routes[r].destination.region;
  }

  lemma PartitionCount(partitions: seq<Partition>, participants: seq<int>, shape: seq<int>)
    requires PartitionsOk(partitions, participants, shape)
    ensures |partitions| == |participants|
  {
  }

  /** Every element of a participant's tensor is at the start of one of its routes. */
  lemma EveryElementMoves(routes: seq<Route>, partition: Partition, shape: seq<int>, ix: Index) returns (r: nat, e: nat)
    requires LeavesExactly(routes, partition, shape) && ix in Cells(Whole(partition.tensorShape))
    ensures r < |routes| && partition.participant in routes[r].source.participants && Proper(routes[r].source.region)
    ensures e < Numel(routes[r].source.region) && Element(routes[r].source.region, e) == ix
  {
    hide Cells, Apart, From, Union, Fits, Proper, Element;
    var mine := From(routes, partition.participant);
    assert Once(Sources(mine), ix);
    var l: nat :| l < |mine| && ix in Cells(Sources(mine)[l]);
    RouteInFrom(routes, partition.participant, mine[l]);
    assert mine[l] in mine;
    r :| r < |routes| && routes[r] == mine[l];
    SourceProper(routes, partition, shape, r);
    e := ElementOf(routes[r].source.region, ix);
  }
}
