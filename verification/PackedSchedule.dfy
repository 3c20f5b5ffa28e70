/** Packed all-to-all schedules: each participant lays out, on its own, what it sends and
    receives, and the layouts of all participants fit together. */
module PackedSchedule {
  import opened Regions
  import opened RedistributionPlan

  /** One region sent from one participant to one other, or to itself. */
  datatype Transfer = Transfer(source: int, destination: int, from: Region, to: Region)

  /** A transfer of one of the bucket's parameters. */
  datatype Item = Item(parameter: nat, transfer: Transfer)

  datatype Side = Sending | Receiving

  /** Where a region's elements are in the packed buffer. */
  datatype Span = Span(region: Region, offset: int)

  datatype IndexedSpan = IndexedSpan(parameter: nat, span: Span)

  datatype Schedule = Schedule(remote: bool, inputSplits: seq<int>, outputSplits: seq<int>,
                               inputSpans: seq<seq<Span>>, outputSpans: seq<seq<Span>>)

  // ----- Routes to transfers

  ghost predicate HasSource(participants: seq<int>, sources: seq<int>) {
    exists i :: 0 <= i < |participants| && participants[i] in sources
  }

  /** The first participant that is one of the sources. */
  function Earliest(participants: seq<int>, sources: seq<int>): (p: int)
    requires HasSource(participants, sources)
    ensures p in sources && p in participants
  {
    assert participants[0] !in sources ==> HasSource(participants[1..], sources) by {
      var i :| 0 <= i < |participants| && participants[i] in sources;
      assert i > 0 ==> participants[1..][i - 1] in sources;
    }
    if participants[0] in sources then participants[0] else Earliest(participants[1..], sources)
  }

  lemma FirstSource(sources: seq<int>, participants: seq<int>)
    requires SomeOf(sources, participants)
    ensures HasSource(participants, sources)
    ensures forall p :: p in sources ==> p in participants
  {
    var first := sources[0];
    assert first in sources;
    assert first in participants;
    var i :| 0 <= i < |participants| && participants[i] == first;
  }

  /** Who sends to a destination: itself if it can, else the first of the sources. */
  function Sender(route: Route, destination: int, participants: seq<int>): (p: int)
    requires RouteOk(route, participants)
    ensures p in route.source.participants && p in participants
  {
    var sources := route.source.participants;
    FirstSource(sources, participants);
    if destination in sources then destination else Earliest(participants, sources)
  }

  function RouteTransfers(route: Route, participants: seq<int>, n: nat): (ts: seq<Transfer>)
    requires RouteOk(route, participants) && n <= |route.destination.participants|
    ensures |ts| == n
    ensures forall i :: 0 <= i < n ==>
              ts[i] == Transfer(Sender(route, route.destination.participants[i], participants),
                  route.destination.participants[i],
                                route.source.region, route.destination.region)
  {
    seq(n, i requires 0 <= i < n =>
      Transfer(Sender(route, route.destination.participants[i], participants), route.destination.participants[i],
               route.source.region, route.destination.region))
  }

  predicate RoutesOk(routes: seq<Route>, participants: seq<int>) {
    forall i :: 0 <= i < |routes| ==> RouteOk(routes[i], participants)
  }

  function AllTransfers(routes: seq<Route>, participants: seq<int>): seq<Transfer>
    requires RoutesOk(routes, participants)
  {
    if routes == [] then []
    else
      var last := routes[|routes| - 1];
      AllTransfers(routes[..|routes| - 1], participants) + RouteTransfers(last, participants,
          |last.destination.participants|)
  }

  method ResolveRoutes(routes: seq<Route>, participants: seq<int>) returns (transfers: seq<Transfer>)
    requires RoutesOk(routes, participants)
    ensures transfers == AllTransfers(routes, participants)
  {
    hide RouteOk;
    transfers := [];
    for r := 0 to |routes|
      invariant transfers == AllTransfers(routes[..r], participants)
    {
      var route := routes[r];
      for d := 0 to |route.destination.participants|
        invariant transfers == AllTransfers(routes[..r], participants) + RouteTransfers(route, participants, d)
      {
        var destination := route.destination.participants[d];
        var source := Sender(route, destination, participants);
        transfers := transfers + [Transfer(source, destination, route.source.region, route.destination.region)];
      }
      assert routes[..r + 1][..r] == routes[..r];
    }
    assert routes[..|routes|] == routes;
  }

  /** A destination that is a source itself is served by itself, any other by the source that is first
      among the participants. */
  ghost predicate SentBy(sources: seq<int>, destination: int, participants: seq<int>, p: int) {
    if destination in sources then p == destination
    else exists i :: 0 <= i < |participants| && participants[i] == p && p in sources
                     && forall j :: 0 <= j < i ==> participants[j] !in sources
  }

  lemma {:induction false} EarliestIs(participants: seq<int>, sources: seq<int>) returns (i: nat)
    requires HasSource(participants, sources)
    ensures i < |participants| && participants[i] == Earliest(participants, sources)
    ensures forall j :: 0 <= j < i ==> participants[j] !in sources
  {
    if participants[0] in sources {
      i := 0;
    } else {
      var k :| 0 <= k < |participants| && participants[k] in sources;
      assert participants[1..][k - 1] in sources;
      i := EarliestIs(participants[1..], sources);
      i := i + 1;
    }
  }

  lemma SenderIs(route: Route, destination: int, participants: seq<int>)
    requires RouteOk(route, participants)
    ensures SentBy(route.source.participants, destination, participants, Sender(route, destination, participants))
  {
    hide RouteOk;
    var sources := route.source.participants;
    if destination !in sources {
      RouteHasSource(route, participants);
      var i := EarliestIs(participants, sources);
    }
  }

  lemma RouteHasSource(route: Route, participants: seq<int>)
    requires RouteOk(route, participants)
    ensures HasSource(participants, route.source.participants)
  {
    FirstSource(route.source.participants, participants);
  }

  ghost predicate Serves(t: Transfer, route: Route, participants: seq<int>) {
    && t.destination in route.destination.participants
    && SentBy(route.source.participants, t.destination, participants, t.source)
    && t.from == route.source.region && t.to == route.destination.region
  }

  /** Every destination of every route gets its transfer, from itself if it has the region, and else
      from the first participant that has it. */
  lemma {:induction false} RouteServed(routes: seq<Route>, participants: seq<int>, r: nat, d: int)
      returns (t: Transfer)
    requires RoutesOk(routes, participants) && r < |routes| && d in routes[r].destination.participants
    ensures t in AllTransfers(routes, participants) && t.destination == d && Serves(t, routes[r], participants)
    decreases |routes|
  {
    hide RouteOk, SentBy;
    var n: nat := |routes| - 1;
    var before, last := routes[..n], routes[n];
    if r < n {
      t := RouteServed(before, participants, r, d);
    } else {
      var i: nat :| i < |last.destination.participants| && last.destination.participants[i] == d;
      t := RouteTransfers(last, participants, |last.destination.participants|)[i];
      SenderIs(last, d, participants);
    }
  }

  /** Every transfer serves a destination of one of the routes. */
  lemma {:induction false} TransferFromRoute(routes: seq<Route>, participants: seq<int>, t: Transfer) returns (r: nat)
    requires RoutesOk(routes, participants) && t in AllTransfers(routes, participants)
    ensures r < |routes| && Serves(t, routes[r], participants)
    ensures t.source in routes[r].source.participants && t.source in participants
    decreases |routes|
  {
    hide RouteOk, SentBy;
    var n: nat := |routes| - 1;
    if t in AllTransfers(routes[..n], participants) {
      r := TransferFromRoute(routes[..n], participants, t);
    } else {
      r := n;
      SenderIs(routes[n], t.destination, participants);
    }
  }

  // ----- Layouts

  function RegionOf(t: Transfer, side: Side): Region {
    if side == Sending then t.from else t.to
  }

  /** The transfers of one parameter from `source` to `destination`. */
  function Matching(ts: seq<Transfer>, parameter: nat, source: int, destination: int): seq<Item> {
    if ts == [] then []
    else
      var t := ts[|ts| - 1];
      Matching(ts[..|ts| - 1], parameter, source, destination)
      + if t.source == source && t.destination == destination then [Item(parameter, t)] else []
  }

  /** The transfers of all parameters from `source` to `destination`, parameter by parameter. */
  function Between(all: seq<seq<Transfer>>, source: int, destination: int): seq<Item> {
    if all == [] then []
    else Between(all[..|all| - 1], source, destination) + Matching(all[|all| - 1], |all| - 1, source, destination)
  }

  /** What a participant exchanges with one peer. */
  function WithPeer(all: seq<seq<Transfer>>, local: int, peer: int, side: Side): seq<Item> {
    if side == Sending then Between(all, local, peer) else Between(all, peer, local)
  }

  /** What a participant exchanges with a list of peers, peer by peer. */
  function WithPeers(all: seq<seq<Transfer>>, local: int, peers: seq<int>, side: Side): seq<Item> {
    if peers == [] then []
    else WithPeers(all, local, peers[..|peers| - 1], side) + WithPeer(all, local, peers[|peers| - 1], side)
  }

  function Size(items: seq<Item>, side: Side): int {
    if items == [] then 0
    else Size(items[..|items| - 1], side) + Numel(RegionOf(items[|items| - 1].transfer, side))
  }

  /** The items one after the other. */
  function Laid(items: seq<Item>, side: Side): seq<IndexedSpan> {
    if items == [] then []
    else
      var before, last := items[..|items| - 1], items[|items| - 1];
      Laid(before, side) + [IndexedSpan(last.parameter, Span(RegionOf(last.transfer, side), Size(before, side)))]
  }

  function Splits(all: seq<seq<Transfer>>, local: int, peers: seq<int>, side: Side): (splits: seq<int>)
    ensures |splits| == |peers|
    ensures forall i :: 0 <= i < |splits| ==> splits[i] == Size(WithPeer(all, local, peers[i], side), side)
  {
    seq(|peers|, i requires 0 <= i < |peers| => Size(WithPeer(all, local, peers[i], side), side))
  }

  lemma SizeOne(items: seq<Item>, item: Item, side: Side)
    ensures Size(items + [item], side) == Size(items, side) + Numel(RegionOf(item.transfer, side))
    ensures Laid(items + [item], side) ==
            Laid(items, side) + [IndexedSpan(item.parameter, Span(RegionOf(item.transfer, side), Size(items, side)))]
  {
    assert (items + [item])[..|items|] == items;
  }

  lemma {:induction false} SizeSum(a: seq<Item>, b: seq<Item>, side: Side)
    ensures Size(a + b, side) == Size(a, side) + Size(b, side)
  {
    hide Numel;
    if b == [] {
      assert a + b == a;
    } else {
      var before, last := b[..|b| - 1], b[|b| - 1];
      SizeSum(a, before, side);
      assert a + b == (a + before) + [last];
      SizeOne(a + before, last, side);
    }
  }

  /** Lays out the transfers of one parameter between two participants. */
  method LayOutParameter(ts: seq<Transfer>, k: nat, source: int, destination: int, side: Side,
                         cursor: int, spans: seq<IndexedSpan>,
                         ghost items: seq<Item>)
    returns (cursor': int, spans': seq<IndexedSpan>)
    requires cursor == Size(items, side) && spans == Laid(items, side)
    ensures cursor' == Size(items + Matching(ts, k, source, destination), side)
    ensures spans' == Laid(items + Matching(ts, k, source, destination), side)
  {
    hide Numel, Laid, Size, RegionOf;
    cursor', spans' := cursor, spans;
    assert items + [] == items;
    for j := 0 to |ts|
      invariant cursor' == Size(items + Matching(ts[..j], k, source, destination), side)
      invariant spans' == Laid(items + Matching(ts[..j], k, source, destination), side)
    {
      var t := ts[j];
      MatchingMore(ts, j, k, source, destination);
      ghost var sofar := Matching(ts[..j], k, source, destination);
      if t.source != source || t.destination != destination {
        assert sofar + [] == sofar;
        continue;
      }
      SizeOne(items + sofar, Item(k, t), side);
      assert (items + sofar) + [Item(k, t)] == items + (sofar + [Item(k, t)]);
      spans' := spans' + [IndexedSpan(k, Span(RegionOf(t, side), cursor'))];
      cursor' := cursor' + Numel(RegionOf(t, side));
    }
    assert ts[..|ts|] == ts;
  }

  /** Lays out the transfers of all parameters between two participants. */
  method LayOutPair(all: seq<seq<Transfer>>, source: int, destination: int, side: Side,
                    cursor: int, spans: seq<IndexedSpan>,
                    ghost items: seq<Item>)
    returns (cursor': int, spans': seq<IndexedSpan>)
    requires cursor == Size(items, side) && spans == Laid(items, side)
    ensures cursor' == Size(items + Between(all, source, destination), side)
    ensures spans' == Laid(items + Between(all, source, destination), side)
  {
    hide Laid, Size, Matching;
    cursor', spans' := cursor, spans;
    assert items + [] == items;
    for k := 0 to |all|
      invariant cursor' == Size(items + Between(all[..k], source, destination), side)
      invariant spans' == Laid(items + Between(all[..k], source, destination), side)
    {
      ghost var sofar := Between(all[..k], source, destination);
      cursor', spans' := LayOutParameter(all[k], k, source, destination, side, cursor', spans', items + sofar);
      assert all[..k + 1][..k] == all[..k];
      assert (items + sofar) + Matching(all[k], k, source, destination)
          == items + (sofar + Matching(all[k], k, source, destination));
    }
    assert all[..|all|] == all;
  }

  /** Lays out one side of a participant's exchange, peer by peer. */
  method LayOut(all: seq<seq<Transfer>>, participants: seq<int>, local: int, side: Side)
    returns (splits: seq<int>, spans: seq<IndexedSpan>)
    ensures splits == Splits(all, local, participants, side)
    ensures spans == Laid(WithPeers(all, local, participants, side), side)
  {
    hide Laid, Size, Between;
    splits, spans := [], [];
    var cursor := 0;
    NothingLaid(side);
    for i := 0 to |participants|
      invariant cursor == Size(WithPeers(all, local, participants[..i], side), side)
      invariant spans == Laid(WithPeers(all, local, participants[..i], side), side)
      invariant |splits| == i && forall j :: 0 <= j < i ==> splits[j] == Splits(all, local, participants, side)[j]
    {
      var peer, start := participants[i], cursor;
      ghost var items := WithPeers(all, local, participants[..i], side);
      assert participants[..i + 1][..i] == participants[..i];
      SizeSum(items, WithPeer(all, local, peer, side), side);
      if side == Sending {
        cursor, spans := LayOutPair(all, local, peer, side, cursor, spans, items);
      } else {
        cursor, spans := LayOutPair(all, peer, local, side, cursor, spans, items);
      }
      splits := splits + [cursor - start];
    }
    assert participants[..|participants|] == participants;
  }

  lemma NothingLaid(side: Side)
    ensures Size([], side) == 0 && Laid([], side) == []
  {
  }

  lemma MatchingMore(ts: seq<Transfer>, j: nat, k: nat, source: int, destination: int)
    requires j < |ts|
    ensures Matching(ts[..j + 1], k, source, destination) ==
            Matching(ts[..j], k, source, destination)
            + if ts[j].source == source && ts[j].destination == destination then [Item(k, ts[j])] else []
  {
    assert ts[..j + 1][..j] == ts[..j];
  }

  function OfParameter(spans: seq<IndexedSpan>, k: nat): seq<Span> {
    if spans == [] then []
    else (if spans[0].parameter == k then [spans[0].span] else []) + OfParameter(spans[1..], k)
  }

  function ByParameter(spans: seq<IndexedSpan>, n: nat): (lists: seq<seq<Span>>)
    ensures |lists| == n && forall k: nat :: k < n ==> lists[k] == OfParameter(spans, k)
  {
    seq(n, k requires 0 <= k < n => OfParameter(spans, k))
  }

  predicate AnyRemote(all: seq<seq<Transfer>>) {
    exists k, j :: 0 <= k < |all| && 0 <= j < |all[k]| && all[k][j].source != all[k][j].destination
  }

  function ScheduleFor(all: seq<seq<Transfer>>, participants: seq<int>, local: int): Schedule {
    Schedule(AnyRemote(all), Splits(all, local, participants, Sending), Splits(all, local, participants, Receiving),
             ByParameter(Laid(WithPeers(all, local, participants, Sending), Sending), |all|),
             ByParameter(Laid(WithPeers(all, local, participants, Receiving), Receiving), |all|))
  }

  /** A participant's schedule for the parameters of a bucket, from their routes. */
  method BuildSchedule(routes: seq<seq<Route>>, participants: seq<int>, local: int) returns (schedule: Schedule)
    requires forall k :: 0 <= k < |routes| ==> RoutesOk(routes[k], participants)
    ensures schedule == ScheduleFor(BucketTransfers(routes, participants), participants, local)
  {
    hide RoutesOk, AllTransfers, Laid, WithPeers, Splits, ByParameter, AnyRemote;
    var all: seq<seq<Transfer>> := [];
    for k := 0 to |routes|
      invariant |all| == k && forall j :: 0 <= j < k ==> all[j] == AllTransfers(routes[j], participants)
    {
      var transfers := ResolveRoutes(routes[k], participants);
      all := all + [transfers];
    }
    assert all == BucketTransfers(routes, participants);
    var inputSplits, inputSpans := LayOut(all, participants, local, Sending);
    var outputSplits, outputSpans := LayOut(all, participants, local, Receiving);
    schedule := Schedule(AnyRemote(all), inputSplits, outputSplits, ByParameter(inputSpans, |all|),
        ByParameter(outputSpans, |all|));
  }

  function BucketTransfers(routes: seq<seq<Route>>, participants: seq<int>): (all: seq<seq<Transfer>>)
    requires forall k :: 0 <= k < |routes| ==> RoutesOk(routes[k], participants)
    ensures |all| == |routes| && forall k :: 0 <= k < |all| ==> all[k] == AllTransfers(routes[k], participants)
  {
    seq(|routes|, k requires 0 <= k < |routes| => AllTransfers(routes[k], participants))
  }
}
