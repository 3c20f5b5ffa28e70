/** The exchange itself: packing, the all-to-all, unpacking, and why every transfer arrives. */
module PackedExchange {
  import opened Regions
  import opened RedistributionPlan
  import opened PackedSchedule

  // ----- The layouts of two participants fit together

  function Sum(s: seq<int>): int {
    if s == [] then 0 else Sum(s[..|s| - 1]) + s[|s| - 1]
  }

  /** Every transfer is between regions with the same number of elements. */
  predicate Even(all: seq<seq<Transfer>>) {
    forall k, j :: 0 <= k < |all| && 0 <= j < |all[k]| ==>
      Proper(all[k][j].from) && Proper(all[k][j].to) && Numel(all[k][j].from) == Numel(all[k][j].to)
  }

  ghost predicate EvenItems(items: seq<Item>) {
    forall j :: 0 <= j < |items| ==>
      Proper(items[j].transfer.from) && Proper(items[j].transfer.to) && Numel(items[j].transfer.from)
          == Numel(items[j].transfer.to)
  }

  lemma {:induction false} MatchingBelong(ts: seq<Transfer>, k: nat, source: int, destination: int)
    ensures forall i :: i in Matching(ts, k, source, destination) <==>
                        i.parameter == k && i.transfer in ts && i.transfer.source == source
                            && i.transfer.destination == destination
  {
    if ts != [] {
      var n: nat := |ts| - 1;
      MatchingBelong(ts[..n], k, source, destination);
      assert forall t :: t in ts <==> t in ts[..n] || t == ts[n];
    }
  }

  lemma {:induction false} BetweenBelong(all: seq<seq<Transfer>>, source: int, destination: int)
    ensures forall i :: i in Between(all, source, destination) <==>
                        && i.parameter < |all| && i.transfer in all[i.parameter]
                        && i.transfer.source == source && i.transfer.destination == destination
  {
    hide Matching;
    if all != [] {
      var n: nat := |all| - 1;
      BetweenBelong(all[..n], source, destination);
      MatchingBelong(all[n], n, source, destination);
    }
  }

  lemma {:induction false} SidesAgree(items: seq<Item>)
    requires EvenItems(items)
    ensures Size(items, Sending) == Size(items, Receiving) >= 0
  {
    if items != [] {
      SidesAgree(items[..|items| - 1]);
      NumelIsSize(items[|items| - 1].transfer.from);
    }
  }

  lemma BetweenEven(all: seq<seq<Transfer>>, source: int, destination: int)
    requires Even(all)
    ensures EvenItems(Between(all, source, destination))
  {
    hide Numel, Between, Proper;
    BetweenBelong(all, source, destination);
    var items := Between(all, source, destination);
    forall j | 0 <= j < |items|
      ensures && Proper(items[j].transfer.from) && Proper(items[j].transfer.to)
              && Numel(items[j].transfer.from) == Numel(items[j].transfer.to)
    {
      assert items[j] in items;
      var i :| 0 <= i < |all[items[j].parameter]| && all[items[j].parameter][i] == items[j].transfer;
    }
  }

  /** What one participant says it sends to another is what that one says it receives. */
  lemma SplitsAgree(all: seq<seq<Transfer>>, participants: seq<int>, s: nat, d: nat)
    requires Even(all) && s < |participants| && d < |participants|
    ensures ScheduleFor(all, participants, participants[s]).inputSplits[d] ==
            ScheduleFor(all, participants, participants[d]).outputSplits[s] >= 0
  {
    hide Between, Laid, ByParameter, WithPeers, Even, EvenItems, AnyRemote;
    BetweenEven(all, participants[s], participants[d]);
    SidesAgree(Between(all, participants[s], participants[d]));
  }

  lemma {:induction false} SplitsSum(all: seq<seq<Transfer>>, local: int, peers: seq<int>, side: Side, i: nat)
    requires i <= |peers|
    ensures Sum(Splits(all, local, peers, side)[..i]) == Size(WithPeers(all, local, peers[..i], side), side)
  {
    hide Between, Size;
    NothingLaid(side);
    if i > 0 {
      SplitsSum(all, local, peers, side, i - 1);
      var splits := Splits(all, local, peers, side);
      assert splits[..i][..i - 1] == splits[..i - 1] && peers[..i][..i - 1] == peers[..i - 1];
      SizeSum(WithPeers(all, local, peers[..i - 1], side), WithPeer(all, local, peers[i - 1], side), side);
    }
  }

  /** When nothing leaves its participant, it receives as much as it sends: the check on local
      schedules can't fail. */
  lemma LocalSizesMatch(all: seq<seq<Transfer>>, participants: seq<int>, a: nat)
    requires Even(all) && Distinct(participants) && a < |participants| && !AnyRemote(all)
    ensures WithPeers(all, participants[a], participants, Sending)
        == WithPeers(all, participants[a], participants, Receiving)
    ensures var schedule := ScheduleFor(all, participants, participants[a]);
            Sum(schedule.inputSplits) == Sum(schedule.outputSplits)
  {
    hide Between, Laid, ByParameter, Even, EvenItems, WithPeers, Size;
    var local := participants[a];
    forall i | 0 <= i < |participants|
        ensures Between(all, local, participants[i]) == Between(all, participants[i], local) {
      if i != a {
        NothingBetween(all, local, participants[i]);
        NothingBetween(all, participants[i], local);
      }
    }
    SamePeers(all, local, participants);
    EvenWithPeers(all, local, participants, Sending);
    SidesAgree(WithPeers(all, local, participants, Sending));
    var n := |participants|;
    assert participants[..n] == participants;
    SplitsSum(all, local, participants, Sending, n);
    SplitsSum(all, local, participants, Receiving, n);
    assert Splits(all, local, participants, Sending)[..n] == Splits(all, local, participants, Sending);
    assert Splits(all, local, participants, Receiving)[..n] == Splits(all, local, participants, Receiving);
  }

  lemma StaysLocal(all: seq<seq<Transfer>>, k: nat, t: Transfer)
    requires !AnyRemote(all) && k < |all| && t in all[k]
    ensures t.source == t.destination
  {
    var j :| 0 <= j < |all[k]| && all[k][j] == t;
  }

  lemma SomeItem(items: seq<Item>)
    requires items != []
    ensures exists i :: i in items
  {
    assert items[0] in items;
  }

  lemma NothingBetween(all: seq<seq<Transfer>>, source: int, destination: int)
    requires !AnyRemote(all) && source != destination
    ensures Between(all, source, destination) == []
  {
    hide Between, AnyRemote;
    BetweenBelong(all, source, destination);
    var items := Between(all, source, destination);
    forall i ensures i !in items {
      if i.parameter < |all| && i.transfer in all[i.parameter] {
        StaysLocal(all, i.parameter, i.transfer);
      }
    }
    if items != [] {
      SomeItem(items);
    }
  }

  lemma {:induction false} SamePeers(all: seq<seq<Transfer>>, local: int, peers: seq<int>)
    requires forall i :: 0 <= i < |peers| ==> Between(all, local, peers[i]) == Between(all, peers[i], local)
    ensures WithPeers(all, local, peers, Sending) == WithPeers(all, local, peers, Receiving)
  {
    hide Between;
    if peers != [] {
      SamePeers(all, local, peers[..|peers| - 1]);
    }
  }

  lemma {:induction false} EvenWithPeers(all: seq<seq<Transfer>>, local: int, peers: seq<int>, side: Side)
    requires Even(all)
    ensures EvenItems(WithPeers(all, local, peers, side))
  {
    hide Between, Even, Numel, Proper;
    if peers != [] {
      EvenWithPeers(all, local, peers[..|peers| - 1], side);
      BetweenEven(all, local, peers[|peers| - 1]);
      BetweenEven(all, peers[|peers| - 1], local);
    }
  }

  /** The schedule of a participant, with the check that a schedule without remote transfers
      has buffers of one size, which never fails. */
  method BuildChecked(routes: seq<seq<Route>>, participants: seq<int>, a: nat) returns (ok: bool, schedule: Schedule)
    requires forall k :: 0 <= k < |routes| ==> RoutesOk(routes[k], participants)
    requires a < |participants| && Distinct(participants) && Even(BucketTransfers(routes, participants))
    ensures ok && schedule == ScheduleFor(BucketTransfers(routes, participants), participants, participants[a])
  {
    hide RoutesOk, Even, AllTransfers;
    schedule := BuildSchedule(routes, participants, participants[a]);
    ok := schedule.remote || Sum(schedule.inputSplits) == Sum(schedule.outputSplits);
    if !schedule.remote {
      LocalSizesMatch(BucketTransfers(routes, participants), participants, a);
    }
  }

  // ----- Where a transfer's elements are

  lemma {:induction false} LaidAt(items: seq<Item>, side: Side, j: nat)
    requires j < |items|
    ensures |Laid(items, side)| == |items|
    ensures Laid(items, side)[j] ==
            IndexedSpan(items[j].parameter, Span(RegionOf(items[j].transfer, side), Size(items[..j], side)))
  {
    hide Size, RegionOf;
    var n: nat := |items| - 1;
    if j < n {
      LaidAt(items[..n], side, j);
      assert items[..n][..j] == items[..j];
    } else if n > 0 {
      LaidAt(items[..n], side, n - 1);
    }
  }

  lemma {:induction false} PeersPrefix(all: seq<seq<Transfer>>, local: int, peers: seq<int>, side: Side, i: nat)
    requires i <= |peers|
    ensures |WithPeers(all, local, peers[..i], side)| <= |WithPeers(all, local, peers, side)|
    ensures WithPeers(all, local, peers, side)[..|WithPeers(all, local, peers[..i], side)|]
        == WithPeers(all, local, peers[..i], side)
    decreases |peers|
  {
    hide WithPeer;
    if i == |peers| {
      assert peers[..i] == peers;
    } else {
      var n: nat := |peers| - 1;
      PeersPrefix(all, local, peers[..n], side, i);
      assert peers[..n][..i] == peers[..i];
    }
  }

  /** The items exchanged with peer `i` come right after those of the peers before it. */
  lemma PeerItem(all: seq<seq<Transfer>>, local: int, peers: seq<int>, side: Side, i: nat, j: nat) returns (at: nat)
    requires i < |peers| && j < |WithPeer(all, local, peers[i], side)|
    ensures at < |WithPeers(all, local, peers, side)|
    ensures WithPeers(all, local, peers, side)[at] == WithPeer(all, local, peers[i], side)[j]
    ensures Size(WithPeers(all, local, peers, side)[..at], side) ==
            Sum(Splits(all, local, peers, side)[..i]) + Size(WithPeer(all, local, peers[i], side)[..j], side)
  {
    hide WithPeer, Size, Sum, Splits;
    var items, mine := WithPeers(all, local, peers, side), WithPeer(all, local, peers[i], side);
    var before := WithPeers(all, local, peers[..i], side);
    assert peers[..i + 1][..i] == peers[..i];
    PeersPrefix(all, local, peers, side, i + 1);
    assert WithPeers(all, local, peers[..i + 1], side) == before + mine;
    at := |before| + j;
    assert items[..|before + mine|] == before + mine;
    assert items[at] == (before + mine)[at];
    assert items[..at] == (before + mine)[..at] == before + mine[..j];
    SizeSum(before, mine[..j], side);
    SplitsSum(all, local, peers, side, i);
  }

  lemma {:induction false} OfParameterHas(spans: seq<IndexedSpan>, k: nat, s: Span)
    ensures s in OfParameter(spans, k) <==> IndexedSpan(k, s) in spans
  {
    if spans != [] {
      OfParameterHas(spans[1..], k, s);
      assert spans == [spans[0]] + spans[1..];
    }
  }

  lemma {:induction false} SizePrefix(items: seq<Item>, side: Side, j: nat)
    requires EvenItems(items) && j < |items|
    ensures 0 <= Size(items[..j], side)
    ensures Size(items[..j], side) + Numel(RegionOf(items[j].transfer, side)) <= Size(items, side)
    decreases |items|
  {
    hide Numel, Proper;
    var n: nat := |items| - 1;
    SizesNonNegative(items[..j], side);
    NumelIsSize(items[n].transfer.from);
    NumelIsSize(items[n].transfer.to);
    if j < n {
      SizePrefix(items[..n], side, j);
      assert items[..n][..j] == items[..j];
    }
  }

  lemma SizesNonNegative(items: seq<Item>, side: Side)
    requires EvenItems(items)
    ensures Size(items, side) >= 0
  {
    SidesAgree(items);
  }

  function SpansOf(schedule: Schedule, side: Side): seq<seq<Span>> {
    if side == Sending then schedule.inputSpans else schedule.outputSpans
  }

  function SplitsOf(schedule: Schedule, side: Side): seq<int> {
    if side == Sending then schedule.inputSplits else schedule.outputSplits
  }

  /** A transfer is in its sender's and in its receiver's layout, at the same place of what the
      one has for the other. */
  lemma TransferPlaced(all: seq<seq<Transfer>>, participants: seq<int>, k: nat, t: Transfer, s: nat, d: nat)
    returns (o: nat, sent: Span, received: Span)
    requires Even(all) && s < |participants| && d < |participants|
    requires k < |all| && t in all[k] && t.source == participants[s] && t.destination == participants[d]
    ensures var from, to := ScheduleFor(all, participants, participants[s]),
        ScheduleFor(all, participants, participants[d]);
            && sent in from.inputSpans[k] && sent.region == t.from && sent.offset == Sum(from.inputSplits[..d]) + o
            && received in to.outputSpans[k] && received.region == t.to && received.offset
                == Sum(to.outputSplits[..s]) + o
            && o + Numel(t.from) <= from.inputSplits[d]
    ensures Proper(t.from) && Proper(t.to) && Numel(t.from) == Numel(t.to)
  {
    hide Between, Even, Size, Sum, Laid, OfParameter, Numel, Proper, WithPeers, AnyRemote;
    var source, destination := participants[s], participants[d];
    var items := Between(all, source, destination);
    BetweenBelong(all, source, destination);
    BetweenEven(all, source, destination);
    assert Item(k, t) in items;
    var j: nat :| j < |items| && items[j] == Item(k, t);
    SizePrefix(items, Sending, j);
    EvenPrefix(items, j);
    SidesAgree(items[..j]);
    o := Size(items[..j], Sending);
    sent := PlacedSpan(all, participants, source, d, Sending, j);
    received := PlacedSpan(all, participants, destination, s, Receiving, j);
  }

  lemma EvenPrefix(items: seq<Item>, j: nat)
    requires EvenItems(items) && j <= |items|
    ensures EvenItems(items[..j])
  {
  }

  lemma PlacedSpan(all: seq<seq<Transfer>>, participants: seq<int>, local: int, i: nat, side: Side, j: nat)
      returns (span: Span)
    requires i < |participants| && j < |WithPeer(all, local, participants[i], side)|
    requires WithPeer(all, local, participants[i], side)[j].parameter < |all|
    ensures var item, schedule := WithPeer(all, local, participants[i], side)[j], ScheduleFor(all, participants, local);
            && span in SpansOf(schedule, side)[item.parameter] && span.region == RegionOf(item.transfer, side)
            && span.offset == Sum(SplitsOf(schedule, side)[..i])
                + Size(WithPeer(all, local, participants[i], side)[..j], side)
  {
    hide Between, WithPeer, Size, Sum, Laid, OfParameter, AnyRemote, WithPeers;
    var item := WithPeer(all, local, participants[i], side)[j];
    var at := PeerItem(all, local, participants, side, i, j);
    var laid := WithPeers(all, local, participants, side);
    LaidAt(laid, side, at);
    span := Span(RegionOf(item.transfer, side), Size(laid[..at], side));
    assert Laid(laid, side)[at] == IndexedSpan(item.parameter, span);
    OfParameterHas(Laid(laid, side), item.parameter, span);
  }
}
