/** The rows of a mixed bucket: what each rank sends for an unshard and for a reduce, and what each
    group gets from them. */
module MixedRows {
  import opened Buffers
  import opened MixedBucket

  /** A rank sends the groups of all ranks and those that it owns. */
  predicate Sends(g: Group, rank: nat) {
    g.owner.Shared? || g.owner.rank == rank
  }

  predicate Covers(groups: seq<Group>, offsets: seq<nat>, i: nat, p: int)
    requires |offsets| == |groups| && i < |groups|
  {
    offsets[i] <= p < End(groups, offsets, i)
  }

  /** A row has each group that the rank sends at its place, and zeros elsewhere: every element is
      defined, whatever was in the buffer. */
  ghost predicate RowIs<V>(groups: seq<Group>, plan: Plan, rank: nat, payloads: seq<seq<V>>, zero: V, row: seq<V>)
    requires Fits(groups, plan) && |payloads| == |groups|
  {
    && |row| == plan.rowNumel
    && (forall i: nat, p: nat | i < |groups| && Sends(groups[i], rank) && Covers(groups, plan.offsets, i, p) ::
          p < |row| && p - plan.offsets[i] < |payloads[i]| && row[p] == payloads[i][p - plan.offsets[i]])
    && (forall p: nat | p < |row| && (forall i: nat :: i < |groups| && Sends(groups[i], rank)
                                       ==> !Covers(groups, plan.offsets, i, p)) ::
          row[p] == zero)
  }

  /** The groups that a rank sends don't overlap. */
  lemma SentApart(groups: seq<Group>, plan: Plan, rank: nat, i: nat, j: nat, p: nat)
    requires Fits(groups, plan) && i < |groups| && j < |groups| && Sends(groups[i], rank) && Sends(groups[j], rank)
    requires Covers(groups, plan.offsets, i, p) && Covers(groups, plan.offsets, j, p)
    ensures i == j
  {
  }

  // ----- Unshard

  datatype Range = Range(start: nat, numel: nat)

  ghost predicate InRanges(ranges: seq<Range>, p: int) {
    exists k :: 0 <= k < |ranges| && ranges[k].start <= p < ranges[k].start + ranges[k].numel
  }

  lemma InRangesMore(ranges: seq<Range>, r: Range, p: int)
    ensures InRanges(ranges + [r], p) <==> InRanges(ranges, p) || r.start <= p < r.start + r.numel
  {
    var more := ranges + [r];
    if k :| 0 <= k < |ranges| && ranges[k].start <= p < ranges[k].start + ranges[k].numel {
      assert more[k] == ranges[k];
    } else if r.start <= p < r.start + r.numel {
      assert more[|ranges|] == r;
    }
  }

  /** A shared group before the `n`-th has this place. */
  ghost predicate SharedUpTo(groups: seq<Group>, offsets: seq<nat>, n: nat, p: int)
    requires |offsets| == |groups|
  {
    exists i: nat :: i < n && i < |groups| && groups[i].owner.Shared? && Covers(groups, offsets, i, p)
  }

  predicate Inside(ranges: seq<Range>, size: nat) {
    forall k :: 0 <= k < |ranges| ==> ranges[k].start + ranges[k].numel <= size
  }

  /** The ranges to zero: the region that owners overlay, and whatever no shared group has. */
  method PaddingRanges(groups: seq<Group>, plan: Plan) returns (ranges: seq<Range>)
    requires Fits(groups, plan)
    ensures Inside(ranges, plan.rowNumel)
    ensures forall p: int :: InRanges(ranges, p) <==>
              0 <= p < plan.rowNumel && (p < plan.exclusive || !SharedUpTo(groups, plan.offsets, |groups|, p))
  {
    hide InRanges, SharedUpTo;
    ranges := [];
    NothingYet(groups, plan.offsets);
    if plan.exclusive > 0 {
      forall p: int ensures InRanges([Range(0, plan.exclusive)], p) <==> 0 <= p < plan.exclusive {
        InRangesMore([], Range(0, plan.exclusive), p);
        assert [] + [Range(0, plan.exclusive)] == [Range(0, plan.exclusive)];
      }
      ranges := [Range(0, plan.exclusive)];
    }
    var next := plan.exclusive;
    for n := 0 to |groups|
      invariant plan.exclusive <= next <= plan.rowNumel && Inside(ranges, plan.rowNumel)
      invariant forall i: nat :: i < n && groups[i].owner.Shared? ==> End(groups, plan.offsets, i) <= next
      invariant forall i: nat :: n <= i < |groups| && groups[i].owner.Shared? ==> next <= plan.offsets[i]
      invariant forall p: int :: InRanges(ranges, p) <==>
                  0 <= p < next && (p < plan.exclusive || !SharedUpTo(groups, plan.offsets, n, p))
    {
      ghost var before, start := ranges, next;
      if groups[n].owner.Shared? {
        var gap := Range(next, plan.offsets[n] - next);
        if next < plan.offsets[n] {
          forall p: int ensures InRanges(ranges + [gap], p) <==> InRanges(ranges, p) || next <= p < plan.offsets[n] {
            InRangesMore(ranges, gap, p);
          }
          ranges := ranges + [gap];
        }
        next := End(groups, plan.offsets, n);
      }
      forall p: int ensures InRanges(ranges, p) <==>
          0 <= p < next && (p < plan.exclusive || !SharedUpTo(groups, plan.offsets, n + 1, p)) {
        SharedNext(groups, plan.offsets, n, p);
        if start <= p {
          SharedBelow(groups, plan.offsets, n, start, p);
        }
        assert InRanges(before, p) <==>
            0 <= p < start && (p < plan.exclusive || !SharedUpTo(groups, plan.offsets, n, p));
      }
    }
    forall p: int | next <= p ensures !SharedUpTo(groups, plan.offsets, |groups|, p) {
      SharedBelow(groups, plan.offsets, |groups|, next, p);
    }
    if next < plan.rowNumel {
      var tail := Range(next, plan.rowNumel - next);
      forall p: int ensures InRanges(ranges + [tail], p) <==> InRanges(ranges, p) || next <= p < plan.rowNumel {
        InRangesMore(ranges, tail, p);
      }
      ranges := ranges + [tail];
    }
  }

  lemma NothingYet(groups: seq<Group>, offsets: seq<nat>)
    requires |offsets| == |groups|
    ensures forall p: int :: !SharedUpTo(groups, offsets, 0, p) && !InRanges([], p)
  {
  }

  lemma SharedNext(groups: seq<Group>, offsets: seq<nat>, n: nat, p: int)
    requires |offsets| == |groups| && n < |groups|
    ensures SharedUpTo(groups, offsets, n + 1, p) <==>
            SharedUpTo(groups, offsets, n, p) || (groups[n].owner.Shared? && Covers(groups, offsets, n, p))
  {
  }

  lemma SharedBelow(groups: seq<Group>, offsets: seq<nat>, n: nat, next: nat, p: int)
    requires |offsets| == |groups| && n <= |groups| && next <= p
    requires forall i: nat :: i < n && groups[i].owner.Shared? ==> End(groups, offsets, i) <= next
    ensures !SharedUpTo(groups, offsets, n, p)
  {
  }

  ghost predicate Payloads<V>(groups: seq<Group>, rank: nat, payloads: seq<seq<V>>) {
    |payloads| == |groups| && forall i: nat :: i < |groups| && Sends(groups[i], rank)
                               ==> |payloads[i]| == groups[i].numel
  }

  /** A row after the first `n` groups. */
  ghost predicate FilledUpTo<V>(groups: seq<Group>, plan: Plan, rank: nat, payloads: seq<seq<V>>,
                                zero: V, row: seq<V>, n: nat)
    requires Fits(groups, plan) && Payloads(groups, rank, payloads)
  {
    && |row| == plan.rowNumel
    && (forall i: nat, p: nat | i < n && i < |groups| && Sends(groups[i], rank) && Covers(groups, plan.offsets, i, p) ::
          p < |row| && row[p] == payloads[i][p - plan.offsets[i]])
    && (forall p: nat | p < |row| && (p < plan.exclusive || !SharedUpTo(groups, plan.offsets, |groups|, p))
                        && (forall i: nat :: i < n && i < |groups| && Sends(groups[i], rank)
                             ==> !Covers(groups, plan.offsets, i, p)) ::
          row[p] == zero)
  }

  lemma GroupFits(groups: seq<Group>, plan: Plan, i: nat)
    requires Fits(groups, plan) && i < |groups|
    ensures |plan.offsets| == |groups| && End(groups, plan.offsets, i) <= plan.rowNumel
  {
  }

  lemma FilledNext<V>(groups: seq<Group>, plan: Plan, rank: nat, payloads: seq<seq<V>>, zero: V, row: seq<V>, n: nat)
    requires Fits(groups, plan) && Payloads(groups, rank, payloads) && n < |groups|
    requires FilledUpTo(groups, plan, rank, payloads, zero, row, n)
    ensures !Sends(groups[n], rank) ==> FilledUpTo(groups, plan, rank, payloads, zero, row, n + 1)
    ensures End(groups, plan.offsets, n) <= |row|
    ensures Sends(groups[n], rank) ==>
              |payloads[n]| == groups[n].numel
              && FilledUpTo(groups, plan, rank, payloads, zero, Spliced(row, payloads[n], plan.offsets[n]), n + 1)
  {
    hide SharedUpTo, Fits;
    GroupFits(groups, plan, n);
    if Sends(groups[n], rank) {
      var after := Spliced(row, payloads[n], plan.offsets[n]);
      forall i: nat, p: nat | i < n + 1 && i < |groups| && Sends(groups[i], rank) && Covers(groups, plan.offsets, i, p)
        ensures p < |after| && after[p] == payloads[i][p - plan.offsets[i]]
      {
        GroupFits(groups, plan, i);
        if i < n && Covers(groups, plan.offsets, n, p) {
          SentApart(groups, plan, rank, i, n, p);
        }
      }
      forall p: nat | p < |after| && (p < plan.exclusive || !SharedUpTo(groups, plan.offsets, |groups|, p))
                      && (forall i: nat :: i < n + 1 && i < |groups| && Sends(groups[i], rank)
                           ==> !Covers(groups, plan.offsets, i, p))
        ensures after[p] == zero
      {
        assert !Covers(groups, plan.offsets, n, p);
        assert row[p] == zero;
      }
    }
  }

  lemma AllFilled<V>(groups: seq<Group>, plan: Plan, rank: nat, payloads: seq<seq<V>>, zero: V, row: seq<V>)
    requires Fits(groups, plan) && Payloads(groups, rank, payloads)
    requires FilledUpTo(groups, plan, rank, payloads, zero, row, |groups|)
    ensures RowIs(groups, plan, rank, payloads, zero, row)
  {
    forall p: nat | p < |row| && forall i: nat :: i < |groups| && Sends(groups[i], rank)
                                  ==> !Covers(groups, plan.offsets, i, p)
      ensures row[p] == zero
    {
      if i: nat :| i < |groups| && groups[i].owner.Shared? && Covers(groups, plan.offsets, i, p) {
        assert Sends(groups[i], rank);
      }
    }
  }

  /** Zeroes the padding of a fresh row and copies in the groups that the rank sends. */
  method FillSendRow<V>(groups: seq<Group>, plan: Plan, rank: nat, payloads: seq<seq<V>>, zero: V, send: array<V>)
    requires Fits(groups, plan) && Payloads(groups, rank, payloads) && send.Length == plan.rowNumel
    modifies send
    ensures RowIs(groups, plan, rank, payloads, zero, send[..])
  {
    hide FilledUpTo, RowIs, Fits, InRanges, SharedUpTo, Payloads;
    var ranges := PaddingRanges(groups, plan);
    NotInNone(send[..]);
    for k := 0 to |ranges|
      invariant forall p: int :: 0 <= p < send.Length && InRanges(ranges[..k], p) ==> send[p] == zero
    {
      forall x | ranges[k].start <= x < ranges[k].start + ranges[k].numel {
        send[x] := zero;
      }
      assert ranges[..k + 1] == ranges[..k] + [ranges[k]];
      forall p: int ensures InRanges(ranges[..k + 1], p) <==>
          InRanges(ranges[..k], p) || ranges[k].start <= p < ranges[k].start + ranges[k].numel {
        InRangesMore(ranges[..k], ranges[k], p);
      }
    }
    assert ranges[..|ranges|] == ranges;
    PaddingFilled(groups, plan, rank, payloads, zero, send[..], ranges);
    for n := 0 to |groups|
      invariant FilledUpTo(groups, plan, rank, payloads, zero, send[..], n)
    {
      FilledNext(groups, plan, rank, payloads, zero, send[..], n);
      PlanIs(groups, plan);
      if Sends(groups[n], rank) {
        PayloadAt(groups, rank, payloads, n);
        Copy(payloads[n], send, plan.offsets[n]);
      }
    }
    AllFilled(groups, plan, rank, payloads, zero, send[..]);
  }

  lemma NotInNone<V>(row: seq<V>)
    ensures forall p :: !InRanges([], p)
  {
  }

  lemma PlanIs(groups: seq<Group>, plan: Plan)
    requires Fits(groups, plan)
    ensures |plan.offsets| == |groups| && plan.exclusive <= plan.rowNumel
    ensures forall i: nat :: i < |groups| ==> End(groups, plan.offsets, i) <= plan.rowNumel
  {
  }

  lemma PayloadAt<V>(groups: seq<Group>, rank: nat, payloads: seq<seq<V>>, i: nat)
    requires Payloads(groups, rank, payloads) && i < |groups| && Sends(groups[i], rank)
    ensures |payloads| == |groups| && |payloads[i]| == groups[i].numel
  {
  }

  lemma PaddingFilled<V>(groups: seq<Group>, plan: Plan, rank: nat, payloads: seq<seq<V>>, zero: V,
                         row: seq<V>, ranges: seq<Range>)
    requires Fits(groups, plan) && Payloads(groups, rank, payloads) && |row| == plan.rowNumel
    requires forall p: int :: InRanges(ranges, p) <==>
               0 <= p < plan.rowNumel && (p < plan.exclusive || !SharedUpTo(groups, plan.offsets, |groups|, p))
    requires forall p: int :: 0 <= p < |row| && InRanges(ranges, p) ==> row[p] == zero
    ensures FilledUpTo(groups, plan, rank, payloads, zero, row, 0)
  {
    hide SharedUpTo, InRanges;
  }

  /** What an unshard reads of a group from the row of a rank that sends it is what that rank put
      in, though the owners' groups overlay each other in other ranks' rows. */
  lemma UnshardReads<V>(groups: seq<Group>, plan: Plan, rank: nat, payloads: seq<seq<V>>, zero: V, row: seq<V>, i: nat)
    requires Fits(groups, plan) && Payloads(groups, rank, payloads) && RowIs(groups, plan, rank, payloads, zero, row)
    requires i < |groups| && Sends(groups[i], rank)
    ensures End(groups, plan.offsets, i) <= |row| && row[plan.offsets[i]..End(groups, plan.offsets, i)] == payloads[i]
  {
    hide Fits, Payloads, RowIs;
    GroupFits(groups, plan, i);
    PayloadAt(groups, rank, payloads, i);
    var o, n := plan.offsets[i], groups[i].numel;
    RowLength(groups, plan, rank, payloads, zero, row);
    forall k: nat | k < n ensures row[o + k] == payloads[i][k] {
      ElementAt(groups, plan, rank, payloads, zero, row, i, o + k);
    }
    assert row[o..o + n] == payloads[i];
  }

  lemma RowLength<V>(groups: seq<Group>, plan: Plan, rank: nat, payloads: seq<seq<V>>, zero: V, row: seq<V>)
    requires Fits(groups, plan) && |payloads| == |groups| && RowIs(groups, plan, rank, payloads, zero, row)
    ensures |row| == plan.rowNumel
  {
  }

  lemma ElementAt<V>(groups: seq<Group>, plan: Plan, rank: nat, payloads: seq<seq<V>>, zero: V,
                     row: seq<V>, i: nat, p: nat)
    requires Fits(groups, plan) && |payloads| == |groups| && RowIs(groups, plan, rank, payloads, zero, row)
    requires i < |groups| && Sends(groups[i], rank)
    requires plan.offsets[i] <= p < End(groups, plan.offsets, i) && |payloads[i]| == groups[i].numel
    ensures p < |row| && row[p] == payloads[i][p - plan.offsets[i]]
  {
    hide Fits;
    GroupFits(groups, plan, i);
    assert Covers(groups, plan.offsets, i, p);
  }

  // ----- Reduce

  /** Row `r` of the send rows. */
  ghost function RowOf<V>(send: array2<V>, r: nat): (row: seq<V>)
    requires r < send.Length0
    reads send
    ensures |row| == send.Length1 && forall p :: 0 <= p < |row| ==> row[p] == send[r, p]
  {
    seq(send.Length1, p requires 0 <= p < send.Length1 reads send => send[r, p])
  }

  /** What this rank sends to rank `r` of each group. */
  function PartsFor<V>(parts: seq<seq<seq<V>>>, r: nat): (payloads: seq<seq<V>>)
    requires forall i :: 0 <= i < |parts| ==> r < |parts[i]|
    ensures |payloads| == |parts| && forall i :: 0 <= i < |parts| ==> payloads[i] == parts[i][r]
  {
    seq(|parts|, i requires 0 <= i < |parts| => parts[i][r])
  }

  ghost predicate PartsOk<V>(groups: seq<Group>, parts: seq<seq<seq<V>>>, worldSize: nat) {
    && |parts| == |groups|
    && (forall i: nat :: i < |parts| ==> |parts[i]| == worldSize)
    && (forall i: nat, r: nat :: i < |parts| && r < worldSize ==> |parts[i][r]| == groups[i].numel)
    && (forall i: nat :: i < |groups| && groups[i].owner.Exclusive? ==> groups[i].owner.rank < worldSize)
  }

  ghost function RowsOf<V>(send: array2<V>): (rows: seq<seq<V>>)
    reads send
    ensures |rows| == send.Length0 && forall r :: 0 <= r < |rows| ==> rows[r] == RowOf(send, r)
  {
    seq(send.Length0, r requires 0 <= r < send.Length0 reads send => RowOf(send, r))
  }

  /** Fills the reduce's send rows: zeros in the region that owners overlay, each shared group in all
      rows, and each owned group in its owner's. Unaligned groups leave nothing undefined. */
  method FillReduceRows<V>(groups: seq<Group>, plan: Plan, parts: seq<seq<seq<V>>>, zero: V, send: array2<V>)
    requires Fits(groups, plan) && PartsOk(groups, parts, send.Length0) && send.Length1 == plan.rowNumel
    requires forall p :: plan.exclusive <= p < plan.rowNumel ==> InShared(groups, plan.offsets, p)
    modifies send
    ensures forall r: nat :: r < send.Length0 ==> RowIs(groups, plan, r, PartsFor(parts, r), zero, RowOf(send, r))
  {
    hide FilledUpTo, RowIs, SharedUpTo, InShared, Payloads, Fits, PartsOk;
    PlanIs(groups, plan);
    PartsAre(groups, parts, send.Length0);
    forall r, p | 0 <= r < send.Length0 && 0 <= p < plan.exclusive {
      send[r, p] := zero;
    }
    ghost var rows := RowsOf(send);
    forall r: nat | r < send.Length0 ensures FilledUpTo(groups, plan, r, PartsFor(parts, r), zero, rows[r], 0) {
      ZeroedFilled(groups, plan, r, PartsFor(parts, r), zero, rows[r]);
    }
    for n := 0 to |groups|
      invariant rows == RowsOf(send)
      invariant forall r: nat :: r < send.Length0 ==> FilledUpTo(groups, plan, r, PartsFor(parts, r), zero, rows[r], n)
    {
      FillReduceGroup(groups, plan, parts, n, send);
      ghost var after := RowsOf(send);
      forall r: nat | r < send.Length0 ensures FilledUpTo(groups, plan, r, PartsFor(parts, r), zero, after[r], n + 1) {
        FilledNext(groups, plan, r, PartsFor(parts, r), zero, rows[r], n);
      }
      rows := after;
    }
    forall r: nat | r < send.Length0 ensures RowIs(groups, plan, r, PartsFor(parts, r), zero, RowOf(send, r)) {
      AllFilled(groups, plan, r, PartsFor(parts, r), zero, rows[r]);
    }
  }

  lemma PartsAre<V>(groups: seq<Group>, parts: seq<seq<seq<V>>>, worldSize: nat)
    requires PartsOk(groups, parts, worldSize)
    ensures |parts| == |groups| && forall i: nat :: i < |parts| ==> |parts[i]| == worldSize
    ensures forall i: nat, r: nat :: i < |parts| && r < worldSize ==> |parts[i][r]| == groups[i].numel
    ensures forall r: nat :: r < worldSize ==> Payloads(groups, r, PartsFor(parts, r))
  {
  }

  /** Copies one group into the rows of the ranks that have a share in it. */
  method FillReduceGroup<V>(groups: seq<Group>, plan: Plan, parts: seq<seq<seq<V>>>, n: nat, send: array2<V>)
    requires Fits(groups, plan) && PartsOk(groups, parts, send.Length0) && send.Length1 == plan.rowNumel && n < |groups|
    modifies send
    ensures forall r: nat :: r < send.Length0 ==>
              plan.offsets[n] + |parts[n][r]| <= plan.rowNumel
              && RowOf(send, r) == if Sends(groups[n], r) then
                  Spliced(old(RowOf(send, r)), parts[n][r], plan.offsets[n]) else old(RowOf(send, r))
  {
    hide Fits;
    GroupFits(groups, plan, n);
    var o := plan.offsets[n];
    match groups[n].owner
    case Shared =>
      forall r, p | 0 <= r < send.Length0 && o <= p < o + groups[n].numel {
        send[r, p] := parts[n][r][p - o];
      }
    case Exclusive(owner) =>
      forall p | o <= p < o + groups[n].numel {
        send[owner, p] := parts[n][owner][p - o];
      }
  }

  lemma ZeroedFilled<V>(groups: seq<Group>, plan: Plan, rank: nat, payloads: seq<seq<V>>, zero: V, row: seq<V>)
    requires Fits(groups, plan) && Payloads(groups, rank, payloads) && |row| == plan.rowNumel
    requires forall p :: plan.exclusive <= p < plan.rowNumel ==> InShared(groups, plan.offsets, p)
    requires forall p :: 0 <= p < plan.exclusive ==> row[p] == zero
    ensures FilledUpTo(groups, plan, rank, payloads, zero, row, 0)
  {
    SharedSame(groups, plan.offsets);
    hide InShared, SharedUpTo;
  }

  lemma SharedSame(groups: seq<Group>, offsets: seq<nat>)
    requires |offsets| == |groups|
    ensures forall p: int :: InShared(groups, offsets, p) <==> SharedUpTo(groups, offsets, |groups|, p)
  {
    forall p: int ensures InShared(groups, offsets, p) <==> SharedUpTo(groups, offsets, |groups|, p) {
      if i :| 0 <= i < |groups| && groups[i].owner.Shared? && offsets[i] <= p < End(groups, offsets, i) {
        assert Covers(groups, offsets, i, p);
      }
    }
  }

  /** What a rank receives of one place: the reduction of what all ranks send there. */
  ghost predicate Reduced<V>(reduce: seq<V> -> V, rows: seq<seq<V>>, recv: seq<V>) {
    && (forall s :: 0 <= s < |rows| ==> |rows[s]| == |recv|)
    && forall p :: 0 <= p < |recv| ==>
         recv[p] == reduce(seq(|rows|, s requires 0 <= s < |rows| && p < |rows[s]| => rows[s][p]))
  }

  /** A rank gets, of each group that it has a share in, the reduction of that group's own elements:
      no other group's get in. */
  lemma GroupReduced<V>(groups: seq<Group>, plan: Plan, reduce: seq<V> -> V, r: nat,
                        payloads: seq<seq<seq<V>>>, zero: V,
                        rows: seq<seq<V>>, recv: seq<V>, i: nat, k: nat)
    requires Fits(groups, plan) && |payloads| == |rows| && |recv| == plan.rowNumel && Reduced(reduce, rows, recv)
    requires forall s: nat :: s < |rows| ==>
               Payloads(groups, r, payloads[s]) && RowIs(groups, plan, r, payloads[s], zero, rows[s])
    requires i < |groups| && Sends(groups[i], r) && k < groups[i].numel
    ensures plan.offsets[i] + k < |recv|
    ensures forall s: nat :: s < |rows| ==> |payloads[s]| == |groups| && |payloads[s][i]| == groups[i].numel
    ensures recv[plan.offsets[i] + k] ==
            reduce(seq(|rows|, s requires 0 <= s < |rows| && |payloads[s]| == |groups|
                && k < |payloads[s][i]| => payloads[s][i][k]))
  {
    hide RowIs, Fits;
    PlanIs(groups, plan);
    var p := plan.offsets[i] + k;
    forall s: nat | s < |rows|
      ensures |payloads[s]| == |groups| && |payloads[s][i]| == groups[i].numel && p < |rows[s]|
      ensures rows[s][p] == payloads[s][i][k]
    {
      PayloadAt(groups, r, payloads[s], i);
      UnshardReads(groups, plan, r, payloads[s], zero, rows[s], i);
      assert rows[s][plan.offsets[i]..End(groups, plan.offsets, i)][k] == rows[s][p];
    }
    assert seq(|rows|, s requires 0 <= s < |rows| && p < |rows[s]| => rows[s][p])
        == seq(|rows|, s requires 0 <= s < |rows| && |payloads[s]| == |groups|
            && k < |payloads[s][i]| => payloads[s][i][k]);
  }
}
