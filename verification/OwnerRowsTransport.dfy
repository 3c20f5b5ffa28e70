/** Gathering and reducing owner rows over a transport plan: which element each rank
    copies at which stage, read off the plan's moves the way the ranks do it, and the
    proof that every interleaving of all ranks over any number of calls delivers the
    right elements. */
module OwnerRowsTransport {
  import opened Basics
  import opened OwnerRowsPlan
  import opened Arithmetic
  import opened RankMachine
  import opened Holes

  // ----- Places in the buffers

  /** Where the slice that starts at `start` sits in a rank's buffer. */
  function BufferOffset(plan: Plan, rank: nat, start: nat): nat
    requires HasSlot(plan.chunk, plan.relayOffsets, rank, start)
  {
    if InChunk(plan.chunk, rank, start) then start - rank * plan.chunk else plan.relayOffsets[(rank, start)]
  }

  /** Where position `p` sits in the buffer of a rank that its slice passes through. */
  ghost function Place(plan: Plan, route: map<nat, Slice>, rank: nat, p: nat): nat
    requires p in route && route[p].start <= p
    requires HasSlot(plan.chunk, plan.relayOffsets, rank, route[p].start)
  {
    BufferOffset(plan, rank, route[p].start) + (p - route[p].start)
  }

  /** The rank whose buffer holds a slice after its owner's writes. */
  function Transit(s: Slice): nat {
    match s.hops
    case Keep => s.owner
    case Direct => s.holder
    case Routed(out, _) => out
  }

  /** A rank that a slice passes through. */
  predicate Passes(s: Slice, rank: nat) {
    || rank == s.holder
    || (s.hops.Routed? && (rank == s.hops.relayOut || rank == s.hops.relayIn))
  }

  /** What a plan provides for a position at one rank. */
  ghost predicate At(plan: Plan, route: map<nat, Slice>, rank: nat, p: nat) {
    && SlotsOk(plan, route) && plan.chunk <= plan.bufferNumel
    && p in route && route[p].start in route && route[route[p].start] == route[p]
    && route[p].start <= p < route[p].start + route[p].numel
    && route[p].holder * plan.chunk <= route[p].start
    && route[p].start + route[p].numel <= (route[p].holder + 1) * plan.chunk
    && HasSlot(plan.chunk, plan.relayOffsets, rank, route[p].start)
  }

  lemma PassesAt(plan: Plan, rows: seq<nat>, hosts: seq<nat>, route: map<nat, Slice>, p: nat, rank: nat)
    requires Implements(plan, rows, hosts, route) && p in route && Passes(route[p], rank)
    ensures rank < |hosts| && SliceOk(rows, hosts, plan.chunk, route[p])
    ensures At(plan, route, rank, p)
  {
    hide Implements, SlotsOk, HasSlot, Sendable, Received, MovesAre;
    SliceFacts(plan, rows, hosts, route, p);
    PlanFacts(plan, rows, hosts, route);
    PassesSlot(plan, rows, hosts, route, p, rank);
  }

  lemma PlanFacts(plan: Plan, rows: seq<nat>, hosts: seq<nat>, route: map<nat, Slice>)
    requires Implements(plan, rows, hosts, route)
    ensures SlotsOk(plan, route) && plan.chunk <= plan.bufferNumel
    ensures MovesAre(plan.hostMoves, route, HostMoveOf)
    ensures Sendable(plan.chunk, plan.relayOffsets, plan.hostMoves)
    ensures Received(plan.chunk, plan.relayOffsets, plan.hostMoves)
  {
    hide SlotsOk, MovesAre, Sendable, Received, Tiles, SliceOk, WholeSlices;
  }

  /** A rank that a slice passes through has a place for it. */
  lemma PassesSlot(plan: Plan, rows: seq<nat>, hosts: seq<nat>, route: map<nat, Slice>, p: nat, rank: nat)
    requires Implements(plan, rows, hosts, route) && p in route && Passes(route[p], rank)
    ensures HasSlot(plan.chunk, plan.relayOffsets, rank, route[p].start)
  {
    hide Implements, SlotsOk;
    SliceFacts(plan, rows, hosts, route, p);
    if rank != route[p].holder {
      hide SliceOk, HasSlot;
      PlanFacts(plan, rows, hosts, route);
      var m := HostMoveOf(route[p]).value;
      assert m in plan.hostMoves;
      var i :| 0 <= i < |plan.hostMoves| && plan.hostMoves[i] == m;
    }
  }

  /** Slices don't straddle chunks. */
  lemma WithSlice(chunk: nat, rank: nat, s: Slice, p: nat)
    requires s.holder * chunk <= s.start <= p < s.start + s.numel <= (s.holder + 1) * chunk
    ensures InChunk(chunk, rank, p) <==> rank == s.holder
    ensures InChunk(chunk, rank, s.start) <==> rank == s.holder
  {
    if rank < s.holder {
      MulMonotone(rank + 1, s.holder, chunk);
    } else if s.holder < rank {
      MulMonotone(s.holder + 1, rank, chunk);
    }
  }

  /** In the holder's buffer a position sits inside the chunk, elsewhere in a slot behind
      it. */
  lemma PlaceIs(plan: Plan, route: map<nat, Slice>, rank: nat, p: nat)
    requires At(plan, route, rank, p)
    ensures rank == route[p].holder ==>
              Place(plan, route, rank, p) == p - rank * plan.chunk && InChunk(plan.chunk, rank, p)
    ensures rank != route[p].holder ==>
              && (rank, route[p].start) in plan.relayOffsets
              && Place(plan, route, rank, p) == plan.relayOffsets[(rank, route[p].start)] + (p - route[p].start)
              && Place(plan, route, rank, p) >= plan.chunk
    ensures rank == route[p].holder <==> Place(plan, route, rank, p) < plan.chunk
    ensures Place(plan, route, rank, p) < plan.bufferNumel
  {
    WithSlice(plan.chunk, rank, route[p], p);
  }

  /** No two positions share a place in a buffer. */
  lemma PlacesDiffer(plan: Plan, route: map<nat, Slice>, rank: nat, p: nat, q: nat)
    requires At(plan, route, rank, p) && At(plan, route, rank, q)
    requires Place(plan, route, rank, p) == Place(plan, route, rank, q)
    ensures p == q
  {
    PlaceIs(plan, route, rank, p);
    PlaceIs(plan, route, rank, q);
    var s, t := route[p], route[q];
    if rank != s.holder && s.start != t.start {
      SlotsDiffer(plan, route, (rank, s.start), (rank, t.start));
    }
  }

  lemma SlotsDiffer(plan: Plan, route: map<nat, Slice>, key: (nat, nat), key': (nat, nat))
    requires SlotsOk(plan, route) && key in plan.relayOffsets && key' in plan.relayOffsets
    requires key.0 == key'.0 && key.1 != key'.1
    ensures key.1 in route && key'.1 in route
    ensures || plan.relayOffsets[key] + route[key.1].numel <= plan.relayOffsets[key']
            || plan.relayOffsets[key'] + route[key'.1].numel <= plan.relayOffsets[key]
  {
  }

  // ----- Cutting a row into ranges

  datatype Range = Range(start: nat, numel: nat, holder: nat)

  /** A range of a rank's row: all of it is in transit in the holder's buffer, at its
      place there. */
  ghost predicate RangeOk(plan: Plan, route: map<nat, Slice>, rank: nat, r: Range) {
    forall p: nat {:trigger Covers(r.start, r.numel, p)} :: Covers(r.start, r.numel, p) ==>
      && p in route && route[p].owner == rank && r.holder == Transit(route[p])
      && At(plan, route, r.holder, p)
      && HasSlot(plan.chunk, plan.relayOffsets, r.holder, r.start)
      && BufferOffset(plan, r.holder, r.start) + (p - r.start) == Place(plan, route, r.holder, p)
  }

  ghost predicate InRange(ranges: seq<Range>, p: nat) {
    exists i :: 0 <= i < |ranges| && Covers(ranges[i].start, ranges[i].numel, p)
  }

  /** No two ranges overlap. */
  predicate RangesApart(ranges: seq<Range>) {
    forall i, j :: 0 <= i < j < |ranges| ==> Beside(ranges[i], ranges[j])
  }

  predicate Beside(r: Range, q: Range) {
    r.start + r.numel <= q.start || q.start + q.numel <= r.start
  }

  /** The ranges of a row: each is fine, no two overlap, and every position of the row is in one. */
  ghost predicate RangesFor(plan: Plan, route: map<nat, Slice>, rank: nat, ranges: seq<Range>) {
    && (forall i :: 0 <= i < |ranges| ==> RangeOk(plan, route, rank, ranges[i]))
    && RangesApart(ranges)
    && (forall p :: p in route && route[p].owner == rank ==> InRange(ranges, p))
  }

  /** The ranges this rank writes into other ranks' buffers. */
  function OwnerRanges(moves: seq<Move>, rank: nat): seq<Range> {
    if moves == [] then []
    else
      var m := moves[|moves| - 1];
      OwnerRanges(moves[..|moves| - 1], rank) + if m.src == rank then [Range(m.start, m.numel, m.dst)] else []
  }

  /** The ranges of its own row that this rank relays itself. */
  function SelfRelayed(moves: seq<Move>, rank: nat, rowStart: nat, rowEnd: nat): seq<Range> {
    if moves == [] then []
    else
      var m := moves[|moves| - 1];
      SelfRelayed(moves[..|moves| - 1], rank, rowStart, rowEnd)
      + if m.src == rank && rowStart <= m.start < rowEnd then [Range(m.start, m.numel, rank)] else []
  }

  lemma {:induction false} OwnerRangesAre(moves: seq<Move>, rank: nat)
    ensures forall r :: r in OwnerRanges(moves, rank) ==> Move(rank, r.holder, r.start, r.numel) in moves
    ensures forall m :: m in moves && m.src == rank ==> Range(m.start, m.numel, m.dst) in OwnerRanges(moves, rank)
  {
    if moves != [] {
      OwnerRangesAre(moves[..|moves| - 1], rank);
      assert moves == moves[..|moves| - 1] + [moves[|moves| - 1]];
    }
  }

  lemma {:induction false} SelfRelayedAre(moves: seq<Move>, rank: nat, lo: nat, hi: nat)
    ensures forall r :: r in SelfRelayed(moves, rank, lo, hi) ==>
              && r.holder == rank && lo <= r.start < hi
              && exists m :: m in moves && m.src == rank && m.start == r.start && m.numel == r.numel
    ensures forall m :: m in moves && m.src == rank && lo <= m.start < hi ==>
              Range(m.start, m.numel, rank) in SelfRelayed(moves, rank, lo, hi)
  {
    if moves != [] {
      var before, last := moves[..|moves| - 1], moves[|moves| - 1];
      SelfRelayedAre(before, rank, lo, hi);
      assert moves == before + [last];
      forall r | r in SelfRelayed(moves, rank, lo, hi)
        ensures && r.holder == rank && lo <= r.start < hi
                && exists m :: m in moves && m.src == rank && m.start == r.start && m.numel == r.numel
      {
        if r in SelfRelayed(before, rank, lo, hi) {
          var m :| m in before && m.src == rank && m.start == r.start && m.numel == r.numel;
          assert m in moves;
        } else {
          assert last in moves;
        }
      }
    }
  }

  /** The slice of a position. */
  lemma SliceFacts(plan: Plan, rows: seq<nat>, hosts: seq<nat>, route: map<nat, Slice>, p: nat)
    requires Implements(plan, rows, hosts, route) && p in route
    ensures var s := route[p];
            && SliceOk(rows, hosts, plan.chunk, s) && s.start <= p < s.start + s.numel && s.owner < |rows| == |hosts|
            && RowStart(rows, s.owner) <= s.start && s.start + s.numel <= RowStart(rows, s.owner + 1)
            && s.start in route && route[s.start] == s
            && p < Total(rows)
  {
  }

  /** A position lies in one row only. */
  lemma RowsApart(rows: seq<nat>, owner: nat, rank: nat, p: nat)
    requires owner < |rows| && rank < |rows| && RowStart(rows, owner) <= p < RowStart(rows, owner + 1)
    ensures owner == rank <==> RowStart(rows, rank) <= p < RowStart(rows, rank) + rows[rank]
  {
    if owner < rank {
      RowStartMonotone(rows, owner + 1, rank);
    } else if rank < owner {
      RowStartMonotone(rows, rank + 1, owner);
    }
  }

  lemma RowsCovered(plan: Plan, rows: seq<nat>, hosts: seq<nat>, route: map<nat, Slice>, rank: nat, p: nat)
    requires Implements(plan, rows, hosts, route) && rank < |rows| && Covers(RowStart(rows, rank), rows[rank], p)
    ensures p in route
  {
    RowStartMonotone(rows, rank + 1, |rows|);
  }

  lemma ListedMove(moves: seq<Move>, route: map<nat, Slice>, of: Slice -> Option<Move>, m: Move)
    requires MovesAre(moves, route, of) && WholeSlices(route, moves) && m in moves
    ensures m.start in route && of(route[m.start]) == Some(m) && route[m.start].start == m.start
  {
    var i :| 0 <= i < |moves| && moves[i] == m;
  }

  /** A move is that of the slice where it starts. */
  lemma MoveIs(plan: Plan, rows: seq<nat>, hosts: seq<nat>, route: map<nat, Slice>, m: Move)
    requires Implements(plan, rows, hosts, route)
    ensures m in plan.ownerMoves || m in plan.hostMoves || m in plan.relayMoves ==>
              m.start in route && route[m.start].start == m.start
    ensures m in plan.ownerMoves ==> OwnerMoveOf(route[m.start]) == Some(m)
    ensures m in plan.hostMoves ==> HostMoveOf(route[m.start]) == Some(m)
    ensures m in plan.relayMoves ==> RelayMoveOf(route[m.start]) == Some(m)
  {
    ListsAre(plan, rows, hosts, route);
    hide Implements;
    if m in plan.ownerMoves {
      ListedMove(plan.ownerMoves, route, OwnerMoveOf, m);
    }
    if m in plan.hostMoves {
      ListedMove(plan.hostMoves, route, HostMoveOf, m);
    }
    if m in plan.relayMoves {
      ListedMove(plan.relayMoves, route, RelayMoveOf, m);
    }
  }

  lemma ListsAre(plan: Plan, rows: seq<nat>, hosts: seq<nat>, route: map<nat, Slice>)
    requires Implements(plan, rows, hosts, route)
    ensures MovesAre(plan.ownerMoves, route, OwnerMoveOf) && WholeSlices(route, plan.ownerMoves)
    ensures MovesAre(plan.hostMoves, route, HostMoveOf) && WholeSlices(route, plan.hostMoves)
    ensures MovesAre(plan.relayMoves, route, RelayMoveOf) && WholeSlices(route, plan.relayMoves)
  {
  }

  /** The owner of a position is the rank whose row it lies in. */
  lemma OwnerIs(plan: Plan, rows: seq<nat>, hosts: seq<nat>, route: map<nat, Slice>, rank: nat, p: nat)
    requires Implements(plan, rows, hosts, route) && p in route && rank < |rows|
    ensures route[p].owner == rank <==> RowStart(rows, rank) <= p < RowStart(rows, rank) + rows[rank]
  {
    SliceFacts(plan, rows, hosts, route, p);
    RowsApart(rows, route[p].owner, rank, p);
  }

  /** A range that is one whole slice of this rank's row. */
  lemma SliceRangeOk(plan: Plan, rows: seq<nat>, hosts: seq<nat>, route: map<nat, Slice>, rank: nat, r: Range)
    requires Implements(plan, rows, hosts, route)
    requires r.start in route && route[r.start].start == r.start && route[r.start].numel == r.numel
    requires route[r.start].owner == rank && r.holder == Transit(route[r.start]) && !route[r.start].hops.Keep?
    ensures RangeOk(plan, route, rank, r)
    ensures rank < |rows|
    ensures RowStart(rows, rank) <= r.start && r.start + r.numel <= RowStart(rows, rank) + rows[rank]
  {
    var s := route[r.start];
    assert SliceOk(rows, hosts, plan.chunk, s);
    forall p: nat | Covers(r.start, r.numel, p)
      ensures && p in route && route[p].owner == rank && r.holder == Transit(route[p])
              && At(plan, route, r.holder, p)
              && HasSlot(plan.chunk, plan.relayOffsets, r.holder, r.start)
              && BufferOffset(plan, r.holder, r.start) + (p - r.start) == Place(plan, route, r.holder, p)
    {
      assert route[p] == s;
      PassesAt(plan, rows, hosts, route, p, r.holder);
    }
  }

  /** A range of positions that stay with their owner. */
  lemma KeptRangeOk(plan: Plan, rows: seq<nat>, hosts: seq<nat>, route: map<nat, Slice>, rank: nat, r: Range)
    requires Implements(plan, rows, hosts, route) && rank < |rows| && r.holder == rank && r.numel > 0
    requires forall p: nat {:trigger Covers(r.start, r.numel, p)} :: Covers(r.start, r.numel, p) ==>
               p in route && route[p].owner == rank && route[p].hops.Keep?
    ensures RangeOk(plan, route, rank, r)
  {
    assert Covers(r.start, r.numel, r.start);
    PassesAt(plan, rows, hosts, route, r.start, rank);
    PlaceIs(plan, route, rank, r.start);
    forall p: nat | Covers(r.start, r.numel, p)
      ensures && p in route && route[p].owner == rank && r.holder == Transit(route[p])
              && At(plan, route, r.holder, p)
              && HasSlot(plan.chunk, plan.relayOffsets, r.holder, r.start)
              && BufferOffset(plan, r.holder, r.start) + (p - r.start) == Place(plan, route, r.holder, p)
    {
      PassesAt(plan, rows, hosts, route, p, rank);
      PlaceIs(plan, route, rank, p);
    }
  }

  lemma OwnerRangesOk(plan: Plan, rows: seq<nat>, hosts: seq<nat>, route: map<nat, Slice>, rank: nat, r: Range)
    requires Implements(plan, rows, hosts, route) && r in OwnerRanges(plan.ownerMoves, rank)
    ensures RangeOk(plan, route, rank, r) && rank < |rows|
    ensures RowStart(rows, rank) <= r.start && r.start + r.numel <= RowStart(rows, rank) + rows[rank]
  {
    hide Implements;
    OwnerRangesAre(plan.ownerMoves, rank);
    var m := Move(rank, r.holder, r.start, r.numel);
    MoveIs(plan, rows, hosts, route, m);
    SliceFacts(plan, rows, hosts, route, m.start);
    SliceRangeOk(plan, rows, hosts, route, rank, r);
  }

  lemma SelfRelayedOk(plan: Plan, rows: seq<nat>, hosts: seq<nat>, route: map<nat, Slice>, rank: nat, r: Range)
    requires Implements(plan, rows, hosts, route) && rank < |rows|
    requires r in SelfRelayed(plan.hostMoves, rank, RowStart(rows, rank), RowStart(rows, rank) + rows[rank])
    ensures RangeOk(plan, route, rank, r)
    ensures RowStart(rows, rank) <= r.start && r.start + r.numel <= RowStart(rows, rank) + rows[rank]
  {
    hide Implements, SelfRelayed, SliceOk, RowStart, RangeOk;
    var m := SelfRelayedMove(plan.hostMoves, rank, RowStart(rows, rank), RowStart(rows, rank) + rows[rank], r);
    HostMoveIs(plan, rows, hosts, route, m);
    OwnerIs(plan, rows, hosts, route, rank, r.start);
    SliceRangeOk(plan, rows, hosts, route, rank, r);
  }

  lemma SelfRelayedMove(moves: seq<Move>, rank: nat, lo: nat, hi: nat, r: Range) returns (m: Move)
    requires r in SelfRelayed(moves, rank, lo, hi)
    ensures m in moves && m == Move(rank, m.dst, r.start, r.numel) && r.holder == rank && lo <= r.start < hi
  {
    hide SelfRelayed;
    SelfRelayedAre(moves, rank, lo, hi);
    m :| m in moves && m.src == rank && m.start == r.start && m.numel == r.numel;
  }

  /** A move between hosts is that of a routed slice. */
  lemma HostMoveIs(plan: Plan, rows: seq<nat>, hosts: seq<nat>, route: map<nat, Slice>, m: Move)
    requires Implements(plan, rows, hosts, route) && m in plan.hostMoves
    ensures m.start in route && route[m.start].hops.Routed?
    ensures route[m.start].hops.relayOut == m.src && route[m.start].start == m.start && route[m.start].numel == m.numel
  {
    hide Implements;
    MoveIs(plan, rows, hosts, route, m);
  }

  lemma InOwnerRanges(moves: seq<Move>, rank: nat, m: Move, p: nat)
    requires m in moves && m.src == rank && Covers(m.start, m.numel, p)
    ensures InRange(OwnerRanges(moves, rank), p)
  {
    OwnerRangesAre(moves, rank);
    assert Range(m.start, m.numel, m.dst) in OwnerRanges(moves, rank);
  }

  lemma InSelfRelayed(moves: seq<Move>, rank: nat, lo: nat, hi: nat, m: Move, p: nat)
    requires m in moves && m.src == rank && lo <= m.start < hi && Covers(m.start, m.numel, p)
    ensures InRange(SelfRelayed(moves, rank, lo, hi), p)
  {
    SelfRelayedAre(moves, rank, lo, hi);
    assert Range(m.start, m.numel, rank) in SelfRelayed(moves, rank, lo, hi);
  }

  /** The moves of the slice of a position. */
  lemma MoveFacts(plan: Plan, rows: seq<nat>, hosts: seq<nat>, route: map<nat, Slice>, p: nat)
    requires Implements(plan, rows, hosts, route) && p in route
    ensures OwnerMoveOf(route[p]).Some? ==> OwnerMoveOf(route[p]).value in plan.ownerMoves
    ensures HostMoveOf(route[p]).Some? ==> HostMoveOf(route[p]).value in plan.hostMoves
    ensures RelayMoveOf(route[p]).Some? ==> RelayMoveOf(route[p]).value in plan.relayMoves
  {
  }

  /** A position that no move of its owner covers stays with the owner. */
  lemma RestIsKept(plan: Plan, rows: seq<nat>, hosts: seq<nat>, route: map<nat, Slice>, rank: nat, p: nat)
    requires Implements(plan, rows, hosts, route) && rank < |rows| && p in route && route[p].owner == rank
    ensures || route[p].hops.Keep?
            || InRange(OwnerRanges(plan.ownerMoves, rank), p)
            || InRange(SelfRelayed(plan.hostMoves, rank, RowStart(rows, rank), RowStart(rows, rank) + rows[rank]), p)
  {
    hide Implements;
    SliceFacts(plan, rows, hosts, route, p);
    MoveFacts(plan, rows, hosts, route, p);
    var s := route[p];
    if OwnerMoveOf(s).Some? {
      InOwnerRanges(plan.ownerMoves, rank, OwnerMoveOf(s).value, p);
    } else if HostMoveOf(s).Some? {
      InSelfRelayed(plan.hostMoves, rank, RowStart(rows, rank), RowStart(rows, rank) + rows[rank], HostMoveOf(s).value,
          p);
    }
  }

  function HolesOf(ranges: seq<Range>): seq<Hole> {
    seq(|ranges|, i requires 0 <= i < |ranges| => Hole(ranges[i].start, ranges[i].numel))
  }

  /** The ranges of this rank's row that move, first to other ranks' buffers, then relayed
      by this rank itself. */
  method MovedRangesOf(plan: Plan, rank: nat, rowStart: nat, rowEnd: nat) returns (ranges: seq<Range>)
    ensures ranges == OwnerRanges(plan.ownerMoves, rank) + SelfRelayed(plan.hostMoves, rank, rowStart, rowEnd)
  {
    ranges := [];
    for i := 0 to |plan.ownerMoves|
      invariant ranges == OwnerRanges(plan.ownerMoves[..i], rank)
    {
      var move := plan.ownerMoves[i];
      assert plan.ownerMoves[..i + 1][..i] == plan.ownerMoves[..i];
      if move.src == rank {
        ranges := ranges + [Range(move.start, move.numel, move.dst)];
      }
    }
    assert plan.ownerMoves[..|plan.ownerMoves|] == plan.ownerMoves;
    ghost var own := ranges;
    for i := 0 to |plan.hostMoves|
      invariant ranges == own + SelfRelayed(plan.hostMoves[..i], rank, rowStart, rowEnd)
    {
      var move := plan.hostMoves[i];
      assert plan.hostMoves[..i + 1][..i] == plan.hostMoves[..i];
      if move.src == rank && rowStart <= move.start < rowEnd {
        ranges := ranges + [Range(move.start, move.numel, rank)];
      }
    }
    assert plan.hostMoves[..|plan.hostMoves|] == plan.hostMoves;
  }

  /** Each range of this rank's row with the rank whose buffer holds it in transit: the
      rank whose chunk holds it, a relay, or this rank. */
  method RowRanges(plan: Plan, rank: nat, rowStart: nat, rowNumel: nat,
                   ghost rows: seq<nat>, ghost hosts: seq<nat>, ghost route: map<nat, Slice>)
    returns (ranges: seq<Range>)
    requires Implements(plan, rows, hosts, route) && rank < |rows|
    requires rowStart == RowStart(rows, rank) && rowNumel == rows[rank]
    ensures RangesFor(plan, route, rank, ranges)
  {
    hide Implements;
    var moved := MovedRangesOf(plan, rank, rowStart, rowStart + rowNumel);
    MovedRangesOk(plan, rows, hosts, route, rank, moved);
    var left := Subtract(rowStart, rowNumel, HolesOf(moved));
    LeftRangesOk(plan, rows, hosts, route, rank, moved, left);
    var kept := Kept(left, rank);
    ranges := moved + kept;
  }

  method Kept(left: seq<Hole>, rank: nat) returns (ranges: seq<Range>)
    ensures ranges == KeptRanges(left, rank)
  {
    ranges := [];
    for i := 0 to |left|
      invariant ranges == KeptRanges(left[..i], rank)
    {
      assert left[..i + 1][..i] == left[..i];
      ranges := ranges + [Range(left[i].start, left[i].numel, rank)];
    }
    assert left[..|left|] == left;
  }

  function KeptRanges(left: seq<Hole>, rank: nat): seq<Range> {
    if left == [] then []
    else KeptRanges(left[..|left| - 1], rank) + [Range(left[|left| - 1].start, left[|left| - 1].numel, rank)]
  }

  lemma {:induction false} KeptRangesAre(left: seq<Hole>, rank: nat)
    ensures |KeptRanges(left, rank)| == |left|
    ensures forall i :: 0 <= i < |left| ==> KeptRanges(left, rank)[i] == Range(left[i].start, left[i].numel, rank)
  {
    if left != [] {
      KeptRangesAre(left[..|left| - 1], rank);
    }
  }

  ghost predicate MovedRanges(plan: Plan, rows: seq<nat>, rank: nat, ranges: seq<Range>) {
    && rank < |rows|
    && ranges == OwnerRanges(plan.ownerMoves, rank)
                 + SelfRelayed(plan.hostMoves, rank, RowStart(rows, rank), RowStart(rows, rank) + rows[rank])
  }

  lemma MovedRangesOk(plan: Plan, rows: seq<nat>, hosts: seq<nat>, route: map<nat, Slice>,
                      rank: nat, ranges: seq<Range>)
    requires Implements(plan, rows, hosts, route) && MovedRanges(plan, rows, rank, ranges)
    ensures forall i :: 0 <= i < |ranges| ==> RangeOk(plan, route, rank, ranges[i])
    ensures HolesWithin(RowStart(rows, rank), rows[rank], HolesOf(ranges))
  {
    hide Implements, RangeOk, OwnerRanges, SelfRelayed;
    var own := OwnerRanges(plan.ownerMoves, rank);
    forall i | 0 <= i < |ranges|
      ensures RangeOk(plan, route, rank, ranges[i])
      ensures RowStart(rows, rank) <= ranges[i].start
      ensures ranges[i].start + ranges[i].numel <= RowStart(rows, rank) + rows[rank]
    {
      if i < |own| {
        assert ranges[i] in own;
        OwnerRangesOk(plan, rows, hosts, route, rank, ranges[i]);
      } else {
        SelfRelayedOk(plan, rows, hosts, route, rank, ranges[i]);
      }
    }
  }

  predicate StartsDiffer(ranges: seq<Range>) {
    forall i, j :: 0 <= i < j < |ranges| ==> ranges[i].start != ranges[j].start
  }

  lemma {:induction false} OwnerStartsDiffer(moves: seq<Move>, rank: nat)
    requires forall i, j :: 0 <= i < j < |moves| ==> moves[i].start != moves[j].start
    ensures StartsDiffer(OwnerRanges(moves, rank))
  {
    if moves != [] {
      var before := moves[..|moves| - 1];
      OwnerStartsDiffer(before, rank);
      OwnerRangesAre(before, rank);
      forall r | r in OwnerRanges(before, rank) ensures r.start != moves[|moves| - 1].start {
        var i :| 0 <= i < |before| && before[i] == Move(rank, r.holder, r.start, r.numel);
        assert moves[i] == before[i];
      }
    }
  }

  lemma {:induction false} SelfStartsDiffer(moves: seq<Move>, rank: nat, lo: nat, hi: nat)
    requires forall i, j :: 0 <= i < j < |moves| ==> moves[i].start != moves[j].start
    ensures StartsDiffer(SelfRelayed(moves, rank, lo, hi))
  {
    if moves != [] {
      var before := moves[..|moves| - 1];
      SelfStartsDiffer(before, rank, lo, hi);
      SelfRelayedAre(before, rank, lo, hi);
      forall r | r in SelfRelayed(before, rank, lo, hi) ensures r.start != moves[|moves| - 1].start {
        var m :| m in before && m.src == rank && m.start == r.start && m.numel == r.numel;
        var i :| 0 <= i < |before| && before[i] == m;
        assert moves[i] == before[i];
      }
    }
  }

  /** A range is one whole slice, which this rank's first hop takes to another rank, or not. */
  ghost predicate IsSlice(route: map<nat, Slice>, r: Range, leaves: bool) {
    && r.start in route && route[r.start].start == r.start && route[r.start].numel == r.numel
    && (OwnerMoveOf(route[r.start]).Some? <==> leaves)
  }

  lemma OwnerRangeIsSlice(plan: Plan, rows: seq<nat>, hosts: seq<nat>, route: map<nat, Slice>, rank: nat, r: Range)
    requires Implements(plan, rows, hosts, route) && r in OwnerRanges(plan.ownerMoves, rank)
    ensures IsSlice(route, r, true)
  {
    hide Implements;
    OwnerRangesAre(plan.ownerMoves, rank);
    MoveIs(plan, rows, hosts, route, Move(rank, r.holder, r.start, r.numel));
  }

  lemma SelfRelayedIsSlice(plan: Plan, rows: seq<nat>, hosts: seq<nat>, route: map<nat, Slice>, rank: nat, r: Range)
    requires Implements(plan, rows, hosts, route) && rank < |rows|
    requires r in SelfRelayed(plan.hostMoves, rank, RowStart(rows, rank), RowStart(rows, rank) + rows[rank])
    ensures IsSlice(route, r, false)
  {
    hide Implements, SelfRelayed, SliceOk, RowStart;
    var m := SelfRelayedMove(plan.hostMoves, rank, RowStart(rows, rank), RowStart(rows, rank) + rows[rank], r);
    HostMoveIs(plan, rows, hosts, route, m);
    OwnerIs(plan, rows, hosts, route, rank, r.start);
  }

  /** Slices that start at different positions don't overlap. */
  lemma SlicesBeside(route: map<nat, Slice>, r: Range, q: Range, a: bool, b: bool)
    requires Tiles(route) && IsSlice(route, r, a) && IsSlice(route, q, b) && r.start != q.start
    ensures Beside(r, q)
  {
  }

  /** No two of the moved ranges overlap. */
  lemma MovedRangesApart(plan: Plan, rows: seq<nat>, hosts: seq<nat>, route: map<nat, Slice>,
                         rank: nat, ranges: seq<Range>)
    requires Implements(plan, rows, hosts, route) && MovedRanges(plan, rows, rank, ranges)
    ensures RangesApart(ranges) && forall i :: 0 <= i < |ranges| ==> ranges[i].numel > 0
  {
    hide Implements, IsSlice, Beside, OwnerRanges, SelfRelayed;
    var own := OwnerRanges(plan.ownerMoves, rank);
    var self := SelfRelayed(plan.hostMoves, rank, RowStart(rows, rank), RowStart(rows, rank) + rows[rank]);
    ListsDiffer(plan, rows, hosts, route);
    OwnerStartsDiffer(plan.ownerMoves, rank);
    SelfStartsDiffer(plan.hostMoves, rank, RowStart(rows, rank), RowStart(rows, rank) + rows[rank]);
    forall i | 0 <= i < |ranges| ensures IsSlice(route, ranges[i], i < |own|) && ranges[i].numel > 0 {
      if i < |own| {
        assert ranges[i] in own;
        OwnerRangeIsSlice(plan, rows, hosts, route, rank, ranges[i]);
      } else {
        assert ranges[i] in self;
        SelfRelayedIsSlice(plan, rows, hosts, route, rank, ranges[i]);
      }
      SliceLong(plan, rows, hosts, route, ranges[i], i < |own|);
    }
    forall i, j | 0 <= i < j < |ranges| ensures Beside(ranges[i], ranges[j]) {
      assert (i < |own|) != (j < |own|) ==> ranges[i].start != ranges[j].start by {
        KindsDiffer(route, ranges[i], ranges[j], i < |own|, j < |own|);
      }
      assert ranges[i].start != ranges[j].start by {
        assert j < |own| ==> own[i].start != own[j].start;
        assert i >= |own| ==> self[i - |own|].start != self[j - |own|].start;
      }
      SlicesBeside(route, ranges[i], ranges[j], i < |own|, j < |own|);
    }
  }

  lemma SliceLong(plan: Plan, rows: seq<nat>, hosts: seq<nat>, route: map<nat, Slice>, r: Range, leaves: bool)
    requires Implements(plan, rows, hosts, route) && IsSlice(route, r, leaves)
    ensures r.numel > 0
  {
    hide Implements;
    SliceFacts(plan, rows, hosts, route, r.start);
  }

  lemma KindsDiffer(route: map<nat, Slice>, r: Range, q: Range, a: bool, b: bool)
    requires IsSlice(route, r, a) && IsSlice(route, q, b)
    ensures a != b ==> r.start != q.start
  {
  }

  lemma ListsDiffer(plan: Plan, rows: seq<nat>, hosts: seq<nat>, route: map<nat, Slice>)
    requires Implements(plan, rows, hosts, route)
    ensures Tiles(route)
    ensures forall i, j :: 0 <= i < j < |plan.ownerMoves| ==> plan.ownerMoves[i].start != plan.ownerMoves[j].start
    ensures forall i, j :: 0 <= i < j < |plan.hostMoves| ==> plan.hostMoves[i].start != plan.hostMoves[j].start
  {
  }

  /** What is left of a row lies beside what moves, and each range of it beside the others. */
  lemma AllRangesApart(moved: seq<Range>, left: seq<Hole>, rank: nat)
    requires RangesApart(moved) && forall i :: 0 <= i < |moved| ==> moved[i].numel > 0
    requires forall i :: 0 <= i < |left| ==> left[i].numel > 0
    requires forall i, j :: 0 <= i < j < |left| ==> left[i].start + left[i].numel <= left[j].start
    requires forall p: nat :: InHole(left, p) ==> !InHole(HolesOf(moved), p)
    ensures RangesApart(moved + KeptRanges(left, rank))
  {
    hide InHole;
    var kept := KeptRanges(left, rank);
    KeptRangesAre(left, rank);
    forall i, j | 0 <= i < |moved| && 0 <= j < |kept| ensures Beside(moved[i], kept[j]) {
      var p := if moved[i].start < kept[j].start then kept[j].start else moved[i].start;
      NotInBoth(moved, left, i, j, p);
    }
  }

  lemma NotInBoth(moved: seq<Range>, left: seq<Hole>, i: nat, j: nat, p: nat)
    requires i < |moved| && j < |left| && (InHole(left, p) ==> !InHole(HolesOf(moved), p))
    ensures !(Covers(moved[i].start, moved[i].numel, p) && Covers(left[j].start, left[j].numel, p))
  {
    assert HolesOf(moved)[i] == Hole(moved[i].start, moved[i].numel);
  }

  lemma InRangeAppend(a: seq<Range>, b: seq<Range>, p: nat)
    ensures InRange(a + b, p) <==> InRange(a, p) || InRange(b, p)
  {
    if i :| 0 <= i < |a| && Covers(a[i].start, a[i].numel, p) {
      assert (a + b)[i] == a[i];
    } else if i :| 0 <= i < |b| && Covers(b[i].start, b[i].numel, p) {
      assert (a + b)[|a| + i] == b[i];
    }
  }

  lemma HolesAreRanges(ranges: seq<Range>, p: nat)
    ensures InHole(HolesOf(ranges), p) <==> InRange(ranges, p)
  {
    if i :| 0 <= i < |ranges| && Covers(ranges[i].start, ranges[i].numel, p) {
      assert HolesOf(ranges)[i] == Hole(ranges[i].start, ranges[i].numel);
    }
  }

  /** What is left of a row after its moved ranges stays with the owner. */
  lemma LeftIsKept(plan: Plan, rows: seq<nat>, hosts: seq<nat>, route: map<nat, Slice>,
                   rank: nat, moved: seq<Range>, p: nat)
    requires Implements(plan, rows, hosts, route) && MovedRanges(plan, rows, rank, moved)
    requires Covers(RowStart(rows, rank), rows[rank], p) && !InHole(HolesOf(moved), p)
    ensures p in route && route[p].owner == rank && route[p].hops.Keep?
  {
    hide Implements;
    RowsCovered(plan, rows, hosts, route, rank, p);
    OwnerIs(plan, rows, hosts, route, rank, p);
    HolesAreRanges(moved, p);
    InRangeAppend(OwnerRanges(plan.ownerMoves, rank),
                  SelfRelayed(plan.hostMoves, rank, RowStart(rows, rank), RowStart(rows, rank) + rows[rank]), p);
    RestIsKept(plan, rows, hosts, route, rank, p);
  }

  lemma KeptRangesOk(plan: Plan, rows: seq<nat>, hosts: seq<nat>, route: map<nat, Slice>, rank: nat, left: seq<Hole>)
    requires Implements(plan, rows, hosts, route) && rank < |rows|
    requires forall p: nat :: InHole(left, p) ==> p in route && route[p].owner == rank && route[p].hops.Keep?
    requires forall i :: 0 <= i < |left| ==> left[i].numel > 0
    ensures forall i :: 0 <= i < |KeptRanges(left, rank)| ==> RangeOk(plan, route, rank, KeptRanges(left, rank)[i])
  {
    var kept := KeptRanges(left, rank);
    KeptRangesAre(left, rank);
    forall i | 0 <= i < |kept| ensures RangeOk(plan, route, rank, kept[i]) {
      forall p: nat | Covers(kept[i].start, kept[i].numel, p)
        ensures p in route && route[p].owner == rank && route[p].hops.Keep?
      {
        assert Covers(left[i].start, left[i].numel, p);
        assert InHole(left, p);
      }
      KeptRangeOk(plan, rows, hosts, route, rank, kept[i]);
    }
  }

  lemma KeptRangesCover(left: seq<Hole>, rank: nat, p: nat)
    requires InHole(left, p)
    ensures InRange(KeptRanges(left, rank), p)
  {
    KeptRangesAre(left, rank);
    var i :| 0 <= i < |left| && Covers(left[i].start, left[i].numel, p);
    assert Covers(KeptRanges(left, rank)[i].start, KeptRanges(left, rank)[i].numel, p);
  }

  lemma LeftRangesOk(plan: Plan, rows: seq<nat>, hosts: seq<nat>, route: map<nat, Slice>, rank: nat,
                     moved: seq<Range>, left: seq<Hole>)
    requires Implements(plan, rows, hosts, route) && MovedRanges(plan, rows, rank, moved)
    requires forall p: nat :: InHole(left, p) <==>
               Covers(RowStart(rows, rank), rows[rank], p) && !InHole(HolesOf(moved), p)
    requires forall i :: 0 <= i < |left| ==> left[i].numel > 0
    requires forall i, j :: 0 <= i < j < |left| ==> left[i].start + left[i].numel <= left[j].start
    ensures RangesFor(plan, route, rank, moved + KeptRanges(left, rank))
  {
    hide Implements, RangesApart, InHole, InRange, RangeOk, Covers, HolesWithin, MovedRanges;
    MovedRangesOk(plan, rows, hosts, route, rank, moved);
    MovedRangesApart(plan, rows, hosts, route, rank, moved);
    AllRangesApart(moved, left, rank);
    MovedRow(plan, rows, rank, moved);
    forall p: nat | InHole(left, p)
      ensures p in route && route[p].owner == rank && route[p].hops.Keep?
    {
      LeftIsKept(plan, rows, hosts, route, rank, moved, p);
    }
    KeptRangesOk(plan, rows, hosts, route, rank, left);
    LeftRangesCover(plan, rows, hosts, route, rank, moved, left);
  }

  lemma MovedRow(plan: Plan, rows: seq<nat>, rank: nat, ranges: seq<Range>)
    requires MovedRanges(plan, rows, rank, ranges)
    ensures rank < |rows|
  {
  }

  /** Every position of the row is in a moved range or in what is left. */
  lemma LeftRangesCover(plan: Plan, rows: seq<nat>, hosts: seq<nat>, route: map<nat, Slice>,
                        rank: nat, moved: seq<Range>,
                        left: seq<Hole>)
    requires Implements(plan, rows, hosts, route) && rank < |rows|
    requires forall p: nat :: InHole(left, p) <==>
               Covers(RowStart(rows, rank), rows[rank], p) && !InHole(HolesOf(moved), p)
    ensures forall p :: p in route && route[p].owner == rank ==> InRange(moved + KeptRanges(left, rank), p)
  {
    hide Implements, InHole, InRange, KeptRanges;
    var all := moved + KeptRanges(left, rank);
    forall p | p in route && route[p].owner == rank ensures InRange(all, p) {
      OwnerIs(plan, rows, hosts, route, rank, p);
      HolesAreRanges(moved, p);
      InRangeAppend(moved, KeptRanges(left, rank), p);
      if InHole(left, p) {
        KeptRangesCover(left, rank, p);
      }
    }
  }

  // ----- One call of the gather or of the reduce

  /** A call on one bucket: its plan, the slices and row ranges read off it, and the
      elements it carries by position. */
  datatype Call<V> = Call(plan: Plan, rows: seq<nat>, route: map<nat, Slice>,
                          ranges: seq<seq<Range>>, values: map<nat, V>)

  ghost predicate CallOk<V>(hosts: seq<nat>, c: Call<V>) {
    && Implements(c.plan, c.rows, hosts, c.route)
    && |c.ranges| == |hosts|
    && forall r :: 0 <= r < |hosts| ==> RangesFor(c.plan, c.route, r, c.ranges[r])
  }

  /** The elements of a gather: those of the owners' parameters. */
  ghost predicate GatherOk<V>(hosts: seq<nat>, c: Call<V>) {
    CallOk(hosts, c) && forall p :: p in c.values ==> p in c.route
  }

  /** The elements of a reduce: the reduced ones of the whole bucket. */
  ghost predicate ReduceOk<V>(hosts: seq<nat>, c: Call<V>) {
    CallOk(hosts, c) && forall p: nat :: p in c.values <==> p < c.plan.gathered
  }

  /** Element `p` of the slice that a rank's buffer has at `start`. */
  function CellOf(plan: Plan, rank: nat, start: nat, p: nat): Cell
    requires start <= p && HasSlot(plan.chunk, plan.relayOffsets, rank, start)
  {
    Buf(rank, BufferOffset(plan, rank, start) + (p - start))
  }

  // Stages of the gather: barrier, owners' writes, barrier, moves between hosts, relays'
  // writes, barrier of hosts with relays, all-gather.

  function Positions(start: nat, numel: nat): set<nat> {
    set p: nat {:trigger Covers(start, numel, p)} | p < start + numel && Covers(start, numel, p)
  }

  ghost predicate HasBoth(plan: Plan, m: Move) {
    HasSlot(plan.chunk, plan.relayOffsets, m.src, m.start) && HasSlot(plan.chunk, plan.relayOffsets, m.dst, m.start)
  }

  /** Each owner writes the elements of its row's ranges that its parameters cover. */
  ghost function OwnerWrites<V>(c: Call<V>): set<Action> {
    set r, i, p | 0 <= r < |c.ranges| && 0 <= i < |c.ranges[r]|
      && p in Positions(c.ranges[r][i].start, c.ranges[r][i].numel) && p in c.values
      && HasSlot(c.plan.chunk, c.plan.relayOffsets, c.ranges[r][i].holder, c.ranges[r][i].start)
      :: Action(1, {r}, Ext, CellOf(c.plan, c.ranges[r][i].holder, c.ranges[r][i].start, p), p)
  }

  /** The sends and receives between hosts, buffer to buffer. */
  ghost function HostCopies<V>(c: Call<V>): set<Action> {
    set m, p | m in c.plan.hostMoves && p in Positions(m.start, m.numel) && HasBoth(c.plan, m)
      :: Action(3, {m.src, m.dst}, From(CellOf(c.plan, m.src, m.start, p)), CellOf(c.plan, m.dst, m.start, p), p)
  }

  /** The relays write the slices into their holders' buffers. */
  ghost function RelayWrites<V>(c: Call<V>): set<Action> {
    set m, p | m in c.plan.relayMoves && p in Positions(m.start, m.numel) && HasBoth(c.plan, m)
      :: Action(4, {m.src}, From(CellOf(c.plan, m.src, m.start, p)), CellOf(c.plan, m.dst, m.start, p), p)
  }

  /** Every rank receives every rank's chunk. */
  ghost function AllGather<V>(c: Call<V>): set<Action> {
    set q, s, o | 0 <= q < |c.ranges| && 0 <= s < |c.ranges| && 0 <= o < c.plan.chunk
      :: Action(6, {q, s}, From(Buf(s, o)), Out(q, s * c.plan.chunk + o), s * c.plan.chunk + o)
  }

  ghost function GatherBarriers<V>(hosts: seq<nat>, c: Call<V>): set<(nat, nat)> {
    (set h | h in hosts :: (0, h)) + (set h | h in hosts :: (2, h))
    + (set m | m in c.plan.relayMoves && m.dst < |hosts| :: (5, hosts[m.dst]))
  }

  ghost function GatherRound<V>(hosts: seq<nat>, c: Call<V>): Round<V> {
    Round(OwnerWrites(c) + HostCopies(c) + RelayWrites(c) + AllGather(c), GatherBarriers(hosts, c), c.values)
  }

  // ----- The copies of a call, by position

  ghost predicate WriteAt<V>(c: Call<V>, a: Action) {
    && a.pos in c.route && a.pos in c.values
    && var s := c.route[a.pos];
       && At(c.plan, c.route, Transit(s), a.pos)
       && a == Action(1, {s.owner}, Ext, Buf(Transit(s), Place(c.plan, c.route, Transit(s), a.pos)), a.pos)
  }

  /** The slice of `p` crosses hosts, and has a place in both relays' buffers. */
  ghost predicate Crosses<V>(c: Call<V>, p: nat) {
    && p in c.route && c.route[p].hops.Routed?
    && At(c.plan, c.route, c.route[p].hops.relayOut, p) && At(c.plan, c.route, c.route[p].hops.relayIn, p)
  }

  ghost function OutCell<V>(c: Call<V>, p: nat): Cell
    requires Crosses(c, p)
  {
    Buf(c.route[p].hops.relayOut, Place(c.plan, c.route, c.route[p].hops.relayOut, p))
  }

  ghost function InCell<V>(c: Call<V>, p: nat): Cell
    requires Crosses(c, p)
  {
    Buf(c.route[p].hops.relayIn, Place(c.plan, c.route, c.route[p].hops.relayIn, p))
  }

  ghost function HolderCell<V>(c: Call<V>, p: nat): Cell
    requires p in c.route && At(c.plan, c.route, c.route[p].holder, p)
  {
    Buf(c.route[p].holder, Place(c.plan, c.route, c.route[p].holder, p))
  }

  ghost predicate HostAt<V>(c: Call<V>, a: Action) {
    && Crosses(c, a.pos)
    && var h := c.route[a.pos].hops;
       a == Action(3, {h.relayOut, h.relayIn}, From(OutCell(c, a.pos)), InCell(c, a.pos), a.pos)
  }

  ghost predicate RelayAt<V>(c: Call<V>, a: Action) {
    && Crosses(c, a.pos) && c.route[a.pos].hops.relayIn != c.route[a.pos].holder
    && At(c.plan, c.route, c.route[a.pos].holder, a.pos)
    && a == Action(4, {c.route[a.pos].hops.relayIn}, From(InCell(c, a.pos)), HolderCell(c, a.pos), a.pos)
  }

  lemma OwnerWriteIs<V>(hosts: seq<nat>, c: Call<V>, a: Action)
    requires CallOk(hosts, c) && a in OwnerWrites(c)
    ensures WriteAt(c, a)
  {
    hide Implements, SlotsOk, InChunk, HasSlot, BufferOffset, SliceOk, WriteAt, CellOf, RangeOk;
    var r, i, p :| 0 <= r < |c.ranges| && 0 <= i < |c.ranges[r]|
      && p in Positions(c.ranges[r][i].start, c.ranges[r][i].numel) && p in c.values
      && HasSlot(c.plan.chunk, c.plan.relayOffsets, c.ranges[r][i].holder, c.ranges[r][i].start)
      && a == Action(1, {r}, Ext, CellOf(c.plan, c.ranges[r][i].holder, c.ranges[r][i].start, p), p);
    RangeWrite(c, r, c.ranges[r][i], p, a);
  }

  lemma RangeWrite<V>(c: Call<V>, r: nat, range: Range, p: nat, a: Action)
    requires RangeOk(c.plan, c.route, r, range) && p in Positions(range.start, range.numel) && p in c.values
    requires HasSlot(c.plan.chunk, c.plan.relayOffsets, range.holder, range.start)
    requires a == Action(1, {r}, Ext, CellOf(c.plan, range.holder, range.start, p), p)
    ensures WriteAt(c, a)
  {
    hide SlotsOk, InChunk, HasSlot, BufferOffset, At;
    assert Covers(range.start, range.numel, p);
  }

  /** The copy that writes element `p` of a range. */
  ghost function OwnerWrite<V>(c: Call<V>, r: nat, range: Range, p: nat): Action
    requires range.start <= p && HasSlot(c.plan.chunk, c.plan.relayOffsets, range.holder, range.start)
  {
    Action(1, {r}, Ext, CellOf(c.plan, range.holder, range.start, p), p)
  }

  lemma OwnerWriteIn<V>(c: Call<V>, r: nat, i: nat, p: nat)
    requires r < |c.ranges| && i < |c.ranges[r]| && p in c.values
    requires Covers(c.ranges[r][i].start, c.ranges[r][i].numel, p)
    requires HasSlot(c.plan.chunk, c.plan.relayOffsets, c.ranges[r][i].holder, c.ranges[r][i].start)
    ensures OwnerWrite(c, r, c.ranges[r][i], p) in OwnerWrites(c)
  {
    assert p in Positions(c.ranges[r][i].start, c.ranges[r][i].numel);
  }

  lemma OwnerWriteAt<V>(c: Call<V>, r: nat, range: Range, p: nat)
    requires RangeOk(c.plan, c.route, r, range) && p in c.values && Covers(range.start, range.numel, p)
    ensures HasSlot(c.plan.chunk, c.plan.relayOffsets, range.holder, range.start)
    ensures WriteAt(c, OwnerWrite(c, r, range, p))
  {
  }

  lemma OwnerWriteExists<V>(hosts: seq<nat>, c: Call<V>, p: nat) returns (a: Action)
    requires CallOk(hosts, c) && p in c.route && p in c.values
    ensures a in OwnerWrites(c) && WriteAt(c, a) && a.pos == p
  {
    SliceFacts(c.plan, c.rows, hosts, c.route, p);
    hide Implements, SlotsOk, InChunk, BufferOffset, SliceOk, RangeOk, OwnerWrites, WriteAt;
    var r := c.route[p].owner;
    assert InRange(c.ranges[r], p);
    var i :| 0 <= i < |c.ranges[r]| && Covers(c.ranges[r][i].start, c.ranges[r][i].numel, p);
    OwnerWriteAt(c, r, c.ranges[r][i], p);
    OwnerWriteIn(c, r, i, p);
    a := OwnerWrite(c, r, c.ranges[r][i], p);
  }

  /** What a position of a move has at its places. */
  lemma OnMove(plan: Plan, rows: seq<nat>, hosts: seq<nat>, route: map<nat, Slice>, m: Move, p: nat)
    requires Implements(plan, rows, hosts, route) && (m in plan.hostMoves || m in plan.relayMoves)
    requires Covers(m.start, m.numel, p)
    ensures p in route && m.start in route && route[p] == route[m.start] && m.start == route[p].start
    ensures m in plan.hostMoves ==> HostMoveOf(route[p]) == Some(m)
    ensures m in plan.relayMoves ==> RelayMoveOf(route[p]) == Some(m)
    ensures route[p].hops.Routed? && SliceOk(rows, hosts, plan.chunk, route[p])
    ensures At(plan, route, route[p].hops.relayOut, p) && At(plan, route, route[p].hops.relayIn, p)
    ensures At(plan, route, route[p].holder, p)
  {
    MoveIs(plan, rows, hosts, route, m);
    var s := route[m.start];
    SliceFacts(plan, rows, hosts, route, m.start);
    SameSlice(plan, rows, hosts, route, m.start, p);
    hide Implements;
    PassesAt(plan, rows, hosts, route, p, s.hops.relayOut);
    PassesAt(plan, rows, hosts, route, p, s.hops.relayIn);
    PassesAt(plan, rows, hosts, route, p, s.holder);
  }

  lemma SameSlice(plan: Plan, rows: seq<nat>, hosts: seq<nat>, route: map<nat, Slice>, start: nat, p: nat)
    requires Implements(plan, rows, hosts, route) && start in route
    requires route[start].start <= p < route[start].start + route[start].numel
    ensures p in route && route[p] == route[start]
  {
  }

  ghost function HostCopy<V>(c: Call<V>, m: Move, p: nat): Action
    requires m.start <= p && HasBoth(c.plan, m)
  {
    Action(3, {m.src, m.dst}, From(CellOf(c.plan, m.src, m.start, p)), CellOf(c.plan, m.dst, m.start, p), p)
  }

  ghost function RelayWrite<V>(c: Call<V>, m: Move, p: nat): Action
    requires m.start <= p && HasBoth(c.plan, m)
  {
    Action(4, {m.src}, From(CellOf(c.plan, m.src, m.start, p)), CellOf(c.plan, m.dst, m.start, p), p)
  }

  lemma HostCopyIs<V>(hosts: seq<nat>, c: Call<V>, a: Action)
    requires CallOk(hosts, c) && a in HostCopies(c)
    ensures HostAt(c, a)
  {
    hide Implements, SlotsOk, InChunk, BufferOffset, SliceOk;
    var m, p :| m in c.plan.hostMoves && p in Positions(m.start, m.numel) && HasBoth(c.plan, m)
      && a == Action(3, {m.src, m.dst}, From(CellOf(c.plan, m.src, m.start, p)), CellOf(c.plan, m.dst, m.start, p), p);
    OnMove(c.plan, c.rows, hosts, c.route, m, p);
  }

  lemma HostCopyIn<V>(c: Call<V>, m: Move, p: nat)
    requires m in c.plan.hostMoves && Covers(m.start, m.numel, p) && HasBoth(c.plan, m)
    ensures HostCopy(c, m, p) in HostCopies(c)
  {
    assert p in Positions(m.start, m.numel);
  }

  lemma HostCopyAt<V>(hosts: seq<nat>, c: Call<V>, m: Move, p: nat)
    requires CallOk(hosts, c) && m in c.plan.hostMoves && Covers(m.start, m.numel, p)
    ensures HasBoth(c.plan, m) && HostAt(c, HostCopy(c, m, p))
  {
    hide Implements, SlotsOk, InChunk, BufferOffset, SliceOk;
    OnMove(c.plan, c.rows, hosts, c.route, m, p);
  }

  lemma HostCopyExists<V>(hosts: seq<nat>, c: Call<V>, p: nat) returns (a: Action)
    requires CallOk(hosts, c) && p in c.route && c.route[p].hops.Routed?
    ensures a in HostCopies(c) && HostAt(c, a) && a.pos == p
    ensures exists m :: m in c.plan.hostMoves && m.src == c.route[p].hops.relayOut
  {
    SliceFacts(c.plan, c.rows, hosts, c.route, p);
    MoveFacts(c.plan, c.rows, hosts, c.route, p);
    hide Implements, SlotsOk, InChunk, BufferOffset, SliceOk, HostCopies, HostAt, HasBoth;
    var m := HostMoveOf(c.route[p]).value;
    HostCopyAt(hosts, c, m, p);
    HostCopyIn(c, m, p);
    a := HostCopy(c, m, p);
  }

  lemma RelayWriteIs<V>(hosts: seq<nat>, c: Call<V>, a: Action)
    requires CallOk(hosts, c) && a in RelayWrites(c)
    ensures RelayAt(c, a)
  {
    hide Implements, SlotsOk, InChunk, BufferOffset, SliceOk;
    var m, p :| m in c.plan.relayMoves && p in Positions(m.start, m.numel) && HasBoth(c.plan, m)
      && a == Action(4, {m.src}, From(CellOf(c.plan, m.src, m.start, p)), CellOf(c.plan, m.dst, m.start, p), p);
    OnMove(c.plan, c.rows, hosts, c.route, m, p);
  }

  lemma RelayWriteIn<V>(c: Call<V>, m: Move, p: nat)
    requires m in c.plan.relayMoves && Covers(m.start, m.numel, p) && HasBoth(c.plan, m)
    ensures RelayWrite(c, m, p) in RelayWrites(c)
  {
    assert p in Positions(m.start, m.numel);
  }

  lemma RelayWriteAt<V>(hosts: seq<nat>, c: Call<V>, m: Move, p: nat)
    requires CallOk(hosts, c) && m in c.plan.relayMoves && Covers(m.start, m.numel, p)
    ensures HasBoth(c.plan, m) && RelayAt(c, RelayWrite(c, m, p))
  {
    hide Implements, SlotsOk, InChunk, BufferOffset, SliceOk;
    OnMove(c.plan, c.rows, hosts, c.route, m, p);
  }

  lemma RelayWriteExists<V>(hosts: seq<nat>, c: Call<V>, p: nat) returns (a: Action)
    requires CallOk(hosts, c) && p in c.route
    requires c.route[p].hops.Routed? && c.route[p].hops.relayIn != c.route[p].holder
    ensures a in RelayWrites(c) && RelayAt(c, a) && a.pos == p
    ensures exists m :: m in c.plan.relayMoves && m.dst == c.route[p].holder
  {
    SliceFacts(c.plan, c.rows, hosts, c.route, p);
    MoveFacts(c.plan, c.rows, hosts, c.route, p);
    hide Implements, SlotsOk, InChunk, BufferOffset, SliceOk, RelayWrites, RelayAt, HasBoth;
    var m := RelayMoveOf(c.route[p]).value;
    RelayWriteAt(hosts, c, m, p);
    RelayWriteIn(c, m, p);
    a := RelayWrite(c, m, p);
  }

  /** Rank `q` receives element `o` of rank `s`'s chunk. */
  ghost predicate GatherAt<V>(c: Call<V>, a: Action, q: nat, s: nat, o: nat) {
    && q < |c.ranges| && s < |c.ranges| && o < c.plan.chunk
    && a == Action(6, {q, s}, From(Buf(s, o)), Out(q, s * c.plan.chunk + o), s * c.plan.chunk + o)
  }

  lemma AllGatherIs<V>(c: Call<V>, a: Action) returns (q: nat, s: nat, o: nat)
    requires a in AllGather(c)
    ensures GatherAt(c, a, q, s, o)
  {
    q, s, o :| 0 <= q < |c.ranges| && 0 <= s < |c.ranges| && 0 <= o < c.plan.chunk
      && a == Action(6, {q, s}, From(Buf(s, o)), Out(q, s * c.plan.chunk + o), s * c.plan.chunk + o);
  }

  // ----- What gather and reduce share

  /** A copy into a buffer, at the place of its position. */
  ghost predicate Placed<V>(c: Call<V>, cell: Cell, p: nat) {
    cell.Buf? && At(c.plan, c.route, cell.rank, p) && cell == Buf(cell.rank, Place(c.plan, c.route, cell.rank, p))
  }

  lemma PlacedOnce<V>(c: Call<V>, cell: Cell, p: nat, q: nat)
    requires Placed(c, cell, p) && Placed(c, cell, q)
    ensures p == q
  {
    PlacesDiffer(c.plan, c.route, cell.rank, p, q);
  }

  /** The ranks that a slice passes through, and their hosts. */
  ghost predicate HopsOk(hosts: seq<nat>, s: Slice) {
    && s.owner < |hosts| && s.holder < |hosts| && Transit(s) < |hosts| && hosts[Transit(s)] == hosts[s.owner]
    && match s.hops
       case Keep => s.owner == s.holder
       case Direct => hosts[s.owner] == hosts[s.holder]
       case Routed(out, inn) =>
         && out < |hosts| && inn < |hosts| && hosts[inn] == hosts[s.holder]
         && hosts[out] != hosts[inn] && hosts[out] != hosts[s.holder]
  }

  lemma HopsAre<V>(hosts: seq<nat>, c: Call<V>, p: nat)
    requires CallOk(hosts, c) && p in c.route
    ensures HopsOk(hosts, c.route[p])
  {
    SliceFacts(c.plan, c.rows, hosts, c.route, p);
  }

  lemma ChunkSplits(chunk: nat, s: nat, o: nat, s': nat, o': nat)
    requires o < chunk && o' < chunk && s * chunk + o == s' * chunk + o'
    ensures s == s' && o == o'
  {
    if s < s' {
      MulMonotone(s + 1, s', chunk);
    } else if s' < s {
      MulMonotone(s' + 1, s, chunk);
    }
  }

  /** Element `o` of a rank's chunk is where its position sits in the holder's buffer. */
  lemma ChunkPlace<V>(hosts: seq<nat>, c: Call<V>, r: nat, o: nat, p: nat)
    requires CallOk(hosts, c) && o < c.plan.chunk && p == r * c.plan.chunk + o && p in c.route
    ensures c.route[p].holder == r && At(c.plan, c.route, r, p)
    ensures Place(c.plan, c.route, r, p) == o
  {
    PassesAt(c.plan, c.rows, hosts, c.route, p, c.route[p].holder);
    hide Implements, SliceOk, SlotsOk;
    PlaceIs(c.plan, c.route, c.route[p].holder, p);
    ChunkSplits(c.plan.chunk, r, o, c.route[p].holder, p - c.route[p].holder * c.plan.chunk);
  }

  lemma NearOwn(hosts: seq<nat>, a: Action, r: nat, x: nat)
    requires r < |hosts| && x < |hosts| && x in a.parts && hosts[x] == hosts[r]
    ensures Near(hosts, a, r)
  {
  }

  // ----- Sends and receives pair up

  /** A send to a peer or a receive from it, of part of this rank's buffer. */
  datatype Op = Send(peer: nat, offset: nat, numel: nat) | Recv(peer: nat, offset: nat, numel: nat)

  ghost predicate AllPlaced(plan: Plan, moves: seq<Move>) {
    forall i :: 0 <= i < |moves| ==> HasBoth(plan, moves[i])
  }

  /** The operations of a rank for one move; the reduce runs it from `dst` to `src`. */
  function OpsOf(plan: Plan, m: Move, rank: nat, reverse: bool): seq<Op>
    requires HasBoth(plan, m)
  {
    var src, dst := if reverse then m.dst else m.src, if reverse then m.src else m.dst;
    (if src == rank then [Send(dst, BufferOffset(plan, rank, m.start), m.numel)] else [])
    + if dst == rank then [Recv(src, BufferOffset(plan, rank, m.start), m.numel)] else []
  }

  function HostOpsOf(plan: Plan, moves: seq<Move>, rank: nat, reverse: bool): seq<Op>
    requires AllPlaced(plan, moves)
  {
    if moves == [] then []
    else HostOpsOf(plan, moves[..|moves| - 1], rank, reverse) + OpsOf(plan, moves[|moves| - 1], rank, reverse)
  }

  /** This rank's sends and receives between hosts, buffer to buffer. */
  method HostOps(plan: Plan, rank: nat, reverse: bool) returns (ops: seq<Op>)
    requires AllPlaced(plan, plan.hostMoves)
    ensures ops == HostOpsOf(plan, plan.hostMoves, rank, reverse)
  {
    ops := [];
    for i := 0 to |plan.hostMoves|
      invariant ops == HostOpsOf(plan, plan.hostMoves[..i], rank, reverse)
    {
      var move := plan.hostMoves[i];
      assert HasBoth(plan, move);
      assert plan.hostMoves[..i + 1][..i] == plan.hostMoves[..i];
      var src, dst := if reverse then move.dst else move.src, if reverse then move.src else move.dst;
      ghost var before := ops;
      if src == rank {
        ops := ops + [Send(dst, BufferOffset(plan, rank, move.start), move.numel)];
      }
      if dst == rank {
        ops := ops + [Recv(src, BufferOffset(plan, rank, move.start), move.numel)];
      }
      assert ops == before + OpsOf(plan, move, rank, reverse);
    }
    assert plan.hostMoves[..|plan.hostMoves|] == plan.hostMoves;
  }

  /** The moves from rank `a` to rank `b`, in order. */
  function Between(moves: seq<Move>, a: nat, b: nat, reverse: bool): seq<Move> {
    if moves == [] then []
    else
      var m := moves[|moves| - 1];
      Between(moves[..|moves| - 1], a, b, reverse)
      + if (if reverse then m.dst == a && m.src == b else m.src == a && m.dst == b) then [m] else []
  }

  function SendsTo(ops: seq<Op>, peer: nat): seq<Op> {
    if ops == [] then []
    else
      var op := ops[|ops| - 1];
      SendsTo(ops[..|ops| - 1], peer) + if op.Send? && op.peer == peer then [op] else []
  }

  function RecvsFrom(ops: seq<Op>, peer: nat): seq<Op> {
    if ops == [] then []
    else
      var op := ops[|ops| - 1];
      RecvsFrom(ops[..|ops| - 1], peer) + if op.Recv? && op.peer == peer then [op] else []
  }

  lemma {:induction false} SplitOps(a: seq<Op>, b: seq<Op>, peer: nat)
    ensures SendsTo(a + b, peer) == SendsTo(a, peer) + SendsTo(b, peer)
    ensures RecvsFrom(a + b, peer) == RecvsFrom(a, peer) + RecvsFrom(b, peer)
  {
    if b == [] {
      assert a + b == a;
    } else {
      assert (a + b)[..|a + b| - 1] == a + b[..|b| - 1];
      SplitOps(a, b[..|b| - 1], peer);
    }
  }

  lemma OpsOfMove(plan: Plan, m: Move, a: nat, b: nat, reverse: bool)
    requires HasBoth(plan, m) && m.src != m.dst && a != b
    ensures var forth := if reverse then m.dst == a && m.src == b else m.src == a && m.dst == b;
            && SendsTo(OpsOf(plan, m, a, reverse), b)
               == (if forth then [Send(b, BufferOffset(plan, a, m.start), m.numel)] else [])
            && RecvsFrom(OpsOf(plan, m, b, reverse), a)
               == (if forth then [Recv(a, BufferOffset(plan, b, m.start), m.numel)] else [])
  {
    hide BufferOffset, HasSlot;
    OneOp(OpsOf(plan, m, a, reverse), b);
    OneOp(OpsOf(plan, m, b, reverse), a);
  }

  lemma OpsOfPair(plan: Plan, m: Move, a: nat, b: nat, reverse: bool)
    requires HasBoth(plan, m) && m.src != m.dst && a != b
    ensures var sends, recvs := SendsTo(OpsOf(plan, m, a, reverse), b), RecvsFrom(OpsOf(plan, m, b, reverse), a);
            if (if reverse then m.dst == a && m.src == b else m.src == a && m.dst == b)
            then |sends| == |recvs| == 1 && PairedOps(plan, a, b, m, sends[0], recvs[0])
            else sends == [] && recvs == []
  {
    hide BufferOffset, HasSlot, SendsTo, RecvsFrom, OpsOf;
    OpsOfMove(plan, m, a, b, reverse);
  }

  lemma OneOp(ops: seq<Op>, peer: nat)
    requires |ops| <= 1
    ensures SendsTo(ops, peer) == if ops != [] && ops[0].Send? && ops[0].peer == peer then ops else []
    ensures RecvsFrom(ops, peer) == if ops != [] && ops[0].Recv? && ops[0].peer == peer then ops else []
  {
    if ops != [] {
      assert ops[..0] == [];
      assert ops == [ops[0]];
    }
  }

  /** The sends that one rank posts to another and the receives that the other posts from
      it are those of the same moves in the same order, with equal lengths, though each
      rank builds its list alone. */
  lemma {:induction false} OpsPairUp(plan: Plan, moves: seq<Move>, a: nat, b: nat, reverse: bool)
    requires AllPlaced(plan, moves) && a != b && forall i :: 0 <= i < |moves| ==> moves[i].src != moves[i].dst
    ensures var sends, recvs := SendsTo(HostOpsOf(plan, moves, a, reverse), b),
        RecvsFrom(HostOpsOf(plan, moves, b, reverse), a);
            var pairs := Between(moves, a, b, reverse);
            && |sends| == |recvs| == |pairs|
            && forall i :: 0 <= i < |pairs| ==> PairedOps(plan, a, b, pairs[i], sends[i], recvs[i])
  {
    hide PairedOps, OpsOf, HasBoth, SendsTo, RecvsFrom;
    if moves != [] {
      var before, m := moves[..|moves| - 1], moves[|moves| - 1];
      OpsPairUp(plan, before, a, b, reverse);
      assert HasBoth(plan, m);
      OpsOfPair(plan, m, a, b, reverse);
      SplitOps(HostOpsOf(plan, before, a, reverse), OpsOf(plan, m, a, reverse), b);
      SplitOps(HostOpsOf(plan, before, b, reverse), OpsOf(plan, m, b, reverse), a);
    } else {
      NoOps(a, b);
    }
  }

  lemma NoOps(a: nat, b: nat)
    ensures SendsTo([], b) == [] && RecvsFrom([], a) == []
  {
  }

  /** Rank `a` sends what the move carries to rank `b`, which receives as much, each at its place. */
  ghost predicate PairedOps(plan: Plan, a: nat, b: nat, m: Move, send: Op, recv: Op) {
    && HasBoth(plan, m)
    && HasSlot(plan.chunk, plan.relayOffsets, a, m.start) && HasSlot(plan.chunk, plan.relayOffsets, b, m.start)
    && send == Send(b, BufferOffset(plan, a, m.start), m.numel)
    && recv == Recv(a, BufferOffset(plan, b, m.start), m.numel)
  }

  /** A plan's moves between hosts are placed, and never from a rank to itself. */
  lemma HostMovesPlaced(plan: Plan, rows: seq<nat>, hosts: seq<nat>, route: map<nat, Slice>)
    requires Implements(plan, rows, hosts, route)
    ensures AllPlaced(plan, plan.hostMoves)
    ensures forall i :: 0 <= i < |plan.hostMoves| ==> plan.hostMoves[i].src != plan.hostMoves[i].dst
  {
    forall i | 0 <= i < |plan.hostMoves|
      ensures HasBoth(plan, plan.hostMoves[i]) && plan.hostMoves[i].src != plan.hostMoves[i].dst
    {
      var m := plan.hostMoves[i];
      MoveIs(plan, rows, hosts, route, m);
      SliceFacts(plan, rows, hosts, route, m.start);
    }
  }

  // ----- From row lengths and hosts to a call

  /** What all ranks read off the plan of any row lengths and hosts makes a call of the
      gather or the reduce. */
  method ReadOffPlan<V>(rows: seq<nat>, hosts: seq<nat>, ghost values: map<nat, V>)
    returns (plan: Plan, ranges: seq<seq<Range>>, ghost route: map<nat, Slice>)
    requires |hosts| == |rows| > 0
    ensures CallOk(hosts, Call(plan, rows, route, ranges, values))
    ensures plan.chunk == AlignUp(CeilDiv(Total(rows), |rows|))
  {
    hide Implements, RangesFor, AlignUp, CeilDiv, Total, RowStart;
    var r;
    r, route := PlanOwnerRowsTransport(rows, hosts);
    plan := r.value;
    ranges := [];
    var rowStart := 0;
    RowsStart(rows);
    for rank := 0 to |rows|
      invariant rowStart == RowStart(rows, rank) && |ranges| == rank
      invariant forall q :: 0 <= q < rank ==> RangesFor(plan, route, q, ranges[q])
    {
      var own := RowRanges(plan, rank, rowStart, rows[rank], rows, hosts, route);
      ranges := ranges + [own];
      RowStarts(rows, rank);
      rowStart := rowStart + rows[rank];
    }
  }

  lemma RowsStart(rows: seq<nat>)
    ensures RowStart(rows, 0) == 0
  {
  }

  lemma RowStarts(rows: seq<nat>, rank: nat)
    requires rank < |rows|
    ensures RowStart(rows, rank + 1) == RowStart(rows, rank) + rows[rank]
  {
  }
}
