/** The reduce of owner rows: the reduce-scatter leaves each rank its reduced chunk, and the
    gather's moves run backwards, pulled instead of pushed. Any interleaving of any number
    of calls leaves each owner the reduced element of every position of its row. */
module OwnerRowsReduce {
  import opened OwnerRowsPlan
  import opened RankMachine
  import opened OwnerRowsTransport
  import opened Holes

  // Stages: reduce-scatter, barrier, relays' reads, moves between hosts, barrier of hosts
  // with relays, owners' reads, barrier.

  function Ranks(n: nat): (ranks: set<nat>)
    ensures forall r: nat :: r in ranks <==> r < n
  {
    if n == 0 then {} else Ranks(n - 1) + {n - 1}
  }

  /** The reduce-scatter puts each reduced element into its rank's chunk. */
  ghost function Scatter<V>(c: Call<V>): set<Action> {
    set s, o | 0 <= s < |c.ranges| && 0 <= o < c.plan.chunk
      :: Action(0, Ranks(|c.ranges|), Ext, Buf(s, o), s * c.plan.chunk + o)
  }

  /** The relays read the slices bound for other hosts from their holders. */
  ghost function RelayReads<V>(c: Call<V>): set<Action> {
    set m, p | m in c.plan.relayMoves && p in Positions(m.start, m.numel) && HasBoth(c.plan, m)
      :: Action(2, {m.src}, From(CellOf(c.plan, m.dst, m.start, p)), CellOf(c.plan, m.src, m.start, p), p)
  }

  /** The moves between hosts, in reverse. */
  ghost function HostReturns<V>(c: Call<V>): set<Action> {
    set m, p | m in c.plan.hostMoves && p in Positions(m.start, m.numel) && HasBoth(c.plan, m)
      :: Action(3, {m.src, m.dst}, From(CellOf(c.plan, m.dst, m.start, p)), CellOf(c.plan, m.src, m.start, p), p)
  }

  /** Each owner reads its row's ranges from the ranks that hold them. */
  ghost function OwnerReads<V>(c: Call<V>): set<Action> {
    set r, i, p | 0 <= r < |c.ranges| && 0 <= i < |c.ranges[r]|
      && p in Positions(c.ranges[r][i].start, c.ranges[r][i].numel)
      && HasSlot(c.plan.chunk, c.plan.relayOffsets, c.ranges[r][i].holder, c.ranges[r][i].start)
      :: Action(5, {r}, From(CellOf(c.plan, c.ranges[r][i].holder, c.ranges[r][i].start, p)), Out(r, p), p)
  }

  ghost function ReduceBarriers<V>(hosts: seq<nat>, c: Call<V>): set<(nat, nat)> {
    (set h | h in hosts :: (1, h)) + (set h | h in hosts :: (6, h))
    + (set m | m in c.plan.hostMoves && m.src < |hosts| :: (4, hosts[m.src]))
  }

  ghost function ReduceRound<V>(hosts: seq<nat>, c: Call<V>): Round<V> {
    Round(Scatter(c) + RelayReads(c) + HostReturns(c) + OwnerReads(c), ReduceBarriers(hosts, c), c.values)
  }

  ghost function ReduceProgram<V>(hosts: seq<nat>, calls: seq<Call<V>>): Program<V> {
    Program(hosts, 7, 6, seq(|calls|, k requires 0 <= k < |calls| => ReduceRound(hosts, calls[k])))
  }

  ghost predicate CallsOk<V>(hosts: seq<nat>, calls: seq<Call<V>>) {
    forall k :: 0 <= k < |calls| ==> ReduceOk(hosts, calls[k])
  }

  // ----- The copies of a call, by position

  ghost predicate ScatterAt<V>(c: Call<V>, a: Action, s: nat, o: nat) {
    && s < |c.ranges| && o < c.plan.chunk
    && a == Action(0, Ranks(|c.ranges|), Ext, Buf(s, o), s * c.plan.chunk + o)
  }

  ghost predicate IsScatter<V>(c: Call<V>, a: Action) {
    exists s, o :: ScatterAt(c, a, s, o)
  }

  ghost predicate RelayReadAt<V>(c: Call<V>, a: Action) {
    && Crosses(c, a.pos) && c.route[a.pos].hops.relayIn != c.route[a.pos].holder
    && At(c.plan, c.route, c.route[a.pos].holder, a.pos)
    && a == Action(2, {c.route[a.pos].hops.relayIn}, From(HolderCell(c, a.pos)), InCell(c, a.pos), a.pos)
  }

  ghost predicate ReturnAt<V>(c: Call<V>, a: Action) {
    && Crosses(c, a.pos)
    && var h := c.route[a.pos].hops;
       a == Action(3, {h.relayOut, h.relayIn}, From(InCell(c, a.pos)), OutCell(c, a.pos), a.pos)
  }

  ghost predicate ReadAt<V>(c: Call<V>, a: Action) {
    && a.pos in c.route
    && var s := c.route[a.pos];
       && At(c.plan, c.route, Transit(s), a.pos)
       && a == Action(5, {s.owner}, From(Buf(Transit(s), Place(c.plan, c.route, Transit(s), a.pos))),
           Out(s.owner, a.pos), a.pos)
  }

  lemma ScatterIs<V>(c: Call<V>, a: Action)
    requires a in Scatter(c)
    ensures IsScatter(c, a)
  {
    var s, o :| 0 <= s < |c.ranges| && 0 <= o < c.plan.chunk
      && a == Action(0, Ranks(|c.ranges|), Ext, Buf(s, o), s * c.plan.chunk + o);
    assert ScatterAt(c, a, s, o);
  }

  lemma RelayReadIs<V>(hosts: seq<nat>, c: Call<V>, a: Action)
    requires CallOk(hosts, c) && a in RelayReads(c)
    ensures RelayReadAt(c, a)
  {
    hide Implements, SlotsOk, InChunk, BufferOffset, SliceOk;
    var m, p :| m in c.plan.relayMoves && p in Positions(m.start, m.numel) && HasBoth(c.plan, m)
      && a == Action(2, {m.src}, From(CellOf(c.plan, m.dst, m.start, p)), CellOf(c.plan, m.src, m.start, p), p);
    OnMove(c.plan, c.rows, hosts, c.route, m, p);
  }

  lemma HostReturnIs<V>(hosts: seq<nat>, c: Call<V>, a: Action)
    requires CallOk(hosts, c) && a in HostReturns(c)
    ensures ReturnAt(c, a)
  {
    hide Implements, SlotsOk, InChunk, BufferOffset, SliceOk;
    var m, p :| m in c.plan.hostMoves && p in Positions(m.start, m.numel) && HasBoth(c.plan, m)
      && a == Action(3, {m.src, m.dst}, From(CellOf(c.plan, m.dst, m.start, p)), CellOf(c.plan, m.src, m.start, p), p);
    OnMove(c.plan, c.rows, hosts, c.route, m, p);
  }

  lemma OwnerReadIs<V>(hosts: seq<nat>, c: Call<V>, a: Action)
    requires CallOk(hosts, c) && a in OwnerReads(c)
    ensures ReadAt(c, a)
  {
    hide Implements, SlotsOk, InChunk, BufferOffset, SliceOk;
    var r, i, p :| 0 <= r < |c.ranges| && 0 <= i < |c.ranges[r]|
      && p in Positions(c.ranges[r][i].start, c.ranges[r][i].numel)
      && HasSlot(c.plan.chunk, c.plan.relayOffsets, c.ranges[r][i].holder, c.ranges[r][i].start)
      && a == Action(5, {r}, From(CellOf(c.plan, c.ranges[r][i].holder, c.ranges[r][i].start, p)), Out(r, p), p);
    var range := c.ranges[r][i];
    assert RangeOk(c.plan, c.route, r, range);
    assert Covers(range.start, range.numel, p);
  }

  lemma KindOf<V>(hosts: seq<nat>, c: Call<V>, a: Action)
    requires CallOk(hosts, c) && a in ReduceRound(hosts, c).actions
    ensures IsScatter(c, a) || RelayReadAt(c, a) || ReturnAt(c, a) || ReadAt(c, a)
  {
    hide Implements, IsScatter, RelayReadAt, ReturnAt, ReadAt, Scatter, RelayReads, HostReturns, OwnerReads;
    if a in Scatter(c) {
      ScatterIs(c, a);
    } else if a in RelayReads(c) {
      RelayReadIs(hosts, c, a);
    } else if a in HostReturns(c) {
      HostReturnIs(hosts, c, a);
    } else {
      OwnerReadIs(hosts, c, a);
    }
  }

  // ----- Every element a copy needs is copied

  lemma ScatterIn<V>(c: Call<V>, s: nat, o: nat) returns (a: Action)
    requires s < |c.ranges| && o < c.plan.chunk
    ensures a in Scatter(c) && a.dst == Buf(s, o) && a.pos == s * c.plan.chunk + o
  {
    a := Action(0, Ranks(|c.ranges|), Ext, Buf(s, o), s * c.plan.chunk + o);
  }

  /** The reduce-scatter fills the holder's place. */
  lemma HolderFilled<V>(hosts: seq<nat>, c: Call<V>, p: nat) returns (a: Action)
    requires CallOk(hosts, c) && p in c.route && At(c.plan, c.route, c.route[p].holder, p)
    ensures a in Scatter(c) && a.dst == HolderCell(c, p) && a.pos == p
  {
    SliceFacts(c.plan, c.rows, hosts, c.route, p);
    hide Implements, SliceOk, Scatter;
    var s := c.route[p].holder;
    PlaceIs(c.plan, c.route, s, p);
    a := ScatterIn(c, s, p - s * c.plan.chunk);
  }

  ghost function RelayRead<V>(c: Call<V>, m: Move, p: nat): Action
    requires m.start <= p && HasBoth(c.plan, m)
  {
    Action(2, {m.src}, From(CellOf(c.plan, m.dst, m.start, p)), CellOf(c.plan, m.src, m.start, p), p)
  }

  ghost function HostReturn<V>(c: Call<V>, m: Move, p: nat): Action
    requires m.start <= p && HasBoth(c.plan, m)
  {
    Action(3, {m.src, m.dst}, From(CellOf(c.plan, m.dst, m.start, p)), CellOf(c.plan, m.src, m.start, p), p)
  }

  lemma RelayReadIn<V>(hosts: seq<nat>, c: Call<V>, m: Move, p: nat)
    requires CallOk(hosts, c) && m in c.plan.relayMoves && Covers(m.start, m.numel, p)
    ensures HasBoth(c.plan, m) && RelayReadAt(c, RelayRead(c, m, p))
    ensures RelayRead(c, m, p) in RelayReads(c)
  {
    hide Implements, SlotsOk, InChunk, BufferOffset, SliceOk;
    OnMove(c.plan, c.rows, hosts, c.route, m, p);
    assert p in Positions(m.start, m.numel);
  }

  lemma HostReturnIn<V>(hosts: seq<nat>, c: Call<V>, m: Move, p: nat)
    requires CallOk(hosts, c) && m in c.plan.hostMoves && Covers(m.start, m.numel, p)
    ensures HasBoth(c.plan, m) && ReturnAt(c, HostReturn(c, m, p))
    ensures HostReturn(c, m, p) in HostReturns(c)
  {
    hide Implements, SlotsOk, InChunk, BufferOffset, SliceOk;
    OnMove(c.plan, c.rows, hosts, c.route, m, p);
    assert p in Positions(m.start, m.numel);
  }

  lemma RelayReadExists<V>(hosts: seq<nat>, c: Call<V>, p: nat) returns (a: Action)
    requires CallOk(hosts, c) && p in c.route
    requires c.route[p].hops.Routed? && c.route[p].hops.relayIn != c.route[p].holder
    ensures a in RelayReads(c) && RelayReadAt(c, a) && a.pos == p
  {
    SliceFacts(c.plan, c.rows, hosts, c.route, p);
    MoveFacts(c.plan, c.rows, hosts, c.route, p);
    hide Implements, SlotsOk, InChunk, BufferOffset, SliceOk, RelayReads, RelayReadAt, HasBoth;
    var m := RelayMoveOf(c.route[p]).value;
    RelayReadIn(hosts, c, m, p);
    a := RelayRead(c, m, p);
  }

  lemma HostReturnExists<V>(hosts: seq<nat>, c: Call<V>, p: nat) returns (a: Action)
    requires CallOk(hosts, c) && p in c.route && c.route[p].hops.Routed?
    ensures a in HostReturns(c) && ReturnAt(c, a) && a.pos == p
    ensures exists m :: m in c.plan.hostMoves && m.src == c.route[p].hops.relayOut
  {
    SliceFacts(c.plan, c.rows, hosts, c.route, p);
    MoveFacts(c.plan, c.rows, hosts, c.route, p);
    hide Implements, SlotsOk, InChunk, BufferOffset, SliceOk, HostReturns, ReturnAt, HasBoth;
    var m := HostMoveOf(c.route[p]).value;
    HostReturnIn(hosts, c, m, p);
    a := HostReturn(c, m, p);
  }

  ghost function OwnerRead<V>(c: Call<V>, r: nat, range: Range, p: nat): Action
    requires range.start <= p && HasSlot(c.plan.chunk, c.plan.relayOffsets, range.holder, range.start)
  {
    Action(5, {r}, From(CellOf(c.plan, range.holder, range.start, p)), Out(r, p), p)
  }

  lemma OwnerReadIn<V>(c: Call<V>, r: nat, i: nat, p: nat)
    requires r < |c.ranges| && i < |c.ranges[r]|
    requires Covers(c.ranges[r][i].start, c.ranges[r][i].numel, p)
    requires RangeOk(c.plan, c.route, r, c.ranges[r][i])
    ensures HasSlot(c.plan.chunk, c.plan.relayOffsets, c.ranges[r][i].holder, c.ranges[r][i].start)
    ensures OwnerRead(c, r, c.ranges[r][i], p) in OwnerReads(c)
  {
    hide SlotsOk, InChunk, BufferOffset;
    assert p in Positions(c.ranges[r][i].start, c.ranges[r][i].numel);
  }

  lemma OwnerReadExists<V>(hosts: seq<nat>, c: Call<V>, p: nat) returns (a: Action)
    requires CallOk(hosts, c) && p in c.route
    ensures a in OwnerReads(c) && a.dst == Out(c.route[p].owner, p) && a.pos == p
  {
    SliceFacts(c.plan, c.rows, hosts, c.route, p);
    hide Implements, SlotsOk, InChunk, BufferOffset, SliceOk, RangeOk, OwnerReads;
    var r := c.route[p].owner;
    assert InRange(c.ranges[r], p);
    var i :| 0 <= i < |c.ranges[r]| && Covers(c.ranges[r][i].start, c.ranges[r][i].numel, p);
    OwnerReadIn(c, r, i, p);
    a := OwnerRead(c, r, c.ranges[r][i], p);
  }

  // ----- What tells copies apart

  /** What the kinds of copies between buffers have in common, and what tells them apart. */
  lemma BufferCopyFacts<V>(hosts: seq<nat>, c: Call<V>, a: Action)
    requires CallOk(hosts, c) && (RelayReadAt(c, a) || ReturnAt(c, a))
    ensures a.pos in c.route && HopsOk(hosts, c.route[a.pos]) && c.route[a.pos].hops.Routed?
    ensures Placed(c, a.dst, a.pos) && a.dst.rank != c.route[a.pos].holder
    ensures a.src.From? && Placed(c, a.src.cell, a.pos)
    ensures RelayReadAt(c, a) ==>
        a.stage == 2 && a.dst.rank == c.route[a.pos].hops.relayIn && a.src.cell.rank == c.route[a.pos].holder
    ensures ReturnAt(c, a) ==>
        a.stage == 3 && a.dst.rank == c.route[a.pos].hops.relayOut && a.src.cell.rank == c.route[a.pos].hops.relayIn
  {
    HopsAre(hosts, c, a.pos);
    hide Implements, SlotsOk, InChunk, BufferOffset;
  }

  lemma ReadFacts<V>(hosts: seq<nat>, c: Call<V>, a: Action)
    requires CallOk(hosts, c) && ReadAt(c, a)
    ensures a.pos in c.route && HopsOk(hosts, c.route[a.pos]) && a.stage == 5 && a.dst.Out?
    ensures a.src.From? && Placed(c, a.src.cell, a.pos) && a.src.cell.rank == Transit(c.route[a.pos])
  {
    HopsAre(hosts, c, a.pos);
    hide Implements, SlotsOk, InChunk, BufferOffset;
  }

  /** A place inside a chunk is that of one position, in its holder's buffer. */
  lemma ScatterPlaced<V>(c: Call<V>, a: Action, p: nat)
    requires IsScatter(c, a) && Placed(c, a.dst, p)
    ensures a.pos == p && a.dst.rank == c.route[p].holder
  {
    var s, o :| ScatterAt(c, a, s, o);
    hide SlotsOk;
    PlaceIs(c.plan, c.route, s, p);
  }

  lemma ScattersDiffer<V>(c: Call<V>, a: Action, b: Action)
    requires IsScatter(c, a) && IsScatter(c, b) && a.dst == b.dst
    ensures a == b
  {
  }

  lemma CopiesDiffer<V>(hosts: seq<nat>, c: Call<V>, a: Action, b: Action)
    requires CallOk(hosts, c) && a in ReduceRound(hosts, c).actions && b in ReduceRound(hosts, c).actions
    requires a.dst == b.dst
    ensures a == b
  {
    KindOf(hosts, c, a);
    KindOf(hosts, c, b);
    hide Implements, ReduceRound, Placed, At;
    if IsScatter(c, a) && IsScatter(c, b) {
      ScattersDiffer(c, a, b);
    } else if RelayReadAt(c, a) || ReturnAt(c, a) {
      BufferCopyFacts(hosts, c, a);
      BufferAgainst(hosts, c, a, b);
    } else if RelayReadAt(c, b) || ReturnAt(c, b) {
      BufferCopyFacts(hosts, c, b);
      BufferAgainst(hosts, c, b, a);
    }
  }

  lemma BufferAgainst<V>(hosts: seq<nat>, c: Call<V>, a: Action, b: Action)
    requires CallOk(hosts, c) && (RelayReadAt(c, a) || ReturnAt(c, a)) && a.dst == b.dst
    requires IsScatter(c, b) || RelayReadAt(c, b) || ReturnAt(c, b) || ReadAt(c, b)
    ensures a == b
  {
    BufferCopyFacts(hosts, c, a);
    hide Implements, At;
    if IsScatter(c, b) {
      ScatterPlaced(c, b, a.pos);
    } else if RelayReadAt(c, b) || ReturnAt(c, b) {
      BufferCopyFacts(hosts, c, b);
      PlacedOnce(c, a.dst, a.pos, b.pos);
    } else {
      ReadFacts(hosts, c, b);
    }
  }

  // ----- Order of the copies

  ghost predicate BarriersAre<V>(hosts: seq<nat>, c: Call<V>, barriers: set<(nat, nat)>) {
    && (forall r :: 0 <= r < |hosts| ==> (1, hosts[r]) in barriers && (6, hosts[r]) in barriers)
    && (forall m :: m in c.plan.hostMoves && m.src < |hosts| ==> (4, hosts[m.src]) in barriers)
  }

  lemma ReduceBarriersAre<V>(hosts: seq<nat>, c: Call<V>)
    ensures BarriersAre(hosts, c, ReduceRound(hosts, c).barriers)
    ensures forall b :: b in ReduceRound(hosts, c).barriers ==> b.0 < 7
  {
  }

  lemma ScatterBefore<V>(hosts: seq<nat>, c: Call<V>, rd: Round<V>, a: Action, b: Action, x: nat)
    requires IsScatter(c, b) && x in a.parts && x < |c.ranges| && a.stage > 0
    ensures Before(hosts, rd, b, a)
  {
    assert x in b.parts;
  }

  lemma CopyReadsAfter<V>(hosts: seq<nat>, c: Call<V>, rd: Round<V>, a: Action, b: Action)
    requires CallOk(hosts, c) && (RelayReadAt(c, a) || ReturnAt(c, a)) && a.src == From(b.dst)
    requires IsScatter(c, b) || RelayReadAt(c, b) || ReturnAt(c, b)
    ensures b.pos == a.pos && Before(hosts, rd, b, a)
  {
    BufferCopyFacts(hosts, c, a);
    var s := c.route[a.pos];
    assert s.hops.relayIn in a.parts;
    hide Implements, At;
    if IsScatter(c, b) {
      ScatterPlaced(c, b, a.pos);
      ScatterBefore(hosts, c, rd, a, b, s.hops.relayIn);
    } else {
      BufferCopyFacts(hosts, c, b);
      PlacedOnce(c, b.dst, a.pos, b.pos);
      assert RelayReadAt(c, b);
      assert s.hops.relayIn in b.parts;
    }
  }

  lemma OwnerReadsAfter<V>(hosts: seq<nat>, c: Call<V>, rd: Round<V>, a: Action, b: Action)
    requires CallOk(hosts, c) && BarriersAre(hosts, c, rd.barriers) && ReadAt(c, a) && a.src == From(b.dst)
    requires IsScatter(c, b) || RelayReadAt(c, b) || ReturnAt(c, b)
    ensures b.pos == a.pos && Before(hosts, rd, b, a)
  {
    ReadFacts(hosts, c, a);
    var s := c.route[a.pos];
    assert s.owner in a.parts;
    hide Implements, At;
    if IsScatter(c, b) {
      ScatterPlaced(c, b, a.pos);
      ScatterBefore(hosts, c, rd, a, b, s.owner);
    } else {
      BufferCopyFacts(hosts, c, b);
      PlacedOnce(c, b.dst, a.pos, b.pos);
      assert ReturnAt(c, b);
      var w := HostReturnExists(hosts, c, b.pos);
      var m :| m in c.plan.hostMoves && m.src == s.hops.relayOut;
      assert (4, hosts[m.src]) in rd.barriers;
      assert m.src in b.parts;
    }
  }

  lemma ReadsAfterWrite<V>(hosts: seq<nat>, c: Call<V>, a: Action, b: Action)
    requires CallOk(hosts, c) && a in ReduceRound(hosts, c).actions && b in ReduceRound(hosts, c).actions
    requires a.src == From(b.dst)
    ensures b.pos == a.pos && Before(hosts, ReduceRound(hosts, c), b, a)
  {
    ReduceBarriersAre(hosts, c);
    KindOf(hosts, c, a);
    KindOf(hosts, c, b);
    hide Implements, ReduceRound, Before, At, Place;
    if ReadAt(c, a) {
      OwnerReadsAfter(hosts, c, ReduceRound(hosts, c), a, b);
    } else {
      CopyReadsAfter(hosts, c, ReduceRound(hosts, c), a, b);
    }
  }

  lemma SourceExists<V>(hosts: seq<nat>, c: Call<V>, a: Action) returns (b: Action)
    requires CallOk(hosts, c) && a in ReduceRound(hosts, c).actions && a.src.From?
    ensures b in ReduceRound(hosts, c).actions && b.dst == a.src.cell
  {
    KindOf(hosts, c, a);
    hide Implements, SlotsOk, InChunk, BufferOffset, Scatter, RelayReads, HostReturns, OwnerReads, Place, At;
    HopsAre(hosts, c, a.pos);
    var s := c.route[a.pos];
    if RelayReadAt(c, a) {
      b := HolderFilled(hosts, c, a.pos);
    } else if ReturnAt(c, a) {
      if s.hops.relayIn == s.holder {
        b := HolderFilled(hosts, c, a.pos);
      } else {
        b := RelayReadExists(hosts, c, a.pos);
      }
    } else if s.hops.Routed? {
      b := HostReturnExists(hosts, c, a.pos);
    } else {
      b := HolderFilled(hosts, c, a.pos);
    }
  }

  // ----- The round is well formed

  lemma GatheredIs<V>(hosts: seq<nat>, c: Call<V>)
    requires ReduceOk(hosts, c)
    ensures |c.ranges| == |hosts| && forall p: nat :: p in c.values <==> p < |c.ranges| * c.plan.chunk
  {
  }

  lemma ChunkWithin(chunk: nat, n: nat, s: nat, o: nat)
    requires s < n && o < chunk
    ensures s * chunk + o < n * chunk
  {
    MulMonotone(s + 1, n, chunk);
  }

  lemma ScatterWellFormed<V>(prog: Program<V>, c: Call<V>, a: Action)
    requires ReduceOk(prog.hosts, c) && IsScatter(c, a) && prog.stages == 7
    ensures WellFormedAction(prog, ReduceRound(prog.hosts, c), a) && a.stage < 6
  {
    GatheredIs(prog.hosts, c);
    hide ReduceOk, Near;
    var s: nat, o: nat :| ScatterAt(c, a, s, o);
    NearOwn(prog.hosts, a, s, s);
    ChunkWithin(c.plan.chunk, |c.ranges|, s, o);
    assert s in a.parts;
  }

  /** What another copy needs to be well formed. */
  lemma NearCopy<V>(prog: Program<V>, c: Call<V>, a: Action, x: nat)
    requires prog.stages == 7 && a.stage < 7 && x in a.parts && x < |prog.hosts|
    requires forall r :: r in a.parts ==> r < |prog.hosts|
    requires a.dst.Buf? ==> a.dst.rank < |prog.hosts| && a.dst.rank in a.parts
    requires a.src.From? && a.src.cell.Buf? && a.src.cell.rank < |prog.hosts|
    requires prog.hosts[x] == prog.hosts[a.src.cell.rank]
    ensures WellFormedAction(prog, ReduceRound(prog.hosts, c), a)
  {
    NearOwn(prog.hosts, a, a.src.cell.rank, x);
    if a.dst.Buf? {
      NearOwn(prog.hosts, a, a.dst.rank, a.dst.rank);
    }
  }

  lemma BufferCopyWellFormed<V>(prog: Program<V>, c: Call<V>, a: Action)
    requires CallOk(prog.hosts, c) && (RelayReadAt(c, a) || ReturnAt(c, a)) && prog.stages == 7
    ensures WellFormedAction(prog, ReduceRound(prog.hosts, c), a) && a.stage < 6
  {
    BufferCopyFacts(prog.hosts, c, a);
    hide Implements, At, Place, ReduceRound, WellFormedAction, Placed;
    NearCopy(prog, c, a, c.route[a.pos].hops.relayIn);
  }

  lemma ReadWellFormed<V>(prog: Program<V>, c: Call<V>, a: Action)
    requires CallOk(prog.hosts, c) && ReadAt(c, a) && prog.stages == 7
    ensures WellFormedAction(prog, ReduceRound(prog.hosts, c), a) && a.stage < 6
  {
    ReadFacts(prog.hosts, c, a);
    hide Implements, At, Place, ReduceRound, WellFormedAction, Placed;
    NearCopy(prog, c, a, c.route[a.pos].owner);
  }

  lemma CopyWellFormed<V>(prog: Program<V>, c: Call<V>, a: Action)
    requires ReduceOk(prog.hosts, c) && a in ReduceRound(prog.hosts, c).actions && prog.stages == 7
    ensures WellFormedAction(prog, ReduceRound(prog.hosts, c), a) && a.stage < 6
  {
    ReduceIsCall(prog.hosts, c);
    KindOf(prog.hosts, c, a);
    hide *;
    if IsScatter(c, a) {
      ScatterWellFormed(prog, c, a);
    } else if ReadAt(c, a) {
      ReadWellFormed(prog, c, a);
    } else {
      BufferCopyWellFormed(prog, c, a);
    }
  }

  lemma ReduceIsCall<V>(hosts: seq<nat>, c: Call<V>)
    requires ReduceOk(hosts, c)
    ensures CallOk(hosts, c)
  {
  }

  lemma RoundWellFormed<V>(prog: Program<V>, c: Call<V>)
    requires ReduceOk(prog.hosts, c) && prog.stages == 7 && prog.fence == 6
    ensures WellFormedRound(prog, ReduceRound(prog.hosts, c))
  {
    var rd := ReduceRound(prog.hosts, c);
    ReduceBarriersAre(prog.hosts, c);
    hide Implements, ReduceRound, WellFormedAction, Before;
    forall a | a in rd.actions ensures WellFormedAction(prog, rd, a) {
      CopyWellFormed(prog, c, a);
    }
    forall a, b | a in rd.actions && b in rd.actions && a.dst == b.dst ensures a == b {
      CopiesDiffer(prog.hosts, c, a, b);
    }
    forall a, b | a in rd.actions && b in rd.actions && a.src == From(b.dst)
      ensures b.pos == a.pos && Before(prog.hosts, rd, b, a)
    {
      ReadsAfterWrite(prog.hosts, c, a, b);
    }
    forall a | a in rd.actions && a.src.From? && a.pos in rd.values
      ensures exists b :: b in rd.actions && b.dst == a.src.cell
    {
      var b := SourceExists(prog.hosts, c, a);
    }
  }

  lemma ReduceWellSynchronised<V>(hosts: seq<nat>, calls: seq<Call<V>>)
    requires CallsOk(hosts, calls)
    ensures WellSynchronised(ReduceProgram(hosts, calls))
  {
    var prog := ReduceProgram(hosts, calls);
    forall k | 0 <= k < |prog.rounds| ensures WellFormedRound(prog, prog.rounds[k]) {
      RoundWellFormed(prog, calls[k]);
    }
    forall k, a | 0 <= k < |prog.rounds| && a in prog.rounds[k].actions ensures a.stage < prog.fence {
      CopyWellFormed(prog, calls[k], a);
    }
  }

  // ----- The theorems

  /** Every interleaving of any number of reduces ends with each owner holding, for every
      call, the reduced element at every position of its row. */
  lemma ReduceDelivers<V>(hosts: seq<nat>, calls: seq<Call<V>>, run: seq<State<V>>, i: nat, k: nat, p: nat)
    requires CallsOk(hosts, calls)
    requires Run(ReduceProgram(hosts, calls), run) && i < |run| && Finished(ReduceProgram(hosts, calls), run[i])
    requires k < |calls| && p in calls[k].route && p in calls[k].values
    ensures var own := Out(calls[k].route[p].owner, p);
            (k, own) in run[i].mem && run[i].mem[(k, own)] == calls[k].values[p]
  {
    var prog := ReduceProgram(hosts, calls);
    ReduceWellSynchronised(hosts, calls);
    var a := OwnerReadExists(hosts, calls[k], p);
    assert prog.rounds[k] == ReduceRound(hosts, calls[k]);
    assert a in prog.rounds[k].actions;
    ResultsRight(prog, run, i, k, a);
  }

  /** Nothing is overwritten while it is still being read, within a call or across calls. */
  lemma ReduceNeverRaces<V>(hosts: seq<nat>, calls: seq<Call<V>>, run: seq<State<V>>, i: nat,
                            k: nat, a: Action, k': nat, b: Action)
    requires CallsOk(hosts, calls) && Run(ReduceProgram(hosts, calls), run) && i < |run| && |run[i].pc| == |hosts|
    requires Enabled(ReduceProgram(hosts, calls), run[i], k, a) && Enabled(ReduceProgram(hosts, calls), run[i], k', b)
    requires (k, a) != (k', b)
    ensures !Conflict(k, a, k', b)
  {
    ReduceWellSynchronised(hosts, calls);
    NoRaces(ReduceProgram(hosts, calls), run, i, k, a, k', b);
  }

  /** The ranks of a host take the same barriers, so none waits for ever. */
  lemma ReduceNeverStuck<V>(hosts: seq<nat>, calls: seq<Call<V>>, run: seq<State<V>>, i: nat)
    requires CallsOk(hosts, calls) && Run(ReduceProgram(hosts, calls), run) && i < |run|
    requires !Finished(ReduceProgram(hosts, calls), run[i])
    ensures exists s' :: Step(ReduceProgram(hosts, calls), run[i], s')
  {
    ReduceWellSynchronised(hosts, calls);
    var s' := NeverStuck(ReduceProgram(hosts, calls), run, i);
  }
}
