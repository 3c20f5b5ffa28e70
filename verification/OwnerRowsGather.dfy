/** The gather of owner rows: for any row lengths and any hosts, any number of calls, and
    any interleaving of the ranks' copies that the barriers allow, every rank's gathered
    buffer ends up with the owner's element at every position. */
module OwnerRowsGather {
  import opened OwnerRowsPlan
  import opened RankMachine
  import opened OwnerRowsTransport
  ghost function GatherProgram<V>(hosts: seq<nat>, calls: seq<Call<V>>): Program<V> {
    Program(hosts, 7, 0, seq(|calls|, k requires 0 <= k < |calls| => GatherRound(hosts, calls[k])))
  }

  ghost predicate CallsOk<V>(hosts: seq<nat>, calls: seq<Call<V>>) {
    forall k :: 0 <= k < |calls| ==> GatherOk(hosts, calls[k])
  }

  // ----- What each copy is

  ghost predicate IsGatherAt<V>(c: Call<V>, a: Action) {
    exists q, s, o :: GatherAt(c, a, q, s, o)
  }

  lemma KindOf<V>(hosts: seq<nat>, c: Call<V>, a: Action)
    requires GatherOk(hosts, c) && a in GatherRound(hosts, c).actions
    ensures WriteAt(c, a) || HostAt(c, a) || RelayAt(c, a) || IsGatherAt(c, a)
  {
    hide Implements, WriteAt, HostAt, RelayAt, OwnerWrites, HostCopies, RelayWrites, AllGather;
    if a in OwnerWrites(c) {
      OwnerWriteIs(hosts, c, a);
    } else if a in HostCopies(c) {
      HostCopyIs(hosts, c, a);
    } else if a in RelayWrites(c) {
      RelayWriteIs(hosts, c, a);
    } else {
      var q, s, o := AllGatherIs(c, a);
    }
  }

  /** What the kinds of buffer copies have in common, and what tells them apart. */
  lemma BufferCopyFacts<V>(hosts: seq<nat>, c: Call<V>, a: Action)
    requires CallOk(hosts, c) && (WriteAt(c, a) || HostAt(c, a) || RelayAt(c, a))
    ensures a.pos in c.route && HopsOk(hosts, c.route[a.pos]) && Placed(c, a.dst, a.pos)
    ensures WriteAt(c, a) ==> a.stage == 1 && a.dst.rank == Transit(c.route[a.pos]) && a.src.Ext?
    ensures HostAt(c, a) ==>
        a.stage == 3 && a.dst.rank == c.route[a.pos].hops.relayIn && a.src.From? && Placed(c, a.src.cell, a.pos)
    ensures RelayAt(c, a) ==>
        a.stage == 4 && a.dst.rank == c.route[a.pos].holder && a.src.From? && Placed(c, a.src.cell, a.pos)
  {
    HopsAre(hosts, c, a.pos);
    hide Implements, SlotsOk, InChunk, BufferOffset;
  }

  lemma BufferCopiesDiffer<V>(hosts: seq<nat>, c: Call<V>, a: Action, b: Action)
    requires CallOk(hosts, c)
    requires WriteAt(c, a) || HostAt(c, a) || RelayAt(c, a)
    requires WriteAt(c, b) || HostAt(c, b) || RelayAt(c, b)
    requires a.dst == b.dst
    ensures a == b
  {
    hide Implements, At, Placed;
    BufferCopyFacts(hosts, c, a);
    BufferCopyFacts(hosts, c, b);
    PlacedOnce(c, a.dst, a.pos, b.pos);
  }

  lemma GathersDiffer<V>(c: Call<V>, a: Action, b: Action)
    requires IsGatherAt(c, a) && IsGatherAt(c, b) && a.dst == b.dst
    ensures a == b
  {
    var q, s, o :| GatherAt(c, a, q, s, o);
    var q', s', o' :| GatherAt(c, b, q', s', o');
    ChunkSplits(c.plan.chunk, s, o, s', o');
  }

  lemma CopiesDiffer<V>(hosts: seq<nat>, c: Call<V>, a: Action, b: Action)
    requires GatherOk(hosts, c) && a in GatherRound(hosts, c).actions && b in GatherRound(hosts, c).actions
    requires a.dst == b.dst
    ensures a == b
  {
    hide Implements, GatherRound, WriteAt, HostAt, RelayAt, Placed;
    KindOf(hosts, c, a);
    KindOf(hosts, c, b);
    if IsGatherAt(c, a) && IsGatherAt(c, b) {
      GathersDiffer(c, a, b);
    } else if IsGatherAt(c, a) {
      BufferCopyFacts(hosts, c, b);
      BufferCell(c, b);
    } else if IsGatherAt(c, b) {
      BufferCopyFacts(hosts, c, a);
      BufferCell(c, a);
    } else {
      BufferCopiesDiffer(hosts, c, a, b);
    }
  }

  lemma BufferCell<V>(c: Call<V>, a: Action)
    requires Placed(c, a.dst, a.pos)
    ensures a.dst.Buf?
  {
  }

  // ----- Order of the copies

  ghost predicate BarriersAre<V>(hosts: seq<nat>, c: Call<V>, barriers: set<(nat, nat)>) {
    && (forall r :: 0 <= r < |hosts| ==> (0, hosts[r]) in barriers && (2, hosts[r]) in barriers)
    && (forall m :: m in c.plan.relayMoves && m.dst < |hosts| ==> (5, hosts[m.dst]) in barriers)
  }

  lemma GatherBarriersAre<V>(hosts: seq<nat>, c: Call<V>)
    ensures BarriersAre(hosts, c, GatherRound(hosts, c).barriers)
    ensures forall b :: b in GatherRound(hosts, c).barriers ==> b.0 < 7
  {
  }

  /** The copy that a move between hosts or a relay's write reads from. */
  lemma SourceBefore<V>(hosts: seq<nat>, c: Call<V>, rd: Round<V>, a: Action, b: Action)
    requires CallOk(hosts, c) && BarriersAre(hosts, c, rd.barriers)
    requires HostAt(c, a) || RelayAt(c, a)
    requires WriteAt(c, b) || HostAt(c, b) || RelayAt(c, b)
    requires a.src == From(b.dst)
    ensures b.pos == a.pos && Before(hosts, rd, b, a)
  {
    hide CallOk, At, Placed;
    BufferCopyFacts(hosts, c, a);
    BufferCopyFacts(hosts, c, b);
    PlacedOnce(c, b.dst, a.pos, b.pos);
    var s := c.route[a.pos];
    if HostAt(c, a) {
      assert WriteAt(c, b);
      assert s.owner in b.parts && s.hops.relayOut in a.parts;
      assert (2, hosts[s.owner]) in rd.barriers;
    } else {
      assert HostAt(c, b);
      assert s.hops.relayIn in b.parts && s.hops.relayIn in a.parts;
    }
  }

  lemma InsideChunk<V>(hosts: seq<nat>, c: Call<V>, a: Action, b: Action, q: nat, s: nat, o: nat)
    requires CallOk(hosts, c) && GatherAt(c, a, q, s, o) && (WriteAt(c, b) || HostAt(c, b) || RelayAt(c, b))
    requires a.src == From(b.dst)
    ensures b.pos in c.route && HopsOk(hosts, c.route[b.pos])
    ensures b.pos == a.pos && s == c.route[b.pos].holder == b.dst.rank
  {
    BufferCopyFacts(hosts, c, b);
    hide Implements;
    PlaceIs(c.plan, c.route, s, b.pos);
  }

  /** The copy that filled the place that the all-gather reads. */
  lemma ChunkBefore<V>(hosts: seq<nat>, c: Call<V>, rd: Round<V>, a: Action, b: Action)
    requires CallOk(hosts, c) && BarriersAre(hosts, c, rd.barriers)
    requires IsGatherAt(c, a) && b in GatherRound(hosts, c).actions && (WriteAt(c, b) || HostAt(c, b) || RelayAt(c, b))
    requires a.src == From(b.dst)
    ensures b.pos == a.pos && Before(hosts, rd, b, a)
  {
    hide CallOk, At, Placed, GatherRound, WriteAt, HostAt, RelayAt, Before;
    var q, s, o :| GatherAt(c, a, q, s, o);
    InsideChunk(hosts, c, a, b, q, s, o);
    if WriteAt(c, b) {
      WriteBefore(hosts, c, rd, a, b, s);
    } else if HostAt(c, b) {
      HostBefore(hosts, c, rd, a, b, s);
    } else {
      RelayBefore(hosts, c, rd, a, b, s);
    }
  }

  lemma WriteBefore<V>(hosts: seq<nat>, c: Call<V>, rd: Round<V>, a: Action, b: Action, s: nat)
    requires CallOk(hosts, c) && BarriersAre(hosts, c, rd.barriers) && WriteAt(c, b)
    requires a.stage == 6 && s in a.parts && s == b.dst.rank && s == c.route[b.pos].holder
    requires HopsOk(hosts, c.route[b.pos])
    ensures Before(hosts, rd, b, a)
  {
    hide CallOk, At;
    var owner := c.route[b.pos].owner;
    assert owner in b.parts && (2, hosts[owner]) in rd.barriers;
  }

  lemma HostBefore<V>(hosts: seq<nat>, c: Call<V>, rd: Round<V>, a: Action, b: Action, s: nat)
    requires HostAt(c, b) && a.stage == 6 && s in a.parts && s == b.dst.rank
    ensures Before(hosts, rd, b, a)
  {
    hide At;
    assert s in b.parts;
  }

  lemma RelayBefore<V>(hosts: seq<nat>, c: Call<V>, rd: Round<V>, a: Action, b: Action, s: nat)
    requires CallOk(hosts, c) && BarriersAre(hosts, c, rd.barriers) && RelayAt(c, b)
    requires a.stage == 6 && s in a.parts && s == c.route[b.pos].holder && HopsOk(hosts, c.route[b.pos])
    ensures Before(hosts, rd, b, a)
  {
    hide CallOk, At;
    var w := RelayWriteExists(hosts, c, b.pos);
    var m :| m in c.plan.relayMoves && m.dst == s;
    assert (5, hosts[m.dst]) in rd.barriers && c.route[b.pos].hops.relayIn in b.parts;
  }

  lemma ReadsAfterWrite<V>(hosts: seq<nat>, c: Call<V>, a: Action, b: Action)
    requires GatherOk(hosts, c) && a in GatherRound(hosts, c).actions && b in GatherRound(hosts, c).actions
    requires a.src == From(b.dst)
    ensures b.pos == a.pos && Before(hosts, GatherRound(hosts, c), b, a)
  {
    hide Implements, WriteAt, HostAt, RelayAt, Placed, GatherRound;
    GatherBarriersAre(hosts, c);
    KindOf(hosts, c, a);
    KindOf(hosts, c, b);
    if IsGatherAt(c, b) {
      GatherReadsBuffer(hosts, c, a);
    } else if IsGatherAt(c, a) {
      ChunkBefore(hosts, c, GatherRound(hosts, c), a, b);
    } else {
      BufferCopyFacts(hosts, c, a);
      SourceBefore(hosts, c, GatherRound(hosts, c), a, b);
    }
  }

  /** No copy reads a result. */
  lemma GatherReadsBuffer<V>(hosts: seq<nat>, c: Call<V>, a: Action)
    requires CallOk(hosts, c) && (WriteAt(c, a) || HostAt(c, a) || RelayAt(c, a) || IsGatherAt(c, a))
    ensures a.src.From? ==> a.src.cell.Buf?
  {
    hide Implements;
  }

  /** Some copy puts each element into its holder's buffer. */
  lemma HolderFilled<V>(hosts: seq<nat>, c: Call<V>, p: nat) returns (b: Action)
    requires GatherOk(hosts, c) && p in c.values && p in c.route && At(c.plan, c.route, c.route[p].holder, p)
    ensures b in GatherRound(hosts, c).actions
    ensures b.dst == Buf(c.route[p].holder, Place(c.plan, c.route, c.route[p].holder, p))
  {
    HopsAre(hosts, c, p);
    hide Implements, SlotsOk, InChunk, BufferOffset, OwnerWrites, HostCopies, RelayWrites, AllGather, Place, At;
    var s := c.route[p];
    if !s.hops.Routed? {
      b := OwnerWriteExists(hosts, c, p);
    } else if s.hops.relayIn == s.holder {
      b := HostCopyExists(hosts, c, p);
    } else {
      b := RelayWriteExists(hosts, c, p);
    }
  }

  /** Whatever a copy reads, some copy of the call writes, if its position carries an
      element. */
  lemma SourceExists<V>(hosts: seq<nat>, c: Call<V>, a: Action) returns (b: Action)
    requires GatherOk(hosts, c) && a in GatherRound(hosts, c).actions && a.src.From? && a.pos in c.values
    ensures b in GatherRound(hosts, c).actions && b.dst == a.src.cell
  {
    hide Implements, SlotsOk, InChunk, BufferOffset, OwnerWrites, HostCopies, RelayWrites, AllGather, Place, At;
    KindOf(hosts, c, a);
    assert a.pos in c.route;
    if HostAt(c, a) {
      b := OwnerWriteExists(hosts, c, a.pos);
    } else if RelayAt(c, a) {
      b := HostCopyExists(hosts, c, a.pos);
    } else {
      var q, r, o :| GatherAt(c, a, q, r, o);
      ChunkPlace(hosts, c, r, o, a.pos);
      b := HolderFilled(hosts, c, a.pos);
    }
  }

  lemma GatherWellFormed<V>(prog: Program<V>, c: Call<V>, a: Action)
    requires CallOk(prog.hosts, c) && IsGatherAt(c, a) && prog.stages == 7
    ensures WellFormedAction(prog, GatherRound(prog.hosts, c), a) && a.stage > 0
  {
    hide Implements, Near;
    var q, s, o :| GatherAt(c, a, q, s, o);
    NearOwn(prog.hosts, a, s, s);
  }

  /** What a copy into a buffer needs to be well formed. */
  lemma NearCopy<V>(prog: Program<V>, c: Call<V>, a: Action, x: nat)
    requires prog.stages == 7 && 0 < a.stage < 7 && x in a.parts && a.dst.Buf?
    requires forall r :: r in a.parts ==> r < |prog.hosts|
    requires a.dst.rank < |prog.hosts| && prog.hosts[x] == prog.hosts[a.dst.rank]
    requires a.src.Ext? ==> a.pos in c.values
    requires a.src.From? ==> a.src.cell.Buf? && a.src.cell.rank in a.parts
    ensures WellFormedAction(prog, GatherRound(prog.hosts, c), a)
  {
    NearOwn(prog.hosts, a, a.dst.rank, x);
    if a.src.From? {
      NearOwn(prog.hosts, a, a.src.cell.rank, a.src.cell.rank);
    }
  }

  lemma WriteWellFormed<V>(prog: Program<V>, c: Call<V>, a: Action)
    requires GatherOk(prog.hosts, c) && WriteAt(c, a) && prog.stages == 7
    ensures WellFormedAction(prog, GatherRound(prog.hosts, c), a) && a.stage > 0
  {
    hide Implements, At, SlotsOk, Place, GatherRound, WellFormedAction, RangesFor;
    HopsAre(prog.hosts, c, a.pos);
    NearCopy(prog, c, a, c.route[a.pos].owner);
  }

  lemma HostWellFormed<V>(prog: Program<V>, c: Call<V>, a: Action)
    requires GatherOk(prog.hosts, c) && HostAt(c, a) && prog.stages == 7
    ensures WellFormedAction(prog, GatherRound(prog.hosts, c), a) && a.stage > 0
  {
    hide Implements, At, SlotsOk, Place, GatherRound, WellFormedAction, RangesFor;
    HopsAre(prog.hosts, c, a.pos);
    NearCopy(prog, c, a, c.route[a.pos].hops.relayIn);
  }

  lemma RelayWellFormed<V>(prog: Program<V>, c: Call<V>, a: Action)
    requires GatherOk(prog.hosts, c) && RelayAt(c, a) && prog.stages == 7
    ensures WellFormedAction(prog, GatherRound(prog.hosts, c), a) && a.stage > 0
  {
    hide Implements, At, SlotsOk, Place, GatherRound, WellFormedAction, RangesFor;
    HopsAre(prog.hosts, c, a.pos);
    NearCopy(prog, c, a, c.route[a.pos].hops.relayIn);
  }

  lemma CopyWellFormed<V>(prog: Program<V>, c: Call<V>, a: Action)
    requires GatherOk(prog.hosts, c) && a in GatherRound(prog.hosts, c).actions && prog.stages == 7
    ensures WellFormedAction(prog, GatherRound(prog.hosts, c), a) && a.stage > 0
  {
    KindOf(prog.hosts, c, a);
    hide *;
    if IsGatherAt(c, a) {
      GatherWellFormed(prog, c, a);
    } else if WriteAt(c, a) {
      WriteWellFormed(prog, c, a);
    } else if HostAt(c, a) {
      HostWellFormed(prog, c, a);
    } else {
      RelayWellFormed(prog, c, a);
    }
  }

  lemma RoundWellFormed<V>(prog: Program<V>, c: Call<V>)
    requires GatherOk(prog.hosts, c) && prog.stages == 7 && prog.fence == 0
    ensures WellFormedRound(prog, GatherRound(prog.hosts, c))
  {
    var rd := GatherRound(prog.hosts, c);
    GatherBarriersAre(prog.hosts, c);
    hide Implements, GatherRound, WellFormedAction, Before;
    forall a | a in rd.actions ensures WellFormedAction(prog, rd, a) {
      CopyWellFormed(prog, c, a);
    }
    forall a, b | a in rd.actions && b in rd.actions && a.dst == b.dst ensures a == b {
      CopiesDiffer(prog.hosts, c, a, b);
    }
    forall a, b | a in rd.actions && b in rd.actions && a.src == From(b.dst)
      ensures b.pos == a.pos && Before(prog.hosts, rd, b, a)
    {
      ReadsAfterWrite(prog.hosts, c, a, b);
    }
    forall a | a in rd.actions && a.src.From? && a.pos in rd.values
      ensures exists b :: b in rd.actions && b.dst == a.src.cell
    {
      assert rd.values == c.values by { RoundValues(prog.hosts, c); }
      var b := SourceExists(prog.hosts, c, a);
    }
  }

  lemma RoundValues<V>(hosts: seq<nat>, c: Call<V>)
    ensures GatherRound(hosts, c).values == c.values
  {
  }

  lemma GatherWellSynchronised<V>(hosts: seq<nat>, calls: seq<Call<V>>)
    requires CallsOk(hosts, calls)
    ensures WellSynchronised(GatherProgram(hosts, calls))
  {
    var prog := GatherProgram(hosts, calls);
    forall k | 0 <= k < |prog.rounds| ensures WellFormedRound(prog, prog.rounds[k]) {
      RoundWellFormed(prog, calls[k]);
    }
    forall k, a | 0 <= k < |prog.rounds| && a in prog.rounds[k].actions ensures prog.fence < a.stage {
      CopyWellFormed(prog, calls[k], a);
    }
  }

  // ----- The theorems

  lemma ResultCopyExists<V>(hosts: seq<nat>, c: Call<V>, q: nat, p: nat) returns (a: Action)
    requires CallOk(hosts, c) && p in c.route && q < |hosts|
    ensures a in AllGather(c) && a.dst == Out(q, p) && a.pos == p
  {
    hide Implements, AllGather;
    SliceFacts(c.plan, c.rows, hosts, c.route, p);
    var s := c.route[p].holder;
    WithSlice(c.plan.chunk, s, c.route[p], p);
    var o := p - s * c.plan.chunk;
    a := Action(6, {q, s}, From(Buf(s, o)), Out(q, s * c.plan.chunk + o), s * c.plan.chunk + o);
    AllGatherIn(c, q, s, o);
  }

  lemma AllGatherIn<V>(c: Call<V>, q: nat, s: nat, o: nat)
    requires q < |c.ranges| && s < |c.ranges| && o < c.plan.chunk
    ensures Action(6, {q, s}, From(Buf(s, o)), Out(q, s * c.plan.chunk + o), s * c.plan.chunk + o) in AllGather(c)
  {
  }

  /** Every interleaving of any number of gathers ends with every rank holding, for every
      call, the owner's element at every position that a parameter covers. */
  lemma GatherDelivers<V>(hosts: seq<nat>, calls: seq<Call<V>>, run: seq<State<V>>, i: nat, k: nat, q: nat, p: nat)
    requires CallsOk(hosts, calls)
    requires Run(GatherProgram(hosts, calls), run) && i < |run| && Finished(GatherProgram(hosts, calls), run[i])
    requires k < |calls| && q < |hosts| && p in calls[k].values
    ensures (k, Out(q, p)) in run[i].mem && run[i].mem[(k, Out(q, p))] == calls[k].values[p]
  {
    var prog := GatherProgram(hosts, calls);
    GatherWellSynchronised(hosts, calls);
    var a := ResultCopyExists(hosts, calls[k], q, p);
    assert prog.rounds[k] == GatherRound(hosts, calls[k]);
    assert a in prog.rounds[k].actions;
    ResultsRight(prog, run, i, k, a);
  }

  /** No two copies that may happen next, of any ranks and calls, touch one cell in
      conflict: no slot is written twice at once or overwritten while it is still read. */
  lemma GatherNeverRaces<V>(hosts: seq<nat>, calls: seq<Call<V>>, run: seq<State<V>>, i: nat,
                            k: nat, a: Action, k': nat, b: Action)
    requires CallsOk(hosts, calls) && Run(GatherProgram(hosts, calls), run) && i < |run| && |run[i].pc| == |hosts|
    requires Enabled(GatherProgram(hosts, calls), run[i], k, a) && Enabled(GatherProgram(hosts, calls), run[i], k', b)
    requires (k, a) != (k', b)
    ensures !Conflict(k, a, k', b)
  {
    GatherWellSynchronised(hosts, calls);
    NoRaces(GatherProgram(hosts, calls), run, i, k, a, k', b);
  }

  /** The ranks of a host never wait for each other in vain. */
  lemma GatherNeverStuck<V>(hosts: seq<nat>, calls: seq<Call<V>>, run: seq<State<V>>, i: nat)
    requires CallsOk(hosts, calls) && Run(GatherProgram(hosts, calls), run) && i < |run|
    requires !Finished(GatherProgram(hosts, calls), run[i])
    ensures exists s' :: Step(GatherProgram(hosts, calls), run[i], s')
  {
    GatherWellSynchronised(hosts, calls);
    var s' := NeverStuck(GatherProgram(hosts, calls), run, i);
  }
}
