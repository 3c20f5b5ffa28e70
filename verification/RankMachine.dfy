/** Ranks that run the same staged program over shared buffers.

    A program is a sequence of rounds, one per collective call. Inside a round every
    rank goes through the same stages in order. At a stage a rank takes part in copies of
    single elements; a copy happens only while every rank taking part in it is at that
    stage, and a rank leaves a stage only when all its copies are done. A barrier is a
    stage that the ranks of one host leave only after all of them reached it. Nothing
    else orders the ranks: copies of one stage, of different hosts and of different
    rounds interleave freely.

    `WellSynchronised` lists what a program must provide. For such programs every
    reachable state of every interleaving holds the right elements, no two copies that
    could happen next touch one cell in conflict, and no rank is ever stuck. */
module RankMachine {

  /** A place for one element: in a rank's shared buffer, or in a rank's result of the
      current round. */
  datatype Cell = Buf(rank: nat, offset: nat) | Out(rank: nat, pos: nat)

  /** Where a copy reads: the rank's own input at the copy's position, or a cell. */
  datatype Source = Ext | From(cell: Cell)

  /** One element copy, for position `pos` of the logical buffer. */
  datatype Action = Action(stage: nat, parts: set<nat>, src: Source, dst: Cell, pos: nat)

  /** `barriers` holds the (stage, host) pairs that synchronise; `values` are the input
      elements by logical position. */
  datatype Round<V> = Round(actions: set<Action>, barriers: set<(nat, nat)>, values: map<nat, V>)

  /** `fence` is a stage that is a barrier of every host in every round. */
  datatype Program<V> = Program(hosts: seq<nat>, stages: nat, fence: nat, rounds: seq<Round<V>>)

  /** A rank is at a stage of a round. */
  datatype Pc = Pc(round: nat, stage: nat)

  datatype State<V> = State(pc: seq<Pc>, done: set<(nat, Action)>, mem: map<(nat, Cell), V>)

  predicate Lt(a: Pc, b: Pc) {
    a.round < b.round || (a.round == b.round && a.stage < b.stage)
  }

  /** Buffers persist over rounds, results belong to one round. */
  function Key(k: nat, c: Cell): (nat, Cell) {
    if c.Out? then (k, c) else (0, c)
  }

  // ----- What a program must provide

  /** Whether `b` happens before `a` in every run: they share a rank, or a barrier of one
      of their hosts lies between them. */
  ghost predicate Before<V>(hosts: seq<nat>, rd: Round<V>, b: Action, a: Action) {
    && b.stage < a.stage
    && ((exists r :: r in b.parts && r in a.parts)
        || (exists j, x, y ::
              && b.stage < j < a.stage && x in b.parts && y in a.parts
              && x < |hosts| && y < |hosts|
              && hosts[x] == hosts[y] && (j, hosts[x]) in rd.barriers))
  }

  /** A rank on the host of `owner` takes part in `a`. */
  ghost predicate Near(hosts: seq<nat>, a: Action, owner: nat) {
    owner < |hosts| && exists x :: x in a.parts && x < |hosts| && hosts[x] == hosts[owner]
  }

  ghost predicate WellFormedAction<V>(prog: Program<V>, rd: Round<V>, a: Action) {
    && a.stage < prog.stages
    && a.parts != {}
    && (forall r :: r in a.parts ==> r < |prog.hosts|)
    && (a.dst.Buf? ==> Near(prog.hosts, a, a.dst.rank))
    && (a.src.Ext? ==> a.pos in rd.values)
    && (a.src.From? ==> a.src.cell.Buf? && Near(prog.hosts, a, a.src.cell.rank))
  }

  ghost predicate WellFormedRound<V>(prog: Program<V>, rd: Round<V>) {
    && (forall r :: 0 <= r < |prog.hosts| ==> (prog.fence, prog.hosts[r]) in rd.barriers)
    && (forall b :: b in rd.barriers ==> b.0 < prog.stages)
    && (forall a :: a in rd.actions ==> WellFormedAction(prog, rd, a))
    // No two copies of a round write one cell.
    && (forall a, b :: a in rd.actions && b in rd.actions && a.dst == b.dst ==> a == b)
    // What a copy reads was written before it, for its position.
    && (forall a, b :: a in rd.actions && b in rd.actions && a.src == From(b.dst) ==>
          b.pos == a.pos && Before(prog.hosts, rd, b, a))
    && (forall a :: a in rd.actions && a.src.From? && a.pos in rd.values ==>
          exists b :: b in rd.actions && b.dst == a.src.cell)
  }

  ghost predicate WellSynchronised<V>(prog: Program<V>) {
    && 0 < prog.stages
    && prog.fence < prog.stages
    && (forall k :: 0 <= k < |prog.rounds| ==> WellFormedRound(prog, prog.rounds[k]))
    // All copies lie on one side of the fence.
    && ((forall k, a :: 0 <= k < |prog.rounds| && a in prog.rounds[k].actions ==> a.stage < prog.fence)
        || (forall k, a :: 0 <= k < |prog.rounds| && a in prog.rounds[k].actions ==> prog.fence < a.stage))
  }

  // ----- Steps

  ghost predicate Initial<V>(prog: Program<V>, s: State<V>) {
    && |s.pc| == |prog.hosts|
    && (forall r :: 0 <= r < |s.pc| ==> s.pc[r] == Pc(0, 0))
    && s.done == {}
  }

  /** Copy `a` of round `k` may happen now. */
  ghost predicate Enabled<V>(prog: Program<V>, s: State<V>, k: nat, a: Action)
    requires |s.pc| == |prog.hosts|
  {
    && k < |prog.rounds| && a in prog.rounds[k].actions && (k, a) !in s.done
    && forall r :: r in a.parts && r < |s.pc| ==> s.pc[r] == Pc(k, a.stage)
  }

  /** The memory after a copy. A cell never written has unknown contents, and so has a
      copy of it. */
  function Copied<V>(rd: Round<V>, mem: map<(nat, Cell), V>, k: nat, a: Action): map<(nat, Cell), V> {
    match a.src
    case Ext =>
      if a.pos in rd.values then mem[Key(k, a.dst) := rd.values[a.pos]] else mem - {Key(k, a.dst)}
    case From(c) =>
      if Key(k, c) in mem then mem[Key(k, a.dst) := mem[Key(k, c)]] else mem - {Key(k, a.dst)}
  }

  ghost predicate Perform<V>(prog: Program<V>, s: State<V>, k: nat, a: Action, s': State<V>) {
    && |s.pc| == |prog.hosts|
    && Enabled(prog, s, k, a)
    && s' == State(s.pc, s.done + {(k, a)}, Copied(prog.rounds[k], s.mem, k, a))
  }

  ghost predicate MayAdvance<V>(prog: Program<V>, s: State<V>, r: nat) {
    && |s.pc| == |prog.hosts| && r < |s.pc|
    && var pc := s.pc[r];
    && pc.round < |prog.rounds|
    && (forall a :: a in prog.rounds[pc.round].actions && a.stage == pc.stage && r in a.parts ==>
          (pc.round, a) in s.done)
    && ((pc.stage, prog.hosts[r]) in prog.rounds[pc.round].barriers ==>
          forall q :: 0 <= q < |s.pc| && prog.hosts[q] == prog.hosts[r] ==> !Lt(s.pc[q], pc))
  }

  function NextPc<V>(prog: Program<V>, pc: Pc): Pc {
    if pc.stage + 1 < prog.stages then Pc(pc.round, pc.stage + 1) else Pc(pc.round + 1, 0)
  }

  ghost predicate Advance<V>(prog: Program<V>, s: State<V>, r: nat, s': State<V>) {
    && MayAdvance(prog, s, r)
    && s' == s.(pc := s.pc[r := NextPc(prog, s.pc[r])])
  }

  ghost predicate Step<V>(prog: Program<V>, s: State<V>, s': State<V>) {
    || (exists k, a :: Perform(prog, s, k, a, s'))
    || (exists r :: Advance(prog, s, r, s'))
  }

  ghost predicate Run<V>(prog: Program<V>, run: seq<State<V>>) {
    && |run| > 0
    && Initial(prog, run[0])
    && forall i :: 0 <= i < |run| - 1 ==> Step(prog, run[i], run[i + 1])
  }

  ghost predicate Finished<V>(prog: Program<V>, s: State<V>) {
    forall r :: 0 <= r < |s.pc| ==> s.pc[r].round == |prog.rounds|
  }

  // ----- The invariant

  ghost predicate PcsValid<V>(prog: Program<V>, s: State<V>) {
    && |s.pc| == |prog.hosts|
    && forall r :: 0 <= r < |s.pc| ==>
         && s.pc[r].stage < prog.stages && s.pc[r].round <= |prog.rounds|
         && (s.pc[r].round == |prog.rounds| ==> s.pc[r].stage == 0)
  }

  /** Nobody is past a barrier that a rank of the same host hasn't reached. */
  ghost predicate BarriersHeld<V>(prog: Program<V>, s: State<V>)
    requires |s.pc| == |prog.hosts|
  {
    forall r, q, k, j | 0 <= r < |s.pc| && 0 <= q < |s.pc| && 0 <= k < |prog.rounds|
      && prog.hosts[r] == prog.hosts[q] && (j, prog.hosts[r]) in prog.rounds[k].barriers
      && Lt(Pc(k, j), s.pc[r]) :: !Lt(s.pc[q], Pc(k, j))
  }

  ghost predicate DoneIsReached<V>(prog: Program<V>, s: State<V>)
    requires |s.pc| == |prog.hosts|
  {
    forall k, a :: (k, a) in s.done ==>
      && k < |prog.rounds| && a in prog.rounds[k].actions
      && forall r :: r in a.parts && r < |s.pc| ==> !Lt(s.pc[r], Pc(k, a.stage))
  }

  ghost predicate PassedIsDone<V>(prog: Program<V>, s: State<V>)
    requires |s.pc| == |prog.hosts|
  {
    forall k, a, r | 0 <= k < |prog.rounds| && a in prog.rounds[k].actions && r in a.parts && r < |s.pc|
      && Lt(Pc(k, a.stage), s.pc[r]) :: (k, a) in s.done
  }

  /** No copy of a later round has written the cell that `a` wrote in round `k`. */
  ghost predicate Latest<V>(s: State<V>, k: nat, a: Action) {
    forall k', a' :: (k', a') in s.done && Key(k', a'.dst) == Key(k, a.dst) ==> k' <= k
  }

  ghost predicate Holds<V>(prog: Program<V>, s: State<V>, k: nat, a: Action)
    requires k < |prog.rounds| && a.pos in prog.rounds[k].values
  {
    Key(k, a.dst) in s.mem && s.mem[Key(k, a.dst)] == prog.rounds[k].values[a.pos]
  }

  /** A cell holds the element of its latest copy's position. */
  ghost predicate CellsRight<V>(prog: Program<V>, s: State<V>) {
    forall k, a | (k, a) in s.done && k < |prog.rounds| && a.pos in prog.rounds[k].values
      && Latest(s, k, a) :: Holds(prog, s, k, a)
  }

  ghost predicate Inv<V>(prog: Program<V>, s: State<V>) {
    && PcsValid(prog, s)
    && BarriersHeld(prog, s)
    && DoneIsReached(prog, s)
    && PassedIsDone(prog, s)
    && CellsRight(prog, s)
  }

  // ----- Orders that the invariant implies

  lemma Formed<V>(prog: Program<V>, k: nat, a: Action)
    requires WellSynchronised(prog) && k < |prog.rounds| && a in prog.rounds[k].actions
    ensures WellFormedAction(prog, prog.rounds[k], a)
  {
    hide WellFormedAction, Before;
    assert WellFormedRound(prog, prog.rounds[k]);
  }

  /** A copy that comes before an enabled copy of its round is done. */
  lemma BeforeIsDone<V>(prog: Program<V>, s: State<V>, k: nat, b: Action, a: Action)
    requires WellSynchronised(prog) && Inv(prog, s)
    requires Enabled(prog, s, k, a) && b in prog.rounds[k].actions
    requires Before(prog.hosts, prog.rounds[k], b, a)
    ensures (k, b) in s.done
  {
    hide WellSynchronised, CellsRight, DoneIsReached, Near;
    Formed(prog, k, a);
    Formed(prog, k, b);
    if r :| r in b.parts && r in a.parts {
      assert s.pc[r] == Pc(k, a.stage);
    } else {
      var j, x, y :| b.stage < j < a.stage && x in b.parts && y in a.parts
        && prog.hosts[x] == prog.hosts[y] && (j, prog.hosts[x]) in prog.rounds[k].barriers;
      assert s.pc[y] == Pc(k, a.stage);
      assert !Lt(s.pc[x], Pc(k, j));
    }
  }

  /** Nobody on a host is past a round's fence before everyone on the host reached it. */
  lemma BehindFence<V>(prog: Program<V>, s: State<V>, x: nat, y: nat, round: nat)
    requires |s.pc| == |prog.hosts| && BarriersHeld(prog, s) && round < |prog.rounds|
    requires WellFormedRound(prog, prog.rounds[round])
    requires x < |s.pc| && y < |s.pc| && prog.hosts[x] == prog.hosts[y] && Lt(Pc(round, prog.fence), s.pc[y])
    ensures !Lt(s.pc[x], Pc(round, prog.fence))
  {
    hide WellFormedAction;
    assert (prog.fence, prog.hosts[y]) in prog.rounds[round].barriers;
  }

  /** A copy near a host is done once a later round's copy near that host can happen. */
  lemma EarlierRoundIsDone<V>(prog: Program<V>, s: State<V>, k: nat, a: Action, k': nat, b: Action, owner: nat)
    requires WellSynchronised(prog) && Inv(prog, s)
    requires k < k' < |prog.rounds| && a in prog.rounds[k].actions && b in prog.rounds[k'].actions
    requires Near(prog.hosts, a, owner) && Near(prog.hosts, b, owner)
    requires (k', b) in s.done || Enabled(prog, s, k', b)
    ensures (k, a) in s.done
  {
    hide WellFormedRound, BarriersHeld, CellsRight;
    var x :| x in a.parts && x < |s.pc| && prog.hosts[x] == prog.hosts[owner];
    var y :| y in b.parts && y < |s.pc| && prog.hosts[y] == prog.hosts[owner];
    assert !Lt(s.pc[y], Pc(k', b.stage));
    var round := if prog.fence < b.stage then k' else k' - 1;
    assert b.stage != prog.fence;
    BehindFence(prog, s, x, y, round);
    assert Lt(Pc(k, a.stage), s.pc[x]);
  }

  // ----- Preservation

  lemma InitialHasInv<V>(prog: Program<V>, s: State<V>)
    requires WellSynchronised(prog) && Initial(prog, s)
    ensures Inv(prog, s)
  {
  }

  /** The copy that an enabled copy reads from is done, and the latest that wrote its cell. */
  lemma SourceIsLatest<V>(prog: Program<V>, s: State<V>, k: nat, a: Action) returns (b: Action)
    requires WellSynchronised(prog) && Inv(prog, s) && Enabled(prog, s, k, a)
    requires a.src.From? && a.pos in prog.rounds[k].values
    ensures a.src == From(b.dst) && b.pos == a.pos && (k, b) in s.done && Latest(s, k, b)
  {
    hide BarriersHeld, CellsRight, PassedIsDone, Before, Near;
    var rd := prog.rounds[k];
    b :| b in rd.actions && b.dst == a.src.cell;
    assert a.src == From(b.dst);
    BeforeIsDone(prog, s, k, b, a);
    assert WellFormedAction(prog, rd, a);
    forall k', b' | (k', b') in s.done && Key(k', b'.dst) == Key(k, b.dst)
      ensures k' <= k
    {
      if k < k' {
        assert WellFormedAction(prog, prog.rounds[k'], b');
        EarlierRoundIsDone(prog, s, k, a, k', b', a.src.cell.rank);
      }
    }
  }

  /** An enabled copy finds in the cell it reads the element of its position. */
  lemma ReadsRight<V>(prog: Program<V>, s: State<V>, k: nat, a: Action)
    requires WellSynchronised(prog) && Inv(prog, s) && Enabled(prog, s, k, a)
    requires a.src.From? && a.pos in prog.rounds[k].values
    ensures Key(k, a.src.cell) in s.mem && s.mem[Key(k, a.src.cell)] == prog.rounds[k].values[a.pos]
  {
    hide WellSynchronised, BarriersHeld, DoneIsReached, PassedIsDone, Latest;
    var b := SourceIsLatest(prog, s, k, a);
    assert Holds(prog, s, k, b);
  }

  /** An enabled copy overwrites nothing a later round wrote, and no other copy of its own
      round. */
  lemma WritesLatest<V>(prog: Program<V>, s: State<V>, k: nat, a: Action, k': nat, b: Action)
    requires WellSynchronised(prog) && Inv(prog, s) && Enabled(prog, s, k, a)
    requires (k', b) in s.done && Key(k', b.dst) == Key(k, a.dst)
    ensures k' < k
  {
    hide CellsRight, BarriersHeld, PassedIsDone, Before, Near;
    assert WellFormedRound(prog, prog.rounds[k]) && WellFormedRound(prog, prog.rounds[k']);
    assert WellFormedAction(prog, prog.rounds[k], a) && WellFormedAction(prog, prog.rounds[k'], b);
    if k < k' {
      assert a.dst.Buf?;
      EarlierRoundIsDone(prog, s, k, a, k', b, a.dst.rank);
    }
  }

  lemma PerformKeepsOrders<V>(prog: Program<V>, s: State<V>, k: nat, a: Action, s': State<V>)
    requires WellSynchronised(prog) && Inv(prog, s) && Perform(prog, s, k, a, s')
    ensures PcsValid(prog, s') && BarriersHeld(prog, s') && DoneIsReached(prog, s') && PassedIsDone(prog, s')
  {
    hide WellSynchronised, CellsRight;
  }

  /** A copy leaves the element of its position. */
  lemma WritesRight<V>(prog: Program<V>, s: State<V>, k: nat, a: Action, s': State<V>)
    requires WellSynchronised(prog) && Inv(prog, s) && Perform(prog, s, k, a, s') && a.pos in prog.rounds[k].values
    ensures Holds(prog, s', k, a)
  {
    hide WellSynchronised, Inv;
    if a.src.From? {
      ReadsRight(prog, s, k, a);
    }
  }

  /** A cell that a copy doesn't write keeps its latest copy, and its element. */
  lemma OthersStay<V>(prog: Program<V>, s: State<V>, k: nat, a: Action, s': State<V>, k': nat, b: Action)
    requires CellsRight(prog, s) && Perform(prog, s, k, a, s') && Key(k', b.dst) != Key(k, a.dst)
    requires (k', b) in s.done && k' < |prog.rounds| && b.pos in prog.rounds[k'].values && Latest(s', k', b)
    ensures Holds(prog, s', k', b)
  {
    hide Enabled, Key;
    forall k2, a2 | (k2, a2) in s.done && Key(k2, a2.dst) == Key(k', b.dst) ensures k2 <= k' {
      assert (k2, a2) in s'.done;
    }
    assert Holds(prog, s, k', b);
  }

  lemma PerformKeepsInv<V>(prog: Program<V>, s: State<V>, k: nat, a: Action, s': State<V>)
    requires WellSynchronised(prog) && Inv(prog, s) && Perform(prog, s, k, a, s')
    ensures Inv(prog, s')
  {
    hide WellSynchronised, Holds, Enabled, PcsValid, BarriersHeld, DoneIsReached, PassedIsDone, Copied, Key;
    PerformKeepsOrders(prog, s, k, a, s');
    forall k', b | (k', b) in s'.done && k' < |prog.rounds| && b.pos in prog.rounds[k'].values && Latest(s', k', b)
      ensures Holds(prog, s', k', b)
    {
      if (k', b) == (k, a) {
        WritesRight(prog, s, k, a, s');
      } else {
        assert (k, a) in s'.done;
        if Key(k', b.dst) == Key(k, a.dst) {
          WritesLatest(prog, s, k, a, k', b);
          assert false;
        }
        OthersStay(prog, s, k, a, s', k', b);
      }
    }
  }

  /** A step moves a pc just past where it was. */
  lemma NextPcIsNext<V>(prog: Program<V>, pc: Pc, at: Pc)
    requires pc.stage < prog.stages && at.stage < prog.stages
    ensures Lt(at, NextPc(prog, pc)) <==> Lt(at, pc) || at == pc
    ensures Lt(pc, NextPc(prog, pc))
  {
  }

  lemma AdvanceKeepsBarrier<V>(prog: Program<V>, s: State<V>, r: nat, s': State<V>, x: nat, q: nat, k: nat, j: nat)
    requires PcsValid(prog, s) && BarriersHeld(prog, s) && Advance(prog, s, r, s')
    requires x < |s.pc| && q < |s.pc| && k < |prog.rounds| && prog.hosts[x] == prog.hosts[q]
    requires (j, prog.hosts[x]) in prog.rounds[k].barriers && j < prog.stages
    requires Lt(Pc(k, j), s'.pc[x])
    ensures !Lt(s'.pc[q], Pc(k, j))
  {
    NextPcIsNext(prog, s.pc[r], Pc(k, j));
    if x == r && s.pc[x] == Pc(k, j) {
      assert !Lt(s.pc[q], s.pc[r]);
    } else {
      assert Lt(Pc(k, j), s.pc[x]);
      assert !Lt(s.pc[q], Pc(k, j));
    }
  }

  lemma AdvanceKeepsBarriers<V>(prog: Program<V>, s: State<V>, r: nat, s': State<V>)
    requires WellSynchronised(prog) && PcsValid(prog, s) && BarriersHeld(prog, s) && Advance(prog, s, r, s')
    ensures PcsValid(prog, s') && BarriersHeld(prog, s')
  {
    forall x, q, k, j | 0 <= x < |s'.pc| && 0 <= q < |s'.pc| && 0 <= k < |prog.rounds|
      && prog.hosts[x] == prog.hosts[q] && (j, prog.hosts[x]) in prog.rounds[k].barriers
      && Lt(Pc(k, j), s'.pc[x])
      ensures !Lt(s'.pc[q], Pc(k, j))
    {
      assert WellFormedRound(prog, prog.rounds[k]);
      AdvanceKeepsBarrier(prog, s, r, s', x, q, k, j);
    }
  }

  lemma AdvanceKeepsDone<V>(prog: Program<V>, s: State<V>, r: nat, s': State<V>)
    requires WellSynchronised(prog) && PcsValid(prog, s) && Advance(prog, s, r, s')
    requires DoneIsReached(prog, s) && PassedIsDone(prog, s)
    ensures DoneIsReached(prog, s') && PassedIsDone(prog, s')
  {
    forall k, a, x | 0 <= k < |prog.rounds| && a in prog.rounds[k].actions && x in a.parts && x < |s'.pc|
      && Lt(Pc(k, a.stage), s'.pc[x])
      ensures (k, a) in s'.done
    {
      assert WellFormedRound(prog, prog.rounds[k]);
      assert WellFormedAction(prog, prog.rounds[k], a);
    }
  }

  lemma AdvanceKeepsInv<V>(prog: Program<V>, s: State<V>, r: nat, s': State<V>)
    requires WellSynchronised(prog) && Inv(prog, s) && Advance(prog, s, r, s')
    ensures Inv(prog, s')
  {
    AdvanceKeepsBarriers(prog, s, r, s');
    AdvanceKeepsDone(prog, s, r, s');
    forall k, a | (k, a) in s'.done && k < |prog.rounds| && a.pos in prog.rounds[k].values && Latest(s', k, a)
      ensures Holds(prog, s', k, a)
    {
      assert Latest(s, k, a);
      assert Holds(prog, s, k, a);
    }
  }

  lemma StepKeepsInv<V>(prog: Program<V>, s: State<V>, s': State<V>)
    requires WellSynchronised(prog) && Inv(prog, s) && Step(prog, s, s')
    ensures Inv(prog, s')
  {
    if k, a :| Perform(prog, s, k, a, s') {
      PerformKeepsInv(prog, s, k, a, s');
    } else {
      var r :| Advance(prog, s, r, s');
      AdvanceKeepsInv(prog, s, r, s');
    }
  }

  lemma {:induction false} RunHasInv<V>(prog: Program<V>, run: seq<State<V>>, i: nat)
    requires WellSynchronised(prog) && Run(prog, run) && i < |run|
    ensures Inv(prog, run[i])
  {
    if i == 0 {
      InitialHasInv(prog, run[0]);
    } else {
      RunHasInv(prog, run, i - 1);
      StepKeepsInv(prog, run[i - 1], run[i]);
    }
  }

  // ----- The theorems

  /** Every interleaving: when all ranks are through, each result holds the element of its
      position. */
  lemma ResultsRight<V>(prog: Program<V>, run: seq<State<V>>, i: nat, k: nat, a: Action)
    requires WellSynchronised(prog) && Run(prog, run) && i < |run| && Finished(prog, run[i])
    requires k < |prog.rounds| && a in prog.rounds[k].actions && a.dst.Out? && a.pos in prog.rounds[k].values
    ensures (k, a.dst) in run[i].mem && run[i].mem[(k, a.dst)] == prog.rounds[k].values[a.pos]
  {
    var s := run[i];
    RunHasInv(prog, run, i);
    assert WellFormedRound(prog, prog.rounds[k]);
    assert WellFormedAction(prog, prog.rounds[k], a);
    var r :| r in a.parts;
    assert Lt(Pc(k, a.stage), s.pc[r]);
    assert (k, a) in s.done;
    assert Latest(s, k, a);
    assert Holds(prog, s, k, a);
  }

  /** Whether two copies touch one cell and at least one of them writes it. */
  predicate Conflict(k: nat, a: Action, k': nat, b: Action) {
    || Key(k, a.dst) == Key(k', b.dst)
    || (a.src.From? && Key(k, a.src.cell) == Key(k', b.dst))
    || (b.src.From? && Key(k', b.src.cell) == Key(k, a.dst))
  }

  lemma NoConflictOneWay<V>(prog: Program<V>, s: State<V>, k: nat, a: Action, k': nat, b: Action)
    requires WellSynchronised(prog) && Inv(prog, s)
    requires Enabled(prog, s, k, a) && Enabled(prog, s, k', b) && (k, a) != (k', b)
    ensures Key(k, a.dst) != Key(k', b.dst)
    ensures a.src.From? ==> Key(k, a.src.cell) != Key(k', b.dst)
  {
    assert WellFormedRound(prog, prog.rounds[k]) && WellFormedRound(prog, prog.rounds[k']);
    assert WellFormedAction(prog, prog.rounds[k], a) && WellFormedAction(prog, prog.rounds[k'], b);
    if a.src.From? && Key(k, a.src.cell) == Key(k', b.dst) {
      if k == k' {
        assert a.src == From(b.dst);
        BeforeIsDone(prog, s, k, b, a);
      } else if k < k' {
        EarlierRoundIsDone(prog, s, k, a, k', b, b.dst.rank);
      } else {
        EarlierRoundIsDone(prog, s, k', b, k, a, b.dst.rank);
      }
    }
    if Key(k, a.dst) == Key(k', b.dst) && k != k' {
      if k < k' {
        EarlierRoundIsDone(prog, s, k, a, k', b, b.dst.rank);
      } else {
        EarlierRoundIsDone(prog, s, k', b, k, a, b.dst.rank);
      }
    }
  }

  /** Two copies that may both happen next never conflict, whatever ranks and rounds they
      belong to: nothing is overwritten while it is still being read. */
  lemma NoRaces<V>(prog: Program<V>, run: seq<State<V>>, i: nat, k: nat, a: Action, k': nat, b: Action)
    requires WellSynchronised(prog) && Run(prog, run) && i < |run|
    requires |run[i].pc| == |prog.hosts|
    requires Enabled(prog, run[i], k, a) && Enabled(prog, run[i], k', b) && (k, a) != (k', b)
    ensures !Conflict(k, a, k', b)
  {
    RunHasInv(prog, run, i);
    NoConflictOneWay(prog, run[i], k, a, k', b);
    NoConflictOneWay(prog, run[i], k', b, k, a);
  }

  /** A rank that no other is behind. */
  lemma {:induction false} Hindmost(pcs: seq<Pc>) returns (r: nat)
    requires |pcs| > 0
    ensures r < |pcs| && forall q :: 0 <= q < |pcs| ==> !Lt(pcs[q], pcs[r])
  {
    if |pcs| == 1 {
      r := 0;
    } else {
      var t := Hindmost(pcs[1..]);
      r := if Lt(pcs[t + 1], pcs[0]) then t + 1 else 0;
      forall q | 0 <= q < |pcs| ensures !Lt(pcs[q], pcs[r]) {
        assert q > 0 ==> pcs[q] == pcs[1..][q - 1];
      }
    }
  }

  lemma HindmostMayStep<V>(prog: Program<V>, s: State<V>, r: nat)
    requires WellSynchronised(prog) && Inv(prog, s) && r < |s.pc| && s.pc[r].round < |prog.rounds|
    requires forall q :: 0 <= q < |s.pc| ==> !Lt(s.pc[q], s.pc[r])
    ensures (exists a :: Enabled(prog, s, s.pc[r].round, a)) || MayAdvance(prog, s, r)
  {
    var k := s.pc[r].round;
    if a :| a in prog.rounds[k].actions && a.stage == s.pc[r].stage && r in a.parts && (k, a) !in s.done {
      assert WellFormedRound(prog, prog.rounds[k]);
      forall q | q in a.parts && q < |s.pc| ensures s.pc[q] == Pc(k, a.stage) {
        assert !Lt(s.pc[q], s.pc[r]);
        assert !Lt(Pc(k, a.stage), s.pc[q]);
      }
      assert Enabled(prog, s, k, a);
    }
  }

  lemma EnabledSteps<V>(prog: Program<V>, s: State<V>, k: nat, a: Action) returns (s': State<V>)
    requires |s.pc| == |prog.hosts| && Enabled(prog, s, k, a)
    ensures Step(prog, s, s')
  {
    s' := State(s.pc, s.done + {(k, a)}, Copied(prog.rounds[k], s.mem, k, a));
    assert Perform(prog, s, k, a, s');
  }

  lemma AdvanceSteps<V>(prog: Program<V>, s: State<V>, r: nat) returns (s': State<V>)
    requires MayAdvance(prog, s, r)
    ensures Step(prog, s, s')
  {
    s' := s.(pc := s.pc[r := NextPc(prog, s.pc[r])]);
    assert Advance(prog, s, r, s');
  }

  /** No deadlock: until every rank is through, some step is possible. */
  lemma NeverStuck<V>(prog: Program<V>, run: seq<State<V>>, i: nat) returns (s': State<V>)
    requires WellSynchronised(prog) && Run(prog, run) && i < |run| && !Finished(prog, run[i])
    ensures Step(prog, run[i], s')
  {
    var s := run[i];
    RunHasInv(prog, run, i);
    var r := Hindmost(s.pc);
    var other :| 0 <= other < |s.pc| && s.pc[other].round != |prog.rounds|;
    assert !Lt(s.pc[other], s.pc[r]);
    HindmostMayStep(prog, s, r);
    if a :| Enabled(prog, s, s.pc[r].round, a) {
      s' := EnabledSteps(prog, s, s.pc[r].round, a);
    } else {
      s' := AdvanceSteps(prog, s, r);
    }
  }
}
