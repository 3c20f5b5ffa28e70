/** The pipelined run over bucket plans: what the host queues on the caller and transfer
    streams, in which order and behind which events, and the proof that every execution of
    it has the effect of running the buckets one by one. */
module RedistributionPipeline {
  import opened StreamOps
  import opened StreamLog
  import opened Arithmetic

  datatype Plan = LocalPlan | Redistributed

  datatype Event = InputReady | ComputeDone | Done

  /** A bucket in flight and the slot that holds its buffers. */
  datatype BucketWork = BucketWork(plan: nat, slot: nat)

  /** How many of the first `i` plans are redistributed. */
  function Index(plans: seq<Plan>, i: nat): nat
    requires i <= |plans|
  {
    if i == 0 then 0 else Index(plans, i - 1) + if plans[i - 1].Redistributed? then 1 else 0
  }

  /** The slot of the `k`-th redistributed bucket. */
  function SlotOf(k: nat, n: nat): nat
    requires n > 0
  {
    k % n
  }

  function Slot(plans: seq<Plan>, n: nat, i: nat): nat
    requires i <= |plans| && n > 0
  {
    SlotOf(Index(plans, i), n)
  }

  lemma {:induction false} IndexGrows(plans: seq<Plan>, i: nat, j: nat)
    requires i <= j <= |plans|
    ensures Index(plans, i) <= Index(plans, j) <= Index(plans, i) + (j - i)
    ensures i < j && plans[i].Redistributed? ==> Index(plans, i) < Index(plans, j)
  {
    if i < j {
      IndexGrows(plans, i, j - 1);
    }
  }

  // ----- What each call queues

  function StorageToCompute(i: nat, s: nat): seq<Entry> {
    [Do(Transfer, Prepare(i, s)), Do(Transfer, ExchangeIn(i, s)), Record(Transfer)]
  }

  function ComputeOn(i: nat, s: nat, ready: nat): seq<Entry> {
    [Do(Caller, Rest(i, s)), Await(Caller, ready), Do(Caller, Compute(i, s)), Record(Caller)]
  }

  function ComputeToStorage(i: nat, s: nat, computed: nat): seq<Entry> {
    [Await(Transfer, computed), Do(Transfer, ExchangeOut(i, s)), Do(Transfer, Finalize(i, s)), Record(Transfer)]
  }

  /** The two streams and their events. An event stands for its latest record; a wait is
      for that record. */
  class Streams {
    var log: seq<Entry>
    var recorded: map<(Event, nat), nat>

    constructor ()
      ensures log == [Prior(Caller)] && recorded == map[]
    {
      log := [Prior(Caller)];
      recorded := map[];
    }

    method Launch(stream: Stream, op: Op)
      modifies this`log
      ensures log == old(log) + [Do(stream, op)]
    {
      log := log + [Do(stream, op)];
    }

    method RecordEvent(stream: Stream, event: Event, slot: nat)
      modifies this
      ensures log == old(log) + [Record(stream)]
      ensures recorded == old(recorded)[(event, slot) := |old(log)|]
    {
      recorded := recorded[(event, slot) := |log|];
      log := log + [Record(stream)];
    }

    method WaitEvent(stream: Stream, event: Event, slot: nat)
      requires (event, slot) in recorded
      modifies this`log
      ensures log == old(log) + [Await(stream, recorded[(event, slot)])]
    {
      log := log + [Await(stream, recorded[(event, slot)])];
    }

    method WaitStream()
      modifies this`log
      ensures log == old(log) + [AwaitStream(Transfer)]
    {
      log := log + [AwaitStream(Transfer)];
    }

    method EnqueueStorageToCompute(i: nat, slot: nat) returns (work: BucketWork)
      modifies this
      ensures work == BucketWork(i, slot)
      ensures log == old(log) + StorageToCompute(i, slot)
      ensures recorded == old(recorded)[(InputReady, slot) := |old(log)| + 2]
    {
      Launch(Transfer, Prepare(i, slot));
      Launch(Transfer, ExchangeIn(i, slot));
      RecordEvent(Transfer, InputReady, slot);
      work := BucketWork(i, slot);
    }

    method ComputeBucket(work: BucketWork)
      requires (InputReady, work.slot) in recorded
      modifies this
      ensures log == old(log) + ComputeOn(work.plan, work.slot, old(recorded)[(InputReady, work.slot)])
      ensures recorded == old(recorded)[(ComputeDone, work.slot) := |old(log)| + 3]
    {
      Launch(Caller, Rest(work.plan, work.slot));
      WaitEvent(Caller, InputReady, work.slot);
      Launch(Caller, Compute(work.plan, work.slot));
      RecordEvent(Caller, ComputeDone, work.slot);
    }

    method EnqueueComputeToStorage(work: BucketWork)
      requires (ComputeDone, work.slot) in recorded
      modifies this
      ensures log == old(log) + ComputeToStorage(work.plan, work.slot, old(recorded)[(ComputeDone, work.slot)])
      ensures recorded == old(recorded)[(Done, work.slot) := |old(log)| + 3]
    {
      WaitEvent(Transfer, ComputeDone, work.slot);
      Launch(Transfer, ExchangeOut(work.plan, work.slot));
      Launch(Transfer, Finalize(work.plan, work.slot));
      RecordEvent(Transfer, Done, work.slot);
    }

    method Release(work: BucketWork)
      requires (Done, work.slot) in recorded
      modifies this`log
      ensures log == old(log) + [Await(Caller, recorded[(Done, work.slot)])]
    {
      WaitEvent(Caller, Done, work.slot);
    }
  }

  // ----- Where everything is in the log

  /** The calls of a run: the transfer stream's first wait for the caller, the three calls
      for a redistributed bucket and its release, and a local bucket. */
  datatype Call =
    | Start
    | ToCompute(i: nat)
    | ComputeAt(i: nat)
    | ToStorage(i: nat)
    | ReleaseAt(i: nat)
    | LocalAt(i: nat)

  /** Where the entries of each call start. */
  type Book = map<Call, nat>

  function Size(c: Call): nat {
    match c
    case Start => 1
    case ToCompute(_) => 3
    case ComputeAt(_) => 4
    case ToStorage(_) => 4
    case ReleaseAt(_) => 1
    case LocalAt(_) => 1
  }

  predicate Sound(plans: seq<Plan>, c: Call) {
    match c
    case Start => true
    case LocalAt(i) => i < |plans| && plans[i].LocalPlan?
    case ToCompute(i) => i < |plans| && plans[i].Redistributed?
    case ComputeAt(i) => i < |plans| && plans[i].Redistributed?
    case ToStorage(i) => i < |plans| && plans[i].Redistributed?
    case ReleaseAt(i) => i < |plans| && plans[i].Redistributed?
  }

  function At(b: Book, c: Call): nat {
    if c in b then b[c] else 0
  }

  function BlockOf(plans: seq<Plan>, n: nat, b: Book, c: Call): (block: seq<Entry>)
    requires n > 0 && Sound(plans, c)
    ensures |block| == Size(c)
  {
    match c
    case Start => [AwaitStream(Transfer)]
    case ToCompute(i) => StorageToCompute(i, Slot(plans, n, i))
    case ComputeAt(i) => ComputeOn(i, Slot(plans, n, i), At(b, ToCompute(i)) + 2)
    case ToStorage(i) => ComputeToStorage(i, Slot(plans, n, i), At(b, ComputeAt(i)) + 3)
    case ReleaseAt(i) => [Await(Caller, At(b, ToStorage(i)) + 3)]
    case LocalAt(i) => [Do(Caller, Local(i))]
  }

  /** `d` can't be queued before `c` has been: its wait is for an event of `c`, it reuses the
      slot that `c` sends back, or it comes after the transfer stream started. */
  predicate Needs(plans: seq<Plan>, n: nat, c: Call, d: Call)
    requires Sound(plans, c) && Sound(plans, d)
  {
    match (c, d)
    case (Start, ToCompute(_)) => true
    case (Start, LocalAt(j)) => Index(plans, j) > 0
    case (ToCompute(i), ComputeAt(j)) => i == j
    case (ComputeAt(i), ToStorage(j)) => i == j
    case (ToStorage(i), ReleaseAt(j)) => i == j
    case (ToStorage(i), ToCompute(j)) => Index(plans, i) + n <= Index(plans, j)
    case _ => false
  }

  /** `c` is queued before `d`: because `d` needs it; in plan order, for calls of one kind,
      for all that runs on the caller stream, and for a local bucket and a later prepare;
      and, with more than one slot, a bucket is prepared before the one right before it is
      sent back. */
  predicate First(plans: seq<Plan>, n: nat, c: Call, d: Call)
    requires Sound(plans, c) && Sound(plans, d)
  {
    || Needs(plans, n, c, d)
    || match (c, d)
       case (LocalAt(i), Start) => Index(plans, i) == 0
       case (ToCompute(i), ToCompute(j)) => i < j
       case (ComputeAt(i), ComputeAt(j)) => i < j
       case (ToStorage(i), ToStorage(j)) => i < j
       case (LocalAt(i), LocalAt(j)) => i < j
       case (LocalAt(i), ComputeAt(j)) => i < j
       case (ComputeAt(i), LocalAt(j)) => i < j
       case (LocalAt(i), ToCompute(j)) => i < j
       case (ToCompute(j), ToStorage(i)) => n > 1 && Index(plans, j) == Index(plans, i) + 1
       case _ => false
  }

  predicate Covers(b: Book, c: Call, q: nat) {
    c in b && b[c] <= q < b[c] + Size(c)
  }

  ghost predicate Covered(b: Book, q: nat) {
    exists c :: Covers(b, c, q)
  }

  ghost predicate Sits(log: seq<Entry>, k: nat, block: seq<Entry>) {
    k + |block| <= |log| && forall o: nat | o < |block| :: log[k + o] == block[o]
  }

  /** The log is what the caller queued before, followed by the blocks of the booked calls,
      in an order that keeps all the rules. */
  ghost predicate Booked(plans: seq<Plan>, n: nat, log: seq<Entry>, b: Book)
    requires n > 0
  {
    && |log| > 0 && log[0] == Prior(Caller)
    && (forall c | c in b :: Sound(plans, c))
    && (forall c | c in b :: 0 < b[c] && Sits(log, b[c], BlockOf(plans, n, b, c)))
    && (forall c, d | c in b && d in b && First(plans, n, c, d) :: b[c] + Size(c) <= b[d])
    && (forall c, d | Sound(plans, c) && d in b && Needs(plans, n, c, d) :: c in b)
    && (forall q: nat | 0 < q < |log| :: Covered(b, q))
  }

  lemma BlockStill(plans: seq<Plan>, n: nat, log: seq<Entry>, b: Book, c: Call, d: Call)
    requires n > 0 && Booked(plans, n, log, b) && Sound(plans, c) && c !in b && (d in b || d == c)
    requires forall e | Sound(plans, e) && Needs(plans, n, e, c) :: e in b
    ensures Sound(plans, d)
    ensures var b' := b[c := |log|];
            0 < b'[d] && Sits(log + BlockOf(plans, n, b, c), b'[d], BlockOf(plans, n, b', d))
  {
    hide Needs, First, BlockOf, Index, Slot;
    SameBlock(plans, n, b, c, |log|, d);
  }

  /** Queueing a call whose turn it is keeps the book in order. */
  lemma Queue(plans: seq<Plan>, n: nat, log: seq<Entry>, b: Book, c: Call)
    requires n > 0 && Booked(plans, n, log, b) && Sound(plans, c) && c !in b
    requires forall d | d in b :: !First(plans, n, c, d)
    requires forall d | Sound(plans, d) && Needs(plans, n, d, c) :: d in b
    ensures Booked(plans, n, log + BlockOf(plans, n, b, c), b[c := |log|])
  {
    hide Covered, Sits, Sound, Index, BlockOf, First, Needs;
    var log', b' := log + BlockOf(plans, n, b, c), b[c := |log|];
    forall d | d in b' ensures 0 < b'[d] && Sits(log', b'[d], BlockOf(plans, n, b', d)) {
      BlockStill(plans, n, log, b, c, d);
    }
    forall d, e | d in b' && e in b' && First(plans, n, d, e) ensures b'[d] + Size(d) <= b'[e] {
      NotFirst(plans, n, c);
      if d in b {
        SitsWithin(log, b[d], BlockOf(plans, n, b, d));
      }
    }
    forall q: nat | 0 < q < |log'| ensures Covered(b', q) {
      CoveredStill(b, c, |log|, q);
    }
    NotFirst(plans, n, c);
  }

  lemma NotFirst(plans: seq<Plan>, n: nat, c: Call)
    requires Sound(plans, c) && n > 0
    ensures !First(plans, n, c, c) && !Needs(plans, n, c, c)
  {
  }

  lemma SitsWithin(log: seq<Entry>, k: nat, block: seq<Entry>)
    requires Sits(log, k, block)
    ensures k + |block| <= |log|
  {
  }

  lemma CoveredStill(b: Book, c: Call, size: nat, q: nat)
    requires c !in b && (q < size ==> Covered(b, q)) && q < size + Size(c)
    ensures Covered(b[c := size], q)
  {
    var b' := b[c := size];
    if q < size {
      var d :| Covers(b, d, q);
      assert Covers(b', d, q);
    } else {
      assert Covers(b', c, q);
    }
  }

  lemma SameBlock(plans: seq<Plan>, n: nat, b: Book, c: Call, k: nat, d: Call)
    requires n > 0 && Sound(plans, c) && Sound(plans, d) && c !in b && (d == c || d in b)
    requires forall e | Sound(plans, e) && Needs(plans, n, e, d) :: e in b
    ensures BlockOf(plans, n, b[c := k], d) == BlockOf(plans, n, b, d)
  {
    hide Index, Slot;
    match d
    case ComputeAt(i) => assert Needs(plans, n, ToCompute(i), d);
    case ToStorage(i) => assert Needs(plans, n, ComputeAt(i), d);
    case ReleaseAt(i) => assert Needs(plans, n, ToStorage(i), d);
    case _ =>
  }

  // ----- How far a run has come

  /** How many redistributed buckets have been prepared, computed, sent back and released,
      how many plans have been looked at for local work, and whether the transfer stream has
      started. */
  datatype Bounds = Bounds(s2c: nat, comp: nat, c2s: nat, rel: nat, loc: nat, started: bool)

  predicate Reached(plans: seq<Plan>, f: Bounds, c: Call)
    requires Sound(plans, c)
  {
    match c
    case Start => f.started
    case ToCompute(i) => Index(plans, i) < f.s2c
    case ComputeAt(i) => Index(plans, i) < f.comp
    case ToStorage(i) => Index(plans, i) < f.c2s
    case ReleaseAt(i) => Index(plans, i) < f.rel
    case LocalAt(i) => i < f.loc
  }

  ghost predicate Front(plans: seq<Plan>, b: Book, f: Bounds) {
    forall c | Sound(plans, c) :: c in b <==> Reached(plans, f, c)
  }

  /** Where an event of bucket `i` is recorded. */
  function RecordPlace(b: Book, event: Event, i: nat): nat {
    match event
    case InputReady => At(b, ToCompute(i)) + 2
    case ComputeDone => At(b, ComputeAt(i)) + 3
    case Done => At(b, ToStorage(i)) + 3
  }

  /** The events of the redistributed buckets `lo` to `hi` stand for their own records. */
  ghost predicate Current(plans: seq<Plan>, n: nat, recorded: map<(Event, nat), nat>, b: Book,
                          event: Event, lo: nat, hi: nat)
    requires n > 0
  {
    forall i: nat | i < |plans| && plans[i].Redistributed? && lo <= Index(plans, i) < hi ::
      (event, Slot(plans, n, i)) in recorded && recorded[(event, Slot(plans, n, i))] == RecordPlace(b, event, i)
  }

  /** Every event that is still to be waited for stands for the record of the bucket that
      will wait for it. */
  ghost predicate EventsCurrent(plans: seq<Plan>, n: nat, recorded: map<(Event, nat), nat>, b: Book, f: Bounds)
    requires n > 0
  {
    && Current(plans, n, recorded, b, InputReady, f.comp, f.s2c)
    && Current(plans, n, recorded, b, ComputeDone, f.c2s, f.comp)
    && Current(plans, n, recorded, b, Done, f.rel, f.c2s)
  }

  ghost predicate Known(plans: seq<Plan>, n: nat, log: seq<Entry>, recorded: map<(Event, nat), nat>, b: Book, f: Bounds)
    requires n > 0
  {
    && Booked(plans, n, log, b) && Front(plans, b, f) && EventsCurrent(plans, n, recorded, b, f)
    && f.rel <= f.c2s <= f.comp <= f.s2c <= f.c2s + n
  }

  lemma SlotsDiffer(plans: seq<Plan>, n: nat, i: nat, j: nat)
    requires n > 0 && i <= |plans| && j <= |plans|
    requires Index(plans, i) < Index(plans, j) < Index(plans, i) + n
    ensures Slot(plans, n, i) != Slot(plans, n, j)
  {
    RemaindersDiffer(Index(plans, i), Index(plans, j), n);
  }

  lemma InOrder(plans: seq<Plan>, i: nat)
    requires i < |plans| && plans[i].Redistributed?
    ensures forall j: nat | j <= |plans| && i < j :: Index(plans, i) < Index(plans, j)
    ensures forall j: nat | j < i :: Index(plans, j) <= Index(plans, i)
    ensures forall j: nat | j < i && plans[j].Redistributed? :: Index(plans, j) < Index(plans, i)
  {
    forall j: nat | j <= |plans| && i < j ensures Index(plans, i) < Index(plans, j) {
      IndexGrows(plans, i, j);
    }
    forall j: nat | j < i
      ensures Index(plans, j) <= Index(plans, i) && (plans[j].Redistributed? ==> Index(plans, j) < Index(plans, i))
    {
      IndexGrows(plans, j, i);
    }
  }

  /** Recording an event for the next bucket leaves the ones before it, which are in other
      slots, and other events alone. */
  lemma RecordNext(plans: seq<Plan>, n: nat, recorded: map<(Event, nat), nat>, b: Book, b': Book, event: Event, i: nat,
                   lo: nat, hi: nat)
    requires n > 0 && Current(plans, n, recorded, b, event, lo, hi)
    requires i < |plans| && plans[i].Redistributed? && Index(plans, i) == hi < lo + n
    requires forall j | j != i :: RecordPlace(b', event, j) == RecordPlace(b, event, j)
    ensures Current(plans, n, recorded[(event, Slot(plans, n, i)) := RecordPlace(b', event, i)], b', event, lo, hi + 1)
  {
    InOrder(plans, i);
    forall j: nat | j < |plans| && plans[j].Redistributed? && lo <= Index(plans, j) < hi
      ensures Slot(plans, n, j) != Slot(plans, n, i)
    {
      SlotsDiffer(plans, n, j, i);
    }
    hide Index, Slot, RecordPlace;
  }

  lemma RecordOther(plans: seq<Plan>, n: nat, recorded: map<(Event, nat), nat>, b: Book, b': Book, event: Event,
                    lo: nat, hi: nat, key: (Event, nat), k: nat)
    requires n > 0 && Current(plans, n, recorded, b, event, lo, hi) && key.0 != event
    requires forall j :: RecordPlace(b', event, j) == RecordPlace(b, event, j)
    ensures Current(plans, n, recorded[key := k], b', event, lo, hi)
  {
    hide Index, Slot, RecordPlace;
  }

  /** It is the turn of `c`: all it needs is reached, nothing that must come later is, and it
      brings the run from `f` to `f'`. */
  ghost predicate Turn(plans: seq<Plan>, n: nat, f: Bounds, c: Call, f': Bounds) {
    && Sound(plans, c) && !Reached(plans, f, c)
    && (forall d | Sound(plans, d) && First(plans, n, c, d) :: !Reached(plans, f, d))
    && (forall d | Sound(plans, d) && Needs(plans, n, d, c) :: Reached(plans, f, d))
    && (forall d | Sound(plans, d) :: Reached(plans, f', d) <==> Reached(plans, f, d) || d == c)
  }

  lemma TakeTurn(plans: seq<Plan>, n: nat, log: seq<Entry>, b: Book, f: Bounds, c: Call, f': Bounds)
    requires n > 0 && Booked(plans, n, log, b) && Front(plans, b, f) && Turn(plans, n, f, c, f')
    ensures c !in b
    ensures Booked(plans, n, log + BlockOf(plans, n, b, c), b[c := |log|])
    ensures Front(plans, b[c := |log|], f')
  {
    hide Reached, Needs, First, BlockOf;
    Queue(plans, n, log, b, c);
    hide Booked, Sound;
  }

  lemma StartTurn(plans: seq<Plan>, n: nat, f: Bounds)
    requires !f.started && f.rel <= f.c2s <= f.comp <= f.s2c == 0 && f.loc <= |plans| && Index(plans, f.loc) == 0
    ensures Turn(plans, n, f, Start, f.(started := true))
  {
    forall d | Sound(plans, d) && First(plans, n, Start, d) ensures !Reached(plans, f, d) {
      if d.LocalAt? && d.i <= f.loc {
        IndexGrows(plans, d.i, f.loc);
      }
    }
  }

  lemma LocalTurn(plans: seq<Plan>, n: nat, f: Bounds)
    requires f.loc < |plans| && plans[f.loc].LocalPlan?
    requires f.comp <= f.s2c <= Index(plans, f.loc) && (f.started <==> Index(plans, f.loc) > 0)
    ensures Turn(plans, n, f, LocalAt(f.loc), f.(loc := f.loc + 1))
  {
    forall d | Sound(plans, d) && First(plans, n, LocalAt(f.loc), d) ensures !Reached(plans, f, d) {
      if (d.ToCompute? || d.ComputeAt?) && f.loc < d.i {
        IndexGrows(plans, f.loc, d.i);
      }
    }
  }

  lemma ToComputeTurn(plans: seq<Plan>, n: nat, f: Bounds, i: nat)
    requires n > 0 && f.started && f.rel <= f.c2s <= f.comp <= f.s2c < f.c2s + n
    requires i < |plans| && plans[i].Redistributed? && Index(plans, i) == f.s2c
    requires n > 1 && f.c2s > 0 ==> f.c2s < f.s2c
    ensures Turn(plans, n, f, ToCompute(i), f.(s2c := f.s2c + 1))
  {
    InOrder(plans, i);
    hide Index;
  }

  lemma ComputeTurn(plans: seq<Plan>, n: nat, f: Bounds, i: nat)
    requires n > 0 && f.rel <= f.c2s <= f.comp < f.s2c
    requires i < |plans| && plans[i].Redistributed? && Index(plans, i) == f.comp && f.loc <= i + 1
    ensures Turn(plans, n, f, ComputeAt(i), f.(comp := f.comp + 1))
  {
    InOrder(plans, i);
    hide Index;
  }

  lemma ToStorageTurn(plans: seq<Plan>, n: nat, f: Bounds, i: nat)
    requires n > 0 && f.rel <= f.c2s < f.comp <= f.s2c <= f.c2s + n
    requires i < |plans| && plans[i].Redistributed? && Index(plans, i) == f.c2s
    ensures Turn(plans, n, f, ToStorage(i), f.(c2s := f.c2s + 1))
  {
    InOrder(plans, i);
    hide Index;
  }

  lemma ReleaseTurn(plans: seq<Plan>, n: nat, f: Bounds, i: nat)
    requires n > 0 && i < |plans| && plans[i].Redistributed? && Index(plans, i) == f.rel < f.c2s
    ensures Turn(plans, n, f, ReleaseAt(i), f.(rel := f.rel + 1))
  {
    InOrder(plans, i);
    hide Index;
  }

  lemma KnowStart(plans: seq<Plan>, n: nat, log: seq<Entry>, recorded: map<(Event, nat), nat>, b: Book, f: Bounds)
    requires n > 0 && Known(plans, n, log, recorded, b, f)
    requires !f.started && f.s2c == 0 && f.loc <= |plans| && Index(plans, f.loc) == 0
    ensures Known(plans, n, log + [AwaitStream(Transfer)], recorded, b[Start := |log|], f.(started := true))
  {
    hide Booked, Front, Index, Slot;
    StartTurn(plans, n, f);
    hide Turn;
    TakeTurn(plans, n, log, b, f, Start, f.(started := true));
  }

  lemma KnowLocal(plans: seq<Plan>, n: nat, log: seq<Entry>, recorded: map<(Event, nat), nat>, b: Book, f: Bounds)
    requires n > 0 && Known(plans, n, log, recorded, b, f) && f.loc < |plans| && plans[f.loc].LocalPlan?
    requires f.s2c <= Index(plans, f.loc) && (f.started <==> Index(plans, f.loc) > 0)
    ensures Known(plans, n, log + [Do(Caller, Local(f.loc))], recorded,
        b[LocalAt(f.loc) := |log|], f.(loc := f.loc + 1))
  {
    hide Booked, Front, Index, Slot;
    LocalTurn(plans, n, f);
    hide Turn;
    TakeTurn(plans, n, log, b, f, LocalAt(f.loc), f.(loc := f.loc + 1));
  }

  /** A redistributed plan has no local work. */
  lemma KnowNoLocal(plans: seq<Plan>, n: nat, log: seq<Entry>, recorded: map<(Event, nat), nat>, b: Book, f: Bounds)
    requires n > 0 && Known(plans, n, log, recorded, b, f) && f.loc < |plans| && plans[f.loc].Redistributed?
    ensures Known(plans, n, log, recorded, b, f.(loc := f.loc + 1))
  {
    hide Booked, Index, Slot;
  }

  lemma KnowToCompute(plans: seq<Plan>, n: nat, log: seq<Entry>, recorded: map<(Event, nat), nat>,
                      b: Book, f: Bounds, i: nat)
    requires n > 0 && Known(plans, n, log, recorded, b, f) && f.started
    requires i < |plans| && plans[i].Redistributed? && Index(plans, i) == f.s2c < f.c2s + n
    requires n > 1 && f.c2s > 0 ==> f.c2s < f.s2c
    ensures Known(plans, n, log + StorageToCompute(i, Slot(plans, n, i)),
                  recorded[(InputReady, Slot(plans, n, i)) := |log| + 2],
                      b[ToCompute(i) := |log|], f.(s2c := f.s2c + 1))
  {
    hide Booked, Front;
    var f' := f.(s2c := f.s2c + 1);
    assert Turn(plans, n, f, ToCompute(i), f') by {
      ToComputeTurn(plans, n, f, i);
    }
    hide Turn;
    TakeTurn(plans, n, log, b, f, ToCompute(i), f');
    var b', key := b[ToCompute(i) := |log|], (InputReady, Slot(plans, n, i));
    hide Index, Slot;
    RecordNext(plans, n, recorded, b, b', InputReady, i, f.comp, f.s2c);
    RecordOther(plans, n, recorded, b, b', ComputeDone, f.c2s, f.comp, key, |log| + 2);
    RecordOther(plans, n, recorded, b, b', Done, f.rel, f.c2s, key, |log| + 2);
    hide Current;
  }

  lemma KnowCompute(plans: seq<Plan>, n: nat, log: seq<Entry>, recorded: map<(Event, nat), nat>,
                    b: Book, f: Bounds, i: nat)
    requires n > 0 && Known(plans, n, log, recorded, b, f)
    requires i < |plans| && plans[i].Redistributed? && Index(plans, i) == f.comp < f.s2c && f.loc <= i + 1
    ensures (InputReady, Slot(plans, n, i)) in recorded
    ensures Known(plans, n, log + ComputeOn(i, Slot(plans, n, i), recorded[(InputReady, Slot(plans, n, i))]),
                  recorded[(ComputeDone, Slot(plans, n, i)) := |log| + 3],
                      b[ComputeAt(i) := |log|], f.(comp := f.comp + 1))
  {
    hide Booked, Front;
    var f' := f.(comp := f.comp + 1);
    assert Turn(plans, n, f, ComputeAt(i), f') by {
      ComputeTurn(plans, n, f, i);
    }
    hide Turn;
    TakeTurn(plans, n, log, b, f, ComputeAt(i), f');
    var b', key := b[ComputeAt(i) := |log|], (ComputeDone, Slot(plans, n, i));
    hide Index, Slot;
    RecordNext(plans, n, recorded, b, b', ComputeDone, i, f.c2s, f.comp);
    RecordOther(plans, n, recorded, b, b', InputReady, f.comp + 1, f.s2c, key, |log| + 3);
    RecordOther(plans, n, recorded, b, b', Done, f.rel, f.c2s, key, |log| + 3);
    hide Current;
  }

  lemma KnowToStorage(plans: seq<Plan>, n: nat, log: seq<Entry>, recorded: map<(Event, nat), nat>,
                      b: Book, f: Bounds, i: nat)
    requires n > 0 && Known(plans, n, log, recorded, b, f)
    requires i < |plans| && plans[i].Redistributed? && Index(plans, i) == f.c2s < f.comp
    requires f.c2s < f.rel + n
    ensures (ComputeDone, Slot(plans, n, i)) in recorded
    ensures Known(plans, n, log + ComputeToStorage(i, Slot(plans, n, i), recorded[(ComputeDone, Slot(plans, n, i))]),
                  recorded[(Done, Slot(plans, n, i)) := |log| + 3], b[ToStorage(i) := |log|], f.(c2s := f.c2s + 1))
  {
    hide Booked, Front;
    var f' := f.(c2s := f.c2s + 1);
    assert Turn(plans, n, f, ToStorage(i), f') by {
      ToStorageTurn(plans, n, f, i);
    }
    hide Turn;
    TakeTurn(plans, n, log, b, f, ToStorage(i), f');
    var b', key := b[ToStorage(i) := |log|], (Done, Slot(plans, n, i));
    hide Index, Slot;
    RecordNext(plans, n, recorded, b, b', Done, i, f.rel, f.c2s);
    RecordOther(plans, n, recorded, b, b', InputReady, f.comp, f.s2c, key, |log| + 3);
    RecordOther(plans, n, recorded, b, b', ComputeDone, f.c2s + 1, f.comp, key, |log| + 3);
    hide Current;
  }

  lemma KnowRelease(plans: seq<Plan>, n: nat, log: seq<Entry>, recorded: map<(Event, nat), nat>,
                    b: Book, f: Bounds, i: nat)
    requires n > 0 && Known(plans, n, log, recorded, b, f)
    requires i < |plans| && plans[i].Redistributed? && Index(plans, i) == f.rel < f.c2s
    ensures (Done, Slot(plans, n, i)) in recorded
    ensures Known(plans, n, log + [Await(Caller, recorded[(Done, Slot(plans, n, i))])],
                  recorded, b[ReleaseAt(i) := |log|], f.(rel := f.rel + 1))
  {
    hide Booked, Front, Index, Slot;
    var f' := f.(rel := f.rel + 1);
    ReleaseTurn(plans, n, f, i);
    hide Turn;
    TakeTurn(plans, n, log, b, f, ReleaseAt(i), f');
  }
}
