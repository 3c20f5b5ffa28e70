/** What a complete run guarantees: every execution of its two streams has the effect of the
    buckets one by one, between what the caller queued before and what it queues after. */
module PipelineSafety {
  import opened StreamOps
  import opened StreamLog
  import opened RedistributionPipeline
  import opened PipelineRun

  // ----- The buckets one by one

  function Steps(plans: seq<Plan>, n: nat, i: nat): seq<Op>
    requires n > 0 && i < |plans|
  {
    if plans[i].LocalPlan? then [Local(i)]
    else
      var s := Slot(plans, n, i);
      [Prepare(i, s), ExchangeIn(i, s), Rest(i, s), Compute(i, s), ExchangeOut(i, s), Finalize(i, s)]
  }

  /** The work of the first `p` plans, one after the other. */
  function OneByOne(plans: seq<Plan>, n: nat, p: nat): seq<Op>
    requires n > 0 && p <= |plans|
  {
    if p == 0 then [] else OneByOne(plans, n, p - 1) + Steps(plans, n, p - 1)
  }

  function Phase(x: Op): nat {
    match x
    case Local(_) => 0
    case Prepare(_, _) => 0
    case ExchangeIn(_, _) => 1
    case Rest(_, _) => 2
    case Compute(_, _) => 3
    case ExchangeOut(_, _) => 4
    case Finalize(_, _) => 5
  }

  predicate Goes(x: Op, y: Op) {
    x.i < y.i || (x.i == y.i && Phase(x) < Phase(y))
  }

  /** Work of the plans, in their slots. */
  predicate IsWork(plans: seq<Plan>, n: nat, x: Op)
    requires n > 0
  {
    x.i < |plans| && if x.Local? then plans[x.i].LocalPlan? else plans[x.i].Redistributed? && x.s == Slot(plans, n, x.i)
  }

  lemma StepsAre(plans: seq<Plan>, n: nat, i: nat)
    requires n > 0 && i < |plans|
    ensures forall x :: x in Steps(plans, n, i) <==> IsWork(plans, n, x) && x.i == i
    ensures forall a, c | 0 <= a < c < |Steps(plans, n, i)| :: Goes(Steps(plans, n, i)[a], Steps(plans, n, i)[c])
  {
    hide Slot;
    var steps := Steps(plans, n, i);
    forall x | IsWork(plans, n, x) && x.i == i ensures x in steps {
      assert x == steps[Phase(x)];
    }
  }

  lemma {:induction false} OneByOneIs(plans: seq<Plan>, n: nat, p: nat)
    requires n > 0 && p <= |plans|
    ensures forall x :: x in OneByOne(plans, n, p) <==> IsWork(plans, n, x) && x.i < p
    ensures forall a, c | 0 <= a < c < |OneByOne(plans, n, p)| ::
        Goes(OneByOne(plans, n, p)[a], OneByOne(plans, n, p)[c])
  {
    hide Slot, IsWork, Steps, Phase;
    if p > 0 {
      OneByOneIs(plans, n, p - 1);
      StepsAre(plans, n, p - 1);
      var before, steps := OneByOne(plans, n, p - 1), Steps(plans, n, p - 1);
      var all := before + steps;
      forall a, c | 0 <= a < c < |all| ensures Goes(all[a], all[c]) {
        assert a < |before| ==> all[a] in before;
        assert c >= |before| ==> all[c] in steps && all[c] == steps[c - |before|];
      }
    }
  }

  // ----- Where the work is

  function CallOf(x: Op): Call {
    match x
    case Local(i) => LocalAt(i)
    case Prepare(i, _) => ToCompute(i)
    case ExchangeIn(i, _) => ToCompute(i)
    case Rest(i, _) => ComputeAt(i)
    case Compute(i, _) => ComputeAt(i)
    case ExchangeOut(i, _) => ToStorage(i)
    case Finalize(i, _) => ToStorage(i)
  }

  function OffsetOf(x: Op): nat {
    match x
    case Local(_) => 0
    case Prepare(_, _) => 0
    case ExchangeIn(_, _) => 1
    case Rest(_, _) => 0
    case Compute(_, _) => 2
    case ExchangeOut(_, _) => 1
    case Finalize(_, _) => 2
  }

  function StreamOf(x: Op): Stream {
    if x.Local? || x.Rest? || x.Compute? then Caller else Transfer
  }

  /** Every entry after the first is part of the block of a booked call. */
  lemma Home(plans: seq<Plan>, n: nat, log: seq<Entry>, b: Book, q: nat) returns (c: Call)
    requires n > 0 && Booked(plans, n, log, b) && 0 < q < |log|
    ensures c in b && Sound(plans, c) && b[c] <= q < b[c] + Size(c)
    ensures log[q] == BlockOf(plans, n, b, c)[q - b[c]]
  {
    hide Needs, First, BlockOf, Index, Slot;
    assert Covered(b, q);
    c :| Covers(b, c, q);
    var o: nat := q - b[c];
    assert log[b[c] + o] == BlockOf(plans, n, b, c)[o];
  }

  lemma WorkPlace(plans: seq<Plan>, n: nat, log: seq<Entry>, b: Book, q: nat)
    requires n > 0 && Booked(plans, n, log, b) && q < |log| && log[q].Do?
    ensures IsWork(plans, n, log[q].op) && log[q].stream == StreamOf(log[q].op)
    ensures CallOf(log[q].op) in b && q == b[CallOf(log[q].op)] + OffsetOf(log[q].op)
  {
    hide Index, Slot, First, Needs, Sits, Covered;
    assert log[0] == Prior(Caller);
    var c := Home(plans, n, log, b, q);
    hide Booked;
  }

  lemma WorkIsThere(plans: seq<Plan>, n: nat, log: seq<Entry>, b: Book, x: Op)
    requires n > 0 && Booked(plans, n, log, b) && IsWork(plans, n, x) && CallOf(x) in b
    ensures b[CallOf(x)] + OffsetOf(x) < |log|
    ensures log[b[CallOf(x)] + OffsetOf(x)] == Do(StreamOf(x), x)
  {
    hide Index, Slot, First, Needs, Covered;
    assert BlockOf(plans, n, b, CallOf(x))[OffsetOf(x)] == Do(StreamOf(x), x);
  }

  lemma EntryAt(plans: seq<Plan>, n: nat, log: seq<Entry>, b: Book, c: Call, o: nat)
    requires n > 0 && Booked(plans, n, log, b) && c in b && o < Size(c)
    ensures Sound(plans, c) && b[c] + o < |log| && log[b[c] + o] == BlockOf(plans, n, b, c)[o]
  {
    hide Index, Slot, First, Needs, Covered, BlockOf;
  }

  lemma QueuedFirst(plans: seq<Plan>, n: nat, log: seq<Entry>, b: Book, c: Call, d: Call)
    requires n > 0 && Booked(plans, n, log, b) && c in b && d in b && Sound(plans, c) && Sound(plans, d)
    requires First(plans, n, c, d)
    ensures b[c] + Size(c) <= b[d]
  {
    hide Index, First, Needs, Covered, BlockOf, Sits, Sound;
  }

  lemma QueuedNeeds(plans: seq<Plan>, n: nat, log: seq<Entry>, b: Book, c: Call, d: Call)
    requires n > 0 && Booked(plans, n, log, b) && d in b && Sound(plans, c) && Sound(plans, d) && Needs(plans, n, c, d)
    ensures c in b && b[c] + Size(c) <= b[d]
  {
    hide Index, Needs, Covered, BlockOf, Sits, Sound;
  }

  // ----- Conflicting work is ordered

  lemma Touching(plans: seq<Plan>, n: nat, x: Op, y: Op)
    requires n > 0 && IsWork(plans, n, x) && IsWork(plans, n, y) && Conflict(x, y)
    ensures x.i == y.i || StreamOf(x) == StreamOf(y) == Caller || (!x.Local? && !y.Local? && x.s == y.s)
    ensures StreamOf(x) == Transfer && StreamOf(y) == Caller ==> y.Compute?
    ensures StreamOf(x) == Caller && StreamOf(y) == Transfer ==> x.Compute?
  {
    hide Slot;
    if Writes(x) * Writes(y) != {} {
      var r :| r in Writes(x) && r in Writes(y);
    } else if Writes(x) * Reads(y) != {} {
      var r :| r in Writes(x) && r in Reads(y);
    } else {
      var r :| r in Reads(x) && r in Writes(y);
    }
  }

  /** A slot is handed on only after its bucket has been sent back. */
  lemma Handover(plans: seq<Plan>, n: nat, log: seq<Entry>, b: Book, i: nat, j: nat)
    requires n > 0 && Booked(plans, n, log, b) && i < j < |plans| && plans[i].Redistributed? && ToCompute(j) in b
    requires Slot(plans, n, i) == Slot(plans, n, j)
    ensures ToStorage(i) in b && b[ToStorage(i)] + 4 <= b[ToCompute(j)]
  {
    hide Booked, Index;
    IndexGrows(plans, i, j);
    if Index(plans, j) < Index(plans, i) + n {
      SlotsDiffer(plans, n, i, j);
    }
    assert Sound(plans, ToCompute(j)) by {
      EntryAt(plans, n, log, b, ToCompute(j), 0);
    }
    QueuedNeeds(plans, n, log, b, ToStorage(i), ToCompute(j));
  }

  /** The three calls for a bucket, in order. */
  lemma InTurn(plans: seq<Plan>, n: nat, log: seq<Entry>, b: Book, i: nat)
    requires n > 0 && Booked(plans, n, log, b) && i < |plans| && plans[i].Redistributed?
    ensures ToStorage(i) in b ==> ComputeAt(i) in b && b[ComputeAt(i)] + 4 <= b[ToStorage(i)]
    ensures ComputeAt(i) in b ==> ToCompute(i) in b && b[ToCompute(i)] + 3 <= b[ComputeAt(i)]
    ensures ToCompute(i) in b ==> Start in b && b[Start] < b[ToCompute(i)]
  {
    hide Booked, Index;
    if ToStorage(i) in b {
      QueuedNeeds(plans, n, log, b, ComputeAt(i), ToStorage(i));
    }
    if ComputeAt(i) in b {
      QueuedNeeds(plans, n, log, b, ToCompute(i), ComputeAt(i));
    }
    if ToCompute(i) in b {
      QueuedNeeds(plans, n, log, b, Start, ToCompute(i));
    }
  }

  /** What the transfer stream queued up to a bucket's input is done before the bucket is
      computed. */
  lemma InputIsReady(plans: seq<Plan>, n: nat, log: seq<Entry>, b: Book, p: nat, j: nat)
    requires n > 0 && Booked(plans, n, log, b) && j < |plans| && plans[j].Redistributed? && ComputeAt(j) in b
    requires ToCompute(j) in b
    requires p <= b[ToCompute(j)] + 2 && p < |log| && log[p].stream == Transfer
    ensures Ordered(log, p, b[ComputeAt(j)] + 2)
  {
    hide Booked, Index, Slot, Ordered;
    InTurn(plans, n, log, b, j);
    EntryAt(plans, n, log, b, ToCompute(j), 2);
    EntryAt(plans, n, log, b, ComputeAt(j), 1);
    EntryAt(plans, n, log, b, ComputeAt(j), 2);
    ThroughEvent(log, p, b[ToCompute(j)] + 2, b[ComputeAt(j)] + 1, b[ComputeAt(j)] + 2);
  }

  /** What the caller stream queued up to a bucket's compute is done before the transfer
      stream sends the bucket back, and before all it does later. */
  lemma ResultIsReady(plans: seq<Plan>, n: nat, log: seq<Entry>, b: Book, i: nat, p: nat, q: nat)
    requires n > 0 && Booked(plans, n, log, b) && i < |plans| && plans[i].Redistributed? && ToStorage(i) in b
    requires ComputeAt(i) in b
    requires p <= b[ComputeAt(i)] + 3 && p < |log| && log[p].stream == Caller
    requires b[ToStorage(i)] <= q < |log| && log[q].stream == Transfer
    ensures Ordered(log, p, q)
  {
    hide Booked, Index, Slot, Ordered;
    InTurn(plans, n, log, b, i);
    EntryAt(plans, n, log, b, ComputeAt(i), 3);
    EntryAt(plans, n, log, b, ToStorage(i), 0);
    ThroughEvent(log, p, b[ComputeAt(i)] + 3, b[ToStorage(i)], q);
  }

  /** Work on the caller stream is queued in the order of the plans. */
  lemma CallerOrder(plans: seq<Plan>, n: nat, log: seq<Entry>, b: Book, x: Op, y: Op)
    requires n > 0 && Booked(plans, n, log, b) && IsWork(plans, n, x) && IsWork(plans, n, y) && Goes(x, y)
    requires CallOf(x) in b && CallOf(y) in b && StreamOf(x) == StreamOf(y) == Caller
    ensures b[CallOf(x)] + OffsetOf(x) < b[CallOf(y)] + OffsetOf(y)
  {
    hide Booked, Index, Slot;
    if x.i < y.i {
      QueuedFirst(plans, n, log, b, CallOf(x), CallOf(y));
    }
  }

  /** The transfer stream deals with one bucket, and with buckets in one slot, in order. */
  lemma TransferOrder(plans: seq<Plan>, n: nat, log: seq<Entry>, b: Book, x: Op, y: Op)
    requires n > 0 && Booked(plans, n, log, b) && IsWork(plans, n, x) && IsWork(plans, n, y) && Goes(x, y)
    requires CallOf(x) in b && CallOf(y) in b && StreamOf(x) == StreamOf(y) == Transfer && (x.i == y.i || x.s == y.s)
    ensures b[CallOf(x)] + OffsetOf(x) < b[CallOf(y)] + OffsetOf(y)
  {
    hide Booked, Index, Slot;
    InTurn(plans, n, log, b, x.i);
    InTurn(plans, n, log, b, y.i);
    if x.i < y.i {
      Handover(plans, n, log, b, x.i, y.i);
    }
  }

  lemma Race(plans: seq<Plan>, n: nat, log: seq<Entry>, b: Book, p: nat, q: nat)
    requires n > 0 && Booked(plans, n, log, b) && p < |log| && q < |log| && log[p].Do? && log[q].Do?
    requires Conflict(log[p].op, log[q].op) && Goes(log[p].op, log[q].op)
    ensures Ordered(log, p, q)
  {
    hide Booked, Index, Slot, Ordered, Conflict, IsWork;
    var x, y := log[p].op, log[q].op;
    WorkPlace(plans, n, log, b, p);
    WorkPlace(plans, n, log, b, q);
    Touching(plans, n, x, y);
    if StreamOf(x) == Caller && StreamOf(y) == Caller {
      CallerOrder(plans, n, log, b, x, y);
      InStreamOrder(log, p, q);
    } else if StreamOf(x) == Transfer && StreamOf(y) == Transfer {
      TransferOrder(plans, n, log, b, x, y);
      InStreamOrder(log, p, q);
    } else {
      CrossStreams(plans, n, log, b, p, q);
    }
  }

  lemma CrossStreams(plans: seq<Plan>, n: nat, log: seq<Entry>, b: Book, p: nat, q: nat)
    requires n > 0 && Booked(plans, n, log, b) && p < |log| && q < |log| && log[p].Do? && log[q].Do?
    requires Goes(log[p].op, log[q].op) && StreamOf(log[p].op) != StreamOf(log[q].op)
    requires StreamOf(log[p].op) == Transfer ==> log[q].op.Compute?
    requires StreamOf(log[q].op) == Transfer ==> log[p].op.Compute?
    requires log[p].op.i == log[q].op.i || (!log[p].op.Local? && !log[q].op.Local? && log[p].op.s == log[q].op.s)
    ensures Ordered(log, p, q)
  {
    hide Booked, Index, Slot, Ordered;
    var x, y := log[p].op, log[q].op;
    WorkPlace(plans, n, log, b, p);
    WorkPlace(plans, n, log, b, q);
    InTurn(plans, n, log, b, x.i);
    InTurn(plans, n, log, b, y.i);
    if x.i < y.i {
      Handover(plans, n, log, b, x.i, y.i);
    }
    if StreamOf(x) == Transfer {
      InputIsReady(plans, n, log, b, p, y.i);
    } else {
      ResultIsReady(plans, n, log, b, x.i, p, q);
    }
  }

  // ----- The whole run

  lemma AllQueued(plans: seq<Plan>, n: nat, log: seq<Entry>, b: Book, x: Op)
    requires n > 0 && Booked(plans, n, log, b) && Front(plans, b, Complete(plans))
    ensures IsQueued(log, x) <==> IsWork(plans, n, x)
  {
    hide Booked, Slot;
    if IsWork(plans, n, x) {
      IndexGrows(plans, x.i, |plans|);
      assert Sound(plans, CallOf(x)) && Reached(plans, Complete(plans), CallOf(x));
      WorkIsThere(plans, n, log, b, x);
    }
    if p :| 0 <= p < |log| && log[p].Do? && log[p].op == x {
      WorkPlace(plans, n, log, b, p);
    }
  }

  /** A complete run is safe: its work is that of the buckets, and what conflicts is ordered as
      if they ran one by one. */
  lemma RunIsSafe(plans: seq<Plan>, n: nat, log: seq<Entry>, b: Book)
    requires n > 0 && Booked(plans, n, log, b) && Front(plans, b, Complete(plans))
    ensures SafeFor(log, OneByOne(plans, n, |plans|))
  {
    hide Booked, Front, Complete, IsWork, Ordered, Conflict, OneByOne, IsQueued, Phase;
    var reference := OneByOne(plans, n, |plans|);
    OneByOneIs(plans, n, |plans|);
    forall p, q | 0 <= p < q < |log| && log[p].Do? && log[q].Do? ensures log[p].op != log[q].op {
      WorkPlace(plans, n, log, b, p);
      WorkPlace(plans, n, log, b, q);
    }
    forall x ensures x in reference <==> IsQueued(log, x) {
      AllQueued(plans, n, log, b, x);
      WorkInRange(plans, n, x);
    }
    forall p: nat, q: nat | p < |log| && q < |log| && log[p].Do? && log[q].Do? && Conflict(log[p].op, log[q].op)
                            && Precedes(reference, log[p].op, log[q].op)
      ensures Ordered(log, p, q)
    {
      Race(plans, n, log, b, p, q);
    }
  }

  lemma WorkInRange(plans: seq<Plan>, n: nat, x: Op)
    requires n > 0
    ensures IsWork(plans, n, x) ==> x.i < |plans|
  {
  }

  /** Every execution of a complete run does the work of the buckets once and leaves the
      memory that the buckets one by one would leave. */
  lemma RunsAsOneByOne<V>(f: Effect<V>, plans: seq<Plan>, n: nat, log: seq<Entry>, b: Book, order: seq<nat>, m: Mem<V>)
    requires n > 0 && Booked(plans, n, log, b) && Front(plans, b, Complete(plans)) && Execution(log, order)
    requires forall i :: 0 <= i < |order| ==> order[i] < |log|
    ensures Distinct(Work(log, order)) && forall x :: x in Work(log, order) <==> x in OneByOne(plans, n, |plans|)
    ensures Exec(f, Work(log, order), m) == Exec(f, OneByOne(plans, n, |plans|), m)
  {
    RunIsSafe(plans, n, log, b);
    ExecutionsAgree(f, log, order, OneByOne(plans, n, |plans|), m);
  }

  /** Nothing of the run starts before what the caller queued before it is done. */
  lemma AfterPrior(plans: seq<Plan>, n: nat, log: seq<Entry>, b: Book, q: nat)
    requires n > 0 && Booked(plans, n, log, b) && q < |log|
    ensures Ordered(log, 0, q)
  {
    hide Index, Slot, Ordered, First, Needs, Covered, Sits;
    if log[q].stream == Caller {
      InStreamOrder(log, 0, q);
    } else {
      var c := Home(plans, n, log, b, q);
      hide Booked;
      if c.ToCompute? || c.ToStorage? {
        InTurn(plans, n, log, b, c.i);
      }
      EntryAt(plans, n, log, b, Start, 0);
      OrderedByEdge(log, 0, b[Start]);
      InStreamOrder(log, b[Start], q);
      OrderedTransitive(log, 0, b[Start], q);
    }
  }

  lemma {:induction false} LastRedistributed(plans: seq<Plan>, p: nat) returns (i: nat)
    requires p <= |plans| && Index(plans, p) > 0
    ensures i < p && plans[i].Redistributed? && Index(plans, i) + 1 == Index(plans, p)
  {
    if plans[p - 1].Redistributed? {
      i := p - 1;
    } else {
      i := LastRedistributed(plans, p - 1);
    }
  }

  /** All of a complete run is done before anything the caller queues next. */
  lemma BeforeNext(plans: seq<Plan>, n: nat, log: seq<Entry>, b: Book, e: Entry, q: nat)
    requires n > 0 && Booked(plans, n, log, b) && Front(plans, b, Complete(plans)) && e.stream == Caller && q < |log|
    ensures Ordered(log + [e], q, |log|)
  {
    hide Index, Slot, Ordered, Booked;
    var log' := log + [e];
    if log[q].stream == Caller {
      InStreamOrder(log', q, |log|);
    } else {
      StartsWithPrior(plans, n, log, b);
      var c := Home(plans, n, log, b, q);
      var last := LastSentBack(plans, n, log, b, c);
      InTurn(plans, n, log, b, last);
      QueuedNeeds(plans, n, log, b, ToStorage(last), ReleaseAt(last));
      EntryAt(plans, n, log, b, ToStorage(last), 3);
      EntryAt(plans, n, log, b, ReleaseAt(last), 0);
      ThroughEvent(log', q, b[ToStorage(last)] + 3, b[ReleaseAt(last)], |log|);
    }
  }

  lemma StartsWithPrior(plans: seq<Plan>, n: nat, log: seq<Entry>, b: Book)
    requires n > 0 && Booked(plans, n, log, b)
    ensures |log| > 0 && log[0] == Prior(Caller)
  {
  }

  /** The bucket sent back last: no call on the transfer stream is queued after that. */
  lemma LastSentBack(plans: seq<Plan>, n: nat, log: seq<Entry>, b: Book, c: Call) returns (last: nat)
    requires n > 0 && Booked(plans, n, log, b) && Front(plans, b, Complete(plans))
    requires c in b && Sound(plans, c) && (c.Start? || c.ToCompute? || c.ToStorage?)
    ensures last < |plans| && plans[last].Redistributed? && ToStorage(last) in b && ReleaseAt(last) in b
    ensures b[c] + Size(c) <= b[ToStorage(last)] + 4
  {
    hide Slot, Booked;
    last := LastRedistributed(plans, |plans|);
    assert Reached(plans, Complete(plans), ToStorage(last)) && Reached(plans, Complete(plans), ReleaseAt(last));
    InTurn(plans, n, log, b, last);
    if !c.Start? {
      assert c.i <= last by {
        if last < c.i {
          IndexGrows(plans, last + 1, c.i);
          IndexGrows(plans, c.i, |plans|);
        }
      }
      IndexGrows(plans, c.i, |plans|);
      assert Reached(plans, Complete(plans), ToStorage(c.i));
      InTurn(plans, n, log, b, c.i);
      if c.i < last {
        QueuedFirst(plans, n, log, b, ToStorage(c.i), ToStorage(last));
      }
    }
  }

  // ----- Local buckets as barriers

  /** The host queues a bucket's prepare only after every earlier local bucket. */
  lemma LocalQueuedFirst(plans: seq<Plan>, n: nat, log: seq<Entry>, b: Book, i: nat, j: nat)
    requires n > 0 && Booked(plans, n, log, b) && LocalAt(i) in b && ToCompute(j) in b && i < j
    ensures b[LocalAt(i)] < b[ToCompute(j)]
  {
    hide Index, Slot, Covered, Sits, BlockOf;
    assert First(plans, n, LocalAt(i), ToCompute(j));
  }

  /** On the device that order is kept just when the transfer stream has a wait in between:
      the local bucket comes before every redistributed one, or at least two redistributed
      buckets come between it and the one that is prepared. */
  lemma LocalRunsFirst(plans: seq<Plan>, log: seq<Entry>, b: Book, i: nat, j: nat)
    requires Booked(plans, 2, log, b) && Front(plans, b, Complete(plans))
    requires i < j < |plans| && plans[i].LocalPlan? && plans[j].Redistributed?
    ensures LocalAt(i) in b && ToCompute(j) in b
    ensures Ordered(log, b[LocalAt(i)], b[ToCompute(j)])
        <==> Index(plans, i) == 0 || Index(plans, i) + 2 <= Index(plans, j)
  {
    hide Booked, Slot;
    IndexGrows(plans, j, |plans|);
    assert Reached(plans, Complete(plans), LocalAt(i)) && Reached(plans, Complete(plans), ToCompute(j));
    if Index(plans, i) == 0 || Index(plans, i) + 2 <= Index(plans, j) {
      WaitBetween(plans, log, b, i, j);
    } else {
      NoWaitBetween(plans, log, b, i, j);
    }
  }

  lemma WaitBetween(plans: seq<Plan>, log: seq<Entry>, b: Book, i: nat, j: nat)
    requires Booked(plans, 2, log, b) && i < j < |plans| && plans[i].LocalPlan? && plans[j].Redistributed?
    requires LocalAt(i) in b && ToCompute(j) in b && (Index(plans, i) == 0 || Index(plans, i) + 2 <= Index(plans, j))
    ensures Ordered(log, b[LocalAt(i)], b[ToCompute(j)])
  {
    hide Booked, Ordered, Slot;
    var p, q := b[LocalAt(i)], b[ToCompute(j)];
    InTurn(plans, 2, log, b, j);
    EntryAt(plans, 2, log, b, LocalAt(i), 0);
    EntryAt(plans, 2, log, b, ToCompute(j), 0);
    if Index(plans, i) == 0 {
      QueuedFirst(plans, 2, log, b, LocalAt(i), Start);
      EntryAt(plans, 2, log, b, Start, 0);
      OrderedByEdge(log, p, b[Start]);
      InStreamOrder(log, b[Start], q);
      OrderedTransitive(log, p, b[Start], q);
    } else {
      var m := TwoBack(plans, j);
      if m < i {
        IndexGrows(plans, m, i);
      }
      QueuedNeeds(plans, 2, log, b, ToStorage(m), ToCompute(j));
      InTurn(plans, 2, log, b, m);
      QueuedFirst(plans, 2, log, b, LocalAt(i), ComputeAt(m));
      ResultIsReady(plans, 2, log, b, m, p, q);
    }
  }

  lemma TwoBack(plans: seq<Plan>, j: nat) returns (m: nat)
    requires j <= |plans| && Index(plans, j) >= 2
    ensures m < j && plans[m].Redistributed? && Index(plans, m) + 2 == Index(plans, j)
  {
    m := LastRedistributed(plans, j);
    m := LastRedistributed(plans, m);
  }

  /** What can have run when bucket `j` is prepared and local bucket `i` still waits. */
  ghost function Without(log: seq<Entry>, p: nat, q: nat): set<nat> {
    set k: nat | k < |log| && if log[k].stream == Transfer then k <= q else k < p
  }

  lemma NoWaitBetween(plans: seq<Plan>, log: seq<Entry>, b: Book, i: nat, j: nat)
    requires Booked(plans, 2, log, b) && i < j < |plans| && plans[i].LocalPlan? && plans[j].Redistributed?
    requires LocalAt(i) in b && ToCompute(j) in b && 0 < Index(plans, i) && Index(plans, j) < Index(plans, i) + 2
    ensures !Ordered(log, b[LocalAt(i)], b[ToCompute(j)])
  {
    hide Booked, Slot;
    var p, q := b[LocalAt(i)], b[ToCompute(j)];
    LocalQueuedFirst(plans, 2, log, b, i, j);
    EntryAt(plans, 2, log, b, LocalAt(i), 0);
    EntryAt(plans, 2, log, b, ToCompute(j), 0);
    var ran := Without(log, p, q);
    forall k: nat, l: nat | l in ran && l < |log| && k < |log| && After(log, k, l) ensures k in ran {
      if log[k].stream == Caller && log[l].stream == Transfer {
        TransferWaits(plans, log, b, i, j, k, l);
      }
    }
    assert Closed(log, ran);
    assert q in ran && p !in ran;
  }

  /** All that the transfer stream has waited for by then was queued before the local bucket. */
  lemma TransferWaits(plans: seq<Plan>, log: seq<Entry>, b: Book, i: nat, j: nat, k: nat, l: nat)
    requires Booked(plans, 2, log, b) && i < j < |plans| && plans[i].LocalPlan? && plans[j].Redistributed?
    requires LocalAt(i) in b && ToCompute(j) in b && 0 < Index(plans, i) && Index(plans, j) < Index(plans, i) + 2
    requires k < |log| && l < |log| && After(log, k, l) && log[k].stream == Caller && log[l].stream == Transfer
    requires l <= b[ToCompute(j)]
    ensures k < b[LocalAt(i)]
  {
    hide Booked, Index, Slot, First, Needs;
    var c := Home(plans, 2, log, b, l);
    if c.Start? {
      StartsBeforeLocal(plans, log, b, i);
    } else {
      var m := c.i;
      ToStorageFacts(plans, log, b, i, j, m);
    }
  }

  lemma StartsBeforeLocal(plans: seq<Plan>, log: seq<Entry>, b: Book, i: nat)
    requires Booked(plans, 2, log, b) && i < |plans| && plans[i].LocalPlan? && LocalAt(i) in b && 0 < Index(plans, i)
    ensures Start in b && b[Start] < b[LocalAt(i)]
  {
    hide Booked;
    QueuedNeeds(plans, 2, log, b, Start, LocalAt(i));
  }

  lemma ToStorageFacts(plans: seq<Plan>, log: seq<Entry>, b: Book, i: nat, j: nat, m: nat)
    requires Booked(plans, 2, log, b) && i < j < |plans| && plans[i].LocalPlan? && plans[j].Redistributed?
    requires LocalAt(i) in b && ToCompute(j) in b && Index(plans, j) < Index(plans, i) + 2
    requires m < |plans| && plans[m].Redistributed? && ToStorage(m) in b && b[ToStorage(m)] <= b[ToCompute(j)]
    ensures ComputeAt(m) in b && b[ComputeAt(m)] + 4 <= b[LocalAt(i)]
  {
    hide Booked;
    InTurn(plans, 2, log, b, m);
    if Index(plans, j) == Index(plans, m) + 1 {
      QueuedFirst(plans, 2, log, b, ToCompute(j), ToStorage(m));
    }
    if j < m {
      QueuedFirst(plans, 2, log, b, ToCompute(j), ToCompute(m));
    } else {
      IndexGrows(plans, m, j);
    }
    if i < m {
      IndexGrows(plans, i, m);
    }
    assert m < i;
    QueuedFirst(plans, 2, log, b, ComputeAt(m), LocalAt(i));
  }

  /** With one redistributed bucket on either side of a local one, the second can be prepared
      on the device before the local bucket runs. */
  lemma PreparePassesLocal(log: seq<Entry>, b: Book)
    requires Booked([Redistributed, LocalPlan, Redistributed], 2, log, b)
    requires Front([Redistributed, LocalPlan, Redistributed], b, Complete([Redistributed, LocalPlan, Redistributed]))
    ensures LocalAt(1) in b && ToCompute(2) in b && !Ordered(log, b[LocalAt(1)], b[ToCompute(2)])
  {
    hide Booked, Front, Ordered;
    var plans := [Redistributed, LocalPlan, Redistributed];
    assert Index(plans, 1) == 1 && Index(plans, 2) == 1;
    LocalRunsFirst(plans, log, b, 1, 2);
  }
}
