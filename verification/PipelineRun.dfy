/** The run itself: which call is made when, over any list of bucket plans. */
module PipelineRun {
  import opened Basics
  import opened StreamOps
  import opened StreamLog
  import opened RedistributionPipeline
  import opened Arithmetic

  /** The prefetched buckets are the redistributed ones from plan `p` up to `next`, in
      order, each with the slot of its number. */
  ghost predicate Ahead(plans: seq<Plan>, n: nat, p: nat, next: nat, prefetched: seq<BucketWork>)
    requires n > 0
  {
    && p <= next <= |plans| && |prefetched| == next - p
    && (forall i | p <= i < next :: plans[i].Redistributed? && prefetched[i - p] == BucketWork(i, Slot(plans, n, i)))
  }

  lemma {:induction false} AheadIndex(plans: seq<Plan>, n: nat, p: nat, next: nat, prefetched: seq<BucketWork>)
    requires n > 0 && Ahead(plans, n, p, next, prefetched)
    ensures Index(plans, next) == Index(plans, p) + |prefetched|
    decreases next - p
  {
    if p < next {
      AheadIndex(plans, n, p, next - 1, prefetched[..|prefetched| - 1]);
    }
  }

  lemma AheadMore(plans: seq<Plan>, n: nat, p: nat, next: nat, prefetched: seq<BucketWork>)
    requires n > 0 && Ahead(plans, n, p, next, prefetched) && next < |plans| && plans[next].Redistributed?
    ensures Ahead(plans, n, p, next + 1, prefetched + [BucketWork(next, Slot(plans, n, next))])
    ensures Slot(plans, n, next) == SlotOf(Index(plans, p) + |prefetched|, n)
    ensures Index(plans, next + 1) == Index(plans, next) + 1
  {
    AheadIndex(plans, n, p, next, prefetched);
  }

  lemma AheadFirst(plans: seq<Plan>, n: nat, p: nat, next: nat, prefetched: seq<BucketWork>)
    requires n > 0 && Ahead(plans, n, p, next, prefetched) && prefetched != []
    ensures plans[p].Redistributed? && prefetched[0] == BucketWork(p, Slot(plans, n, p))
    ensures Ahead(plans, n, p + 1, next, prefetched[1..])
  {
  }

  /** The bucket whose update is still to be sent back: the last redistributed one before
      plan `p`. */
  ghost predicate IsPrevious(plans: seq<Plan>, n: nat, p: nat, previous: Option<BucketWork>)
    requires n > 0 && p <= |plans|
  {
    match previous
    case None => Index(plans, p) == 0
    case Some(work) =>
      && work.plan < p && plans[work.plan].Redistributed? && work.slot == Slot(plans, n, work.plan)
      && Index(plans, work.plan) + 1 == Index(plans, p)
  }

  /** The bucket before has the next one's slot just when there is only one. */
  lemma PreviousSlot(plans: seq<Plan>, n: nat, p: nat, work: BucketWork)
    requires n > 0 && p <= |plans| && IsPrevious(plans, n, p, Some(work))
    ensures Index(plans, p) > 0 && (work.slot == SlotOf(Index(plans, p), n) <==> n == 1)
  {
    if n > 1 {
      RemaindersDiffer(Index(plans, p) - 1, Index(plans, p), n);
    }
  }

  function Sent(k: nat): nat {
    if k == 0 then 0 else k - 1
  }

  // ----- The calls, with the book kept

  method Prepare(plans: seq<Plan>, n: nat, streams: Streams, i: nat, slot: nat, ghost b: Book, ghost f: Bounds)
    returns (work: BucketWork, ghost b': Book)
    requires n > 0 && Known(plans, n, streams.log, streams.recorded, b, f) && f.started
    requires i < |plans| && plans[i].Redistributed? && slot == Slot(plans, n, i) && Index(plans, i) == f.s2c < f.c2s + n
    requires n > 1 && f.c2s > 0 ==> f.c2s < f.s2c
    modifies streams
    ensures work == BucketWork(i, slot)
    ensures Known(plans, n, streams.log, streams.recorded, b', f.(s2c := f.s2c + 1))
  {
    hide Known;
    KnowToCompute(plans, n, streams.log, streams.recorded, b, f, i);
    b' := b[ToCompute(i) := |streams.log|];
    work := streams.EnqueueStorageToCompute(i, slot);
  }

  method ComputeNext(plans: seq<Plan>, n: nat, streams: Streams, work: BucketWork, ghost b: Book, ghost f: Bounds)
    returns (ghost b': Book)
    requires n > 0 && Known(plans, n, streams.log, streams.recorded, b, f)
    requires work.plan < |plans| && plans[work.plan].Redistributed? && work.slot == Slot(plans, n, work.plan)
    requires Index(plans, work.plan) == f.comp < f.s2c && f.loc <= work.plan + 1
    modifies streams
    ensures Known(plans, n, streams.log, streams.recorded, b', f.(comp := f.comp + 1))
  {
    hide Known;
    KnowCompute(plans, n, streams.log, streams.recorded, b, f, work.plan);
    b' := b[ComputeAt(work.plan) := |streams.log|];
    streams.ComputeBucket(work);
  }

  method SendBack(plans: seq<Plan>, n: nat, streams: Streams, work: BucketWork, ghost b: Book, ghost f: Bounds)
    returns (ghost b': Book)
    requires n > 0 && Known(plans, n, streams.log, streams.recorded, b, f)
    requires work.plan < |plans| && plans[work.plan].Redistributed? && work.slot == Slot(plans, n, work.plan)
    requires Index(plans, work.plan) == f.c2s < f.comp && f.c2s < f.rel + n
    modifies streams
    ensures Known(plans, n, streams.log, streams.recorded, b', f.(c2s := f.c2s + 1))
  {
    hide Known;
    KnowToStorage(plans, n, streams.log, streams.recorded, b, f, work.plan);
    b' := b[ToStorage(work.plan) := |streams.log|];
    streams.EnqueueComputeToStorage(work);
  }

  method ReleaseLast(plans: seq<Plan>, n: nat, streams: Streams, work: BucketWork, ghost b: Book, ghost f: Bounds)
    returns (ghost b': Book)
    requires n > 0 && Known(plans, n, streams.log, streams.recorded, b, f)
    requires work.plan < |plans| && plans[work.plan].Redistributed? && work.slot == Slot(plans, n, work.plan)
    requires Index(plans, work.plan) == f.rel < f.c2s
    modifies streams
    ensures Known(plans, n, streams.log, streams.recorded, b', f.(rel := f.rel + 1))
  {
    hide Known;
    KnowRelease(plans, n, streams.log, streams.recorded, b, f, work.plan);
    b' := b[ReleaseAt(work.plan) := |streams.log|];
    streams.Release(work);
  }

  // ----- The run

  /** Prepares as many of the redistributed buckets that follow as there are other slots,
      up to the next local bucket. */
  method Prefetch(plans: seq<Plan>, n: nat, streams: Streams, p: nat, k: nat, start: nat,
                  ahead: seq<BucketWork>, ghost from: Book)
    returns (next: nat, prefetched: seq<BucketWork>, ghost b: Book)
    requires n > 0 && Ahead(plans, n, p, start, ahead) && |ahead| < n && k == Index(plans, p) > 0
    requires Known(plans, n, streams.log, streams.recorded, from, Bounds(k + |ahead|, k, k - 1, k - 1, p, true))
    modifies streams
    ensures Ahead(plans, n, p, next, prefetched) && |prefetched| < n
    ensures next == |plans| || plans[next].LocalPlan? || |prefetched| == n - 1
    ensures Known(plans, n, streams.log, streams.recorded, b, Bounds(k + |prefetched|, k, k - 1, k - 1, p, true))
  {
    hide Known, Index, Slot, SlotOf;
    next, prefetched, b := start, ahead, from;
    while |prefetched| < n - 1
      invariant Ahead(plans, n, p, next, prefetched) && |prefetched| < n
      invariant Known(plans, n, streams.log, streams.recorded, b, Bounds(k + |prefetched|, k, k - 1, k - 1, p, true))
      decreases n - |prefetched|
    {
      var slot := SlotOf(k + |prefetched|, n);
      if next >= |plans| || plans[next].LocalPlan? {
        break;
      }
      AheadIndex(plans, n, p, next, prefetched);
      AheadMore(plans, n, p, next, prefetched);
      hide Ahead;
      var work;
      work, b := Prepare(plans, n, streams, next, slot, b, Bounds(k + |prefetched|, k, k - 1, k - 1, p, true));
      prefetched := prefetched + [work];
      next := next + 1;
    }
  }

  /** Starts a bucket that wasn't prefetched, after the one before it has been sent back if
      that one has its slot, and otherwise before. */
  method StartFresh(plans: seq<Plan>, n: nat, streams: Streams, p: nat, k: nat,
                    previous: Option<BucketWork>, ghost from: Book)
    returns (work: BucketWork, ghost b: Book)
    requires n > 0 && p < |plans| && plans[p].Redistributed? && k == Index(plans, p)
    requires IsPrevious(plans, n, p, previous)
    requires Known(plans, n, streams.log, streams.recorded, from, Bounds(k, k, Sent(k), Sent(k), p + 1, true))
    modifies streams
    ensures work == BucketWork(p, Slot(plans, n, p))
    ensures Known(plans, n, streams.log, streams.recorded, b, Bounds(k + 1, k, k, Sent(k), p + 1, true))
  {
    hide Known, Index, SlotOf;
    b := from;
    var slot := SlotOf(k, n);
    if previous.Some? {
      PreviousSlot(plans, n, p, previous.value);
    }
    if previous.Some? && slot == previous.value.slot {
      b := SendBack(plans, n, streams, previous.value, b, Bounds(k, k, Sent(k), Sent(k), p + 1, true));
      work, b := Prepare(plans, n, streams, p, slot, b, Bounds(k, k, k, Sent(k), p + 1, true));
    } else {
      work, b := Prepare(plans, n, streams, p, slot, b, Bounds(k, k, Sent(k), Sent(k), p + 1, true));
      if previous.Some? {
        b := SendBack(plans, n, streams, previous.value, b, Bounds(k + 1, k, Sent(k), Sent(k), p + 1, true));
      }
    }
  }

  /** One redistributed bucket: its work is the first that was prefetched, or is started now;
      the one before it is sent back before it is computed, and released after. */
  method Redistribute(plans: seq<Plan>, n: nat, streams: Streams, p: nat, k: nat,
                      previous: Option<BucketWork>, start: nat,
                      ahead: seq<BucketWork>, ghost from: Book)
    returns (work: BucketWork, next: nat, prefetched: seq<BucketWork>, ghost b: Book)
    requires n > 0 && p < |plans| && plans[p].Redistributed? && k == Index(plans, p)
    requires IsPrevious(plans, n, p, previous)
    requires Ahead(plans, n, p, start, ahead) && |ahead| < n && (ahead != [] ==> k > 0)
    requires Known(plans, n, streams.log, streams.recorded, from, Bounds(k + |ahead|, k, Sent(k), Sent(k), p + 1, true))
    modifies streams
    ensures work == BucketWork(p, Slot(plans, n, p))
    ensures Ahead(plans, n, p + 1, next, prefetched) && |prefetched| < n
    ensures Known(plans, n, streams.log, streams.recorded, b, Bounds(k + 1 + |prefetched|, k + 1, k, k, p + 1, true))
  {
    hide Known, Index, Slot, SlotOf;
    next, prefetched, b := start, ahead, from;
    if prefetched != [] {
      assert previous.Some?;
      AheadFirst(plans, n, p, next, prefetched);
      work, prefetched := prefetched[0], prefetched[1..];
      assert work.plan == p;
      b := SendBack(plans, n, streams, previous.value, b,
          Bounds(k + 1 + |prefetched|, k, Sent(k), Sent(k), p + 1, true));
    } else {
      work, b := StartFresh(plans, n, streams, p, k, previous, b);
      next := p + 1;
    }
    b := ComputeNext(plans, n, streams, work, b, Bounds(k + 1 + |prefetched|, k, k, Sent(k), p + 1, true));
    if previous.Some? {
      b := ReleaseLast(plans, n, streams, previous.value, b,
          Bounds(k + 1 + |prefetched|, k + 1, k, Sent(k), p + 1, true));
    }
  }

  /** All plans are through. */
  function Complete(plans: seq<Plan>): Bounds {
    var k := Index(plans, |plans|);
    Bounds(k, k, k, k, |plans|, k > 0)
  }

  lemma NothingKnown(plans: seq<Plan>, n: nat)
    requires n > 0
    ensures Known(plans, n, [Prior(Caller)], map[], map[], Bounds(0, 0, 0, 0, 0, false))
  {
  }

  /** The pipelined run, with `n` slots. */
  method Run(plans: seq<Plan>, n: nat) returns (streams: Streams, ghost b: Book)
    requires n > 0
    ensures Known(plans, n, streams.log, streams.recorded, b, Complete(plans))
  {
    hide Known, Slot;
    streams := new Streams();
    b := map[];
    NothingKnown(plans, n);
    var started := false;
    var previous: Option<BucketWork> := None;
    var prefetched: seq<BucketWork> := [];
    var next: nat, k: nat := 0, 0;
    for p := 0 to |plans|
      invariant fresh(streams)
      invariant k == Index(plans, p) && (started <==> k > 0) && IsPrevious(plans, n, p, previous)
      invariant Ahead(plans, n, p, next, prefetched) && |prefetched| < n && (prefetched != [] ==> k > 0)
      invariant Known(plans, n, streams.log, streams.recorded, b,
          Bounds(k + |prefetched|, k, Sent(k), Sent(k), p, started))
    {
      var plan := plans[p];
      if plan.LocalPlan? {
        assert prefetched == [];
        assert Index(plans, p + 1) == k;
        KnowLocal(plans, n, streams.log, streams.recorded, b, Bounds(k, k, Sent(k), Sent(k), p, started));
        b := b[LocalAt(p) := |streams.log|];
        streams.Launch(Caller, Local(p));
        next := p + 1;
      } else {
        assert Index(plans, p + 1) == k + 1;
        if !started {
          KnowStart(plans, n, streams.log, streams.recorded, b, Bounds(k, 0, 0, 0, p, false));
          b := b[Start := |streams.log|];
          streams.WaitStream();
          started := true;
        }
        KnowNoLocal(plans, n, streams.log, streams.recorded, b, Bounds(k + |prefetched|, k, Sent(k), Sent(k), p, true));
        var work;
        work, next, prefetched, b := Redistribute(plans, n, streams, p, k, previous, next, prefetched, b);
        previous := Some(work);
        k := k + 1;
        next, prefetched, b := Prefetch(plans, n, streams, p + 1, k, next, prefetched, b);
      }
    }
    assert prefetched == [];
    if previous.Some? {
      b := SendBack(plans, n, streams, previous.value, b, Bounds(k, k, Sent(k), Sent(k), |plans|, true));
      b := ReleaseLast(plans, n, streams, previous.value, b, Bounds(k, k, k, Sent(k), |plans|, true));
    }
  }
}
