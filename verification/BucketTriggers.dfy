/** When a bucket's post-backward runs, told from the events of a run alone: the forward calls that
    were counted, those of them that carried a trigger, and the triggers that ran. */
module BucketTriggers {
  import opened Basics
  import opened BucketState
  import opened BucketSafety

  // ----- What happened, by the events

  /** A forward of the bucket ended that a backward will reach. */
  function IsCall(b: nat): Event -> bool {
    (e: Event) => e.PostForward? && e.b == b && !e.ending.NoBackward?
  }

  /** It carried a trigger, and its outputs are hooked. */
  function IsTriggered(b: nat): Event -> bool {
    (e: Event) => e.PostForward? && e.b == b && e.ending.Hooked? && e.hasTrigger
  }

  /** A trigger of the bucket ran. */
  function IsTrigger(b: nat): Event -> bool {
    (e: Event) => e.InputGrads? && e.b == b
  }

  /** How many of the events from `i` up to `j` are of a kind. */
  function CountIn(es: seq<Event>, kind: Event -> bool, i: nat, j: nat): nat
    requires i <= j <= |es|
    decreases j - i
  {
    if i == j then 0 else CountIn(es, kind, i, j - 1) + if kind(es[j - 1]) then 1 else 0
  }

  /** Whether the bucket defers its post-backward before event `j`: as set last, or `first`. */
  function DefersAt(es: seq<Event>, b: nat, first: bool, j: nat): bool
    requires j <= |es|
  {
    if j == 0 then first
    else if es[j - 1].Configure? && es[j - 1].b == b then es[j - 1].settings.defers
    else DefersAt(es, b, first, j - 1)
  }

  /** Event `j`, a trigger of the bucket, runs its post-backward: it doesn't defer it, and of its
      forward calls since the counts restarted all carried a trigger, and this is the last of them
      to run. */
  predicate Fires(es: seq<Event>, b: nat, first: bool, j: nat)
    requires j < |es|
    decreases j, 2
  {
    var since := Since(es, b, first, j);
    && es[j].InputGrads? && es[j].b == b && !DefersAt(es, b, first, j)
    && CountIn(es, IsCall(b), since, j + 1) == CountIn(es, IsTriggered(b), since, j + 1)
    && CountIn(es, IsTriggered(b), since, j + 1) == CountIn(es, IsTrigger(b), since, j + 1)
  }

  /** After event `j` the bucket's counts start again: its post-backward ran from a trigger, or a
      backward that finishes ended, or it was finalized, or everything was reset. */
  predicate Restarts(es: seq<Event>, b: nat, first: bool, j: nat)
    requires j < |es|
    decreases j, 3
  {
    match es[j]
    case InputGrads(_) => Fires(es, b, first, j)
    case BackwardEnd(finish) => finish
    case Finalize(order) => b in order
    case Reset => true
    case _ => false
  }

  /** Where the bucket's counts restarted last before event `j`. */
  function Since(es: seq<Event>, b: nat, first: bool, j: nat): (i: nat)
    requires j <= |es|
    ensures i <= j
    decreases j, 1
  {
    if j == 0 then 0 else if Restarts(es, b, first, j - 1) then j else Since(es, b, first, j - 1)
  }

  // ----- What events do to the counts

  predicate SameCounts(k: Bucket, l: Bucket) {
    l.calls == k.calls && l.triggers == k.triggers && l.triggersRun == k.triggersRun && l.defers == k.defers
  }

  predicate CountsStay(s: State, t: State) {
    |t.buckets| == |s.buckets| && forall b :: 0 <= b < |s.buckets| ==> SameCounts(s.buckets[b], t.buckets[b])
  }

  predicate NoneCounted(k: Bucket) {
    k.calls == k.triggers == k.triggersRun == 0
  }

  lemma StayTrans(s: State, t: State, u: State)
    requires CountsStay(s, t) && CountsStay(t, u)
    ensures CountsStay(s, u)
  {
  }

  lemma PutStays(s: State, b: nat, k: Bucket)
    requires b < |s.buckets| && SameCounts(s.buckets[b], k)
    ensures CountsStay(s, Put(s, b, k))
  {
  }

  lemma {:induction false} FillsStay(s: State, ps: seq<Pending>)
    ensures CountsStay(s, s.(buckets := FilledAll(s.buckets, ps)))
  {
    if ps != [] {
      FillsStay(s, ps[..|ps| - 1]);
    }
  }

  lemma GatherStays(s: State, b: nat)
    requires b < |s.buckets|
    ensures CountsStay(s, AfterGather(s, b))
  {
    hide CountsStay, AfterTake, IsPending;
    TakeStays(s, Some(b));
    var t := AfterTake(s, Some(b));
    PutStays(t, b, Begun(t.buckets[b]));
    var u := AfterBegin(s, b);
    StayTrans(s, t, Put(t, b, Begun(t.buckets[b])));
    PutStays(u, b, Filled(u.buckets[b]));
    StayTrans(s, u, AfterGather(s, b));
  }

  lemma OthersStay(s: State, b: nat)
    ensures CountsStay(s, AfterOthers(s, b))
  {
    hide CountsStay, FilledAll, Others, NotOthers;
    FillsStay(s, Others(s.pending, b));
    SameBuckets(s, s.(buckets := FilledAll(s.buckets, Others(s.pending, b))), AfterOthers(s, b));
  }

  lemma SameBuckets(s: State, t: State, u: State)
    requires CountsStay(s, t) && u.buckets == t.buckets
    ensures CountsStay(s, u)
  {
  }

  lemma UnshardStays(s: State, b: nat, finishOthers: bool)
    requires b < |s.buckets|
    ensures CountsStay(s, AfterUnshard(s, b, finishOthers))
  {
    hide CountsStay, AfterOthers, AfterGather;
    StaySelf(s);
    OthersStay(s, b);
    var t := if finishOthers then AfterOthers(s, b) else s;
    GatherStays(t, b);
    StayTrans(s, t, AfterGather(t, b));
    var u := if s.buckets[b].unsharded then s else AfterGather(t, b);
    PutStays(u, b, u.buckets[b].(exposed := true));
    StayTrans(s, u, AfterExpose(u, b));
  }

  lemma PrefetchStays(s: State, target: Option<nat>, isExplicit: bool)
    ensures CountsStay(s, AfterPrefetch(s, target, isExplicit))
  {
    hide SkipsPrefetch;
  }

  lemma {:induction false} PrefetchesStay(s: State, targets: seq<nat>)
    ensures CountsStay(s, AfterPrefetches(s, targets))
  {
    hide AfterPrefetch;
    if targets != [] {
      var n := |targets| - 1;
      PrefetchesStay(s, targets[..n]);
      PrefetchStays(AfterPrefetches(s, targets[..n]), Some(targets[n]), true);
    }
  }

  lemma PrefetchNextStays(s: State, b: nat, forward: bool)
    requires b < |s.buckets|
    ensures CountsStay(s, AfterPrefetchNext(s, b, forward))
  {
    hide AfterPrefetch, AfterPrefetches, NextForward, NextBackward, CountsStay;
    var targets := if forward then s.buckets[b].forwardPrefetch else s.buckets[b].backwardPrefetch;
    if targets.Some? {
      PrefetchesStay(s, targets.value);
    } else {
      PrefetchStays(s, if forward then NextForward(s, b) else NextBackward(s, b), false);
    }
  }

  lemma PreForwardStays(s: State, b: nat)
    requires b < |s.buckets|
    ensures CountsStay(s, AfterPreForward(s, b))
  {
    hide AfterUnshard, AfterPrefetchNext;
    var learned := AfterLearnForward(s, b);
    assert CountsStay(s, learned);
    UnshardStays(learned, b, false);
    PrefetchNextStays(AfterUnshard(learned, b, false), b, true);
  }

  lemma PreBackwardStays(s: State, b: nat)
    requires b < |s.buckets|
    ensures CountsStay(s, AfterPreBackward(s, b))
  {
    hide AfterUnshard, AfterPrefetchNext;
    UnshardStays(s, b, false);
    var u := AfterUnshard(s, b, false);
    var v := if ReducesKept(u.buckets[b]) then Put(u, b, Synced(u.buckets[b], false)) else u;
    assert CountsStay(u, v);
    PrefetchNextStays(v, b, false);
  }

  lemma ReshardStays(s: State, b: nat)
    requires b < |s.buckets|
    ensures CountsStay(s, AfterReshard(s, b))
  {
    hide WithoutPending, IsPending;
  }

  lemma {:induction false} UnshardAllStays(s: State, asyncOp: bool, n: nat)
    requires n <= |s.buckets|
    ensures CountsStay(s, AfterUnshardAll(s, asyncOp, n))
  {
    hide AfterUnshard, AfterPrefetch, CountsStay;
    if n > 0 {
      UnshardAllStays(s, asyncOp, n - 1);
      var t := AfterUnshardAll(s, asyncOp, n - 1);
      UnshardStays(t, n - 1, false);
      PrefetchStays(t, Some(n - 1), true);
      StayTrans(s, t, AfterUnshardAll(s, asyncOp, n));
    } else {
      StaySelf(s);
    }
  }

  lemma StaySelf(s: State)
    ensures CountsStay(s, s)
  {
  }

  lemma {:induction false} WaitStays(s: State, started: seq<nat>)
    ensures CountsStay(s, AfterWait(s, started))
  {
    hide AfterUnshard, CountsStay, IsPending;
    StaySelf(s);
    if started != [] {
      var n := |started| - 1;
      WaitStays(s, started[..n]);
      var t := AfterWait(s, started[..n]);
      if started[n] < |s.buckets| && IsPending(t.pending, started[n]) {
        UnshardStays(t, started[n], false);
        StayTrans(s, t, AfterWait(s, started));
      }
    }
  }

  /** Finished buckets have no counts, the others keep theirs. */
  lemma {:induction false} FinishCounts(s: State, order: seq<nat>, inBackward: bool, b: nat)
    requires b < |s.buckets| && !AfterFinish(s, order, inBackward).1
    ensures var l := AfterFinish(s, order, inBackward).0.buckets[b];
            l.defers == s.buckets[b].defers && (if b in order then NoneCounted(l) else SameCounts(s.buckets[b], l))
  {
    hide NeedsFinish, LeftDeferred;
    if order != [] {
      FinishCounts(s, order[..|order| - 1], inBackward, b);
      assert order == order[..|order| - 1] + [order[|order| - 1]];
    }
  }

  lemma TakeStays(s: State, wanted: Option<nat>)
    ensures |AfterTake(s, wanted).buckets| == |s.buckets| && CountsStay(s, AfterTake(s, wanted))
  {
    hide Filter, BucketsOf;
  }

  /** What an event makes of a bucket's counts. */
  predicate CountsStep(k: Bucket, l: Bucket, b: nat, e: Event) {
    match e
    case PostForward(c, _, _) =>
      && l.calls == k.calls + (if IsCall(b)(e) then 1 else 0) && l.triggersRun == k.triggersRun
      && l.triggers == k.triggers + (if IsTriggered(b)(e) then 1 else 0) && l.defers == k.defers
    case InputGrads(c) =>
      && l.defers == k.defers
      && if c == b && !k.defers && k.calls == k.triggers == k.triggersRun + 1 then NoneCounted(l)
         else l.calls == k.calls && l.triggers == k.triggers
              && l.triggersRun == k.triggersRun + if c == b then 1 else 0
    case BackwardEnd(finish) => l.defers == k.defers && if finish then NoneCounted(l) else SameCounts(k, l)
    case Finalize(order) => l.defers == k.defers && if b in order then NoneCounted(l) else SameCounts(k, l)
    case Reset => l.defers == k.defers && NoneCounted(l)
    case Configure(c, settings) =>
      && l.calls == k.calls && l.triggers == k.triggers && l.triggersRun == k.triggersRun
      && l.defers == if c == b then settings.defers else k.defers
    case _ => SameCounts(k, l)
  }

  lemma EventCounts(s: State, e: Event, b: nat)
    requires EventOk(|s.buckets|, e) && b < |s.buckets| && !AfterEvent(s, e).1
    ensures CountsStep(s.buckets[b], AfterEvent(s, e).0.buckets[b], b, e)
  {
    hide AfterPreForward, AfterUnshard, AfterPreBackward, AfterReshard, AfterUnshardAll,
        AfterWait, AfterFinish, AfterTake,
         Triggered, AfterPostForward, AfterReset, AfterDeferred;
    match e
    case PreForward(c) => PreForwardStays(s, c);
    case PostForward(c, ending, hasTrigger) => PostForwardCounts(s, c, ending, hasTrigger, b);
    case Recompute(c) => UnshardStays(s, c, true);
    case PreBackward(c) => PreBackwardStays(s, c);
    case InputGrads(c) => TriggerCounts(s.buckets[c]);
    case Deferred(c) => DeferredStays(s, c);
    case BackwardEnd(finish) =>
      if finish {
        var order := Registration(|s.buckets|);
        assert order[b] == b;
        FinishCounts(s, order, true, b);
        TakeStays(AfterFinish(s, order, true).0, None);
      }
    case Finalize(order) =>
      NeverRaises(s, order);
      FinishCounts(s, order, false, b);
      TakeStays(AfterFinish(s, order, false).0, None);
    case Reset => ResetCounts(s, b);
    case ReshardOne(c) => ReshardStays(s, c);
    case UnshardOne(c) => UnshardStays(s, c, false);
    case UnshardEvery(asyncOp) => UnshardAllStays(s, asyncOp, |s.buckets|);
    case Wait(started) => WaitStays(s, started);
    case Configure(c, settings) =>
  }

  lemma PostForwardCounts(s: State, c: nat, ending: Ending, hasTrigger: bool, b: nat)
    requires c < |s.buckets| && b < |s.buckets|
    ensures var k, l, e := s.buckets[b], AfterPostForward(s, c, ending, hasTrigger).buckets[b],
                PostForward(c, ending, hasTrigger);
            && l.calls == k.calls + (if IsCall(b)(e) then 1 else 0) && l.triggersRun == k.triggersRun
            && l.triggers == k.triggers + (if IsTriggered(b)(e) then 1 else 0) && l.defers == k.defers
  {
    hide AfterLearnPostForward, Ended;
    LearnCounts(s, c, b);
    if b == c {
      EndCounts(AfterLearnPostForward(s, c).buckets[b], ending, hasTrigger);
    }
  }

  lemma LearnCounts(s: State, c: nat, b: nat)
    requires c < |s.buckets| && b < |s.buckets|
    ensures SameCounts(s.buckets[b], AfterLearnPostForward(s, c).buckets[b])
  {
  }

  lemma EndCounts(k: Bucket, ending: Ending, hasTrigger: bool)
    ensures var l := Ended(k, ending, hasTrigger);
            && l.calls == k.calls + (if ending.NoBackward? then 0 else 1) && l.triggersRun == k.triggersRun
            && l.triggers == k.triggers + (if ending.Hooked? && hasTrigger then 1 else 0) && l.defers == k.defers
  {
    hide KeepsData, Counted, Resharded;
    CountedIs(k, ending, hasTrigger);
    ReshardedCounts(Counted(k, ending, hasTrigger));
  }

  lemma ReshardedCounts(k: Bucket)
    ensures SameCounts(k, Resharded(k))
  {
  }

  lemma WithCountsIs(k: Bucket, calls: nat, triggers: nat, run: nat)
    ensures var l := WithCounts(k, calls, triggers, run);
            && l.calls == calls && l.triggers == triggers && l.triggersRun == run && l.defers == k.defers
  {
  }

  lemma CountedIs(k: Bucket, ending: Ending, hasTrigger: bool)
    ensures var l := Counted(k, ending, hasTrigger);
            && l.calls == k.calls + (if ending.NoBackward? then 0 else 1) && l.triggersRun == k.triggersRun
            && l.triggers == k.triggers + (if ending.Hooked? && hasTrigger then 1 else 0) && l.defers == k.defers
  {
    hide WithCounts;
    match ending
    case NoBackward =>
    case NoTensors => WithCountsIs(k, k.calls + 1, k.triggers, k.triggersRun);
    case Hooked(_) => WithCountsIs(k, k.calls + 1, k.triggers + (if hasTrigger then 1 else 0), k.triggersRun);
  }

  lemma TriggerCounts(k: Bucket)
    ensures var l := Triggered(k);
            && l.defers == k.defers
            && if !k.defers && k.calls == k.triggers == k.triggersRun + 1 then NoneCounted(l)
               else l.calls == k.calls && l.triggers == k.triggers && l.triggersRun == k.triggersRun + 1
  {
    hide WithCounts, Synced;
    var after := WithCounts(k, k.calls, k.triggers, k.triggersRun + 1);
    WithCountsIs(k, k.calls, k.triggers, k.triggersRun + 1);
    WithCountsIs(Synced(after, true), 0, 0, 0);
    SyncedDefers(after);
  }

  lemma SyncedDefers(k: Bucket)
    ensures Synced(k, true).defers == k.defers
  {
  }

  lemma DeferredStays(s: State, b: nat)
    requires b < |s.buckets|
    ensures CountsStay(s, AfterDeferred(s, b))
  {
  }

  lemma ResetCounts(s: State, b: nat)
    requires b < |s.buckets|
    ensures NoneCounted(AfterReset(s).buckets[b]) && AfterReset(s).buckets[b].defers == s.buckets[b].defers
  {
    hide Filter, BucketsOf;
  }

  /** Outside of backward, finishing raises for no bucket. */
  lemma {:induction false} NeverRaises(s: State, order: seq<nat>)
    ensures !AfterFinish(s, order, false).1
  {
    hide NeedsFinish;
    if order != [] {
      NeverRaises(s, order[..|order| - 1]);
    }
  }

  // ----- The counts are what happened

  ghost predicate Runs(s: State, es: seq<Event>, j: nat) {
    j <= |es| && (forall i :: 0 <= i < |es| ==> EventOk(|s.buckets|, es[i])) && !AfterRun(s, es[..j]).1
  }

  function At(s: State, es: seq<Event>, j: nat): (t: State)
    requires j <= |es| && forall i :: 0 <= i < |es| ==> EventOk(|s.buckets|, es[i])
    ensures |t.buckets| == |s.buckets|
  {
    AfterRun(s, es[..j]).0
  }

  lemma RunStep(s: State, es: seq<Event>, j: nat)
    requires j < |es| && Runs(s, es, j + 1)
    ensures Runs(s, es, j) && EventOk(|s.buckets|, es[j])
    ensures AfterEvent(At(s, es, j), es[j]) == (At(s, es, j + 1), false)
  {
    hide AfterEvent, EventOk;
    assert es[..j + 1][..j] == es[..j] && es[..j + 1][j] == es[j];
  }

  /** A run's counts of a bucket are what happened since they restarted last. */
  ghost predicate CountsAt(k: Bucket, es: seq<Event>, b: nat, first: bool, j: nat)
    requires j <= |es|
  {
    var since := Since(es, b, first, j);
    && k.calls == CountIn(es, IsCall(b), since, j)
    && k.triggers == CountIn(es, IsTriggered(b), since, j)
    && k.triggersRun == CountIn(es, IsTrigger(b), since, j)
    && k.defers == DefersAt(es, b, first, j)
  }

  lemma {:induction false} CountsAre(s: State, es: seq<Event>, b: nat, j: nat)
    requires b < |s.buckets| && NoneCounted(s.buckets[b]) && Runs(s, es, j)
    ensures CountsAt(At(s, es, j).buckets[b], es, b, s.buckets[b].defers, j)
    decreases j
  {
    hide AfterEvent, EventOk, AfterRun;
    if j == 0 {
      StartIs(s, es);
    } else {
      RunStep(s, es, j - 1);
      CountsAre(s, es, b, j - 1);
      EventCounts(At(s, es, j - 1), es[j - 1], b);
      NextCounts(At(s, es, j - 1).buckets[b], At(s, es, j).buckets[b], es, b, s.buckets[b].defers, j - 1);
    }
  }

  lemma StartIs(s: State, es: seq<Event>)
    requires forall i :: 0 <= i < |es| ==> EventOk(|s.buckets|, es[i])
    ensures At(s, es, 0) == s
  {
  }

  lemma NextCounts(k: Bucket, l: Bucket, es: seq<Event>, b: nat, first: bool, j: nat)
    requires j < |es| && CountsAt(k, es, b, first, j) && CountsStep(k, l, b, es[j])
    ensures CountsAt(l, es, b, first, j + 1)
  {
    hide CountIn, Since, CountsStep, DefersAt, Restarts, Fires;
    var since := Since(es, b, first, j);
    NextDefers(k, l, es, b, first, j);
    NextSince(es, b, first, j);
    NextCount(es, IsCall(b), since, j);
    NextCount(es, IsTriggered(b), since, j);
    NextCount(es, IsTrigger(b), since, j);
    NoneIn(es, IsCall(b), j + 1);
    NoneIn(es, IsTriggered(b), j + 1);
    NoneIn(es, IsTrigger(b), j + 1);
    RestartsIs(k, es, b, first, j);
    StepCounts(k, l, b, es[j]);
  }

  /** Whether an event clears a bucket's counts. */
  predicate Clears(k: Bucket, b: nat, e: Event) {
    match e
    case InputGrads(c) => c == b && !k.defers && k.calls == k.triggers == k.triggersRun + 1
    case BackwardEnd(finish) => finish
    case Finalize(order) => b in order
    case Reset => true
    case _ => false
  }

  lemma StepCounts(k: Bucket, l: Bucket, b: nat, e: Event)
    requires CountsStep(k, l, b, e)
    ensures if Clears(k, b, e) then NoneCounted(l)
            else
              && l.calls == k.calls + (if IsCall(b)(e) then 1 else 0)
              && l.triggers == k.triggers + (if IsTriggered(b)(e) then 1 else 0)
              && l.triggersRun == k.triggersRun + (if IsTrigger(b)(e) then 1 else 0)
  {
  }

  lemma NextDefers(k: Bucket, l: Bucket, es: seq<Event>, b: nat, first: bool, j: nat)
    requires j < |es| && k.defers == DefersAt(es, b, first, j) && CountsStep(k, l, b, es[j])
    ensures l.defers == DefersAt(es, b, first, j + 1)
  {
    hide IsCall, IsTriggered, IsTrigger;
  }

  lemma NextSince(es: seq<Event>, b: nat, first: bool, j: nat)
    requires j < |es|
    ensures Since(es, b, first, j + 1) == if Restarts(es, b, first, j) then j + 1 else Since(es, b, first, j)
  {
    hide Restarts;
  }

  lemma NextCount(es: seq<Event>, kind: Event -> bool, i: nat, j: nat)
    requires i <= j < |es|
    ensures CountIn(es, kind, i, j + 1) == CountIn(es, kind, i, j) + if kind(es[j]) then 1 else 0
  {
  }

  lemma NoneIn(es: seq<Event>, kind: Event -> bool, i: nat)
    requires i <= |es|
    ensures CountIn(es, kind, i, i) == 0
  {
  }

  lemma RestartsIs(k: Bucket, es: seq<Event>, b: nat, first: bool, j: nat)
    requires j < |es| && CountsAt(k, es, b, first, j)
    ensures Restarts(es, b, first, j) <==> Clears(k, b, es[j])
  {
    hide Since, CountIn, CountsAt, Fires, DefersAt;
    if es[j] == InputGrads(b) {
      FiresIs(k, es, b, first, j);
    } else if es[j].InputGrads? {
      OtherFires(es, b, first, j);
    }
  }

  lemma OtherFires(es: seq<Event>, b: nat, first: bool, j: nat)
    requires j < |es| && es[j].InputGrads? && es[j].b != b
    ensures !Fires(es, b, first, j)
  {
  }

  // ----- When the post-backward runs

  /** All of a bucket but its data, grads and counts stays. */
  predicate RestStays(k: Bucket, l: Bucket) {
    SameSettings(k, l) && l.created == k.created && l.started == k.started && l.settled == k.settled
  }

  /** The data, their storage and their exposure stay. */
  predicate DataStay(k: Bucket, l: Bucket) {
    l.unsharded == k.unsharded && l.hasStorage == k.hasStorage && l.exposed == k.exposed
  }

  /** The post-backward ran: grads are reduced, or kept without gradient sync; the data go when grads
      are reduced, or when the bucket is set to reshard after backward; nothing is counted. */
  predicate PostBackwardRan(k: Bucket, l: Bucket) {
    && l.needsSync == !k.requiresSync && NoneCounted(l) && RestStays(k, l)
    && if k.unsharded && (k.requiresSync || k.reshardAfterBackward)
       then !l.unsharded && !l.hasStorage && !l.exposed
       else DataStay(k, l)
  }

  /** Nothing happened to data, exposure and grads; only one more trigger is counted. */
  predicate OnlyCounted(k: Bucket, l: Bucket) {
    && l.needsSync == k.needsSync && l.calls == k.calls && l.triggers == k.triggers
        && l.triggersRun == k.triggersRun + 1
    && DataStay(k, l) && RestStays(k, l)
  }

  lemma TriggeredDoes(k: Bucket)
    ensures if !k.defers && k.calls == k.triggers == k.triggersRun + 1 then PostBackwardRan(k, Triggered(k))
            else OnlyCounted(k, Triggered(k))
  {
    hide RestStays, Synced, WithCounts;
    var after := WithCounts(k, k.calls, k.triggers, k.triggersRun + 1);
    WithCountsIs(k, k.calls, k.triggers, k.triggersRun + 1);
    WithCountsRest(k, k.calls, k.triggers, k.triggersRun + 1);
    if AllRan(k) {
      var synced := Synced(after, true);
      SyncedDoes(after);
      WithCountsIs(synced, 0, 0, 0);
      WithCountsRest(synced, 0, 0, 0);
      RestTrans(k, after, synced);
      RestTrans(k, synced, NoCounts(synced));
      RestSays(k, after);
    }
  }

  lemma SyncedDoes(k: Bucket)
    ensures var l := Synced(k, true);
            && l.needsSync == !k.requiresSync && RestStays(k, l)
            && if k.unsharded && (k.requiresSync || k.reshardAfterBackward)
               then !l.unsharded && !l.hasStorage && !l.exposed
               else DataStay(k, l)
  {
    hide Resharded, RestStays;
    var after := k.(needsSync := !k.requiresSync);
    SyncRest(k, !k.requiresSync);
    ReshardRest(after);
    RestTrans(k, after, Resharded(after));
  }

  lemma SyncRest(k: Bucket, needsSync: bool)
    ensures RestStays(k, k.(needsSync := needsSync)) && DataStay(k, k.(needsSync := needsSync))
  {
  }

  lemma ReshardRest(k: Bucket)
    ensures var l := Resharded(k);
            RestStays(k, l) && l.needsSync == k.needsSync && !l.unsharded && !l.hasStorage && !l.exposed
  {
  }

  lemma WithCountsRest(k: Bucket, calls: nat, triggers: nat, run: nat)
    ensures var l := WithCounts(k, calls, triggers, run);
            RestStays(k, l) && DataStay(k, l) && l.needsSync == k.needsSync
  {
  }

  lemma RestTrans(k: Bucket, l: Bucket, m: Bucket)
    requires RestStays(k, l) && RestStays(l, m)
    ensures RestStays(k, m)
  {
  }

  lemma RestSays(k: Bucket, l: Bucket)
    requires RestStays(k, l)
    ensures l.requiresSync == k.requiresSync && l.reshardAfterBackward == k.reshardAfterBackward
  {
  }

  /** In any run, a trigger of a bucket runs its post-backward exactly if the bucket doesn't defer it
      and, since the counts restarted last, the counted forward calls, those of them that carried a
      trigger, and the triggers that ran with this one are equally many. Otherwise nothing happens to
      its data, exposure and grads, and no other bucket is touched. */
  lemma TriggerIs(s: State, es: seq<Event>, b: nat, j: nat)
    requires b < |s.buckets| && NoneCounted(s.buckets[b]) && j < |es| && Runs(s, es, j + 1) && es[j] == InputGrads(b)
    ensures Runs(s, es, j)
    ensures var k, l := At(s, es, j).buckets[b], At(s, es, j + 1).buckets[b];
            if Fires(es, b, s.buckets[b].defers, j) then PostBackwardRan(k, l) else OnlyCounted(k, l)
    ensures forall c :: 0 <= c < |s.buckets| && c != b ==> At(s, es, j + 1).buckets[c] == At(s, es, j).buckets[c]
    ensures At(s, es, j + 1).pending == At(s, es, j).pending
  {
    hide AfterRun, Triggered, PostBackwardRan, OnlyCounted;
    RunStep(s, es, j);
    CountsAre(s, es, b, j);
    TriggeredDoes(At(s, es, j).buckets[b]);
    FiresIs(At(s, es, j).buckets[b], es, b, s.buckets[b].defers, j);
  }

  lemma FiresIs(k: Bucket, es: seq<Event>, b: nat, first: bool, j: nat)
    requires j < |es| && es[j] == InputGrads(b) && CountsAt(k, es, b, first, j)
    ensures Fires(es, b, first, j) <==> !k.defers && k.calls == k.triggers == k.triggersRun + 1
  {
    hide Since, CountIn, DefersAt;
    var since := Since(es, b, first, j);
    NextCount(es, IsCall(b), since, j);
    NextCount(es, IsTriggered(b), since, j);
    NextCount(es, IsTrigger(b), since, j);
  }

  /** In any run, a backward of a bucket first reduces the grads that were kept without sync exactly
      if it syncs and doesn't defer and more than one forward call was counted since the counts
      restarted last; then none are kept any more. */
  lemma KeptGradsReduced(s: State, es: seq<Event>, b: nat, j: nat)
    requires b < |s.buckets| && NoneCounted(s.buckets[b]) && j < |es| && Runs(s, es, j + 1) && es[j] == PreBackward(b)
    ensures Runs(s, es, j)
    ensures var k, l, first := At(s, es, j).buckets[b], At(s, es, j + 1).buckets[b], s.buckets[b].defers;
            l.needsSync <==> k.needsSync && !(k.requiresSync && !DefersAt(es, b, first, j)
                                              && CountIn(es, IsCall(b), Since(es, b, first, j), j) > 1)
  {
    hide AfterRun, AfterPreBackward, Since, CountIn, DefersAt;
    RunStep(s, es, j);
    CountsAre(s, es, b, j);
    KeptIs(At(s, es, j), b);
  }

  lemma KeptIs(s: State, b: nat)
    requires b < |s.buckets|
    ensures var k := s.buckets[b];
            AfterPreBackward(s, b).buckets[b].needsSync <==>
              k.needsSync && !(k.requiresSync && !k.defers && k.calls > 1)
  {
    hide AfterUnshard, AfterPrefetchNext;
    var u := AfterUnshard(s, b, false);
    UnshardStays(s, b, false);
    UnshardSync(s, b);
    var v := if ReducesKept(u.buckets[b]) then Put(u, b, Synced(u.buckets[b], false)) else u;
    NextSync(v, b, false);
  }

  predicate SameSync(k: Bucket, l: Bucket) {
    l.needsSync == k.needsSync && l.requiresSync == k.requiresSync
  }

  lemma UnshardSync(s: State, b: nat)
    requires b < |s.buckets|
    ensures SameSync(s.buckets[b], AfterUnshard(s, b, false).buckets[b])
  {
    hide AfterTake, IsPending, SameSync, Begun, Filled;
    TakeStays(s, Some(b));
    TakeSync(s, b);
    var t := AfterTake(s, Some(b));
    BegunSync(t.buckets[b]);
    var u := AfterBegin(s, b);
    FilledSync(u.buckets[b]);
    var v := if s.buckets[b].unsharded then s else AfterGather(s, b);
    SyncSelf(s.buckets[b]);
    ExposedSync(v.buckets[b]);
    SyncTrans(s.buckets[b], t.buckets[b], u.buckets[b]);
    SyncTrans(s.buckets[b], u.buckets[b], AfterGather(s, b).buckets[b]);
    SyncTrans(s.buckets[b], v.buckets[b], v.buckets[b].(exposed := true));
  }

  lemma SyncSelf(k: Bucket)
    ensures SameSync(k, k)
  {
  }

  lemma SyncTrans(k: Bucket, l: Bucket, m: Bucket)
    requires SameSync(k, l) && (SameSync(l, m) || l == m)
    ensures SameSync(k, m)
  {
  }

  lemma TakeSync(s: State, b: nat)
    requires b < |s.buckets| && |AfterTake(s, Some(b)).buckets| == |s.buckets|
    ensures SameSync(s.buckets[b], AfterTake(s, Some(b)).buckets[b])
  {
    hide Filter, BucketsOf;
  }

  lemma BegunSync(k: Bucket)
    ensures SameSync(k, Begun(k))
  {
  }

  lemma FilledSync(k: Bucket)
    ensures SameSync(k, Filled(k))
  {
  }

  lemma ExposedSync(k: Bucket)
    ensures SameSync(k, k.(exposed := true))
  {
  }

  lemma NextSync(s: State, b: nat, forward: bool)
    requires b < |s.buckets|
    ensures SameSync(s.buckets[b], AfterPrefetchNext(s, b, forward).buckets[b])
  {
    hide AfterPrefetch, AfterPrefetches, NextForward, NextBackward;
    var targets := if forward then s.buckets[b].forwardPrefetch else s.buckets[b].backwardPrefetch;
    if targets.Some? {
      PrefetchesSync(s, targets.value, b);
    } else {
      PrefetchSync(s, if forward then NextForward(s, b) else NextBackward(s, b), false, b);
    }
  }

  lemma PrefetchSync(s: State, target: Option<nat>, isExplicit: bool, b: nat)
    requires b < |s.buckets|
    ensures SameSync(s.buckets[b], AfterPrefetch(s, target, isExplicit).buckets[b])
  {
    hide SkipsPrefetch;
  }

  lemma {:induction false} PrefetchesSync(s: State, targets: seq<nat>, b: nat)
    requires b < |s.buckets|
    ensures SameSync(s.buckets[b], AfterPrefetches(s, targets).buckets[b])
  {
    hide AfterPrefetch;
    if targets != [] {
      var n := |targets| - 1;
      PrefetchesSync(s, targets[..n], b);
      PrefetchSync(AfterPrefetches(s, targets[..n]), Some(targets[n]), true, b);
    }
  }

  // ----- When a backward must not end

  /** In any run, a finishing backward raises exactly if some bucket syncs and defers its
      post-backward, a trigger of it ran since its counts restarted last, and it is still unsharded
      or has grads to reduce. */
  lemma BackwardRaises(s: State, es: seq<Event>, j: nat)
    requires (forall b :: 0 <= b < |s.buckets| ==> NoneCounted(s.buckets[b])) && j < |es| && Runs(s, es, j)
    requires es[j] == BackwardEnd(true)
    ensures AfterEvent(At(s, es, j), es[j]).1 <==>
        exists b :: 0 <= b < |s.buckets| && IsLeft(At(s, es, j).buckets[b], es, b, s.buckets[b].defers, j)
  {
    hide AfterRun, LeftDeferred, IsLeft, At, AfterBackward, NoneCounted;
    var t := At(s, es, j);
    RaisesIs(t);
    forall b | 0 <= b < |s.buckets|
      ensures IsLeft(t.buckets[b], es, b, s.buckets[b].defers, j) <==> LeftDeferred(t.buckets[b], true)
    {
      LeftAt(s, es, b, j);
    }
  }

  lemma LeftAt(s: State, es: seq<Event>, b: nat, j: nat)
    requires b < |s.buckets| && NoneCounted(s.buckets[b]) && Runs(s, es, j)
    ensures var k := At(s, es, j).buckets[b];
            IsLeft(k, es, b, s.buckets[b].defers, j) <==> LeftDeferred(k, true)
  {
    hide AfterRun, LeftDeferred, IsLeft, At, CountsAt;
    CountsAre(s, es, b, j);
    LeftIs(At(s, es, j).buckets[b], es, b, s.buckets[b].defers, j);
  }

  lemma RaisesIs(s: State)
    ensures AfterBackward(s, true).1 <==> exists b :: 0 <= b < |s.buckets| && LeftDeferred(s.buckets[b], true)
  {
    hide AfterFinish, LeftDeferred, AfterTake;
    var order := Registration(|s.buckets|);
    FinishRaises(s, order);
    if i :| 0 <= i < |order| && order[i] < |s.buckets| && LeftDeferred(s.buckets[order[i]], true) {
      assert LeftDeferred(s.buckets[i], true);
    }
    if b :| 0 <= b < |s.buckets| && LeftDeferred(s.buckets[b], true) {
      assert order[b] == b;
    }
  }

  predicate IsLeft(k: Bucket, es: seq<Event>, b: nat, first: bool, j: nat)
    requires j <= |es|
  {
    && k.requiresSync && DefersAt(es, b, first, j) && (k.unsharded || k.needsSync)
    && CountIn(es, IsTrigger(b), Since(es, b, first, j), j) > 0
  }

  lemma LeftIs(k: Bucket, es: seq<Event>, b: nat, first: bool, j: nat)
    requires j <= |es| && CountsAt(k, es, b, first, j)
    ensures IsLeft(k, es, b, first, j) <==> LeftDeferred(k, true)
  {
    hide Since, CountIn, DefersAt;
  }

  lemma {:induction false} FinishRaises(s: State, order: seq<nat>)
    ensures AfterFinish(s, order, true).1 <==>
        exists i :: 0 <= i < |order| && order[i] < |s.buckets| && LeftDeferred(s.buckets[order[i]], true)
  {
    hide LeftDeferred, Finished;
    if order != [] {
      var n := |order| - 1;
      FinishRaises(s, order[..n]);
      assert forall i :: 0 <= i < n ==> order[..n][i] == order[i];
      var (t, raised) := AfterFinish(s, order[..n], true);
      if !raised && order[n] < |s.buckets| {
        if order[n] !in order[..n] {
          FinishLeaves(s, order[..n], order[n]);
        } else {
          var i :| 0 <= i < n && order[i] == order[n];
          FinishCounts(s, order[..n], true, order[n]);
          NotLeft(t.buckets[order[n]]);
        }
      }
    }
  }

  lemma NotLeft(k: Bucket)
    requires NoneCounted(k)
    ensures !LeftDeferred(k, true)
  {
  }

  lemma {:induction false} FinishLeaves(s: State, order: seq<nat>, b: nat)
    requires b < |s.buckets| && b !in order
    ensures AfterFinish(s, order, true).0.buckets[b] == s.buckets[b]
  {
    hide LeftDeferred, Finished;
    if order != [] {
      FinishLeaves(s, order[..|order| - 1], b);
      assert order[|order| - 1] in order;
    }
  }

  // ----- What finishing a bucket does

  /** A bucket is finished: it keeps its data only if it neither syncs nor reshards after backward, and
      has grads to reduce only if it doesn't sync and had some or was unsharded. */
  predicate IsFinished(k: Bucket, l: Bucket) {
    && l.unsharded == (k.unsharded && !k.requiresSync && !k.reshardAfterBackward)
    && l.needsSync == (!k.requiresSync && (k.unsharded || k.needsSync))
    && l.requiresSync == k.requiresSync && l.reshardAfterBackward == k.reshardAfterBackward
  }

  lemma FinishedIs(k: Bucket)
    ensures IsFinished(k, Finished(k)) && IsFinished(k, if NeedsFinish(k) then Synced(k, true) else k)
  {
    hide WithCounts, Synced;
    SyncedDoes(k);
    RestSays(k, Synced(k, true));
    var l := if NeedsFinish(k) then Synced(k, true) else k;
    WithCountsRest(l, 0, 0, 0);
    RestSays(l, NoCounts(l));
  }

  /** At the end of a backward, and when backward is finalized, every listed bucket is finished. */
  lemma {:induction false} FinishFinishes(s: State, order: seq<nat>, inBackward: bool, b: nat)
    requires b < |s.buckets| && !AfterFinish(s, order, inBackward).1
    ensures var k, l := s.buckets[b], AfterFinish(s, order, inBackward).0.buckets[b];
            if b in order then IsFinished(k, l) else l == k
  {
    hide LeftDeferred, Finished, IsFinished;
    if order != [] {
      var n := |order| - 1;
      FinishFinishes(s, order[..n], inBackward, b);
      assert order == order[..n] + [order[n]];
      var l := AfterFinish(s, order[..n], inBackward).0.buckets[b];
      FinishedIs(l);
      if b in order[..n] {
        FinishedTwice(s.buckets[b], l, Finished(l));
      }
    }
  }

  lemma FinishedTwice(k: Bucket, l: Bucket, m: Bucket)
    requires IsFinished(k, l) && IsFinished(l, m)
    ensures IsFinished(k, m)
  {
  }

  /** A finishing backward that doesn't raise finishes every bucket. */
  lemma BackwardFinishes(s: State, b: nat)
    requires b < |s.buckets| && !AfterBackward(s, true).1
    ensures IsFinished(s.buckets[b], AfterBackward(s, true).0.buckets[b])
  {
    hide AfterFinish, AfterTake, IsFinished;
    var order := Registration(|s.buckets|);
    assert order[b] == b;
    FinishFinishes(s, order, true, b);
    TakeFinished(s.buckets[b], AfterFinish(s, order, true).0, b);
  }

  lemma TakeFinished(k: Bucket, s: State, b: nat)
    requires b < |s.buckets| && IsFinished(k, s.buckets[b])
    ensures |AfterTake(s, None).buckets| == |s.buckets| && IsFinished(k, AfterTake(s, None).buckets[b])
  {
    hide Filter, BucketsOf;
  }

  /** Finalizing backward finishes the buckets that it lists. */
  lemma FinalizeFinishes(s: State, order: seq<nat>, b: nat)
    requires b < |s.buckets| && b in order
    ensures IsFinished(s.buckets[b], AfterFinalize(s, order).buckets[b])
  {
    hide AfterFinish, AfterTake, IsFinished;
    NeverRaises(s, order);
    FinishFinishes(s, order, false, b);
    TakeFinished(s.buckets[b], AfterFinish(s, order, false).0, b);
  }

  /** So does a deferred post-backward for its bucket, and it leaves the counts alone. */
  lemma DeferredFinishes(s: State, b: nat)
    requires b < |s.buckets|
    ensures IsFinished(s.buckets[b], AfterDeferred(s, b).buckets[b])
    ensures SameCounts(s.buckets[b], AfterDeferred(s, b).buckets[b])
  {
    hide IsFinished, NeedsFinish, Synced;
    FinishedIs(s.buckets[b]);
    DeferredStays(s, b);
  }
}
