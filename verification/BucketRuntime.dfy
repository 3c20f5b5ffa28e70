/** The communication context of the buckets of one root module: its methods and the buckets' hooks
    update the state in place, step by step, and end where `BucketState` says. */
module BucketRuntime {
  import opened Basics
  import opened BucketState
  import opened BucketSafety

  class BucketContext {
    var buckets: seq<Bucket>
    var pending: seq<Pending>
    var forwardOrder: seq<nat>
    var postForwardOrder: seq<nat>

    ghost function Contents(): State
      reads this
    {
      State(buckets, pending, forwardOrder, postForwardOrder)
    }

    ghost predicate Valid()
      reads this
    {
      Good(Contents())
    }

    constructor (initial: seq<Bucket>)
      requires ListsOk(initial) && forall b :: 0 <= b < |initial| ==> Fresh(initial[b])
      ensures Valid() && Contents() == State(initial, [], [], [])
    {
      buckets, pending, forwardOrder, postForwardOrder := initial, [], [], [];
      FreshIsGood(initial);
    }

    // ----- Unshards

    method BeginUnshard(b: nat)
      requires b < |buckets|
      modifies this`buckets
      ensures Contents() == Put(old(Contents()), b, Begun(old(buckets)[b]))
    {
      var bucket := buckets[b];
      if bucket.created && !bucket.refillsInFinish {
        bucket := bucket.(hasStorage := true);
      }
      buckets := buckets[b := bucket.(started := bucket.started + 1)];
    }

    /** Finishes an unshard; later ones find their storage allocated. */
    method FinishUnshard(b: nat, ghost taken: set<nat>)
      requires During(Contents(), taken) && b < |buckets| && b in taken
      modifies this`buckets
      ensures During(Contents(), taken - {b}) && Contents() == Put(old(Contents()), b, Filled(old(buckets)[b]))
    {
      hide During;
      FillGood(Contents(), taken, b);
      var bucket := buckets[b];
      if !bucket.created {
        bucket := bucket.(created := true, hasStorage := true);
      } else {
        if bucket.refillsInFinish {
          bucket := bucket.(hasStorage := true);
        }
        assert bucket.hasStorage;
      }
      buckets := buckets[b := bucket.(unsharded := true, settled := bucket.settled + 1)];
    }

    /** Waits for a prefetch that isn't used and frees its storage. */
    method ReleasePrefetch(b: nat)
      requires b < |buckets|
      modifies this`buckets
      ensures Contents() == Put(old(Contents()), b, Dropped(old(buckets)[b]))
    {
      buckets := buckets[b := buckets[b].(hasStorage := false, settled := buckets[b].settled + 1)];
    }

    /** Takes the bucket's prefetched unshard, if there is one, and releases the others: those of
        the learned order, or all if no bucket is given. */
    method TakePending(wanted: Option<nat>) returns (result: bool)
      requires Valid()
      modifies this`buckets, this`pending
      ensures Contents() == AfterTake(old(Contents()), wanted)
      ensures result <==> wanted.Some? && IsPending(old(pending), wanted.value)
    {
      hide Consistent, OrdersOk, ListsOk, Kept, ReleasedOf, Freed, IsPending;
      InFlight(Contents());
      hide PendingOk;
      ghost var before := buckets;
      var kept := [];
      result := false;
      NothingTaken(before, wanted);
      for i := 0 to |pending|
        invariant pending == old(pending) && forwardOrder == old(forwardOrder)
        invariant postForwardOrder == old(postForwardOrder)
        invariant kept == Kept(pending[..i], wanted)
        invariant |buckets| == |before| && buckets == Freed(before, BucketsOf(ReleasedOf(pending[..i], wanted)))
        invariant result <==> wanted.Some? && IsPending(pending[..i], wanted.value)
      {
        var p := pending[i];
        TakeNext(pending, i, wanted);
        PendingNext(pending, i);
        if wanted == Some(p.bucket) {
          result := true;
        } else if wanted.Some? && p.isExplicit {
          kept := kept + [p];
        } else {
          FreedNext(before, pending, wanted, i);
          ReleasePrefetch(p.bucket);
        }
      }
      assert pending[..|pending|] == pending;
      pending := kept;
    }

    /** Finishes other buckets' learned-order prefetches, where their own unshards find them. */
    method FinishOtherPrefetches(b: nat)
      requires Valid()
      modifies this`buckets, this`pending
      ensures Valid() && Contents() == AfterOthers(old(Contents()), b)
    {
      hide Consistent, OrdersOk, ListsOk, Filter, IsOther, FilledAll, PendingOk;
      ghost var before := buckets;
      OthersGood(Contents(), b);
      OthersOut(Contents(), b);
      var finished := Others(pending, b);
      pending := NotOthers(pending, b);
      NoneFilled(before);
      for i := 0 to |finished|
        invariant During(Contents(), BucketsOf(finished[i..])) && pending == NotOthers(old(pending), b)
        invariant forwardOrder == old(forwardOrder) && postForwardOrder == old(postForwardOrder)
        invariant |buckets| == |before| && buckets == FilledAll(before, finished[..i])
      {
        FirstOf(finished, i, |buckets|);
        FilledNext(before, finished, i);
        FinishUnshard(finished[i].bucket, BucketsOf(finished[i..]));
      }
      assert finished[..|finished|] == finished;
    }

    /** Starts a bucket's unshard ahead of its hook. */
    method Prefetch(target: Option<nat>, isExplicit: bool)
      requires Valid() && (target.Some? ==> target.value < |buckets|)
      modifies this`buckets, this`pending
      ensures Valid() && Contents() == AfterPrefetch(old(Contents()), target, isExplicit)
    {
      hide Good, IsPending, Learned;
      PrefetchGood(Contents(), target, isExplicit);
      if target.None? || buckets[target.value].unsharded || IsPending(pending, target.value)
          || (!isExplicit && Learned(pending)) {
        return;
      }
      BeginUnshard(target.value);
      pending := pending + [Pending(target.value, isExplicit)];
    }

    /** Gives the bucket its data, from its prefetch if it has one, and exposes its parameters. */
    method Unshard(b: nat, finishOthers: bool)
      requires Valid() && b < |buckets|
      modifies this`buckets, this`pending
      ensures Valid() && Contents() == AfterUnshard(old(Contents()), b, finishOthers)
    {
      hide Good, AfterOthers, AfterGather, AfterExpose;
      UnshardGood(Contents(), b, finishOthers);
      if !buckets[b].unsharded {
        OthersGood(Contents(), b);
        if finishOthers {
          FinishOtherPrefetches(b);
        }
        Gather(b);
      }
      Expose(b);
    }

    method Gather(b: nat)
      requires Valid() && b < |buckets| && !buckets[b].unsharded
      modifies this`buckets, this`pending
      ensures Contents() == AfterGather(old(Contents()), b)
    {
      hide Good, AfterTake, IsPending, During;
      BeginsGood(Contents(), b);
      assert |AfterTake(Contents(), Some(b)).buckets| == |buckets| by {
        TakeGood(Contents(), Some(b));
      }
      var taken := TakePending(Some(b));
      if !taken {
        BeginUnshard(b);
      }
      assert Contents() == AfterBegin(old(Contents()), b);
      assert {b} - {b} == {};
      FinishUnshard(b, {b});
    }

    /** Swaps the unsharded parameters into the modules. */
    method Expose(b: nat)
      requires b < |buckets|
      modifies this`buckets
      ensures Contents() == AfterExpose(old(Contents()), b)
    {
      buckets := buckets[b := buckets[b].(exposed := true)];
    }

    // ----- Learned orders

    method NextForwardBucket(b: nat) returns (next: Option<nat>)
      requires Valid() && b < |buckets|
      ensures next == NextForward(Contents(), b) && (next.Some? ==> next.value < |buckets|)
    {
      NextForwardIs(Contents(), b);
      var idx := buckets[b].forwardIndex;
      if idx.None? || idx.value + 1 >= |forwardOrder| {
        return None;
      }
      return Some(forwardOrder[idx.value + 1]);
    }

    method NextBackwardBucket(b: nat) returns (next: Option<nat>)
      requires Valid() && b < |buckets|
      ensures next == NextBackward(Contents(), b) && (next.Some? ==> next.value < |buckets|)
    {
      hide Good, Regathers;
      NextBackwardIs(Contents(), b);
      OrderInRange(Contents(), b);
      var idx := buckets[b].postForwardIndex;
      if idx.None? {
        return None;
      }
      for i := idx.value downto 0
        invariant LastRegather(buckets, postForwardOrder[..idx.value]) == LastRegather(buckets, postForwardOrder[..i])
      {
        assert postForwardOrder[..i + 1][..i] == postForwardOrder[..i];
        if Regathers(buckets[postForwardOrder[i]]) {
          return Some(postForwardOrder[i]);
        }
      }
      return None;
    }

    /** Prefetches the bucket's explicit list, if it has one, else the next bucket in the learned
        order. */
    method PrefetchNext(b: nat, forward: bool)
      requires Valid() && b < |buckets|
      modifies this`buckets, this`pending
      ensures Valid() && Contents() == AfterPrefetchNext(old(Contents()), b, forward)
    {
      PrefetchNextGood(Contents(), b, forward);
      TargetsInRange(buckets, b);
      hide Good, AfterPrefetch, AfterPrefetches, NextForward, NextBackward;
      var targets := if forward then buckets[b].forwardPrefetch else buckets[b].backwardPrefetch;
      if targets.None? {
        var next;
        if forward {
          next := NextForwardBucket(b);
        } else {
          next := NextBackwardBucket(b);
        }
        Prefetch(next, false);
        return;
      }
      NoPrefetches(Contents());
      for i := 0 to |targets.value|
        invariant Valid() && Contents() == AfterPrefetches(old(Contents()), targets.value[..i])
      {
        PrefetchesNext(old(Contents()), targets.value, i);
        Prefetch(Some(targets.value[i]), true);
      }
      assert targets.value[..|targets.value|] == targets.value;
    }

    // ----- Resharding and the end of backward

    /** Swaps the shards back in and frees the storage. The state stays valid exactly if no refill
        of the bucket is in flight. */
    method Reshard(b: nat)
      requires Valid() && b < |buckets|
      modifies this`buckets
      ensures Contents() == Put(old(Contents()), b, Resharded(old(buckets)[b]))
      ensures Valid() <==> !RefillInFlight(old(Contents()), b)
    {
      ReshardIs(Contents(), b, buckets[b]);
      hide Good, RefillInFlight;
      buckets := buckets[b := buckets[b].(exposed := false, hasStorage := false, unsharded := false)];
    }

    /** Reduces the grads, or keeps them without gradient sync, and reshards. */
    method PostBackward(b: nat, reshard: bool)
      requires Valid() && b < |buckets|
      modifies this`buckets
      ensures Valid() && Contents() == Put(old(Contents()), b, Synced(old(buckets)[b], reshard))
    {
      hide Good, RefillInFlight, Synced, Resharded;
      SyncGood(Contents(), b, reshard);
      SyncGood(Contents(), b, false);
      SyncedAre(buckets[b]);
      PutTwice(Contents(), b, Synced(buckets[b], false), Resharded(Synced(buckets[b], false)));
      if !buckets[b].requiresSync {
        buckets := buckets[b := buckets[b].(needsSync := true)];
        if reshard && buckets[b].unsharded && buckets[b].reshardAfterBackward {
          Reshard(b);
        }
        return;
      }
      buckets := buckets[b := buckets[b].(needsSync := false)];
      if reshard && buckets[b].unsharded {
        Reshard(b);
      }
    }

    method ResetBackwardState(b: nat)
      requires b < |buckets|
      modifies this`buckets
      ensures Contents() == Put(old(Contents()), b, NoCounts(old(buckets)[b]))
    {
      buckets := buckets[b := buckets[b].(calls := 0, triggers := 0, triggersRun := 0)];
    }

    /** Finishes the buckets that backwards left, in the given order, and resets their counts. It
        raises if a bucket that defers its post-backward is left in a syncing backward that ran
        its triggers. */
    method FinishBuckets(order: seq<nat>, inBackward: bool) returns (raised: bool)
      requires Valid() && forall i :: 0 <= i < |order| ==> order[i] < |buckets|
      modifies this`buckets
      ensures Valid() && (Contents(), raised) == AfterFinish(old(Contents()), order, inBackward)
    {
      hide Good, AfterFinish;
      NoneFinished(Contents(), inBackward);
      for i := 0 to |order|
        invariant Valid() && |buckets| == |old(buckets)|
        invariant AfterFinish(old(Contents()), order[..i], inBackward) == (Contents(), false)
      {
        FinishNext(old(Contents()), order, i, inBackward);
        raised := FinishBucket(order[i], inBackward);
        if raised {
          RaisedStays(old(Contents()), order, i + 1, inBackward);
          return;
        }
      }
      assert order[..|order|] == order;
      raised := false;
    }

    method FinishBucket(b: nat, inBackward: bool) returns (raised: bool)
      requires Valid() && b < |buckets|
      modifies this`buckets
      ensures Valid() && raised == LeftDeferred(old(buckets)[b], inBackward)
      ensures Contents() == if raised then old(Contents()) else Put(old(Contents()), b, Finished(old(buckets)[b]))
    {
      hide Good, Synced, NoCounts;
      FinishedGood(Contents(), b);
      if NeedsFinish(buckets[b]) {
        if buckets[b].defers && buckets[b].requiresSync && buckets[b].triggersRun > 0 && inBackward {
          return true;
        }
        PostBackward(b, true);
      }
      PutTwice(old(Contents()), b, buckets[b], NoCounts(buckets[b]));
      ResetBackwardState(b);
      raised := false;
    }

    /** The end of a backward; `finish` if a pre-backward hook ran in it. */
    method EndBackward(finish: bool) returns (raised: bool)
      requires Valid()
      modifies this`buckets, this`pending
      ensures Valid() && (Contents(), raised) == AfterBackward(old(Contents()), finish)
      ensures finish && !raised ==> Idle(Contents())
    {
      hide Good, AfterTake, AfterFinish, Idle;
      BackwardGood(Contents(), finish);
      raised := false;
      if finish {
        if !AfterBackward(Contents(), true).1 {
          BackwardSettles(Contents());
        }
        raised := FinishBuckets(Registration(|buckets|), true);
        if !raised {
          var none := TakePending(None);
        }
      }
    }

    /** Finalizes backward outside of it, the buckets in reverse order of their modules. */
    method FinalizeBackward(order: seq<nat>)
      requires Valid() && (forall i :: 0 <= i < |order| ==> order[i] < |buckets|)
      requires forall b: nat :: b < |buckets| ==> b in order
      modifies this`buckets, this`pending
      ensures Valid() && Contents() == AfterFinalize(old(Contents()), order) && Idle(Contents())
    {
      hide Good, AfterTake, AfterFinish, Idle;
      FinalizeGood(Contents(), order);
      FinalizeSettles(Contents(), order);
      var raised := FinishBuckets(order, false);
      var none := TakePending(None);
    }

    /** Reshards every bucket and clears the backward state. */
    method Reset()
      requires Valid()
      modifies this`buckets, this`pending
      ensures Valid() && Contents() == AfterReset(old(Contents()))
    {
      hide Good, AfterTake, Cleared, OrdersOk, ListsOk;
      ResetClears(Contents());
      var none := TakePending(None);
      ghost var taken := buckets;
      for i := 0 to |buckets|
        invariant pending == AfterTake(old(Contents()), None).pending
        invariant forwardOrder == old(forwardOrder) && postForwardOrder == old(postForwardOrder)
        invariant |buckets| == |taken|
        invariant forall b :: 0 <= b < |buckets| ==> buckets[b] == if b < i then Cleared(taken[b]) else taken[b]
      {
        ResetBucket(i);
      }
      assert buckets == ClearedUpTo(taken, |taken|);
    }

    method ResetBucket(b: nat)
      requires b < |buckets|
      modifies this`buckets
      ensures buckets == old(buckets)[b := Cleared(old(buckets)[b])]
    {
      if buckets[b].unsharded {
        buckets := buckets[b := buckets[b].(unsharded := false, hasStorage := false, exposed := false)];
      }
      ResetBackwardState(b);
    }

    // ----- Hooks

    /** Before a module's forward: its bucket is unsharded and exposed, gets its place in the
        learned order the first time, and prefetches. */
    method PreForward(b: nat)
      requires Valid() && b < |buckets|
      modifies this
      ensures Valid() && Contents() == AfterPreForward(old(Contents()), b)
    {
      hide Good, AfterUnshard, AfterPrefetchNext;
      LearnForwardGood(Contents(), b);
      if buckets[b].forwardIndex.None? {
        buckets := buckets[b := buckets[b].(forwardIndex := Some(|forwardOrder|))];
        forwardOrder := forwardOrder + [b];
      }
      Unshard(b, false);
      PrefetchNext(b, true);
    }

    /** Before a forward that a checkpoint runs again in backward: another bucket's prefetch is
        finished for that bucket. */
    method PreForwardRecompute(b: nat)
      requires Valid() && b < |buckets|
      modifies this`buckets, this`pending
      ensures Valid() && Contents() == AfterUnshard(old(Contents()), b, true)
    {
      Unshard(b, true);
    }

    /** After a module's forward, outside backward: it reshards, or counts the call for the backward
        that will come. The state stays valid exactly if it doesn't reshard or no refill of the
        bucket is in flight; while the forward call's own unshard is in place, none is. */
    method PostForward(b: nat, ending: Ending, hasTrigger: bool)
      requires Valid() && b < |buckets|
      modifies this
      ensures Contents() == AfterPostForward(old(Contents()), b, ending, hasTrigger)
      ensures Valid() <==> KeepsData(old(buckets)[b], ending) || !RefillInFlight(old(Contents()), b)
      ensures old(buckets)[b].unsharded ==> Valid()
    {
      PostForwardIs(Contents(), b, ending, hasTrigger);
      UnshardedIs(Contents(), b);
      LearnPostForwardGood(Contents(), b);
      hide Good;
      if buckets[b].postForwardIndex.None? {
        buckets := buckets[b := buckets[b].(postForwardIndex := Some(|postForwardOrder|))];
        postForwardOrder := postForwardOrder + [b];
      }
      EndForward(b, ending, hasTrigger);
    }

    method EndForward(b: nat, ending: Ending, hasTrigger: bool)
      requires Valid() && b < |buckets|
      modifies this`buckets
      ensures Contents() == Put(old(Contents()), b, Ended(old(buckets)[b], ending, hasTrigger))
    {
      hide Good, RefillInFlight, Resharded, WithCounts;
      match ending
      case NoBackward =>
        Reshard(b);
      case NoTensors =>
        SetCounts(b, buckets[b].calls + 1, buckets[b].triggers, buckets[b].triggersRun);
      case Hooked(viewsStorage) =>
        SettingsKept(buckets[b], buckets[b].calls + 1, buckets[b].triggers + (if hasTrigger then 1 else 0),
            buckets[b].triggersRun);
        SetCounts(b, buckets[b].calls + 1, buckets[b].triggers + (if hasTrigger then 1 else 0), buckets[b].triggersRun);
        if buckets[b].reshardAfterForward && !viewsStorage {
          PutTwice(old(Contents()), b, buckets[b], Resharded(buckets[b]));
          Reshard(b);
        }
    }

    method SetCounts(b: nat, calls: nat, triggers: nat, run: nat)
      requires Valid() && b < |buckets|
      modifies this`buckets
      ensures Valid() && Contents() == Put(old(Contents()), b, WithCounts(old(buckets)[b], calls, triggers, run))
    {
      hide Good, StorageOk, SameSettings;
      StorageOf(Contents(), b);
      CountsIs(buckets[b], calls, triggers, run, IsPending(pending, b));
      OneBucketGood(Contents(), b, WithCounts(buckets[b], calls, triggers, run));
      buckets := buckets[b := buckets[b].(calls := calls, triggers := triggers, triggersRun := run)];
    }

    /** Before a module's backward: its bucket is unsharded and exposed, grads kept without sync are
        reduced first if the bucket was called more than once, and it prefetches. */
    method PreBackward(b: nat)
      requires Valid() && b < |buckets|
      modifies this`buckets, this`pending
      ensures Valid() && Contents() == AfterPreBackward(old(Contents()), b)
    {
      hide Good, AfterUnshard, AfterPrefetchNext, Synced;
      Unshard(b, false);
      if buckets[b].calls > 1 && buckets[b].needsSync && buckets[b].requiresSync && !buckets[b].defers {
        PostBackward(b, false);
      }
      PrefetchNext(b, false);
    }

    /** A post-backward trigger ran. The bucket's post-backward runs only once every forward call
        since the last backward carried a trigger and all of them ran. */
    method OnInputGrads(b: nat)
      requires Valid() && b < |buckets|
      modifies this`buckets
      ensures Valid() && Contents() == Put(old(Contents()), b, Triggered(old(buckets)[b]))
    {
      hide Good, Synced, NoCounts, WithCounts;
      TriggeredGood(Contents(), b);
      SettingsKept(buckets[b], buckets[b].calls, buckets[b].triggers, buckets[b].triggersRun + 1);
      SetCounts(b, buckets[b].calls, buckets[b].triggers, buckets[b].triggersRun + 1);
      if buckets[b].defers {
        return;
      }
      if buckets[b].calls == buckets[b].triggers == buckets[b].triggersRun {
        PutTwice(old(Contents()), b, buckets[b], Synced(buckets[b], true));
        PostBackward(b, true);
        PutTwice(old(Contents()), b, buckets[b], NoCounts(buckets[b]));
        ResetBackwardState(b);
      }
    }

    // ----- Calls from outside

    method FinishDeferredBackward(b: nat)
      requires Valid() && b < |buckets|
      modifies this`buckets
      ensures Valid() && Contents() == AfterDeferred(old(Contents()), b)
    {
      hide Good, Synced;
      if NeedsFinish(buckets[b]) {
        PostBackward(b, true);
      }
    }

    /** Reshards one bucket and releases its prefetch. */
    method ReshardBucket(b: nat)
      requires Valid() && b < |buckets|
      modifies this`buckets, this`pending
      ensures Valid() && Contents() == AfterReshard(old(Contents()), b)
    {
      hide Good, AfterRelease, RefillInFlight;
      ReleaseGood(Contents(), b);
      ReshardGood(Contents(), b);
      ReleasePendingUnshard(b);
      if buckets[b].unsharded {
        Reshard(b);
      }
    }

    method ReleasePendingUnshard(b: nat)
      requires Valid() && b < |buckets|
      modifies this`buckets, this`pending
      ensures Contents() == AfterRelease(old(Contents()), b)
    {
      if IsPending(pending, b) {
        ReleasePrefetch(b);
      }
      pending := WithoutPending(pending, b);
    }

    /** Unshards all buckets, or starts explicit prefetches of those that aren't unsharded. */
    method UnshardAll(asyncOp: bool)
      requires Valid()
      modifies this`buckets, this`pending
      ensures Valid() && Contents() == AfterUnshardAll(old(Contents()), asyncOp, |old(buckets)|)
    {
      hide Good, AfterUnshard, AfterPrefetch;
      for i := 0 to |buckets|
        invariant Valid() && |buckets| == |old(buckets)| && Contents() == AfterUnshardAll(old(Contents()), asyncOp, i)
      {
        if !asyncOp || buckets[i].unsharded {
          Unshard(i, false);
        } else {
          Prefetch(Some(i), true);
        }
      }
    }

    /** Changes what callers may set on a bucket. */
    method Configure(b: nat, settings: Settings)
      requires Valid() && b < |buckets| && SettingsOk(settings, |buckets|)
      modifies this`buckets
      ensures Valid() && Contents() == AfterConfigure(old(Contents()), b, settings)
    {
      hide Good, Configured;
      ConfigureGood(Contents(), b, settings);
      ConfiguredInTurn(buckets[b], settings);
      var bucket := buckets[b];
      bucket := bucket.(requiresSync := settings.requiresSync);
      bucket := bucket.(reshardAfterForward := settings.reshardAfterForward,
                        reshardAfterBackward := settings.reshardAfterBackward);
      bucket := bucket.(forwardPrefetch := settings.forwardPrefetch, backwardPrefetch := settings.backwardPrefetch);
      buckets := buckets[b := bucket.(defers := settings.defers)];
    }

    /** Waits on the handle of an asynchronous `UnshardAll`. */
    method Wait(started: seq<nat>)
      requires Valid() && forall i :: 0 <= i < |started| ==> started[i] < |buckets|
      modifies this`buckets, this`pending
      ensures Valid() && Contents() == AfterWait(old(Contents()), started)
    {
      hide Good, AfterUnshard, AfterWait, IsPending;
      NoWait(Contents());
      for i := 0 to |started|
        invariant Valid() && |buckets| == |old(buckets)| && Contents() == AfterWait(old(Contents()), started[..i])
      {
        WaitNext(old(Contents()), started, i);
        if IsPending(pending, started[i]) {
          Unshard(started[i], false);
        }
      }
      assert started[..|started|] == started;
    }
  }

  lemma SyncedAre(k: Bucket)
    ensures Synced(k, false) == k.(needsSync := !k.requiresSync)
    ensures Synced(k, true) ==
            if k.unsharded && (k.requiresSync || k.reshardAfterBackward) then
                Resharded(Synced(k, false)) else Synced(k, false)
    ensures Synced(k, false).unsharded == k.unsharded && Synced(k, false).reshardAfterBackward == k.reshardAfterBackward
  {
  }

  lemma SettingsKept(k: Bucket, calls: nat, triggers: nat, run: nat)
    ensures WithCounts(k, calls, triggers, run).reshardAfterForward == k.reshardAfterForward
    ensures WithCounts(k, calls, triggers, run).defers == k.defers
    ensures WithCounts(k, calls, triggers, run).calls == calls
    ensures WithCounts(k, calls, triggers, run).triggers == triggers
    ensures WithCounts(k, calls, triggers, run).triggersRun == run
  {
  }

  /** Settings can be set one after the other. */
  lemma ConfiguredInTurn(k: Bucket, c: Settings)
    ensures k.(requiresSync := c.requiresSync)
             .(reshardAfterForward := c.reshardAfterForward, reshardAfterBackward := c.reshardAfterBackward)
             .(forwardPrefetch := c.forwardPrefetch, backwardPrefetch := c.backwardPrefetch)
             .(defers := c.defers) == Configured(k, c)
  {
  }

  /** Changing one bucket twice is changing it once. */
  lemma PutTwice(s: State, b: nat, k: Bucket, l: Bucket)
    requires b < |s.buckets|
    ensures Put(Put(s, b, k), b, l) == Put(s, b, l)
  {
    assert s.buckets[b := k][b := l] == s.buckets[b := l];
  }

  // ----- One more iteration

  lemma InFlight(s: State)
    requires Good(s)
    ensures PendingOk(s.pending, |s.buckets|) && forall i :: 0 <= i < |s.pending| ==> s.pending[i].bucket < |s.buckets|
  {
  }

  lemma NothingTaken(buckets: seq<Bucket>, wanted: Option<nat>)
    ensures Kept([], wanted) == [] && ReleasedOf([], wanted) == []
    ensures Freed(buckets, BucketsOf(ReleasedOf([], wanted))) == buckets
    ensures forall b :: !IsPending([], b)
  {
    assert BucketsOf(ReleasedOf([], wanted)) == {};
  }

  lemma TakeNext(ps: seq<Pending>, i: nat, wanted: Option<nat>)
    requires i < |ps|
    ensures Kept(ps[..i + 1], wanted) == if Keeps(ps[i], wanted) then Kept(ps[..i], wanted)
        + [ps[i]] else Kept(ps[..i], wanted)
    ensures ReleasedOf(ps[..i + 1], wanted) ==
            if Releases(ps[i], wanted) then ReleasedOf(ps[..i], wanted) + [ps[i]] else ReleasedOf(ps[..i], wanted)
  {
    assert ps[..i + 1][..i] == ps[..i];
  }

  lemma PendingNext(ps: seq<Pending>, i: nat)
    requires i < |ps|
    ensures forall b :: IsPending(ps[..i + 1], b) <==> IsPending(ps[..i], b) || b == ps[i].bucket
  {
    forall b ensures IsPending(ps[..i + 1], b) <==> IsPending(ps[..i], b) || b == ps[i].bucket {
      if j :| 0 <= j < i && ps[..i][j].bucket == b {
        assert ps[..i + 1][j].bucket == b;
      } else if b == ps[i].bucket {
        assert ps[..i + 1][i].bucket == b;
      }
    }
  }

  lemma FreedNext(buckets: seq<Bucket>, ps: seq<Pending>, wanted: Option<nat>, i: nat)
    requires PendingOk(ps, |buckets|) && i < |ps| && Releases(ps[i], wanted)
    ensures ps[i].bucket < |buckets|
    ensures Freed(buckets, BucketsOf(ReleasedOf(ps[..i + 1], wanted))) ==
            var before := Freed(buckets, BucketsOf(ReleasedOf(ps[..i], wanted)));
            before[ps[i].bucket := Dropped(before[ps[i].bucket])]
  {
    hide Dropped;
    TakeNext(ps, i, wanted);
    FilterIn(ps[..i], (p: Pending) => Releases(p, wanted));
    hide Keeps, Releases, Filter, ReleasedOf;
    var less := ReleasedOf(ps[..i], wanted);
    assert BucketsOf(less + [ps[i]]) == BucketsOf(less) + {ps[i].bucket};
    assert ps[i].bucket !in BucketsOf(less);
  }

  lemma NoneFilled(buckets: seq<Bucket>)
    ensures FilledAll(buckets, []) == buckets
  {
  }

  lemma FilledNext(buckets: seq<Bucket>, ps: seq<Pending>, i: nat)
    requires i < |ps| && ps[i].bucket < |buckets|
    ensures FilledAll(buckets, ps[..i + 1]) ==
            var before := FilledAll(buckets, ps[..i]);
            before[ps[i].bucket := Filled(before[ps[i].bucket])]
  {
    assert ps[..i + 1][..i] == ps[..i];
  }

  lemma FirstOf(ps: seq<Pending>, i: nat, n: nat)
    requires i < |ps| && PendingOk(ps, n)
    ensures ps[i].bucket < n
    ensures ps[i].bucket in BucketsOf(ps[i..]) && BucketsOf(ps[i..]) - {ps[i].bucket} == BucketsOf(ps[i + 1..])
  {
    assert ps[i..] == [ps[i]] + ps[i + 1..];
    forall p | p in ps[i + 1..] ensures p.bucket != ps[i].bucket {
      var j :| i + 1 <= j < |ps| && ps[j] == p;
    }
  }

  lemma OrderInRange(s: State, b: nat)
    requires Good(s) && b < |s.buckets|
    ensures s.buckets[b].postForwardIndex.Some? ==> s.buckets[b].postForwardIndex.value < |s.postForwardOrder|
    ensures forall i :: 0 <= i < |s.postForwardOrder| ==> s.postForwardOrder[i] < |s.buckets|
  {
  }

  lemma TargetsInRange(buckets: seq<Bucket>, b: nat)
    requires ListsOk(buckets) && b < |buckets|
    ensures ListOk(buckets[b].forwardPrefetch, |buckets|) && ListOk(buckets[b].backwardPrefetch, |buckets|)
  {
  }

  lemma NoPrefetches(s: State)
    ensures AfterPrefetches(s, []) == s
  {
  }

  lemma PrefetchesNext(s: State, targets: seq<nat>, i: nat)
    requires i < |targets|
    ensures AfterPrefetches(s, targets[..i + 1])
        == AfterPrefetch(AfterPrefetches(s, targets[..i]), Some(targets[i]), true)
  {
    assert targets[..i + 1][..i] == targets[..i];
  }

  lemma NoneFinished(s: State, inBackward: bool)
    ensures AfterFinish(s, [], inBackward) == (s, false)
  {
  }

  lemma FinishNext(s: State, order: seq<nat>, i: nat, inBackward: bool)
    requires i < |order| && order[i] < |s.buckets| && !AfterFinish(s, order[..i], inBackward).1
    ensures AfterFinish(s, order[..i + 1], inBackward) ==
            var t := AfterFinish(s, order[..i], inBackward).0;
            if LeftDeferred(t.buckets[order[i]], inBackward) then (t, true)
                else (Put(t, order[i], Finished(t.buckets[order[i]])), false)
  {
    assert order[..i + 1][..i] == order[..i];
  }

  lemma {:induction false} RaisedStays(s: State, order: seq<nat>, i: nat, inBackward: bool)
    requires i <= |order| && AfterFinish(s, order[..i], inBackward).1
    ensures AfterFinish(s, order, inBackward) == AfterFinish(s, order[..i], inBackward)
    decreases |order| - i
  {
    if i < |order| {
      assert order[..i + 1][..i] == order[..i];
      RaisedStays(s, order, i + 1, inBackward);
    } else {
      assert order[..i] == order;
    }
  }

  lemma NoWait(s: State)
    ensures AfterWait(s, []) == s
  {
  }

  lemma WaitNext(s: State, started: seq<nat>, i: nat)
    requires i < |started| && started[i] < |s.buckets|
    ensures AfterWait(s, started[..i + 1]) ==
            var t := AfterWait(s, started[..i]);
            if IsPending(t.pending, started[i]) then AfterUnshard(t, started[i], false) else t
  {
    assert started[..i + 1][..i] == started[..i];
  }
}
