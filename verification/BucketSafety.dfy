/** Whatever hooks and methods run, the bucket runtime's invariant holds, as long as no forward of
    a bucket starts or is resharded while one of the same bucket runs. */
module BucketSafety {
  import opened Basics
  import opened BucketState

  // ----- What steps leave alone

  /** The same settings, prefetch lists and places in the learned orders. */
  predicate SameSettings(k: Bucket, l: Bucket) {
    && l.refillsInFinish == k.refillsInFinish && l.reshardAfterForward == k.reshardAfterForward
    && l.reshardAfterBackward == k.reshardAfterBackward && l.requiresSync == k.requiresSync && l.defers == k.defers
    && l.forwardPrefetch == k.forwardPrefetch && l.backwardPrefetch == k.backwardPrefetch
    && l.forwardIndex == k.forwardIndex && l.postForwardIndex == k.postForwardIndex
  }

  predicate Framed(s: State, t: State) {
    && |t.buckets| == |s.buckets| && t.forwardOrder == s.forwardOrder && t.postForwardOrder == s.postForwardOrder
    && forall b :: 0 <= b < |s.buckets| ==> SameSettings(s.buckets[b], t.buckets[b])
  }

  /** What is unsharded or exposed stays so. */
  predicate Grows(s: State, t: State) {
    && |t.buckets| == |s.buckets|
    && forall b :: 0 <= b < |s.buckets| ==>
         (s.buckets[b].unsharded ==> t.buckets[b].unsharded) && (s.buckets[b].exposed ==> t.buckets[b].exposed)
  }

  /** A step that changes no settings and reshards nothing. */
  predicate Mild(s: State, t: State) {
    Framed(s, t) && Grows(s, t)
  }

  lemma FramedKeeps(s: State, t: State)
    requires Framed(s, t) && OrdersOk(s) && ListsOk(s.buckets)
    ensures OrdersOk(t) && ListsOk(t.buckets)
  {
  }

  lemma MildTrans(s: State, t: State, u: State)
    requires Mild(s, t) && Mild(t, u)
    ensures Mild(s, u)
  {
  }

  lemma MildSelf(s: State)
    ensures Mild(s, s)
  {
  }

  // ----- Prefetches in flight

  lemma PendingIs(ps: seq<Pending>, b: nat)
    ensures IsPending(ps, b) <==> exists p :: p in ps && p.bucket == b
  {
    if p :| p in ps && p.bucket == b {
      var i :| 0 <= i < |ps| && ps[i] == p;
    }
  }

  lemma PendingUnique(ps: seq<Pending>, p: Pending, q: Pending, n: nat)
    requires PendingOk(ps, n) && p in ps && q in ps && p.bucket == q.bucket
    ensures p == q
  {
    var i :| 0 <= i < |ps| && ps[i] == p;
    var j :| 0 <= j < |ps| && ps[j] == q;
  }

  lemma LastPending(ps: seq<Pending>, n: nat)
    requires PendingOk(ps, n) && ps != []
    ensures var m := |ps| - 1;
            && PendingOk(ps[..m], n) && ps[m].bucket < n
            && (forall p :: p in ps <==> p in ps[..m] || p == ps[m])
            && (forall p :: p in ps[..m] ==> p.bucket != ps[m].bucket && (p.isExplicit || ps[m].isExplicit))
  {
    assert ps == ps[..|ps| - 1] + [ps[|ps| - 1]];
  }

  lemma OneMorePending(ps: seq<Pending>, last: Pending, n: nat)
    requires PendingOk(ps, n) && last.bucket < n
    requires forall p :: p in ps ==> p.bucket != last.bucket && (p.isExplicit || last.isExplicit)
    ensures PendingOk(ps + [last], n)
  {
    assert forall i :: 0 <= i < |ps| ==> ps[i] in ps;
  }

  lemma {:induction false} FilterOk(ps: seq<Pending>, f: Pending -> bool, n: nat)
    requires PendingOk(ps, n)
    ensures PendingOk(Filter(ps, f), n)
    ensures forall p :: p in Filter(ps, f) <==> p in ps && f(p)
  {
    hide PendingOk;
    if ps != [] {
      var m := |ps| - 1;
      LastPending(ps, n);
      FilterOk(ps[..m], f, n);
      var before := Filter(ps[..m], f);
      if f(ps[m]) {
        assert Filter(ps, f) == before + [ps[m]];
        OneMorePending(before, ps[m], n);
      } else {
        assert Filter(ps, f) == before;
      }
    }
  }

  lemma {:induction false} FilterNone(ps: seq<Pending>, f: Pending -> bool)
    requires forall p :: !f(p)
    ensures Filter(ps, f) == []
  {
    if ps != [] {
      FilterNone(ps[..|ps| - 1], f);
    }
  }

  // ----- Single steps

  /** A change of one bucket that nothing in flight minds. */
  lemma OneBucket(s: State, taken: set<nat>, b: nat, k: Bucket)
    requires During(s, taken) && b < |s.buckets| && SameSettings(s.buckets[b], k)
    requires StorageOk(k, IsPending(s.pending, b) || b in taken)
    ensures During(Put(s, b, k), taken) && Framed(s, Put(s, b, k))
  {
    hide StorageOk, PendingOk, OrdersOk, ListsOk;
    assert Framed(s, Put(s, b, k));
    FramedKeeps(s, Put(s, b, k));
  }

  lemma BeginGood(s: State, taken: set<nat>, b: nat)
    requires During(s, taken) && b < |s.buckets| && b !in taken && !IsPending(s.pending, b) && !s.buckets[b].unsharded
    ensures During(Put(s, b, Begun(s.buckets[b])), taken + {b}) && Mild(s, Put(s, b, Begun(s.buckets[b])))
  {
    hide OrdersOk, ListsOk, PendingOk;
    FramedKeeps(s, Put(s, b, Begun(s.buckets[b])));
  }

  lemma FillGood(s: State, taken: set<nat>, b: nat)
    requires During(s, taken) && b < |s.buckets| && b in taken
    ensures s.buckets[b].created && !s.buckets[b].refillsInFinish ==> s.buckets[b].hasStorage
    ensures During(Put(s, b, Filled(s.buckets[b])), taken - {b}) && Mild(s, Put(s, b, Filled(s.buckets[b])))
  {
    hide OrdersOk, ListsOk, PendingOk;
    FramedKeeps(s, Put(s, b, Filled(s.buckets[b])));
  }

  lemma DropGood(s: State, taken: set<nat>, b: nat)
    requires During(s, taken) && b < |s.buckets| && b in taken
    ensures During(Put(s, b, Dropped(s.buckets[b])), taken - {b}) && Mild(s, Put(s, b, Dropped(s.buckets[b])))
  {
    hide OrdersOk, ListsOk, PendingOk;
    FramedKeeps(s, Put(s, b, Dropped(s.buckets[b])));
  }

  lemma ExposeGood(s: State, b: nat)
    requires Good(s) && b < |s.buckets| && s.buckets[b].unsharded
    ensures Good(AfterExpose(s, b)) && Mild(s, AfterExpose(s, b))
  {
    assert StorageOk(s.buckets[b], IsPending(s.pending, b));
    OneBucket(s, {}, b, s.buckets[b].(exposed := true));
  }

  /** An unshard in flight, put among the pending ones. */
  lemma QueueGood(s: State, taken: set<nat>, p: Pending)
    requires During(s, taken) && p.bucket in taken && p.bucket < |s.buckets| && (p.isExplicit || !Learned(s.pending))
    ensures During(s.(pending := s.pending + [p]), taken - {p.bucket})
  {
    hide StorageOk, OrdersOk, ListsOk;
    var more := s.pending + [p];
    assert forall i :: 0 <= i < |s.pending| ==> IsPending(s.pending, s.pending[i].bucket);
    forall c: nat ensures IsPending(more, c) <==> IsPending(s.pending, c) || c == p.bucket {
      if j :| 0 <= j < |s.pending| && s.pending[j].bucket == c {
        assert more[j].bucket == c;
      } else if c == p.bucket {
        assert more[|s.pending|].bucket == c;
      }
    }
    FramedKeeps(s, s.(pending := more));
  }

  /** Resharding a bucket keeps the invariant exactly if no refill of it is in flight. */
  lemma ReshardIs(s: State, b: nat, k: Bucket)
    requires Good(s) && b < |s.buckets| && SameSettings(s.buckets[b], k)
    requires k.created == s.buckets[b].created && k.started == s.buckets[b].started && k.settled == s.buckets[b].settled
    ensures Good(Put(s, b, Resharded(k))) <==> !RefillInFlight(s, b)
    ensures Framed(s, Put(s, b, Resharded(k)))
  {
    hide OrdersOk, ListsOk, PendingOk;
    var t := Put(s, b, Resharded(k));
    FramedKeeps(s, t);
    assert StorageOk(s.buckets[b], IsPending(s.pending, b));
    assert StorageOk(t.buckets[b], IsPending(s.pending, b)) <==> !RefillInFlight(s, b);
  }

  /** Whether a refill of the bucket is in flight, which writes its storage. */
  predicate RefillInFlight(s: State, b: nat)
    requires b < |s.buckets|
  {
    IsPending(s.pending, b) && s.buckets[b].created && !s.buckets[b].refillsInFinish
  }

  lemma UnshardedIs(s: State, b: nat)
    requires Good(s) && b < |s.buckets|
    ensures s.buckets[b].exposed ==> s.buckets[b].unsharded
    ensures s.buckets[b].unsharded ==> s.buckets[b].hasStorage && !IsPending(s.pending, b)
  {
    assert StorageOk(s.buckets[b], IsPending(s.pending, b));
  }

  /** Reducing grads, and resetting counts, keeps the invariant. */
  lemma SyncGood(s: State, b: nat, reshard: bool)
    requires Good(s) && b < |s.buckets|
    ensures Good(Put(s, b, Synced(s.buckets[b], reshard))) && Framed(s, Put(s, b, Synced(s.buckets[b], reshard)))
    ensures Good(Put(s, b, NoCounts(Synced(s.buckets[b], reshard))))
    ensures Framed(s, Put(s, b, NoCounts(Synced(s.buckets[b], reshard))))
    ensures !reshard ==> Mild(s, Put(s, b, Synced(s.buckets[b], reshard)))
  {
    var k := s.buckets[b];
    assert StorageOk(k, IsPending(s.pending, b));
    OneBucket(s, {}, b, Synced(k, reshard));
    OneBucket(s, {}, b, NoCounts(Synced(k, reshard)));
  }

  // ----- Taking prefetches

  /** Taking one prefetch and releasing others leaves only the taken one in flight besides what
      stays. */
  lemma TakeGood(s: State, wanted: Option<nat>)
    requires Good(s) && (wanted.Some? ==> wanted.value < |s.buckets|)
    ensures During(AfterTake(s, wanted), if wanted.Some? && IsPending(s.pending, wanted.value) then {wanted.value}
        else {})
    ensures Mild(s, AfterTake(s, wanted))
    ensures wanted.None? ==> AfterTake(s, wanted).pending == []
    ensures wanted.Some? ==>
        !IsPending(AfterTake(s, wanted).pending, wanted.value) && !Learned(AfterTake(s, wanted).pending)
    ensures forall b :: 0 <= b < |s.buckets| ==> AfterTake(s, wanted).buckets[b].unsharded == s.buckets[b].unsharded
  {
    hide OrdersOk, ListsOk, IsPending, PendingOk, StorageOk;
    TakeConsistent(s, wanted);
    FramedKeeps(s, AfterTake(s, wanted));
    if wanted.None? {
      FilterNone(s.pending, (p: Pending) => Keeps(p, wanted));
    } else {
      FilterOk(s.pending, (p: Pending) => Keeps(p, wanted), |s.buckets|);
      PendingIs(Kept(s.pending, wanted), wanted.value);
      var kept := Kept(s.pending, wanted);
      forall i | 0 <= i < |kept| ensures kept[i].isExplicit {
        assert kept[i] in kept;
      }
    }
  }

  lemma TakeConsistent(s: State, wanted: Option<nat>)
    requires Consistent(s.buckets, s.pending, {}) && (wanted.Some? ==> wanted.value < |s.buckets|)
    ensures Consistent(AfterTake(s, wanted).buckets, AfterTake(s, wanted).pending,
                       if wanted.Some? && IsPending(s.pending, wanted.value) then {wanted.value} else {})
  {
    hide IsPending, PendingOk;
    var ps := s.pending;
    var kept, released := Kept(ps, wanted), ReleasedOf(ps, wanted);
    FilterOk(ps, (p: Pending) => Keeps(p, wanted), |s.buckets|);
    FilterOk(ps, (p: Pending) => Releases(p, wanted), |s.buckets|);
    if wanted.Some? {
      PendingIs(kept, wanted.value);
    }
    forall b: nat | b < |s.buckets|
      ensures StorageOk(Freed(s.buckets, BucketsOf(released))[b], IsPending(kept, b)
          || (wanted == Some(b) && IsPending(ps, b)))
    {
      assert StorageOk(s.buckets[b], IsPending(ps, b));
      PendingIs(ps, b);
      PendingIs(kept, b);
      if b in BucketsOf(released) {
        var p :| p in released && p.bucket == b;
        forall q | q in kept ensures q.bucket != b {
          if q.bucket == b {
            PendingUnique(ps, p, q, |s.buckets|);
          }
        }
      } else if p :| p in ps && p.bucket == b {
        assert p !in released;
      }
    }
  }

  /** The other buckets' learned-order prefetches, taken out. */
  lemma OthersOut(s: State, b: nat)
    requires Good(s)
    ensures During(s.(pending := NotOthers(s.pending, b)), BucketsOf(Others(s.pending, b)))
    ensures PendingOk(Others(s.pending, b), |s.buckets|)
  {
    hide PendingOk, IsPending, StorageOk, OrdersOk, ListsOk;
    var ps := s.pending;
    var finished, kept := Others(ps, b), NotOthers(ps, b);
    FilterOk(ps, (p: Pending) => IsOther(p, b), |s.buckets|);
    FilterOk(ps, (p: Pending) => !IsOther(p, b), |s.buckets|);
    forall c: nat ensures IsPending(ps, c) <==> IsPending(kept, c) || c in BucketsOf(finished) {
      PendingIs(ps, c);
      PendingIs(kept, c);
      if p :| p in ps && p.bucket == c {
        assert p in kept || p in finished;
      }
    }
    forall c | c in BucketsOf(finished) ensures !IsPending(kept, c) {
      var p :| p in finished && p.bucket == c;
      PendingIs(kept, c);
      forall q | q in kept ensures q.bucket != c {
        if q.bucket == c {
          PendingUnique(ps, p, q, |s.buckets|);
        }
      }
    }
    FramedKeeps(s, s.(pending := kept));
  }

  /** Finishing unshards in flight one after the other. */
  lemma {:induction false} FillAllGood(s: State, ps: seq<Pending>, taken: set<nat>)
    requires During(s, taken) && PendingOk(ps, |s.buckets|) && BucketsOf(ps) <= taken
    ensures During(s.(buckets := FilledAll(s.buckets, ps)), taken - BucketsOf(ps))
    ensures Mild(s, s.(buckets := FilledAll(s.buckets, ps)))
  {
    hide Consistent, OrdersOk, ListsOk, PendingOk, Mild;
    if ps == [] {
      assert taken - BucketsOf(ps) == taken;
      MildSelf(s);
    } else {
      var n := |ps| - 1;
      LastPending(ps, |s.buckets|);
      assert BucketsOf(ps) == BucketsOf(ps[..n]) + {ps[n].bucket};
      FillAllGood(s, ps[..n], taken);
      var t := s.(buckets := FilledAll(s.buckets, ps[..n]));
      assert ps[n].bucket !in BucketsOf(ps[..n]);
      FillGood(t, taken - BucketsOf(ps[..n]), ps[n].bucket);
      var u := Put(t, ps[n].bucket, Filled(t.buckets[ps[n].bucket]));
      assert taken - BucketsOf(ps[..n]) - {ps[n].bucket} == taken - BucketsOf(ps);
      MildTrans(s, t, u);
    }
  }

  lemma OthersGood(s: State, b: nat)
    requires Good(s)
    ensures Good(AfterOthers(s, b)) && Mild(s, AfterOthers(s, b))
    ensures b < |s.buckets| ==> AfterOthers(s, b).buckets[b] == s.buckets[b]
  {
    hide Consistent, OrdersOk, ListsOk, PendingOk;
    OthersOut(s, b);
    var finished := Others(s.pending, b);
    var t := s.(pending := NotOthers(s.pending, b));
    FillAllGood(t, finished, BucketsOf(finished));
    assert BucketsOf(finished) - BucketsOf(finished) == {};
    if b < |s.buckets| {
      FilterIn(s.pending, (p: Pending) => IsOther(p, b));
      NotFilled(s.buckets, finished, b);
    }
  }

  lemma {:induction false} FilterIn(ps: seq<Pending>, f: Pending -> bool)
    ensures forall p :: p in Filter(ps, f) <==> p in ps && f(p)
  {
    if ps != [] {
      var n := |ps| - 1;
      FilterIn(ps[..n], f);
      assert ps == ps[..n] + [ps[n]];
    }
  }

  lemma {:induction false} NotFilled(buckets: seq<Bucket>, ps: seq<Pending>, b: nat)
    requires b < |buckets| && forall p :: p in ps ==> p.bucket != b
    ensures FilledAll(buckets, ps)[b] == buckets[b]
  {
    if ps != [] {
      var n := |ps| - 1;
      assert ps[n] in ps;
      NotFilled(buckets, ps[..n], b);
    }
  }

  // ----- Unsharding and prefetching

  lemma BeginsGood(s: State, b: nat)
    requires Good(s) && b < |s.buckets| && !s.buckets[b].unsharded
    ensures During(AfterBegin(s, b), {b}) && Mild(s, AfterBegin(s, b))
  {
    hide Consistent, OrdersOk, ListsOk, Mild, IsPending;
    TakeGood(s, Some(b));
    var t := AfterTake(s, Some(b));
    if !IsPending(s.pending, b) {
      BeginGood(t, {}, b);
      assert {} + {b} == {b};
      MildTrans(s, t, AfterBegin(s, b));
    }
  }

  lemma GatherGood(s: State, b: nat)
    requires Good(s) && b < |s.buckets| && !s.buckets[b].unsharded
    ensures Good(AfterGather(s, b)) && Mild(s, AfterGather(s, b)) && AfterGather(s, b).buckets[b].unsharded
  {
    hide Consistent, OrdersOk, ListsOk, Mild;
    BeginsGood(s, b);
    FillGood(AfterBegin(s, b), {b}, b);
    assert {b} - {b} == {};
    MildTrans(s, AfterBegin(s, b), AfterGather(s, b));
  }

  /** Unsharding, by whatever hook or method, keeps the invariant and reshards nothing. */
  lemma UnshardGood(s: State, b: nat, finishOthers: bool)
    requires Good(s) && b < |s.buckets|
    ensures var t := AfterUnshard(s, b, finishOthers);
            Good(t) && Mild(s, t) && t.buckets[b].unsharded && t.buckets[b].exposed && t.buckets[b].hasStorage
  {
    hide Consistent, OrdersOk, ListsOk, Mild;
    MildSelf(s);
    if s.buckets[b].unsharded {
      ExposeGood(s, b);
    } else {
      var u := if finishOthers then AfterOthers(s, b) else s;
      OthersGood(s, b);
      GatherGood(u, b);
      ExposeGood(AfterGather(u, b), b);
      MildTrans(s, u, AfterGather(u, b));
      MildTrans(s, AfterGather(u, b), AfterUnshard(s, b, finishOthers));
    }
    UnshardedIs(AfterUnshard(s, b, finishOthers), b);
  }

  lemma PrefetchGood(s: State, target: Option<nat>, isExplicit: bool)
    requires Good(s)
    ensures Good(AfterPrefetch(s, target, isExplicit)) && Mild(s, AfterPrefetch(s, target, isExplicit))
  {
    hide Consistent, OrdersOk, ListsOk;
    if target.Some? && target.value < |s.buckets| && !SkipsPrefetch(s, target.value, isExplicit) {
      var b := target.value;
      BeginGood(s, {}, b);
      QueueGood(Put(s, b, Begun(s.buckets[b])), {} + {b}, Pending(b, isExplicit));
      assert {} + {b} - {b} == {};
    }
  }

  lemma {:induction false} PrefetchesGood(s: State, targets: seq<nat>)
    requires Good(s)
    ensures Good(AfterPrefetches(s, targets)) && Mild(s, AfterPrefetches(s, targets))
  {
    hide Good, Mild, AfterPrefetch;
    if targets == [] {
      MildSelf(s);
    } else {
      var n := |targets| - 1;
      PrefetchesGood(s, targets[..n]);
      var t := AfterPrefetches(s, targets[..n]);
      PrefetchGood(t, Some(targets[n]), true);
      MildTrans(s, t, AfterPrefetches(s, targets));
    }
  }

  lemma PrefetchNextGood(s: State, b: nat, forward: bool)
    requires Good(s) && b < |s.buckets|
    ensures Good(AfterPrefetchNext(s, b, forward)) && Mild(s, AfterPrefetchNext(s, b, forward))
  {
    hide Good, Mild, AfterPrefetch, NextForward, NextBackward, AfterPrefetches;
    var k := s.buckets[b];
    if forward && k.forwardPrefetch.Some? {
      PrefetchesGood(s, k.forwardPrefetch.value);
    } else if !forward && k.backwardPrefetch.Some? {
      PrefetchesGood(s, k.backwardPrefetch.value);
    } else {
      PrefetchGood(s, if forward then NextForward(s, b) else NextBackward(s, b), false);
    }
  }

  // ----- Learned orders

  lemma LearnForwardGood(s: State, b: nat)
    requires Good(s) && b < |s.buckets|
    ensures Good(AfterLearnForward(s, b)) && Grows(s, AfterLearnForward(s, b))
  {
    hide Consistent, OrdersOk, ListsOk, SameStorage;
    LearnForwardShape(s, b);
    LikeIsConsistent(s, AfterLearnForward(s, b));
    ListsKept(s.buckets, b, AfterLearnForward(s, b).buckets[b]);
    LearnForwardOrders(s, b);
  }

  lemma LearnForwardOrders(s: State, b: nat)
    requires OrdersOk(s) && b < |s.buckets|
    ensures OrdersOk(AfterLearnForward(s, b))
  {
    hide OrderOk;
    var k := AfterLearnForward(s, b).buckets[b];
    OrderKept(s.postForwardOrder, s.buckets, b, k, PostForwardPlace);
    OrderGrows(s.forwardOrder, s.buckets, b, k, ForwardPlace);
    assert s.buckets[b := s.buckets[b]] == s.buckets;
  }

  lemma LearnForwardShape(s: State, b: nat)
    requires b < |s.buckets|
    ensures var t := AfterLearnForward(s, b);
            && t.pending == s.pending && Grows(s, t) && SameStorage(s.buckets[b], t.buckets[b])
            && forall c :: 0 <= c < |s.buckets| && c != b ==> t.buckets[c] == s.buckets[c]
    ensures Alike(s.buckets[b], AfterLearnForward(s, b).buckets[b])
    ensures SameLists(s.buckets[b], AfterLearnForward(s, b).buckets[b])
  {
    LearnedIs(s.buckets[b], s.buckets[b].forwardIndex, Some(|s.postForwardOrder|));
    LearnedIs(s.buckets[b], Some(|s.forwardOrder|), s.buckets[b].postForwardIndex);
    hide SameStorage, Alike, SameLists;
  }

  lemma LearnPostForwardGood(s: State, b: nat)
    requires Good(s) && b < |s.buckets|
    ensures Good(AfterLearnPostForward(s, b)) && Grows(s, AfterLearnPostForward(s, b))
  {
    hide Consistent, OrdersOk, ListsOk, SameStorage;
    LearnPostForwardShape(s, b);
    LikeIsConsistent(s, AfterLearnPostForward(s, b));
    ListsKept(s.buckets, b, AfterLearnPostForward(s, b).buckets[b]);
    LearnPostForwardOrders(s, b);
  }

  lemma LearnPostForwardOrders(s: State, b: nat)
    requires OrdersOk(s) && b < |s.buckets|
    ensures OrdersOk(AfterLearnPostForward(s, b))
  {
    hide OrderOk;
    var k := AfterLearnPostForward(s, b).buckets[b];
    OrderKept(s.forwardOrder, s.buckets, b, k, ForwardPlace);
    OrderGrows(s.postForwardOrder, s.buckets, b, k, PostForwardPlace);
    assert s.buckets[b := s.buckets[b]] == s.buckets;
  }

  lemma OrderKept(order: seq<nat>, buckets: seq<Bucket>, b: nat, k: Bucket, place: Bucket -> Option<nat>)
    requires OrderOk(order, buckets, place) && b < |buckets| && place(k) == place(buckets[b])
    ensures OrderOk(order, buckets[b := k], place)
  {
  }

  /** A bucket without a place in the order gets the next one. */
  lemma OrderGrows(order: seq<nat>, buckets: seq<Bucket>, b: nat, k: Bucket, place: Bucket -> Option<nat>)
    requires OrderOk(order, buckets, place) && b < |buckets|
    ensures place(buckets[b]).None? && place(k) == Some(|order|) ==> OrderOk(order + [b], buckets[b := k], place)
  {
  }

  lemma LearnPostForwardShape(s: State, b: nat)
    requires b < |s.buckets|
    ensures var t := AfterLearnPostForward(s, b);
            && t.pending == s.pending && Grows(s, t) && SameStorage(s.buckets[b], t.buckets[b])
            && forall c :: 0 <= c < |s.buckets| && c != b ==> t.buckets[c] == s.buckets[c]
    ensures Alike(s.buckets[b], AfterLearnPostForward(s, b).buckets[b])
    ensures SameLists(s.buckets[b], AfterLearnPostForward(s, b).buckets[b])
  {
    LearnedIs(s.buckets[b], s.buckets[b].forwardIndex, Some(|s.postForwardOrder|));
    LearnedIs(s.buckets[b], Some(|s.forwardOrder|), s.buckets[b].postForwardIndex);
    hide SameStorage, Alike, SameLists;
  }

  predicate SameLists(k: Bucket, l: Bucket) {
    l.forwardPrefetch == k.forwardPrefetch && l.backwardPrefetch == k.backwardPrefetch
  }

  lemma ListsKept(buckets: seq<Bucket>, b: nat, l: Bucket)
    requires b < |buckets| && ListsOk(buckets) && SameLists(buckets[b], l)
    ensures ListsOk(buckets[b := l])
  {
  }

  lemma LearnedIs(k: Bucket, place: Option<nat>, postPlace: Option<nat>)
    ensures var l := k.(forwardIndex := place, postForwardIndex := postPlace);
            SameStorage(k, l) && Alike(k, l) && SameLists(k, l) && SameStorage(k, k) && Alike(k, k) && SameLists(k, k)
  {
  }

  /** The same as far as storage goes. */
  predicate SameStorage(k: Bucket, l: Bucket) {
    && l.unsharded == k.unsharded && l.created == k.created && l.hasStorage == k.hasStorage && l.exposed == k.exposed
    && l.refillsInFinish == k.refillsInFinish && l.started == k.started && l.settled == k.settled
  }

  /** The same as far as resharding and prefetching after a forward goes. */
  predicate Alike(k: Bucket, l: Bucket) {
    l.forwardPrefetch == k.forwardPrefetch && l.reshardAfterForward == k.reshardAfterForward
        && l.refillsInFinish == k.refillsInFinish
  }

  lemma LikeIsConsistent(s: State, t: State)
    requires Consistent(s.buckets, s.pending, {}) && t.pending == s.pending && |t.buckets| == |s.buckets|
    requires forall b :: 0 <= b < |s.buckets| ==>
               t.buckets[b] == s.buckets[b] || SameStorage(s.buckets[b], t.buckets[b])
    ensures Consistent(t.buckets, t.pending, {})
  {
    hide StorageOk, PendingOk, IsPending, SameStorage;
    forall b: nat | b < |s.buckets| ensures StorageOk(t.buckets[b], IsPending(t.pending, b)) {
      if t.buckets[b] != s.buckets[b] {
        StorageOnly(s.buckets[b], t.buckets[b], IsPending(s.pending, b));
      }
    }
  }

  lemma StorageOnly(k: Bucket, l: Bucket, inFlight: bool)
    requires StorageOk(k, inFlight) && SameStorage(k, l)
    ensures StorageOk(l, inFlight)
  {
  }

  /** The next bucket in the learned order is at the place after this one's. */
  lemma NextForwardIs(s: State, b: nat)
    requires Good(s) && b < |s.buckets|
    ensures var next := NextForward(s, b);
            && (next.Some? <==>
                s.buckets[b].forwardIndex.Some? && s.buckets[b].forwardIndex.value + 1 < |s.forwardOrder|)
            && (next.Some? ==>
                next.value < |s.buckets| && s.buckets[next.value].forwardIndex
                == Some(s.buckets[b].forwardIndex.value + 1))
  {
    hide Consistent, ListsOk;
  }

  predicate Before(s: State, c: nat, b: nat)
    requires c < |s.buckets| && b < |s.buckets|
  {
    && s.buckets[c].postForwardIndex.Some? && s.buckets[b].postForwardIndex.Some?
    && s.buckets[c].postForwardIndex.value < s.buckets[b].postForwardIndex.value
  }

  /** The backward prefetch is the last bucket before this one, in post-forward order, that will
      need a re-gather: no other such bucket lies between the two. */
  lemma NextBackwardIs(s: State, b: nat)
    requires Good(s) && b < |s.buckets|
    ensures var next := NextBackward(s, b);
            && (next.Some? ==> next.value < |s.buckets| && Regathers(s.buckets[next.value]) && Before(s, next.value, b))
            && forall c: nat | c < |s.buckets| && Regathers(s.buckets[c]) && Before(s, c, b) ::
                 next.Some? && next.value < |s.buckets| && !Before(s, next.value, c)
  {
    hide Consistent, ListsOk, Regathers;
    var place := s.buckets[b].postForwardIndex;
    if place.Some? {
      var order := s.postForwardOrder[..place.value];
      LastRegatherIs(s.buckets, order);
      forall c: nat | c < |s.buckets| && Regathers(s.buckets[c]) && Before(s, c, b)
        ensures NextBackward(s, b).Some? && !Before(s, NextBackward(s, b).value, c)
      {
        var at := s.buckets[c].postForwardIndex.value;
        assert order[at] == c;
      }
    }
  }

  lemma {:induction false} LastRegatherIs(buckets: seq<Bucket>, order: seq<nat>)
    requires forall i :: 0 <= i < |order| ==> order[i] < |buckets|
    ensures var last := LastRegather(buckets, order);
            && (last.None? ==> forall i :: 0 <= i < |order| ==> !Regathers(buckets[order[i]]))
            && (last.Some? ==> exists i :: 0 <= i < |order| && order[i] == last.value && Regathers(buckets[order[i]])
                                           && forall j :: i < j < |order| ==> !Regathers(buckets[order[j]]))
  {
    hide Regathers;
    if order != [] {
      var n := |order| - 1;
      LastRegatherIs(buckets, order[..n]);
      if !Regathers(buckets[order[n]]) && LastRegather(buckets, order[..n]).Some? {
        var i :| 0 <= i < n && order[..n][i] == LastRegather(buckets, order[..n]).value
            && Regathers(buckets[order[..n][i]])
                 && forall j :: i < j < n ==> !Regathers(buckets[order[..n][j]]);
        assert order[i] == order[..n][i];
        forall j | i < j < |order| ensures !Regathers(buckets[order[j]]) {
          assert j < n ==> order[..n][j] == order[j];
        }
      }
    }
  }

  // ----- Hooks

  lemma PreForwardGood(s: State, b: nat)
    requires Good(s) && b < |s.buckets|
    ensures var t := AfterPreForward(s, b);
            Good(t) && Grows(s, t) && t.buckets[b].unsharded && t.buckets[b].exposed && t.buckets[b].hasStorage
  {
    hide Good, AfterLearnForward, AfterUnshard, AfterPrefetchNext, SameSettings;
    LearnForwardGood(s, b);
    var t := AfterLearnForward(s, b);
    UnshardGood(t, b, false);
    var u := AfterUnshard(t, b, false);
    PrefetchNextGood(u, b, true);
    UnshardedIs(AfterPrefetchNext(u, b, true), b);
  }

  lemma PreBackwardGood(s: State, b: nat)
    requires Good(s) && b < |s.buckets|
    ensures var t := AfterPreBackward(s, b);
            Good(t) && Grows(s, t) && t.buckets[b].unsharded && t.buckets[b].exposed && t.buckets[b].hasStorage
  {
    hide Good, AfterUnshard, AfterPrefetchNext, SameSettings, Synced;
    UnshardGood(s, b, false);
    var u := AfterUnshard(s, b, false);
    SyncGood(u, b, false);
    var v := if ReducesKept(u.buckets[b]) then Put(u, b, Synced(u.buckets[b], false)) else u;
    MildSelf(u);
    PrefetchNextGood(v, b, false);
    UnshardedIs(AfterPrefetchNext(v, b, false), b);
  }

  lemma CountedIs(k: Bucket, ending: Ending, hasTrigger: bool, inFlight: bool)
    requires StorageOk(k, inFlight)
    ensures var counted := Counted(k, ending, hasTrigger);
            && SameSettings(k, counted) && StorageOk(counted, inFlight)
            && counted.created == k.created && counted.started == k.started && counted.settled == k.settled
  {
    hide StorageOk, SameSettings;
    match ending
    case NoBackward => SameAsItself(k);
    case _ => CountsIs(k, Counted(k, ending, hasTrigger).calls, Counted(k, ending, hasTrigger).triggers,
                       Counted(k, ending, hasTrigger).triggersRun, inFlight);
  }

  lemma SameAsItself(k: Bucket)
    ensures SameSettings(k, k)
  {
  }

  /** The reshard after a forward doesn't look whether the bucket is unsharded. The invariant holds
      afterwards exactly if it doesn't reshard or no refill of the bucket is in flight. */
  lemma PostForwardIs(s: State, b: nat, ending: Ending, hasTrigger: bool)
    requires Good(s) && b < |s.buckets|
    ensures Good(AfterPostForward(s, b, ending, hasTrigger))
        <==> KeepsData(s.buckets[b], ending) || !RefillInFlight(s, b)
    ensures forall c | 0 <= c < |s.buckets| && c != b :: AfterPostForward(s, b, ending, hasTrigger).buckets[c]
             == s.buckets[c]
    ensures AfterPostForward(s, b, ending, hasTrigger).pending == s.pending
  {
    LearnPostForwardGood(s, b);
    var t := AfterLearnPostForward(s, b);
    var k := t.buckets[b];
    assert RefillInFlight(t, b) == RefillInFlight(s, b) && KeepsData(k, ending) == KeepsData(s.buckets[b], ending);
    assert forall c | 0 <= c < |s.buckets| && c != b :: t.buckets[c] == s.buckets[c];
    assert t.pending == s.pending && |t.buckets| == |s.buckets|;
    StorageOf(t, b);
    CountedIs(k, ending, hasTrigger, IsPending(t.pending, b));
    hide Good, StorageOk, SameSettings, AfterLearnPostForward, RefillInFlight, KeepsData, Counted;
    if KeepsData(k, ending) {
      OneBucketGood(t, b, Counted(k, ending, hasTrigger));
    } else {
      ReshardIs(t, b, Counted(k, ending, hasTrigger));
    }
  }

  lemma StorageOf(s: State, b: nat)
    requires Good(s) && b < |s.buckets|
    ensures StorageOk(s.buckets[b], IsPending(s.pending, b))
  {
  }

  lemma OneBucketGood(s: State, b: nat, k: Bucket)
    requires Good(s) && b < |s.buckets| && SameSettings(s.buckets[b], k) && StorageOk(k, IsPending(s.pending, b))
    ensures Good(Put(s, b, k)) && Framed(s, Put(s, b, k))
  {
    hide Consistent, OrdersOk, ListsOk, StorageOk;
    OneBucket(s, {}, b, k);
  }

  lemma TriggeredIs(k: Bucket, inFlight: bool)
    requires StorageOk(k, inFlight)
    ensures SameSettings(k, Triggered(k)) && StorageOk(Triggered(k), inFlight)
  {
    hide StorageOk, Synced, AllRan, WithCounts, SameSettings;
    var after := WithCounts(k, k.calls, k.triggers, k.triggersRun + 1);
    CountsIs(k, k.calls, k.triggers, k.triggersRun + 1, inFlight);
    SyncedIs(after, true, inFlight);
    CountsIs(Synced(after, true), 0, 0, 0, inFlight);
    SameTrans(k, after, Synced(after, true));
    SameTrans(k, Synced(after, true), WithCounts(Synced(after, true), 0, 0, 0));
  }

  lemma SameTrans(k: Bucket, l: Bucket, m: Bucket)
    requires SameSettings(k, l) && SameSettings(l, m)
    ensures SameSettings(k, m)
  {
  }

  lemma SyncedIs(k: Bucket, reshard: bool, inFlight: bool)
    requires StorageOk(k, inFlight)
    ensures SameSettings(k, Synced(k, reshard)) && StorageOk(Synced(k, reshard), inFlight)
  {
  }

  lemma CountsIs(k: Bucket, calls: nat, triggers: nat, run: nat, inFlight: bool)
    requires StorageOk(k, inFlight)
    ensures SameSettings(k, WithCounts(k, calls, triggers, run))
    ensures StorageOk(WithCounts(k, calls, triggers, run), inFlight)
  {
  }

  lemma TriggeredGood(s: State, b: nat)
    requires Good(s) && b < |s.buckets|
    ensures Good(Put(s, b, Triggered(s.buckets[b])))
  {
    hide Consistent, OrdersOk, ListsOk, StorageOk, Triggered;
    StorageOf(s, b);
    TriggeredIs(s.buckets[b], IsPending(s.pending, b));
    OneBucketGood(s, b, Triggered(s.buckets[b]));
  }

  lemma DeferredGood(s: State, b: nat)
    requires Good(s) && b < |s.buckets|
    ensures Good(AfterDeferred(s, b))
  {
    SyncGood(s, b, true);
  }

  lemma {:induction false} FinishGood(s: State, order: seq<nat>, inBackward: bool)
    requires Good(s)
    ensures Good(AfterFinish(s, order, inBackward).0) && Framed(s, AfterFinish(s, order, inBackward).0)
    ensures !inBackward ==> !AfterFinish(s, order, inBackward).1
  {
    hide Good, SameSettings;
    if order == [] {
      MildSelf(s);
    } else {
      var n := |order| - 1;
      FinishGood(s, order[..n], inBackward);
      var (t, raised) := AfterFinish(s, order[..n], inBackward);
      var b := order[n];
      if !raised && b < |s.buckets| && !LeftDeferred(t.buckets[b], inBackward) {
        FinishedGood(t, b);
        FramedTrans(s, t, Put(t, b, Finished(t.buckets[b])));
      }
    }
  }

  lemma FramedTrans(s: State, t: State, u: State)
    requires Framed(s, t) && Framed(t, u)
    ensures Framed(s, u)
  {
  }

  lemma FinishedGood(s: State, b: nat)
    requires Good(s) && b < |s.buckets|
    ensures Good(Put(s, b, Finished(s.buckets[b]))) && Framed(s, Put(s, b, Finished(s.buckets[b])))
  {
    var k := s.buckets[b];
    assert StorageOk(k, IsPending(s.pending, b));
    OneBucket(s, {}, b, Finished(k));
  }

  lemma BackwardGood(s: State, finish: bool)
    requires Good(s)
    ensures Good(AfterBackward(s, finish).0)
    ensures finish && !AfterBackward(s, finish).1 ==> AfterBackward(s, finish).0.pending == []
    ensures !finish ==> AfterBackward(s, finish) == (s, false)
  {
    hide During, AfterFinish, AfterTake;
    if finish {
      var order := Registration(|s.buckets|);
      FinishGood(s, order, true);
      if !AfterFinish(s, order, true).1 {
        TakeGood(AfterFinish(s, order, true).0, None);
      }
    }
  }

  lemma FinalizeGood(s: State, order: seq<nat>)
    requires Good(s)
    ensures Good(AfterFinalize(s, order)) && AfterFinalize(s, order).pending == []
  {
    hide During, AfterFinish, AfterTake;
    FinishGood(s, order, false);
    TakeGood(AfterFinish(s, order, false).0, None);
  }

  /** What the end of a backward leaves of a bucket: no counts, and, if it synced or reshards after
      backward, no data. */
  predicate Settled(k: Bucket) {
    && k.calls == k.triggers == k.triggersRun == 0
    && (k.requiresSync ==> !k.needsSync && !k.unsharded)
    && (k.reshardAfterBackward ==> !k.unsharded)
  }

  lemma {:induction false} FinishSettles(s: State, order: seq<nat>, inBackward: bool, b: nat)
    requires b in order && b < |s.buckets| && !AfterFinish(s, order, inBackward).1
    ensures Settled(AfterFinish(s, order, inBackward).0.buckets[b])
  {
    var n := |order| - 1;
    assert order == order[..n] + [order[n]];
    if order[n] != b {
      FinishSettles(s, order[..n], inBackward, b);
    }
  }

  lemma TakeLeaves(s: State, wanted: Option<nat>, b: nat)
    requires b < |s.buckets| && Settled(s.buckets[b])
    ensures Settled(AfterTake(s, wanted).buckets[b])
  {
  }

  /** After a backward that ends without an error, and after a finalized one, nothing is in flight,
      every unshard ever started has been finished or released, and buckets that sync or reshard
      after backward hold no storage. */
  predicate Idle(s: State) {
    && s.pending == []
    && forall b :: 0 <= b < |s.buckets| ==>
         && Settled(s.buckets[b]) && s.buckets[b].started == s.buckets[b].settled
         && (s.buckets[b].requiresSync || s.buckets[b].reshardAfterBackward
             ==> !s.buckets[b].hasStorage && !s.buckets[b].exposed)
  }

  lemma SettledIsIdle(s: State)
    requires Good(s) && s.pending == [] && forall b :: 0 <= b < |s.buckets| ==> Settled(s.buckets[b])
    ensures Idle(s)
  {
    hide OrdersOk, ListsOk;
    forall b: nat | b < |s.buckets|
      ensures s.buckets[b].started == s.buckets[b].settled
      ensures s.buckets[b].requiresSync || s.buckets[b].reshardAfterBackward
          ==> !s.buckets[b].hasStorage && !s.buckets[b].exposed
    {
      StorageOf(s, b);
    }
  }

  lemma BackwardSettles(s: State)
    requires Good(s) && !AfterBackward(s, true).1
    ensures Idle(AfterBackward(s, true).0)
  {
    hide Good, AfterFinish, AfterTake, Settled;
    BackwardGood(s, true);
    var order := Registration(|s.buckets|);
    var t := AfterFinish(s, order, true).0;
    forall b: nat | b < |s.buckets| ensures Settled(AfterTake(t, None).buckets[b]) {
      assert order[b] == b;
      FinishSettles(s, order, true, b);
      TakeLeaves(t, None, b);
    }
    SettledIsIdle(AfterTake(t, None));
  }

  lemma FinalizeSettles(s: State, order: seq<nat>)
    requires Good(s) && forall b: nat :: b < |s.buckets| ==> b in order
    ensures Idle(AfterFinalize(s, order))
  {
    hide Good, AfterFinish, AfterTake, Settled;
    FinalizeGood(s, order);
    FinishGood(s, order, false);
    var t := AfterFinish(s, order, false).0;
    forall b: nat | b < |s.buckets| ensures Settled(AfterTake(t, None).buckets[b]) {
      FinishSettles(s, order, false, b);
      TakeLeaves(t, None, b);
    }
    SettledIsIdle(AfterFinalize(s, order));
  }

  lemma ClearedIs(k: Bucket)
    requires StorageOk(k, false)
    ensures SameSettings(k, Cleared(k)) && StorageOk(Cleared(k), false)
    ensures !Cleared(k).unsharded && !Cleared(k).hasStorage && !Cleared(k).exposed
  {
  }

  /** After a reset no bucket holds storage and nothing is in flight. */
  lemma ResetClears(s: State)
    requires Good(s)
    ensures Good(AfterReset(s)) && AfterReset(s).pending == []
    ensures forall b :: 0 <= b < |s.buckets| ==>
              var k := AfterReset(s).buckets[b];
              !k.unsharded && !k.hasStorage && !k.exposed && k.calls == k.triggers == k.triggersRun
                  == 0 && k.started == k.settled
  {
    hide OrdersOk, ListsOk, SameSettings, StorageOk, AfterTake, Cleared;
    TakeGood(s, None);
    var t, u := AfterTake(s, None), AfterReset(s);
    forall b: nat | b < |s.buckets|
      ensures u.buckets[b] == Cleared(t.buckets[b]) && SameSettings(t.buckets[b], u.buckets[b])
      ensures StorageOk(u.buckets[b], false)
      ensures !u.buckets[b].unsharded && !u.buckets[b].hasStorage && !u.buckets[b].exposed
    {
      assert StorageOk(t.buckets[b], false) by {
        StorageOf(t, b);
      }
      ClearedIs(t.buckets[b]);
    }
    FramedKeeps(t, u);
    forall b: nat | b < |s.buckets|
      ensures u.buckets[b].started == u.buckets[b].settled
      ensures u.buckets[b].calls == u.buckets[b].triggers == u.buckets[b].triggersRun == 0
    {
      Restarted(t.buckets[b]);
      SettledIfIdle(u.buckets[b]);
    }
  }

  lemma Restarted(k: Bucket)
    ensures Cleared(k).calls == Cleared(k).triggers == Cleared(k).triggersRun == 0
  {
  }

  lemma SettledIfIdle(k: Bucket)
    requires StorageOk(k, false)
    ensures k.started == k.settled
  {
  }

  // ----- Calls from outside

  lemma ReleaseGood(s: State, b: nat)
    requires Good(s) && b < |s.buckets|
    ensures Good(AfterRelease(s, b)) && Mild(s, AfterRelease(s, b)) && !IsPending(AfterRelease(s, b).pending, b)
    ensures forall c :: 0 <= c < |s.buckets| && c != b ==> AfterRelease(s, b).buckets[c] == s.buckets[c]
  {
    hide OrdersOk, ListsOk, PendingOk, IsPending, StorageOk;
    var ps, rest := s.pending, WithoutPending(s.pending, b);
    FilterOk(ps, (p: Pending) => p.bucket != b, |s.buckets|);
    forall c: nat ensures IsPending(ps, c) <==> IsPending(rest, c) || (c == b && IsPending(ps, b)) {
      PendingIs(ps, c);
      PendingIs(rest, c);
      if p :| p in ps && p.bucket == c {
        assert c != b ==> p in rest;
      }
    }
    PendingIs(rest, b);
    var t := s.(pending := rest);
    FramedKeeps(s, t);
    MildSelf(s);
    if IsPending(ps, b) {
      assert During(t, {b});
      DropGood(t, {b}, b);
      assert {b} - {b} == {};
    }
  }

  lemma ReshardGood(s: State, b: nat)
    requires Good(s) && b < |s.buckets|
    ensures var t := AfterReshard(s, b);
            Good(t) && !t.buckets[b].unsharded && !t.buckets[b].hasStorage && !t.buckets[b].exposed
                && !IsPending(t.pending, b)
    ensures forall c :: 0 <= c < |s.buckets| && c != b ==> AfterReshard(s, b).buckets[c] == s.buckets[c]
  {
    hide OrdersOk, ListsOk, PendingOk, IsPending, AfterRelease, Consistent;
    ReleaseGood(s, b);
    var t := AfterRelease(s, b);
    StorageOf(t, b);
    ReshardIs(t, b, t.buckets[b]);
  }

  /** All buckets end up unsharded, or pending if that was asked for. */
  lemma {:induction false} UnshardAllGood(s: State, asyncOp: bool, n: nat)
    requires Good(s) && n <= |s.buckets|
    ensures Good(AfterUnshardAll(s, asyncOp, n)) && Mild(s, AfterUnshardAll(s, asyncOp, n))
    ensures var t := AfterUnshardAll(s, asyncOp, n);
            forall b :: 0 <= b < n ==> if asyncOp then t.buckets[b].unsharded || IsPending(t.pending, b)
                else t.buckets[b].unsharded && t.buckets[b].exposed
  {
    hide Good, IsPending, AfterUnshard, SkipsPrefetch, SameSettings;
    if n == 0 {
      MildSelf(s);
    } else {
      UnshardAllGood(s, asyncOp, n - 1);
      var t, u := AfterUnshardAll(s, asyncOp, n - 1), AfterUnshardAll(s, asyncOp, n);
      if !asyncOp || t.buckets[n - 1].unsharded {
        UnshardGood(t, n - 1, false);
        if t.buckets[n - 1].unsharded {
          UnshardLeaves(t, n - 1);
        }
      } else {
        PrefetchGood(t, Some(n - 1), true);
        PrefetchPends(t, n - 1);
      }
      MildTrans(s, t, u);
    }
  }

  lemma UnshardLeaves(s: State, b: nat)
    requires b < |s.buckets| && s.buckets[b].unsharded
    ensures AfterUnshard(s, b, false).pending == s.pending
  {
  }

  lemma PrefetchPends(s: State, b: nat)
    requires b < |s.buckets| && !s.buckets[b].unsharded
    ensures IsPending(AfterPrefetch(s, Some(b), true).pending, b)
    ensures forall c :: IsPending(s.pending, c) ==> IsPending(AfterPrefetch(s, Some(b), true).pending, c)
  {
    var ps := AfterPrefetch(s, Some(b), true).pending;
    if !SkipsPrefetch(s, b, true) {
      assert ps[|s.pending|].bucket == b;
      forall c | IsPending(s.pending, c) ensures IsPending(ps, c) {
        var i :| 0 <= i < |s.pending| && s.pending[i].bucket == c;
        assert ps[i].bucket == c;
      }
    }
  }

  lemma {:induction false} WaitGood(s: State, started: seq<nat>)
    requires Good(s)
    ensures Good(AfterWait(s, started)) && Mild(s, AfterWait(s, started))
  {
    hide Good, Mild, IsPending, AfterUnshard;
    if started == [] {
      MildSelf(s);
    } else {
      var n := |started| - 1;
      WaitGood(s, started[..n]);
      var t := AfterWait(s, started[..n]);
      if started[n] < |s.buckets| && IsPending(t.pending, started[n]) {
        UnshardGood(t, started[n], false);
        MildTrans(s, t, AfterWait(s, started));
      }
    }
  }

  /** Changing a bucket's settings keeps the invariant at any time, and touches no data. */
  lemma ConfigureGood(s: State, b: nat, c: Settings)
    requires Good(s) && b < |s.buckets| && SettingsOk(c, |s.buckets|)
    ensures Good(AfterConfigure(s, b, c)) && Grows(s, AfterConfigure(s, b, c))
    ensures AfterConfigure(s, b, c).pending == s.pending
  {
    hide PendingOk, IsPending, StorageOk, Configured, OrdersOk, ListsOk;
    ConfiguredKeeps(s.buckets[b], c);
    ConfiguredOrders(s, b, c);
    ConfiguredLists(s, b, c);
  }

  lemma ConfiguredKeeps(k: Bucket, c: Settings)
    ensures forall inFlight: bool :: StorageOk(Configured(k, c), inFlight) <==> StorageOk(k, inFlight)
    ensures Configured(k, c).unsharded == k.unsharded && Configured(k, c).exposed == k.exposed
  {
  }

  lemma ConfiguredOrders(s: State, b: nat, c: Settings)
    requires OrdersOk(s) && b < |s.buckets|
    ensures OrdersOk(AfterConfigure(s, b, c))
  {
  }

  lemma ConfiguredLists(s: State, b: nat, c: Settings)
    requires ListsOk(s.buckets) && b < |s.buckets| && SettingsOk(c, |s.buckets|)
    ensures ListsOk(AfterConfigure(s, b, c).buckets)
  {
    hide ListOk;
  }

  // ----- Runs

  /** What may happen: a forward, or its recompute in backward, starts; a forward ends; a backward
      reaches a bucket, a trigger of it, its deferred post-backward, or its end; and calls from
      outside, which may also change a bucket's settings at any time. */
  datatype Event =
    | PreForward(b: nat)
    | PostForward(b: nat, ending: Ending, hasTrigger: bool)
    | Recompute(b: nat)
    | PreBackward(b: nat)
    | InputGrads(b: nat)
    | Deferred(b: nat)
    | BackwardEnd(finish: bool)
    | Finalize(order: seq<nat>)
    | Reset
    | ReshardOne(b: nat)
    | UnshardOne(b: nat)
    | UnshardEvery(asyncOp: bool)
    | Wait(started: seq<nat>)
    | Configure(b: nat, settings: Settings)

  predicate EventOk(n: nat, e: Event) {
    match e
    case BackwardEnd(_) => true
    case Finalize(_) => true
    case Reset => true
    case UnshardEvery(_) => true
    case Wait(_) => true
    case Configure(b, settings) => b < n && SettingsOk(settings, n)
    case _ => e.b < n
  }

  /** The state after an event, and whether it raised. */
  function AfterEvent(s: State, e: Event): (r: (State, bool))
    requires EventOk(|s.buckets|, e)
    ensures |r.0.buckets| == |s.buckets|
  {
    match e
    case PreForward(b) => (AfterPreForward(s, b), false)
    case PostForward(b, ending, hasTrigger) => (AfterPostForward(s, b, ending, hasTrigger), false)
    case Recompute(b) => (AfterUnshard(s, b, true), false)
    case PreBackward(b) => (AfterPreBackward(s, b), false)
    case InputGrads(b) => (Put(s, b, Triggered(s.buckets[b])), false)
    case Deferred(b) => (AfterDeferred(s, b), false)
    case BackwardEnd(finish) => AfterBackward(s, finish)
    case Finalize(order) => (AfterFinalize(s, order), false)
    case Reset => (AfterReset(s), false)
    case ReshardOne(b) => (AfterReshard(s, b), false)
    case UnshardOne(b) => (AfterUnshard(s, b, false), false)
    case UnshardEvery(asyncOp) => (AfterUnshardAll(s, asyncOp, |s.buckets|), false)
    case Wait(started) => (AfterWait(s, started), false)
    case Configure(b, settings) => (AfterConfigure(s, b, settings), false)
  }

  /** Whether an event reshards a bucket after its forward while a refill of it is in flight. */
  predicate Breaks(s: State, e: Event)
    requires EventOk(|s.buckets|, e)
  {
    e.PostForward? && !KeepsData(s.buckets[e.b], e.ending) && RefillInFlight(s, e.b)
  }

  /** Every event keeps the invariant, except exactly those that break it. */
  lemma EventIs(s: State, e: Event)
    requires Good(s) && EventOk(|s.buckets|, e)
    ensures Good(AfterEvent(s, e).0) <==> !Breaks(s, e)
  {
    hide Good, AfterPreForward, AfterPostForward, AfterUnshard, AfterPreBackward, Triggered, AfterDeferred,
         AfterBackward, AfterFinalize, AfterReset, AfterReshard, AfterUnshardAll, AfterWait, AfterConfigure,
         RefillInFlight, KeepsData;
    match e
    case PreForward(b) => PreForwardGood(s, b);
    case PostForward(b, ending, hasTrigger) => PostForwardIs(s, b, ending, hasTrigger);
    case Recompute(b) => UnshardGood(s, b, true);
    case PreBackward(b) => PreBackwardGood(s, b);
    case InputGrads(b) => TriggeredGood(s, b);
    case Deferred(b) => DeferredGood(s, b);
    case BackwardEnd(finish) => BackwardGood(s, finish);
    case Finalize(order) => FinalizeGood(s, order);
    case Reset => ResetClears(s);
    case ReshardOne(b) => ReshardGood(s, b);
    case UnshardOne(b) => UnshardGood(s, b, false);
    case UnshardEvery(asyncOp) => UnshardAllGood(s, asyncOp, |s.buckets|);
    case Wait(started) => WaitGood(s, started);
    case Configure(b, settings) => ConfigureGood(s, b, settings);
  }

  /** The buckets whose forwards run. */
  function Running(events: seq<Event>): set<nat> {
    if events == [] then {}
    else
      var n := |events| - 1;
      RunningAfter(Running(events[..n]), events[n])
  }

  function RunningAfter(running: set<nat>, e: Event): set<nat> {
    match e
    case PreForward(b) => running + {b}
    case PostForward(b, _, _) => running - {b}
    case _ => running
  }

  /** No forward of a bucket starts while one of it runs, only a running one ends, and nothing that
      may reshard a bucket happens while its forward runs. */
  predicate Fits(running: set<nat>, e: Event) {
    match e
    case PreForward(b) => b !in running
    case PostForward(b, _, _) => b in running
    case InputGrads(b) => b !in running
    case Deferred(b) => b !in running
    case ReshardOne(b) => b !in running
    case BackwardEnd(finish) => finish ==> running == {}
    case Finalize(_) => running == {}
    case Reset => running == {}
    case _ => true
  }

  predicate WellNested(events: seq<Event>, n: nat) {
    forall i :: 0 <= i < |events| ==> EventOk(n, events[i]) && Fits(Running(events[..i]), events[i])
  }

  /** The state after a run; an event that raises ends it. */
  function AfterRun(s: State, events: seq<Event>): (r: (State, bool))
    requires forall i :: 0 <= i < |events| ==> EventOk(|s.buckets|, events[i])
    ensures |r.0.buckets| == |s.buckets|
  {
    if events == [] then (s, false)
    else
      var n := |events| - 1;
      var (t, raised) := AfterRun(s, events[..n]);
      if raised then (t, true) else AfterEvent(t, events[n])
  }

  /** Buckets whose forwards run hold data. */
  predicate Held(s: State, running: set<nat>) {
    forall b :: b in running ==> b < |s.buckets| && s.buckets[b].unsharded && s.buckets[b].exposed
  }

  lemma OneReshardHeld(s: State, t: State, running: set<nat>, b: nat)
    requires Held(s, running) && |t.buckets| == |s.buckets|
    requires forall c :: 0 <= c < |s.buckets| && c != b ==> t.buckets[c] == s.buckets[c]
    ensures Held(t, running - {b}) && (b !in running ==> Held(t, running))
  {
  }

  lemma GrowsHeld(s: State, t: State, running: set<nat>)
    requires Held(s, running) && Grows(s, t)
    ensures Held(t, running)
  {
  }

  /** An event that fits keeps the data of the buckets whose forwards run. */
  lemma EventHolds(s: State, running: set<nat>, e: Event)
    requires Good(s) && EventOk(|s.buckets|, e) && Fits(running, e) && Held(s, running)
    ensures Good(AfterEvent(s, e).0)
    ensures Held(AfterEvent(s, e).0, RunningAfter(running, e))
  {
    hide Good, AfterPreForward, AfterPostForward, AfterUnshard, AfterPreBackward, Triggered, AfterDeferred,
         AfterBackward, AfterFinalize, AfterReset, AfterReshard, AfterUnshardAll, AfterWait, AfterConfigure, Held,
         Grows, Framed, RefillInFlight, KeepsData;
    var t := AfterEvent(s, e).0;
    EventIs(s, e);
    match e
    case PreForward(b) =>
      PreForwardGood(s, b);
      GrowsHeld(s, t, running);
      OneMoreHeld(t, running, b);
    case PostForward(b, ending, hasTrigger) =>
      ForwardEndHolds(s, running, b, ending, hasTrigger);
    case Recompute(b) =>
      UnshardGood(s, b, true);
      GrowsHeld(s, t, running);
    case PreBackward(b) =>
      PreBackwardGood(s, b);
      GrowsHeld(s, t, running);
    case InputGrads(b) =>
      OneReshardHeld(s, t, running, b);
    case Deferred(b) =>
      DeferredLeaves(s, b);
      OneReshardHeld(s, t, running, b);
    case BackwardEnd(finish) =>
      BackwardGood(s, finish);
      NothingHeld(t);
    case Finalize(order) => NothingHeld(t);
    case Reset => NothingHeld(t);
    case ReshardOne(b) =>
      ReshardGood(s, b);
      OneReshardHeld(s, t, running, b);
    case UnshardOne(b) =>
      UnshardGood(s, b, false);
      GrowsHeld(s, t, running);
    case UnshardEvery(asyncOp) =>
      UnshardAllGood(s, asyncOp, |s.buckets|);
      GrowsHeld(s, t, running);
    case Wait(started) =>
      WaitGood(s, started);
      GrowsHeld(s, t, running);
    case Configure(b, settings) =>
      ConfigureGood(s, b, settings);
      GrowsHeld(s, t, running);
  }

  lemma ForwardEndHolds(s: State, running: set<nat>, b: nat, ending: Ending, hasTrigger: bool)
    requires Good(s) && Held(s, running) && b in running
    ensures b < |s.buckets| && Good(AfterPostForward(s, b, ending, hasTrigger))
    ensures Held(AfterPostForward(s, b, ending, hasTrigger), running - {b})
  {
    hide Good, AfterPostForward, KeepsData;
    UnshardedIs(s, b);
    PostForwardIs(s, b, ending, hasTrigger);
    OneReshardHeld(s, AfterPostForward(s, b, ending, hasTrigger), running, b);
  }

  lemma OneMoreHeld(s: State, running: set<nat>, b: nat)
    requires Held(s, running) && b < |s.buckets| && s.buckets[b].unsharded && s.buckets[b].exposed
    ensures Held(s, running + {b})
  {
  }

  lemma NothingHeld(s: State)
    ensures Held(s, {})
  {
  }

  lemma DeferredLeaves(s: State, b: nat)
    requires b < |s.buckets|
    ensures forall c :: 0 <= c < |s.buckets| && c != b ==> AfterDeferred(s, b).buckets[c] == s.buckets[c]
  {
  }

  /** Every well-nested run from any good state keeps the invariant: at most one learned-order
      prefetch is pending, no bucket is pending twice or while unsharded, no module exposes an
      unsharded parameter whose storage is freed, no unshard is lost or finished twice, and buckets
      whose forwards run hold their data. */
  lemma {:induction false} RunIsGood(s: State, events: seq<Event>)
    requires Good(s) && WellNested(events, |s.buckets|)
    ensures Good(AfterRun(s, events).0)
    ensures !AfterRun(s, events).1 ==> Held(AfterRun(s, events).0, Running(events))
    decreases |events|
  {
    hide Good, Held, AfterEvent, Fits;
    if events == [] {
      NothingHeld(s);
    } else {
      var before := events[..|events| - 1];
      assert forall i :: 0 <= i < |before| ==> before[i] == events[i] && before[..i] == events[..i];
      RunIsGood(s, before);
      if !AfterRun(s, before).1 {
        EventHolds(AfterRun(s, before).0, Running(before), events[|events| - 1]);
      }
    }
  }

  predicate Fresh(k: Bucket) {
    && !k.unsharded && !k.created && !k.hasStorage && !k.exposed && k.started == k.settled == 0
    && k.forwardIndex.None? && k.postForwardIndex.None?
  }

  lemma FreshIsGood(buckets: seq<Bucket>)
    requires ListsOk(buckets) && forall b :: 0 <= b < |buckets| ==> Fresh(buckets[b])
    ensures Good(State(buckets, [], [], []))
  {
  }

  /** Without the nesting the invariant can break: bucket 0's forward runs again inside itself and
      reshards, bucket 1's forward then prefetches bucket 0, and the outer forward's end frees the
      storage that this refill writes. */
  lemma NestedForwardBreaks(s: State)
    requires |s.buckets| == 2 && Good(s) && s.pending == []
    requires s.buckets[0].forwardPrefetch == Some([]) && s.buckets[1].forwardPrefetch == Some([0])
    requires s.buckets[0].reshardAfterForward && !s.buckets[0].refillsInFinish
    ensures var outer := [PreForward(0), PreForward(0), PostForward(0, Hooked(false), true), PreForward(1)];
            && Good(AfterRun(s, outer).0) && Breaks(AfterRun(s, outer).0, PostForward(0, Hooked(false), true))
            && !Good(AfterEvent(AfterRun(s, outer).0, PostForward(0, Hooked(false), true)).0)
  {
    hide Good, AfterPreForward, AfterPostForward, RefillInFlight, KeepsData, Held;
    var e0, e1, e2, e3 := PreForward(0), PreForward(0), PostForward(0, Hooked(false), true), PreForward(1);
    var s1 := AfterPreForward(s, 0);
    var s2 := AfterPreForward(s1, 0);
    var s3 := AfterPostForward(s2, 0, Hooked(false), true);
    assert AfterRun(s, [e0]) == (s1, false) by { assert [e0][..0] == []; }
    assert AfterRun(s, [e0, e1]) == (s2, false) by { assert [e0, e1][..1] == [e0]; }
    assert AfterRun(s, [e0, e1, e2]) == (s3, false) by { assert [e0, e1, e2][..2] == [e0, e1]; }
    assert AfterRun(s, [e0, e1, e2, e3]) == (AfterPreForward(s3, 1), false)
        by { assert [e0, e1, e2, e3][..3] == [e0, e1, e2]; }
    QuietForward(s, 0);
    QuietForward(s1, 0);
    QuietEnd(s2, 0);
    PrefetchingForward(s3, 1, 0);
    PreForwardGood(s3, 1);
    EventIs(AfterPreForward(s3, 1), PostForward(0, Hooked(false), true));
  }

  lemma QuietForward(s: State, b: nat)
    requires Good(s) && s.pending == [] && b < |s.buckets| && s.buckets[b].forwardPrefetch == Some([])
    ensures var t := AfterPreForward(s, b);
            && Good(t) && t.pending == [] && t.buckets[b].created && Alike(s.buckets[b], t.buckets[b])
            && forall c :: 0 <= c < |s.buckets| && c != b ==> t.buckets[c] == s.buckets[c]
  {
    hide Good, AfterUnshard, AfterLearnForward;
    UnshardAlone(s, b);
  }

  lemma QuietEnd(s: State, b: nat)
    requires Good(s) && s.pending == [] && b < |s.buckets| && s.buckets[b].reshardAfterForward
    ensures var t := AfterPostForward(s, b, Hooked(false), true);
            && Good(t) && t.pending == [] && !t.buckets[b].unsharded && t.buckets[b].created == s.buckets[b].created
            && Alike(s.buckets[b], t.buckets[b])
            && forall c :: 0 <= c < |s.buckets| && c != b ==> t.buckets[c] == s.buckets[c]
  {
    hide Good, AfterPostForward, Alike;
    PostForwardIs(s, b, Hooked(false), true);
    EndLeaves(s, b);
  }

  lemma EndLeaves(s: State, b: nat)
    requires b < |s.buckets| && s.buckets[b].reshardAfterForward
    ensures var l := AfterPostForward(s, b, Hooked(false), true).buckets[b];
            !l.unsharded && l.created == s.buckets[b].created && Alike(s.buckets[b], l)
  {
    hide KeepsData, Ended, AfterLearnPostForward;
    LearnPostForwardShape(s, b);
    EndedShape(AfterLearnPostForward(s, b).buckets[b]);
  }

  lemma EndedShape(k: Bucket)
    requires k.reshardAfterForward
    ensures var l := Ended(k, Hooked(false), true);
            !l.unsharded && l.created == k.created && Alike(k, l)
  {
  }

  lemma PrefetchingForward(s: State, b: nat, c: nat)
    requires Good(s) && s.pending == [] && b < |s.buckets| && c < |s.buckets| && b != c
    requires s.buckets[b].forwardPrefetch == Some([c])
    requires !s.buckets[c].unsharded && s.buckets[c].created && !s.buckets[c].refillsInFinish
    requires s.buckets[c].reshardAfterForward
    ensures Breaks(AfterPreForward(s, b), PostForward(c, Hooked(false), true))
  {
    hide Good, AfterUnshard, AfterLearnForward, AfterPrefetch;
    UnshardAlone(s, b);
    var u := AfterUnshard(AfterLearnForward(s, b), b, false);
    assert AfterPrefetches(u, [c][..0]) == u;
    assert AfterPrefetches(u, [c]) == AfterPrefetch(u, Some(c), true);
    PrefetchPends(u, c);
    PrefetchLeaves(u, c);
  }

  /** A forward with nothing in flight. */
  lemma UnshardAlone(s: State, b: nat)
    requires Good(s) && s.pending == [] && b < |s.buckets|
    ensures var u := AfterUnshard(AfterLearnForward(s, b), b, false);
            && Good(u) && u.pending == [] && u.buckets[b].unsharded && u.buckets[b].created
            && Alike(s.buckets[b], u.buckets[b])
            && forall c :: 0 <= c < |s.buckets| && c != b ==> u.buckets[c] == s.buckets[c]
  {
    hide Good, SameStorage, Alike, Mild, AfterLearnForward;
    var t := AfterLearnForward(s, b);
    LearnForwardGood(s, b);
    LearnForwardShape(s, b);
    UnshardGood(t, b, false);
    CreatedIs(AfterUnshard(t, b, false), b);
    UnshardQuiet(t, b);
    AlikeTrans(s.buckets[b], t.buckets[b], AfterUnshard(t, b, false).buckets[b]);
  }

  lemma AlikeTrans(k: Bucket, l: Bucket, m: Bucket)
    requires Alike(k, l) && Alike(l, m)
    ensures Alike(k, m)
  {
  }

  lemma CreatedIs(s: State, b: nat)
    requires Good(s) && b < |s.buckets| && s.buckets[b].unsharded
    ensures s.buckets[b].created
  {
    StorageOf(s, b);
  }

  /** With nothing in flight, unsharding concerns one bucket. */
  lemma UnshardQuiet(s: State, b: nat)
    requires b < |s.buckets| && s.pending == []
    ensures var u := AfterUnshard(s, b, false);
            && u.pending == [] && Alike(s.buckets[b], u.buckets[b])
            && forall c :: 0 <= c < |s.buckets| && c != b ==> u.buckets[c] == s.buckets[c]
  {
    assert BucketsOf([]) == {};
    assert Freed(s.buckets, {}) == s.buckets;
    assert AfterTake(s, Some(b)) == s;
  }

  lemma PrefetchLeaves(s: State, b: nat)
    requires b < |s.buckets|
    ensures AfterPrefetch(s, Some(b), true).buckets[b].created == s.buckets[b].created
    ensures AfterPrefetch(s, Some(b), true).buckets[b].refillsInFinish == s.buckets[b].refillsInFinish
    ensures AfterPrefetch(s, Some(b), true).buckets[b].reshardAfterForward == s.buckets[b].reshardAfterForward
  {
  }
}
