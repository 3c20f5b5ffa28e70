/** What the hooks prefetch: a bucket's explicit list for the direction, or the next bucket of the
    learned order, and nothing else. */
module BucketPrefetch {
  import opened Basics
  import opened BucketState
  import opened BucketSafety

  /** The explicit list that a hook of the direction uses. */
  function ListOf(k: Bucket, forward: bool): Option<seq<nat>> {
    if forward then k.forwardPrefetch else k.backwardPrefetch
  }

  /** In forward the bucket whose forward came next; in backward the last bucket, among those whose
      forward ended before, that has to be gathered again. */
  predicate IsNext(s: State, b: nat, forward: bool, c: nat)
    requires b < |s.buckets|
  {
    && c < |s.buckets|
    && if forward
       then s.buckets[b].forwardIndex.Some? && s.buckets[c].forwardIndex == Some(s.buckets[b].forwardIndex.value + 1)
       else Regathers(s.buckets[c]) && Before(s, c, b)
            && forall d: nat :: d < |s.buckets| && Regathers(s.buckets[d]) && Before(s, d, b) ==> !Before(s, c, d)
  }

  predicate Ready(s: State, c: nat)
    requires c < |s.buckets|
  {
    s.buckets[c].unsharded || IsPending(s.pending, c)
  }

  /** What is in flight after a hook of bucket `b` was so before or is asked for by the hook: it is of
      the bucket's list, if it has one, or else the next bucket. What is asked for is unsharded or in
      flight, except that a next bucket may be `blocked` by a prefetch of the learned order. */
  predicate Asked(t: State, b: nat, forward: bool, before: seq<Pending>, blocked: bool)
    requires b < |t.buckets|
  {
    var list := ListOf(t.buckets[b], forward);
    && (forall p :: p in t.pending ==>
          p in before || if list.Some? then p.isExplicit && p.bucket in list.value
                         else !p.isExplicit && IsNext(t, b, forward, p.bucket))
    && (list.Some? ==> forall c :: c in list.value ==> c < |t.buckets| && Ready(t, c))
    && (list.None? ==> forall c: nat :: c < |t.buckets| && IsNext(t, b, forward, c) ==> Ready(t, c) || blocked)
  }

  /** Only prefetches were added: the buckets are unsharded as before. */
  predicate OnlyPrefetched(s: State, t: State) {
    && Framed(s, t) && s.pending <= t.pending
    && forall b :: 0 <= b < |s.buckets| ==> t.buckets[b].unsharded == s.buckets[b].unsharded
  }

  lemma OnePrefetch(s: State, target: Option<nat>, isExplicit: bool)
    ensures var t := AfterPrefetch(s, target, isExplicit);
            && OnlyPrefetched(s, t)
            && (forall p :: p in t.pending ==>
                  p in s.pending || (target == Some(p.bucket) && p.isExplicit == isExplicit))
            && (target.Some? && target.value < |s.buckets| ==>
                  Ready(t, target.value) || (!isExplicit && Learned(s.pending)))
  {
    hide Learned, SkipsPrefetch;
    if target.Some? && target.value < |s.buckets| && !SkipsPrefetch(s, target.value, isExplicit) {
      LastIsPending(s.pending, Pending(target.value, isExplicit));
    } else if target.Some? && target.value < |s.buckets| {
      SkipsIs(s, target.value, isExplicit);
    }
  }

  lemma SkipsIs(s: State, b: nat, isExplicit: bool)
    requires b < |s.buckets| && SkipsPrefetch(s, b, isExplicit)
    ensures Ready(s, b) || (!isExplicit && Learned(s.pending))
  {
  }

  lemma LastIsPending(ps: seq<Pending>, p: Pending)
    ensures IsPending(ps + [p], p.bucket)
  {
    assert (ps + [p])[|ps|] == p;
  }

  lemma ReadyStays(s: State, t: State, c: nat)
    requires OnlyPrefetched(s, t) && c < |s.buckets| && Ready(s, c)
    ensures Ready(t, c)
  {
    if !s.buckets[c].unsharded {
      var i :| 0 <= i < |s.pending| && s.pending[i].bucket == c;
      assert t.pending[i].bucket == c;
    }
  }

  lemma OnlyTrans(s: State, t: State, u: State)
    requires OnlyPrefetched(s, t) && OnlyPrefetched(t, u)
    ensures OnlyPrefetched(s, u)
  {
  }

  lemma {:induction false} ListPrefetched(s: State, targets: seq<nat>)
    requires forall i :: 0 <= i < |targets| ==> targets[i] < |s.buckets|
    ensures var t := AfterPrefetches(s, targets);
            && OnlyPrefetched(s, t)
            && (forall p :: p in t.pending ==> p in s.pending || (p.isExplicit && p.bucket in targets))
            && (forall c :: c in targets ==> c < |t.buckets| && Ready(t, c))
  {
    hide AfterPrefetch, Ready, Framed;
    if targets == [] {
      FramedSelf(s);
    } else {
      var n := |targets| - 1;
      ListPrefetched(s, targets[..n]);
      var t, u := AfterPrefetches(s, targets[..n]), AfterPrefetches(s, targets);
      OnePrefetch(t, Some(targets[n]), true);
      OnlyTrans(s, t, u);
      assert targets == targets[..n] + [targets[n]];
      forall c | c in targets ensures c < |u.buckets| && Ready(u, c) {
        if c in targets[..n] {
          ReadyStays(t, u, c);
        }
      }
    }
  }

  lemma FramedSelf(s: State)
    ensures Framed(s, s)
  {
  }

  /** What is next doesn't depend on what is in flight. */
  lemma NextStays(s: State, t: State, b: nat, forward: bool, c: nat)
    requires OnlyPrefetched(s, t) && b < |s.buckets|
    ensures IsNext(s, b, forward, c) <==> IsNext(t, b, forward, c)
  {
  }

  lemma NextIs(s: State, b: nat, forward: bool, c: nat)
    requires Good(s) && b < |s.buckets|
    ensures (if forward then NextForward(s, b) else NextBackward(s, b)) == Some(c) <==> IsNext(s, b, forward, c)
  {
    hide Good, NextForward, NextBackward, Regathers;
    if forward {
      NextForwardIs(s, b);
      if IsNext(s, b, forward, c) {
        ForwardOnce(s, b, c);
      }
    } else {
      NextBackwardIs(s, b);
      if IsNext(s, b, forward, c) {
        BackwardOnce(s, NextBackward(s, b).value, c);
      }
    }
  }

  lemma ForwardOnce(s: State, b: nat, c: nat)
    requires Good(s) && b < |s.buckets| && IsNext(s, b, true, c)
    ensures NextForward(s, b) == Some(c)
  {
    hide Consistent, ListsOk;
  }

  /** Two buckets of the learned order that aren't before each other are the same. */
  lemma BackwardOnce(s: State, c: nat, d: nat)
    requires Good(s) && c < |s.buckets| && d < |s.buckets| && !Before(s, c, d) && !Before(s, d, c)
    requires s.buckets[c].postForwardIndex.Some? && s.buckets[d].postForwardIndex.Some?
    ensures c == d
  {
    hide Consistent, ListsOk;
  }

  lemma NextPrefetched(s: State, b: nat, forward: bool)
    requires Good(s) && b < |s.buckets|
    ensures OnlyPrefetched(s, AfterPrefetchNext(s, b, forward))
    ensures Asked(AfterPrefetchNext(s, b, forward), b, forward, s.pending, Learned(s.pending))
  {
    hide Good, AfterPrefetch, AfterPrefetches, NextForward, NextBackward, IsNext, Ready, Learned;
    var t := AfterPrefetchNext(s, b, forward);
    var list := ListOf(s.buckets[b], forward);
    if list.Some? {
      ListNames(s, b, forward);
      ListPrefetched(s, list.value);
    } else {
      var next := if forward then NextForward(s, b) else NextBackward(s, b);
      OnePrefetch(s, next, false);
      forall c: nat ensures next == Some(c) <==> IsNext(t, b, forward, c) {
        NextIs(s, b, forward, c);
        NextStays(s, t, b, forward, c);
      }
    }
  }

  lemma ListNames(s: State, b: nat, forward: bool)
    requires Good(s) && b < |s.buckets| && ListOf(s.buckets[b], forward).Some?
    ensures forall i :: 0 <= i < |ListOf(s.buckets[b], forward).value| ==>
        ListOf(s.buckets[b], forward).value[i] < |s.buckets|
  {
    hide Consistent, OrdersOk;
    assert ListOk(s.buckets[b].forwardPrefetch, |s.buckets|) && ListOk(s.buckets[b].backwardPrefetch, |s.buckets|);
  }

  /** Unsharding a bucket starts no prefetch, and leaves none of the learned order if it had to
      gather the bucket. */
  lemma UnshardStarts(s: State, b: nat)
    requires Good(s) && b < |s.buckets|
    ensures var t := AfterUnshard(s, b, false);
            && (forall p :: p in t.pending ==> p in s.pending)
            && (Learned(t.pending) ==> s.buckets[b].unsharded && Learned(s.pending))
  {
    hide Consistent, OrdersOk, ListsOk, Freed, IsPending;
    if !s.buckets[b].unsharded {
      TakeGood(s, Some(b));
      FilterIn(s.pending, (p: Pending) => Keeps(p, Some(b)));
    }
  }

  lemma AskedMore(t: State, b: nat, forward: bool, ps: seq<Pending>, blocked: bool, before: seq<Pending>, more: bool)
    requires b < |t.buckets| && Asked(t, b, forward, ps, blocked)
    requires (forall p :: p in ps ==> p in before) && (blocked ==> more)
    ensures Asked(t, b, forward, before, more)
  {
    hide IsNext, Ready;
  }

  /** Before a forward, a bucket's forward list is prefetched, or else the bucket whose forward came
      next, unless another prefetch of the learned order was in flight and there was nothing to
      gather. */
  lemma ForwardPrefetches(s: State, b: nat)
    requires Good(s) && b < |s.buckets|
    ensures Asked(AfterPreForward(s, b), b, true, s.pending, s.buckets[b].unsharded && Learned(s.pending))
  {
    hide Good, AfterLearnForward, AfterUnshard, AfterPrefetchNext, Asked, Learned;
    LearnForwardGood(s, b);
    LearnForwardShape(s, b);
    var v := AfterLearnForward(s, b);
    UnshardGood(v, b, false);
    UnshardStarts(v, b);
    var u := AfterUnshard(v, b, false);
    NextPrefetched(u, b, true);
    AskedMore(AfterPreForward(s, b), b, true, u.pending, Learned(u.pending), s.pending,
              s.buckets[b].unsharded && Learned(s.pending));
  }

  /** Before a backward, a bucket's backward list is prefetched, or else the last bucket before it
      that has to be gathered again. */
  lemma BackwardPrefetches(s: State, b: nat)
    requires Good(s) && b < |s.buckets|
    ensures Asked(AfterPreBackward(s, b), b, false, s.pending, s.buckets[b].unsharded && Learned(s.pending))
  {
    hide Good, AfterUnshard, AfterPrefetchNext, Asked, Learned, Synced, ReducesKept;
    UnshardGood(s, b, false);
    UnshardStarts(s, b);
    var u := AfterUnshard(s, b, false);
    SyncGood(u, b, false);
    var v := if ReducesKept(u.buckets[b]) then Put(u, b, Synced(u.buckets[b], false)) else u;
    NextPrefetched(v, b, false);
    AskedMore(AfterPreBackward(s, b), b, false, v.pending, Learned(v.pending), s.pending,
              s.buckets[b].unsharded && Learned(s.pending));
  }

  // ----- What becomes of prefetches

  /** A prefetch is still in flight, and nothing happened to its bucket. */
  predicate StillPending(s: State, t: State, p: Pending)
    requires p.bucket < |s.buckets| && p.bucket < |t.buckets|
  {
    p in t.pending && t.buckets[p.bucket] == s.buckets[p.bucket]
  }

  /** A prefetch of bucket `c` was waited for once; the bucket holds data and storage only if it was
      finished. */
  predicate Gone(s: State, t: State, c: nat, finished: bool)
    requires c < |s.buckets| && c < |t.buckets|
  {
    && !IsPending(t.pending, c) && t.buckets[c].settled == s.buckets[c].settled + 1
    && t.buckets[c].unsharded == t.buckets[c].hasStorage == finished
  }

  /** Unsharding a bucket leaves other buckets' explicit prefetches in flight. If the bucket has to be
      gathered, other buckets' learned-order prefetches are released, or finished into their buckets
      in a recomputed forward. */
  lemma UnshardSettles(s: State, b: nat, finishOthers: bool, p: Pending)
    requires Good(s) && b < |s.buckets| && p in s.pending && p.bucket != b
    ensures p.bucket < |s.buckets|
    ensures var t := AfterUnshard(s, b, finishOthers);
            if s.buckets[b].unsharded || p.isExplicit then StillPending(s, t, p)
            else Gone(s, t, p.bucket, finishOthers)
  {
    hide Good, AfterOthers, AfterTake, Filled, Begun, Dropped, IsPending;
    PendingBound(s, p);
    if !s.buckets[b].unsharded {
      var c := p.bucket;
      var u := if finishOthers then AfterOthers(s, b) else s;
      TakeSize(u, b);
      UnshardRest(s, b, finishOthers, c);
      OthersGood(s, b);
      if finishOthers {
        OthersSettle(s, b, p);
      }
      if finishOthers && !p.isExplicit {
        TakeApart(u, b, c);
      } else {
        TakeSettles(u, b, p);
      }
      if !p.isExplicit {
        SettledOnce(s, c);
      }
    }
  }

  lemma PendingBound(s: State, p: Pending)
    requires Good(s) && p in s.pending
    ensures p.bucket < |s.buckets| && IsPending(s.pending, p.bucket)
  {
    hide OrdersOk, ListsOk, StorageOk;
    var i :| 0 <= i < |s.pending| && s.pending[i] == p;
  }

  lemma TakeSize(s: State, b: nat)
    ensures |AfterTake(s, Some(b)).buckets| == |s.buckets|
  {
  }

  /** Besides taking prefetches, a gather changes one bucket. */
  lemma UnshardRest(s: State, b: nat, finishOthers: bool, c: nat)
    requires b < |s.buckets| && c < |s.buckets| && c != b && !s.buckets[b].unsharded
    ensures var u, t := if finishOthers then AfterOthers(s, b) else s, AfterUnshard(s, b, finishOthers);
            && |AfterTake(u, Some(b)).buckets| == |s.buckets| && t.pending == AfterTake(u, Some(b)).pending
            && t.buckets[c] == AfterTake(u, Some(b)).buckets[c]
  {
    hide AfterOthers, AfterTake, Filled, Begun, IsPending;
    var u := if finishOthers then AfterOthers(s, b) else s;
    TakeSize(u, b);
  }

  /** Finishing or dropping an unshard in flight. */
  lemma SettledOnce(s: State, c: nat)
    requires Good(s) && c < |s.buckets| && IsPending(s.pending, c)
    ensures var k, filled, dropped := s.buckets[c], Filled(s.buckets[c]), Dropped(s.buckets[c]);
            && filled.unsharded && filled.hasStorage && filled.settled == k.settled + 1
            && !dropped.unsharded && !dropped.hasStorage && dropped.settled == k.settled + 1
  {
    hide OrdersOk, ListsOk, PendingOk;
    assert StorageOk(s.buckets[c], IsPending(s.pending, c));
  }

  lemma TakeSettles(s: State, b: nat, p: Pending)
    requires Good(s) && p in s.pending && p.bucket != b && |AfterTake(s, Some(b)).buckets| == |s.buckets|
    ensures p.bucket < |s.buckets|
    ensures var t, c := AfterTake(s, Some(b)), p.bucket;
            if p.isExplicit then p in t.pending && t.buckets[c] == s.buckets[c]
            else !IsPending(t.pending, c) && t.buckets[c] == Dropped(s.buckets[c])
  {
    hide Filter, Dropped, OrdersOk, ListsOk, StorageOk, IsPending, PendingOk;
    PendingBound(s, p);
    var kept, released := Kept(s.pending, Some(b)), ReleasedOf(s.pending, Some(b));
    FilterIn(s.pending, (q: Pending) => Keeps(q, Some(b)));
    FilterIn(s.pending, (q: Pending) => Releases(q, Some(b)));
    PendingIs(kept, p.bucket);
    forall q | q in s.pending && q.bucket == p.bucket ensures q == p {
      PendingUnique(s.pending, p, q, |s.buckets|);
    }
    if p.isExplicit {
      assert p.bucket !in BucketsOf(released);
    } else {
      assert p in released;
      assert p.bucket in BucketsOf(released);
    }
  }

  lemma TakeApart(s: State, b: nat, c: nat)
    requires c < |s.buckets| && !IsPending(s.pending, c) && |AfterTake(s, Some(b)).buckets| == |s.buckets|
    ensures var t := AfterTake(s, Some(b));
            !IsPending(t.pending, c) && t.buckets[c] == s.buckets[c]
  {
    hide Filter, Dropped, IsPending;
    var kept, released := Kept(s.pending, Some(b)), ReleasedOf(s.pending, Some(b));
    FilterIn(s.pending, (q: Pending) => Keeps(q, Some(b)));
    FilterIn(s.pending, (q: Pending) => Releases(q, Some(b)));
    PendingIs(s.pending, c);
    PendingIs(kept, c);
    assert c !in BucketsOf(released);
  }

  lemma OthersSettle(s: State, b: nat, p: Pending)
    requires Good(s) && p in s.pending && p.bucket != b
    ensures p.bucket < |s.buckets|
    ensures var t, c := AfterOthers(s, b), p.bucket;
            if p.isExplicit then p in t.pending && t.buckets[c] == s.buckets[c]
            else !IsPending(t.pending, c) && t.buckets[c] == Filled(s.buckets[c])
  {
    hide Filter, Filled, FilledAll, OrdersOk, ListsOk, StorageOk, IsPending, PendingOk;
    PendingBound(s, p);
    var finished, kept := Others(s.pending, b), NotOthers(s.pending, b);
    FilterIn(s.pending, (q: Pending) => !IsOther(q, b));
    FilterOk(s.pending, (q: Pending) => IsOther(q, b), |s.buckets|);
    PendingIs(kept, p.bucket);
    forall q | q in s.pending && q.bucket == p.bucket ensures q == p {
      PendingUnique(s.pending, p, q, |s.buckets|);
    }
    if p.isExplicit {
      NotFilled(s.buckets, finished, p.bucket);
    } else {
      FilledOnce(s.buckets, finished, p);
    }
  }

  lemma {:induction false} FilledOnce(buckets: seq<Bucket>, ps: seq<Pending>, p: Pending)
    requires PendingOk(ps, |buckets|) && p in ps
    ensures p.bucket < |buckets| && FilledAll(buckets, ps)[p.bucket] == Filled(buckets[p.bucket])
  {
    hide PendingOk, Filled;
    var n := |ps| - 1;
    LastPending(ps, |buckets|);
    if p == ps[n] {
      NotFilled(buckets, ps[..n], p.bucket);
    } else {
      FilledOnce(buckets, ps[..n], p);
    }
  }

  /** Waiting on the handle of an asynchronous unshard unshards and exposes the buckets that it started
      and whose unshards are still in flight, and leaves other explicit prefetches in flight. */
  lemma {:induction false} WaitUnshards(s: State, started: seq<nat>, p: Pending)
    requires Good(s) && p in s.pending && p.isExplicit
    ensures p.bucket < |s.buckets|
    ensures var t := AfterWait(s, started);
            if p.bucket in started then t.buckets[p.bucket].unsharded && t.buckets[p.bucket].exposed
            else StillPending(s, t, p)
  {
    hide Good, AfterUnshard, IsPending;
    PendingBound(s, p);
    if started != [] {
      var n := |started| - 1;
      WaitUnshards(s, started[..n], p);
      WaitGood(s, started[..n]);
      var t, c := AfterWait(s, started[..n]), started[n];
      assert started == started[..n] + [c];
      if c < |s.buckets| && IsPending(t.pending, c) {
        UnshardGood(t, c, false);
        if p.bucket != c && p.bucket !in started[..n] {
          UnshardSettles(t, c, false, p);
        }
      } else if p.bucket == c && p.bucket !in started[..n] {
        PendingBound(t, p);
        assert false;
      }
    }
  }
}
