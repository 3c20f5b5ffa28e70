/** The state of the bucket runtime on values: which buckets are unsharded, prefetched, allocated
    and exposed, and what every hook and method makes of it. */
module BucketState {
  import opened Basics

  /** A bucket's runtime state: its unsharded parameters hold data; they have been created; their
      storage is allocated; the modules expose them. Settings: whether the placement refills the
      storage only when an unshard is finished, whether it reshards after forward and backward,
      whether backward syncs gradients, whether the post-backward is deferred, explicit prefetch
      lists. The forward calls since the last backward, the triggers among them, and the
      triggers that ran; whether grads wait for a syncing backward; and its places in the
      learned orders. Last, how many unshards were ever started, and how many of them were
      finished or released. */
  datatype Bucket = Bucket(
    unsharded: bool, created: bool, hasStorage: bool, exposed: bool,
    refillsInFinish: bool, reshardAfterForward: bool, reshardAfterBackward: bool, requiresSync: bool, defers: bool,
    forwardPrefetch: Option<seq<nat>>, backwardPrefetch: Option<seq<nat>>,
    calls: nat, triggers: nat, triggersRun: nat, needsSync: bool,
    forwardIndex: Option<nat>, postForwardIndex: Option<nat>,
    started: nat, settled: nat)

  /** A prefetched unshard in flight, from an explicit list or the learned order. */
  datatype Pending = Pending(bucket: nat, isExplicit: bool)

  datatype State = State(buckets: seq<Bucket>, pending: seq<Pending>, forwardOrder: seq<nat>,
                         postForwardOrder: seq<nat>)

  // ----- What holds at all times

  predicate IsPending(pending: seq<Pending>, b: nat) {
    exists i :: 0 <= i < |pending| && pending[i].bucket == b
  }

  /** No bucket is pending twice, and at most one prefetch follows the learned order. */
  predicate PendingOk(pending: seq<Pending>, n: nat) {
    && (forall i :: 0 <= i < |pending| ==> pending[i].bucket < n)
    && (forall i, j :: 0 <= i < j < |pending| ==> pending[i].bucket != pending[j].bucket)
    && (forall i, j :: 0 <= i < j < |pending| ==> pending[i].isExplicit || pending[j].isExplicit)
  }

  /** Only an unsharded bucket is exposed; an unsharded bucket has its storage and no unshard in
      flight; any other bucket has its storage exactly if a refill of it is in flight. Every
      unshard that isn't in flight has been finished or released once. */
  predicate StorageOk(k: Bucket, inFlight: bool) {
    && (k.exposed ==> k.unsharded)
    && (k.unsharded ==> k.created && k.hasStorage && !inFlight)
    && (!k.unsharded ==> (k.hasStorage <==> inFlight && k.created && !k.refillsInFinish))
    && k.started == k.settled + if inFlight then 1 else 0
  }

  /** The state when unshards of `taken`, besides the pending ones, are in flight. */
  ghost predicate Consistent(buckets: seq<Bucket>, pending: seq<Pending>, taken: set<nat>) {
    && PendingOk(pending, |buckets|)
    && (forall b :: b in taken ==> !IsPending(pending, b))
    && (forall b: nat :: b < |buckets| ==> StorageOk(buckets[b], IsPending(pending, b) || b in taken))
  }

  /** A learned order lists each bucket once, at the place that the bucket remembers. */
  ghost predicate OrderOk(order: seq<nat>, buckets: seq<Bucket>, place: Bucket -> Option<nat>) {
    && (forall i :: 0 <= i < |order| ==> order[i] < |buckets| && place(buckets[order[i]]) == Some(i))
    && (forall b: nat :: b < |buckets| && place(buckets[b]).Some? ==>
          place(buckets[b]).value < |order| && order[place(buckets[b]).value] == b)
  }

  ghost predicate OrdersOk(s: State) {
    OrderOk(s.forwardOrder, s.buckets, ForwardPlace) && OrderOk(s.postForwardOrder, s.buckets, PostForwardPlace)
  }

  function ForwardPlace(k: Bucket): Option<nat> {
    k.forwardIndex
  }

  function PostForwardPlace(k: Bucket): Option<nat> {
    k.postForwardIndex
  }

  predicate ListOk(list: Option<seq<nat>>, n: nat) {
    list.Some? ==> forall i :: 0 <= i < |list.value| ==> list.value[i] < n
  }

  predicate ListsOk(buckets: seq<Bucket>) {
    forall b :: 0 <= b < |buckets| ==>
      ListOk(buckets[b].forwardPrefetch, |buckets|) && ListOk(buckets[b].backwardPrefetch, |buckets|)
  }

  ghost predicate During(s: State, taken: set<nat>) {
    Consistent(s.buckets, s.pending, taken) && OrdersOk(s) && ListsOk(s.buckets)
  }

  /** The invariant. */
  ghost predicate Good(s: State) {
    During(s, {})
  }

  // ----- What happens to one bucket

  /** An unshard started: a refill's storage is allocated now, unless the placement fills it only
      when the unshard is finished. */
  function Begun(k: Bucket): Bucket {
    k.(started := k.started + 1, hasStorage := k.hasStorage || (k.created && !k.refillsInFinish))
  }

  /** An unshard finished: the first creates the parameters, later ones write into their storage. */
  function Filled(k: Bucket): Bucket {
    k.(settled := k.settled + 1, unsharded := true, created := true, hasStorage := k.hasStorage
        || !k.created || k.refillsInFinish)
  }

  /** A prefetch waited for and dropped. */
  function Dropped(k: Bucket): Bucket {
    k.(settled := k.settled + 1, hasStorage := false)
  }

  function Resharded(k: Bucket): Bucket {
    k.(unsharded := false, hasStorage := false, exposed := false)
  }

  /** After a post-backward: grads reduced, or kept without gradient sync. */
  function Synced(k: Bucket, reshard: bool): Bucket {
    var after := k.(needsSync := !k.requiresSync);
    if reshard && k.unsharded && (k.requiresSync || k.reshardAfterBackward) then Resharded(after) else after
  }

  function NoCounts(k: Bucket): Bucket {
    WithCounts(k, 0, 0, 0)
  }

  /** Whether backwards left the bucket to finish. */
  predicate NeedsFinish(k: Bucket) {
    k.unsharded || (k.needsSync && k.requiresSync)
  }

  /** Whether a backward must not end before the bucket's deferred post-backward. */
  predicate LeftDeferred(k: Bucket, inBackward: bool) {
    NeedsFinish(k) && k.defers && k.requiresSync && k.triggersRun > 0 && inBackward
  }

  function Finished(k: Bucket): Bucket {
    NoCounts(if NeedsFinish(k) then Synced(k, true) else k)
  }

  /** How the forward of a bucket's module ended: no backward will reach its parameters; its
      output has no visible tensors; or its outputs get pre-backward hooks, and may view the
      persistent storage. */
  datatype Ending = NoBackward | NoTensors | Hooked(viewsStorage: bool)

  predicate KeepsData(k: Bucket, ending: Ending) {
    match ending
    case NoBackward => false
    case NoTensors => true
    case Hooked(viewsStorage) => !k.reshardAfterForward || viewsStorage
  }

  function WithCounts(k: Bucket, calls: nat, triggers: nat, run: nat): Bucket {
    k.(calls := calls, triggers := triggers, triggersRun := run)
  }

  function Counted(k: Bucket, ending: Ending, hasTrigger: bool): Bucket {
    match ending
    case NoBackward => k
    case NoTensors => WithCounts(k, k.calls + 1, k.triggers, k.triggersRun)
    case Hooked(_) => WithCounts(k, k.calls + 1, k.triggers + (if hasTrigger then 1 else 0), k.triggersRun)
  }

  /** After a forward call: it is counted if a backward will come, its trigger if its outputs are
      hooked, and the data stay or go. */
  function Ended(k: Bucket, ending: Ending, hasTrigger: bool): Bucket {
    if KeepsData(k, ending) then Counted(k, ending, hasTrigger) else Resharded(Counted(k, ending, hasTrigger))
  }

  /** Whether, with one more trigger run, every forward call since the last backward carried a
      trigger and all of them ran. */
  predicate AllRan(k: Bucket) {
    !k.defers && k.calls == k.triggers == k.triggersRun + 1
  }

  function Triggered(k: Bucket): Bucket {
    var after := WithCounts(k, k.calls, k.triggers, k.triggersRun + 1);
    if AllRan(k) then NoCounts(Synced(after, true)) else after
  }

  predicate Regathers(k: Bucket) {
    k.reshardAfterForward && !k.unsharded
  }

  // ----- What happens to the state

  function Put(s: State, b: nat, k: Bucket): State
    requires b < |s.buckets|
  {
    s.(buckets := s.buckets[b := k])
  }

  /** What callers may set on a bucket between steps. Whether it defers its post-backward is set when
      it is made, but nothing depends on that. */
  datatype Settings = Settings(
    reshardAfterForward: bool, reshardAfterBackward: bool, requiresSync: bool, defers: bool,
    forwardPrefetch: Option<seq<nat>>, backwardPrefetch: Option<seq<nat>>)

  /** Prefetch lists name buckets of the same context. */
  predicate SettingsOk(c: Settings, n: nat) {
    ListOk(c.forwardPrefetch, n) && ListOk(c.backwardPrefetch, n)
  }

  function Configured(k: Bucket, c: Settings): Bucket {
    k.(reshardAfterForward := c.reshardAfterForward, reshardAfterBackward := c.reshardAfterBackward,
       requiresSync := c.requiresSync, defers := c.defers,
       forwardPrefetch := c.forwardPrefetch, backwardPrefetch := c.backwardPrefetch)
  }

  /** After a bucket's settings are changed. */
  function AfterConfigure(s: State, b: nat, c: Settings): (t: State)
    requires b < |s.buckets|
    ensures |t.buckets| == |s.buckets|
  {
    Put(s, b, Configured(s.buckets[b], c))
  }

  function BucketsOf(ps: seq<Pending>): set<nat> {
    set p | p in ps :: p.bucket
  }

  predicate Learned(pending: seq<Pending>) {
    exists i :: 0 <= i < |pending| && !pending[i].isExplicit
  }

  predicate Keeps(p: Pending, wanted: Option<nat>) {
    wanted.Some? && wanted.value != p.bucket && p.isExplicit
  }

  predicate Releases(p: Pending, wanted: Option<nat>) {
    !Keeps(p, wanted) && wanted != Some(p.bucket)
  }

  function Filter(ps: seq<Pending>, f: Pending -> bool): seq<Pending> {
    if ps == [] then []
    else
      var n := |ps| - 1;
      Filter(ps[..n], f) + if f(ps[n]) then [ps[n]] else []
  }

  /** The prefetches that stay when one is taken. */
  function Kept(ps: seq<Pending>, wanted: Option<nat>): seq<Pending> {
    Filter(ps, (p: Pending) => Keeps(p, wanted))
  }

  /** The prefetches that are released. */
  function ReleasedOf(ps: seq<Pending>, wanted: Option<nat>): seq<Pending> {
    Filter(ps, (p: Pending) => Releases(p, wanted))
  }

  function Freed(buckets: seq<Bucket>, which: set<nat>): (after: seq<Bucket>)
    ensures |after| == |buckets|
    ensures forall b :: 0 <= b < |buckets| ==> after[b] == if b in which then Dropped(buckets[b]) else buckets[b]
  {
    seq(|buckets|, b requires 0 <= b < |buckets| => if b in which then Dropped(buckets[b]) else buckets[b])
  }

  /** After one bucket's prefetch is taken and others are released: those of the learned order, or
      all if no bucket is given. */
  function AfterTake(s: State, wanted: Option<nat>): State {
    s.(buckets := Freed(s.buckets, BucketsOf(ReleasedOf(s.pending, wanted))), pending := Kept(s.pending, wanted))
  }

  predicate SkipsPrefetch(s: State, target: nat, isExplicit: bool)
    requires target < |s.buckets|
  {
    s.buckets[target].unsharded || IsPending(s.pending, target) || (!isExplicit && Learned(s.pending))
  }

  /** After a bucket's unshard is started ahead of its hook, unless it is unsharded or pending
      already, or another prefetch follows the learned order and this one would too. */
  function AfterPrefetch(s: State, target: Option<nat>, isExplicit: bool): (t: State)
    ensures |t.buckets| == |s.buckets|
  {
    if target.None? || target.value >= |s.buckets| || SkipsPrefetch(s, target.value, isExplicit) then s
    else
      Put(s, target.value, Begun(s.buckets[target.value])).(pending := s.pending + [Pending(target.value, isExplicit)])
  }

  predicate IsOther(p: Pending, b: nat) {
    p.bucket != b && !p.isExplicit
  }

  function FilledAll(buckets: seq<Bucket>, ps: seq<Pending>): (after: seq<Bucket>)
    ensures |after| == |buckets|
  {
    if ps == [] then buckets
    else
      var n := |ps| - 1;
      var before := FilledAll(buckets, ps[..n]);
      if ps[n].bucket < |buckets| then before[ps[n].bucket := Filled(before[ps[n].bucket])] else before
  }

  function Others(ps: seq<Pending>, b: nat): seq<Pending> {
    Filter(ps, (p: Pending) => IsOther(p, b))
  }

  function NotOthers(ps: seq<Pending>, b: nat): seq<Pending> {
    Filter(ps, (p: Pending) => !IsOther(p, b))
  }

  /** After the other buckets' learned-order prefetches are finished. */
  function AfterOthers(s: State, b: nat): (t: State)
    ensures |t.buckets| == |s.buckets|
  {
    s.(buckets := FilledAll(s.buckets, Others(s.pending, b)), pending := NotOthers(s.pending, b))
  }

  /** After the bucket's prefetch is taken, or an unshard of it started. */
  function AfterBegin(s: State, b: nat): (t: State)
    requires b < |s.buckets|
    ensures |t.buckets| == |s.buckets|
  {
    var taken := AfterTake(s, Some(b));
    if IsPending(s.pending, b) then taken else Put(taken, b, Begun(taken.buckets[b]))
  }

  /** After the bucket gets its data, from its prefetch if it has one. */
  function AfterGather(s: State, b: nat): (t: State)
    requires b < |s.buckets|
    ensures |t.buckets| == |s.buckets|
  {
    var begun := AfterBegin(s, b);
    Put(begun, b, Filled(begun.buckets[b]))
  }

  function AfterExpose(s: State, b: nat): (t: State)
    requires b < |s.buckets|
    ensures |t.buckets| == |s.buckets|
  {
    Put(s, b, s.buckets[b].(exposed := true))
  }

  /** After the bucket is unsharded and its parameters exposed. */
  function AfterUnshard(s: State, b: nat, finishOthers: bool): (t: State)
    requires b < |s.buckets|
    ensures |t.buckets| == |s.buckets|
  {
    AfterExpose(if s.buckets[b].unsharded then s else AfterGather(if finishOthers then AfterOthers(s, b) else s, b), b)
  }

  /** The bucket whose forward followed this one's. */
  function NextForward(s: State, b: nat): Option<nat>
    requires b < |s.buckets|
  {
    var place := s.buckets[b].forwardIndex;
    if place.None? || place.value + 1 >= |s.forwardOrder| then None else Some(s.forwardOrder[place.value + 1])
  }

  function LastRegather(buckets: seq<Bucket>, order: seq<nat>): Option<nat> {
    if order == [] then None
    else
      var n := |order| - 1;
      if order[n] < |buckets| && Regathers(buckets[order[n]]) then Some(order[n]) else LastRegather(buckets, order[..n])
  }

  /** The bucket whose backward re-gather follows this one's: the last before it in post-forward
      order that reshards after forward and isn't unsharded. */
  function NextBackward(s: State, b: nat): Option<nat>
    requires b < |s.buckets|
  {
    var place := s.buckets[b].postForwardIndex;
    if place.None? || place.value > |s.postForwardOrder| then None
    else LastRegather(s.buckets, s.postForwardOrder[..place.value])
  }

  function AfterPrefetches(s: State, targets: seq<nat>): (t: State)
    ensures |t.buckets| == |s.buckets|
  {
    if targets == [] then s
    else
      var n := |targets| - 1;
      AfterPrefetch(AfterPrefetches(s, targets[..n]), Some(targets[n]), true)
  }

  /** After the bucket's explicit list is prefetched, if it has one, else the next bucket in the
      learned order. */
  function AfterPrefetchNext(s: State, b: nat, forward: bool): (t: State)
    requires b < |s.buckets|
    ensures |t.buckets| == |s.buckets|
  {
    var targets := if forward then s.buckets[b].forwardPrefetch else s.buckets[b].backwardPrefetch;
    if targets.Some? then AfterPrefetches(s, targets.value)
    else AfterPrefetch(s, if forward then NextForward(s, b) else NextBackward(s, b), false)
  }

  // ----- What the hooks do

  function AfterLearnForward(s: State, b: nat): (t: State)
    requires b < |s.buckets|
    ensures |t.buckets| == |s.buckets|
  {
    if s.buckets[b].forwardIndex.Some? then s
    else Put(s, b, s.buckets[b].(forwardIndex := Some(|s.forwardOrder|))).(forwardOrder := s.forwardOrder + [b])
  }

  function AfterLearnPostForward(s: State, b: nat): (t: State)
    requires b < |s.buckets|
    ensures |t.buckets| == |s.buckets|
  {
    if s.buckets[b].postForwardIndex.Some? then s
    else
      Put(s, b, s.buckets[b].(postForwardIndex := Some(|s.postForwardOrder|)))
        .(postForwardOrder := s.postForwardOrder + [b])
  }

  /** Before a module's forward, outside backward. */
  function AfterPreForward(s: State, b: nat): (t: State)
    requires b < |s.buckets|
    ensures |t.buckets| == |s.buckets|
  {
    AfterPrefetchNext(AfterUnshard(AfterLearnForward(s, b), b, false), b, true)
  }

  /** After a module's forward, outside backward. */
  function AfterPostForward(s: State, b: nat, ending: Ending, hasTrigger: bool): (t: State)
    requires b < |s.buckets|
    ensures |t.buckets| == |s.buckets|
  {
    var learned := AfterLearnPostForward(s, b);
    Put(learned, b, Ended(learned.buckets[b], ending, hasTrigger))
  }

  /** Whether grads kept without sync are reduced on their own, before a backward of a bucket that
      was called more than once adds to them. */
  predicate ReducesKept(k: Bucket) {
    k.calls > 1 && k.needsSync && k.requiresSync && !k.defers
  }

  /** Before a module's backward. */
  function AfterPreBackward(s: State, b: nat): (t: State)
    requires b < |s.buckets|
    ensures |t.buckets| == |s.buckets|
  {
    var u := AfterUnshard(s, b, false);
    AfterPrefetchNext(if ReducesKept(u.buckets[b]) then Put(u, b, Synced(u.buckets[b], false)) else u, b, false)
  }

  /** After the buckets of `order` are finished in turn, up to one that must not be left. */
  function AfterFinish(s: State, order: seq<nat>, inBackward: bool): (r: (State, bool))
    ensures |r.0.buckets| == |s.buckets|
  {
    if order == [] then (s, false)
    else
      var n := |order| - 1;
      var (t, raised) := AfterFinish(s, order[..n], inBackward);
      var b := order[n];
      if raised || b >= |s.buckets| then (t, raised)
      else if LeftDeferred(t.buckets[b], inBackward) then (t, true)
      else (Put(t, b, Finished(t.buckets[b])), false)
  }

  function Registration(n: nat): (order: seq<nat>)
    ensures |order| == n && forall i :: 0 <= i < n ==> order[i] == i
  {
    seq(n, i requires 0 <= i < n => i)
  }

  /** At the end of a backward; `finish` if a pre-backward hook ran in it. */
  function AfterBackward(s: State, finish: bool): (r: (State, bool))
    ensures |r.0.buckets| == |s.buckets|
  {
    if !finish then (s, false)
    else
      var (t, raised) := AfterFinish(s, Registration(|s.buckets|), true);
      if raised then (t, true) else (AfterTake(t, None), false)
  }

  /** After backward is finalized outside of it, the buckets in the given order. */
  function AfterFinalize(s: State, order: seq<nat>): (t: State)
    ensures |t.buckets| == |s.buckets|
  {
    AfterTake(AfterFinish(s, order, false).0, None)
  }

  function Cleared(k: Bucket): Bucket {
    NoCounts(if k.unsharded then Resharded(k) else k)
  }

  function ClearedUpTo(buckets: seq<Bucket>, n: nat): (after: seq<Bucket>)
    ensures |after| == |buckets|
    ensures forall b :: 0 <= b < |buckets| ==> after[b] == if b < n then Cleared(buckets[b]) else buckets[b]
  {
    seq(|buckets|, b requires 0 <= b < |buckets| => if b < n then Cleared(buckets[b]) else buckets[b])
  }

  /** After every bucket is resharded and the backward state cleared. */
  function AfterReset(s: State): (t: State)
    ensures |t.buckets| == |s.buckets|
  {
    var t := AfterTake(s, None);
    t.(buckets := ClearedUpTo(t.buckets, |t.buckets|))
  }

  function WithoutPending(ps: seq<Pending>, b: nat): seq<Pending> {
    Filter(ps, (p: Pending) => p.bucket != b)
  }

  /** After one bucket's prefetch is released. */
  function AfterRelease(s: State, b: nat): (t: State)
    requires b < |s.buckets|
    ensures |t.buckets| == |s.buckets|
  {
    (if IsPending(s.pending, b) then Put(s, b, Dropped(s.buckets[b])) else s).(pending := WithoutPending(s.pending, b))
  }

  /** After one bucket is resharded from outside. */
  function AfterReshard(s: State, b: nat): (t: State)
    requires b < |s.buckets|
    ensures |t.buckets| == |s.buckets|
  {
    var t := AfterRelease(s, b);
    if t.buckets[b].unsharded then Put(t, b, Resharded(t.buckets[b])) else t
  }

  /** After the first `n` buckets are unsharded, or prefetched if they aren't unsharded. */
  function AfterUnshardAll(s: State, asyncOp: bool, n: nat): (t: State)
    requires n <= |s.buckets|
    ensures |t.buckets| == |s.buckets|
  {
    if n == 0 then s
    else
      var t := AfterUnshardAll(s, asyncOp, n - 1);
      if !asyncOp || t.buckets[n - 1].unsharded then AfterUnshard(t, n - 1, false)
          else AfterPrefetch(t, Some(n - 1), true)
  }

  /** After waiting on the handle of an asynchronous unshard: what it started and is still pending
      is unsharded. */
  function AfterWait(s: State, started: seq<nat>): (t: State)
    ensures |t.buckets| == |s.buckets|
  {
    if started == [] then s
    else
      var n := |started| - 1;
      var t := AfterWait(s, started[..n]);
      if started[n] < |s.buckets| && IsPending(t.pending, started[n]) then AfterUnshard(t, started[n], false) else t
  }

  /** After a deferred post-backward. */
  function AfterDeferred(s: State, b: nat): (t: State)
    requires b < |s.buckets|
    ensures |t.buckets| == |s.buckets|
  {
    if NeedsFinish(s.buckets[b]) then Put(s, b, Synced(s.buckets[b], true)) else s
  }
}
