/** What the host queues on the caller and the transfer stream, and what an execution of it
    may look like: each stream runs its entries in order, a wait lets its stream pass only
    after the event record it was queued against, and nothing else orders the streams. */
module StreamLog {
  import O = Orders
  import opened StreamOps

  datatype Stream = Caller | Transfer

  /** An entry, queued on a stream:
      - `Prior`: whatever the caller queued before;
      - `Do`: work;
      - `Record`: an event record;
      - `Await`: a wait for the record at an earlier place of the log;
      - `AwaitStream`: a wait for all that the caller stream has queued so far. */
  datatype Entry =
    | Prior(stream: Stream)
    | Do(stream: Stream, op: Op)
    | Record(stream: Stream)
    | Await(stream: Stream, target: nat)
    | AwaitStream(stream: Stream)

  /** Entry `q` may run only after entry `p`. */
  predicate After(log: seq<Entry>, p: nat, q: nat)
    requires p < |log| && q < |log|
  {
    && p < q
    && (|| log[p].stream == log[q].stream
        || (log[q].Await? && log[q].target == p)
        || (log[q].AwaitStream? && log[p].stream == Caller))
  }

  /** A set of entries that may have run, none of them too early. */
  ghost predicate Closed(log: seq<Entry>, ran: set<nat>) {
    && (forall q :: q in ran ==> q < |log|)
    && (forall p: nat, q: nat :: q in ran && q < |log| && p < |log| && After(log, p, q) ==> p in ran)
  }

  /** An execution: every entry runs once, and what has run is closed at any time. */
  ghost predicate Execution(log: seq<Entry>, order: seq<nat>) {
    && (forall q: nat :: q < |log| <==> q in order)
    && (forall i, j :: 0 <= i < j < |order| ==> order[i] != order[j])
    && (forall k :: 0 <= k <= |order| ==> Closed(log, Ran(order, k)))
  }

  /** What has run after `k` steps. */
  ghost function Ran(order: seq<nat>, k: nat): set<nat>
    requires k <= |order|
  {
    set i | 0 <= i < k :: order[i]
  }

  /** `p` has run in every execution by the time `q` has. */
  ghost predicate Ordered(log: seq<Entry>, p: nat, q: nat) {
    forall ran :: Closed(log, ran) && q in ran ==> p in ran
  }

  lemma OrderedByEdge(log: seq<Entry>, p: nat, q: nat)
    requires p < |log| && q < |log| && (p == q || After(log, p, q))
    ensures Ordered(log, p, q)
  {
  }

  lemma OrderedTransitive(log: seq<Entry>, p: nat, q: nat, r: nat)
    requires Ordered(log, p, q) && Ordered(log, q, r)
    ensures Ordered(log, p, r)
  {
  }

  /** Entries of one stream run in order. */
  lemma InStreamOrder(log: seq<Entry>, p: nat, q: nat)
    requires p <= q < |log| && log[p].stream == log[q].stream
    ensures Ordered(log, p, q)
  {
    OrderedByEdge(log, p, q);
  }

  /** From an entry through a record and a wait for it to an entry behind the wait. */
  lemma ThroughEvent(log: seq<Entry>, p: nat, record: nat, await: nat, q: nat)
    requires p <= record < await <= q < |log|
    requires log[p].stream == log[record].stream && log[await].stream == log[q].stream
    requires log[await] == Await(log[q].stream, record)
    ensures Ordered(log, p, q)
  {
    InStreamOrder(log, p, record);
    OrderedByEdge(log, record, await);
    InStreamOrder(log, await, q);
    OrderedTransitive(log, p, record, await);
    OrderedTransitive(log, p, await, q);
  }

  /** Ordered entries run in that order. */
  lemma RunsBefore(log: seq<Entry>, order: seq<nat>, p: nat, q: nat) returns (i: nat, j: nat)
    requires Execution(log, order) && p < |log| && q < |log| && p != q && Ordered(log, p, q)
    ensures i < j < |order| && order[i] == p && order[j] == q
  {
    assert q in order;
    j :| 0 <= j < |order| && order[j] == q;
    assert q in Ran(order, j + 1);
    assert p in Ran(order, j + 1);
    i :| 0 <= i < j + 1 && order[i] == p;
  }

  /** What may have run so far: no entry twice, and none too early. */
  ghost predicate Partial(log: seq<Entry>, order: seq<nat>) {
    && (forall i :: 0 <= i < |order| ==> order[i] < |log|)
    && (forall i, j :: 0 <= i < j < |order| ==> order[i] != order[j])
    && (forall k :: 0 <= k <= |order| ==> Closed(log, Ran(order, k)))
  }

  /** The first entry that hasn't run. */
  lemma {:induction false} FirstMissing(order: seq<nat>, n: nat) returns (q: nat)
    ensures q <= n && (forall p: nat :: p < q ==> p in order) && (q < n ==> q !in order)
  {
    q := 0;
    if n > 0 {
      q := FirstMissing(order, n - 1);
      if q == n - 1 && q in order {
        q := n;
      }
    }
  }

  lemma RanMore(order: seq<nat>, next: nat, k: nat)
    requires k <= |order| + 1
    ensures Ran(order + [next], k) == if k <= |order| then Ran(order, k) else Ran(order, |order|) + {next}
  {
    var more := order + [next];
    forall q: nat ensures q in Ran(more, k) <==> q in if k <= |order| then Ran(order, k)
        else Ran(order, |order|) + {next} {
      if i :| 0 <= i < |order| && i < k && order[i] == q {
        assert more[i] == q;
      }
      if k == |order| + 1 && q == next {
        assert more[|order|] == q;
      }
    }
  }

  /** The first entry that hasn't run waits for nothing but entries that have. */
  lemma StepPossible(log: seq<Entry>, order: seq<nat>, next: nat)
    requires Partial(log, order) && next < |log| && next !in order && forall p: nat :: p < next ==> p in order
    ensures Partial(log, order + [next])
  {
    hide Ran;
    var more := order + [next];
    forall k | 0 <= k <= |more| ensures Closed(log, Ran(more, k)) {
      RanMore(order, next, k);
      AllRan(order);
    }
  }

  lemma AllRan(order: seq<nat>)
    ensures forall q: nat :: q in Ran(order, |order|) <==> q in order
  {
    forall q: nat ensures q in Ran(order, |order|) <==> q in order {
      if q in order {
        var i :| 0 <= i < |order| && order[i] == q;
      }
    }
  }

  /** Nothing can deadlock: whatever has run so far, in whatever order, the rest can run. */
  lemma {:induction false} CanFinish(log: seq<Entry>, order: seq<nat>) returns (rest: seq<nat>)
    requires Partial(log, order)
    ensures Execution(log, order + rest)
    decreases |log| - |order|
  {
    hide Closed, Ran;
    O.Room(order, |log|);
    var next := FirstMissing(order, |log|);
    if next == |log| {
      rest := [];
      assert order + rest == order;
    } else {
      StepPossible(log, order, next);
      O.Room(order + [next], |log|);
      var later := CanFinish(log, order + [next]);
      rest := [next] + later;
      assert order + rest == order + [next] + later;
    }
  }

  /** The work of an execution, in the order it ran. */
  function Work(log: seq<Entry>, order: seq<nat>): seq<Op>
    requires forall i :: 0 <= i < |order| ==> order[i] < |log|
  {
    if order == [] then []
    else
      var e := log[order[|order| - 1]];
      Work(log, order[..|order| - 1]) + if e.Do? then [e.op] else []
  }

  /** Each piece of work is queued once. */
  ghost predicate WorkOnce(log: seq<Entry>) {
    forall p, q :: 0 <= p < q < |log| && log[p].Do? && log[q].Do? ==> log[p].op != log[q].op
  }

  ghost predicate CameFrom(log: seq<Entry>, order: seq<nat>, x: Op)
    requires forall i :: 0 <= i < |order| ==> order[i] < |log|
  {
    exists i :: 0 <= i < |order| && log[order[i]].Do? && log[order[i]].op == x
  }

  lemma CameFromLast(log: seq<Entry>, order: seq<nat>, q: nat, x: Op)
    requires (forall i :: 0 <= i < |order| ==> order[i] < |log|) && q < |log|
    ensures CameFrom(log, order + [q], x) <==> CameFrom(log, order, x) || (log[q].Do? && log[q].op == x)
  {
    var all := order + [q];
    if i :| 0 <= i < |order| && log[order[i]].Do? && log[order[i]].op == x {
      assert all[i] == order[i];
    } else if log[q].Do? && log[q].op == x {
      assert all[|order|] == q;
    }
  }

  /** Where the work of a stretch of an execution comes from. */
  lemma {:induction false} WorkFrom(log: seq<Entry>, order: seq<nat>)
    requires forall i :: 0 <= i < |order| ==> order[i] < |log|
    requires WorkOnce(log) && forall i, j :: 0 <= i < j < |order| ==> order[i] != order[j]
    ensures forall x :: x in Work(log, order) <==> CameFrom(log, order, x)
    ensures Distinct(Work(log, order))
  {
    if order != [] {
      var before, q := order[..|order| - 1], order[|order| - 1];
      WorkFrom(log, before);
      assert order == before + [q];
      forall x ensures x in Work(log, order) <==> CameFrom(log, order, x) {
        CameFromLast(log, before, q, x);
      }
      if log[q].Do? && log[q].op in Work(log, before) {
        assert CameFrom(log, before, log[q].op);
      }
    }
  }

  /** Work that runs earlier comes earlier. */
  lemma {:induction false} WorkInOrder(log: seq<Entry>, order: seq<nat>, i: nat, j: nat)
    requires forall k :: 0 <= k < |order| ==> order[k] < |log|
    requires i < j < |order| && log[order[i]].Do? && log[order[j]].Do?
    ensures Precedes(Work(log, order), log[order[i]].op, log[order[j]].op)
  {
    var before, q := order[..|order| - 1], order[|order| - 1];
    var w := Work(log, before);
    assert Work(log, order) == w + if log[q].Do? then [log[q].op] else [];
    if j < |before| {
      WorkInOrder(log, before, i, j);
      var k, l :| 0 <= k < l < |w| && w[k] == log[order[i]].op && w[l] == log[order[j]].op;
      assert Work(log, order)[k] == w[k] && Work(log, order)[l] == w[l];
    } else {
      WorkHas(log, before, i);
      var k :| 0 <= k < |w| && w[k] == log[before[i]].op;
      assert Work(log, order)[k] == w[k] && Work(log, order)[|w|] == log[order[j]].op;
    }
  }

  lemma {:induction false} WorkHas(log: seq<Entry>, order: seq<nat>, i: nat)
    requires forall k :: 0 <= k < |order| ==> order[k] < |log|
    requires i < |order| && log[order[i]].Do?
    ensures log[order[i]].op in Work(log, order)
  {
    if i < |order| - 1 {
      WorkHas(log, order[..|order| - 1], i);
    }
  }

  ghost predicate IsQueued(log: seq<Entry>, x: Op) {
    exists p :: 0 <= p < |log| && log[p].Do? && log[p].op == x
  }

  /** A queue is safe for a reference order of its work if that order lists the work once
      and every conflicting pair, taken in the reference order, is ordered by the streams
      and events. */
  ghost predicate SafeFor(log: seq<Entry>, reference: seq<Op>) {
    && WorkOnce(log) && Distinct(reference)
    && (forall x :: x in reference <==> IsQueued(log, x))
    && (forall p: nat, q: nat | p < |log| && q < |log| && log[p].Do? && log[q].Do?
          && Conflict(log[p].op, log[q].op) && Precedes(reference, log[p].op, log[q].op) :: Ordered(log, p, q))
  }

  /** Every execution of a safe queue leaves the memory that its reference order leaves. */
  lemma ExecutionsAgree<V>(f: Effect<V>, log: seq<Entry>, order: seq<nat>, reference: seq<Op>, m: Mem<V>)
    requires SafeFor(log, reference) && Execution(log, order)
    requires forall i :: 0 <= i < |order| ==> order[i] < |log|
    ensures Distinct(Work(log, order)) && forall x :: x in Work(log, order) <==> x in reference
    ensures Exec(f, Work(log, order), m) == Exec(f, reference, m)
  {
    var work := Work(log, order);
    WorkFrom(log, order);
    forall x ensures x in work <==> x in reference {
      QueuedRuns(log, order, x);
    }
    forall x, y | Conflict(x, y) && Precedes(reference, x, y) ensures Precedes(work, x, y) {
      OrderKept(log, order, reference, x, y);
    }
    SameEffect(f, reference, work, m);
  }

  lemma QueuedRuns(log: seq<Entry>, order: seq<nat>, x: Op)
    requires Execution(log, order) && forall i :: 0 <= i < |order| ==> order[i] < |log|
    ensures CameFrom(log, order, x) <==> IsQueued(log, x)
  {
    if p :| 0 <= p < |log| && log[p].Do? && log[p].op == x {
      assert p in order;
    }
  }

  lemma OrderKept(log: seq<Entry>, order: seq<nat>, reference: seq<Op>, x: Op, y: Op)
    requires SafeFor(log, reference) && Execution(log, order)
    requires forall i :: 0 <= i < |order| ==> order[i] < |log|
    requires Conflict(x, y) && Precedes(reference, x, y)
    ensures Precedes(Work(log, order), x, y)
  {
    assert x in reference && y in reference && x != y;
    assert IsQueued(log, x) && IsQueued(log, y);
    var p :| 0 <= p < |log| && log[p].Do? && log[p].op == x;
    var q :| 0 <= q < |log| && log[q].Do? && log[q].op == y;
    assert Ordered(log, p, q);
    var i, j := RunsBefore(log, order, p, q);
    WorkInOrder(log, order, i, j);
  }
}
