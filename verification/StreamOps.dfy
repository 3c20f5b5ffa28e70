/** The work that bucketed redistribution queues on its two streams, what each piece of
    work touches, and when two orders of the same work have the same effect. */
module StreamOps {

  /** Work on bucket `i`, whose exchange buffers are those of slot `s`:
      - `Local`: prepare, compute and finalize a bucket that needs no redistribution;
      - `Prepare`: write the bucket's optimizer inputs and pack them;
      - `ExchangeIn`: the all-to-all from storage to compute;
      - `Rest`: the bucket's items that need no redistribution;
      - `Compute`: unpack, compute and pack again;
      - `ExchangeOut`: the all-to-all back;
      - `Finalize`: unpack and consume the results. */
  datatype Op =
    | Local(i: nat)
    | Prepare(i: nat, s: nat)
    | ExchangeIn(i: nat, s: nat)
    | Rest(i: nat, s: nat)
    | Compute(i: nat, s: nat)
    | ExchangeOut(i: nat, s: nat)
    | Finalize(i: nat, s: nat)

  /** What work touches: a bucket's redistributed and other parameters with their optimizer
      state, a slot's exchange and scratch buffers, and the scratch of local buckets. */
  datatype Resource =
    | Params(i: nat)
    | RestParams(i: nat)
    | StorageExchange(s: nat)
    | ComputeExchange(s: nat)
    | StorageScratch(s: nat)
    | ComputeScratch(s: nat)
    | LocalScratch

  function Reads(op: Op): set<Resource> {
    match op
    case Local(i) => {Params(i)}
    case Prepare(i, _) => {Params(i)}
    case ExchangeIn(_, s) => {StorageExchange(s)}
    case Rest(i, _) => {RestParams(i)}
    case Compute(i, s) => {ComputeExchange(s), Params(i)}
    case ExchangeOut(_, s) => {ComputeExchange(s)}
    case Finalize(i, s) => {StorageExchange(s), Params(i)}
  }

  function Writes(op: Op): set<Resource> {
    match op
    case Local(i) => {Params(i), LocalScratch}
    case Prepare(i, s) => {Params(i), StorageScratch(s), StorageExchange(s)}
    case ExchangeIn(_, s) => {ComputeExchange(s)}
    case Rest(i, s) => {RestParams(i), ComputeScratch(s)}
    case Compute(i, s) => {ComputeScratch(s), ComputeExchange(s), Params(i)}
    case ExchangeOut(_, s) => {StorageExchange(s)}
    case Finalize(i, s) => {StorageScratch(s), Params(i)}
  }

  predicate Conflict(x: Op, y: Op) {
    || Writes(x) * Writes(y) != {}
    || Writes(x) * Reads(y) != {}
    || Reads(x) * Writes(y) != {}
  }

  type Mem<V> = map<Resource, V>

  /** What work leaves in a resource, from what it reads: any deterministic callbacks and
      collectives. */
  type Effect<!V> = (Op, Resource, Mem<V>) -> V

  function Seen<V>(m: Mem<V>, rs: set<Resource>): Mem<V> {
    map r | r in rs && r in m :: m[r]
  }

  function Apply<V>(f: Effect<V>, op: Op, m: Mem<V>): Mem<V> {
    m + map r | r in Writes(op) :: f(op, r, Seen(m, Reads(op)))
  }

  function Exec<V>(f: Effect<V>, ops: seq<Op>, m: Mem<V>): Mem<V> {
    if ops == [] then m else Apply(f, ops[|ops| - 1], Exec(f, ops[..|ops| - 1], m))
  }

  lemma {:induction false} ExecAppend<V>(f: Effect<V>, a: seq<Op>, b: seq<Op>, m: Mem<V>)
    ensures Exec(f, a + b, m) == Exec(f, b, Exec(f, a, m))
  {
    if b == [] {
      assert a + b == a;
    } else {
      assert (a + b)[..|a + b| - 1] == a + b[..|b| - 1];
      ExecAppend(f, a, b[..|b| - 1], m);
    }
  }

  /** Work that doesn't conflict commutes. */
  lemma Commutes<V>(f: Effect<V>, x: Op, y: Op, m: Mem<V>)
    requires !Conflict(x, y)
    ensures Apply(f, x, Apply(f, y, m)) == Apply(f, y, Apply(f, x, m))
  {
    var mx, my := Apply(f, x, m), Apply(f, y, m);
    assert Seen(my, Reads(x)) == Seen(m, Reads(x)) by {
      forall r | r in Reads(x) ensures r !in Writes(y) {
        assert r in Writes(y) ==> r in Reads(x) * Writes(y);
      }
    }
    assert Seen(mx, Reads(y)) == Seen(m, Reads(y)) by {
      forall r | r in Reads(y) ensures r !in Writes(x) {
        assert r in Writes(x) ==> r in Writes(x) * Reads(y);
      }
    }
    forall r | r in Writes(x) ensures r !in Writes(y) {
      assert r in Writes(y) ==> r in Writes(x) * Writes(y);
    }
  }

  /** Work that conflicts with nothing queued after it may as well run last. */
  lemma {:induction false} RunLast<V>(f: Effect<V>, x: Op, later: seq<Op>, m: Mem<V>)
    requires forall i :: 0 <= i < |later| ==> !Conflict(x, later[i])
    ensures Exec(f, later, Apply(f, x, m)) == Apply(f, x, Exec(f, later, m))
  {
    if later != [] {
      var y, before := later[|later| - 1], later[..|later| - 1];
      RunLast(f, x, before, m);
      Commutes(f, x, y, Exec(f, before, m));
    }
  }

  ghost predicate Distinct(ops: seq<Op>) {
    forall i, j :: 0 <= i < j < |ops| ==> ops[i] != ops[j]
  }

  /** `x` comes before `y`. */
  ghost predicate Precedes(ops: seq<Op>, x: Op, y: Op) {
    exists i, j :: 0 <= i < j < |ops| && ops[i] == x && ops[j] == y
  }

  /** The same work, with conflicting pieces in the same order. */
  ghost predicate SameConflictOrder(a: seq<Op>, b: seq<Op>) {
    && Distinct(a) && Distinct(b)
    && (forall x :: x in a <==> x in b)
    && (forall x, y :: Conflict(x, y) && Precedes(a, x, y) ==> Precedes(b, x, y))
  }

  lemma PrecedesOnce(ops: seq<Op>, x: Op, y: Op)
    requires Distinct(ops) && Precedes(ops, x, y)
    ensures !Precedes(ops, y, x)
  {
  }

  /** Taking a piece of work out keeps the order of the others. */
  lemma WithoutOne(ops: seq<Op>, k: nat, rest: seq<Op>)
    requires Distinct(ops) && k < |ops| && rest == ops[..k] + ops[k + 1..]
    ensures Distinct(rest)
    ensures forall x :: x in rest <==> x in ops && x != ops[k]
  {
    assert forall i :: 0 <= i < |rest| ==> rest[i] == ops[if i < k then i else i + 1];
    forall x | x in ops && x != ops[k] ensures x in rest {
      var i :| 0 <= i < |ops| && ops[i] == x;
      assert rest[if i < k then i else i - 1] == x;
    }
  }

  lemma OrderInWhole(ops: seq<Op>, k: nat, rest: seq<Op>, x: Op, y: Op)
    requires Distinct(ops) && k < |ops| && rest == ops[..k] + ops[k + 1..] && Precedes(rest, x, y)
    ensures Precedes(ops, x, y)
  {
    var i, j :| 0 <= i < j < |rest| && rest[i] == x && rest[j] == y;
    var i', j' := if i < k then i else i + 1, if j < k then j else j + 1;
    assert ops[i'] == rest[i] && ops[j'] == rest[j];
  }

  lemma OrderInRest(ops: seq<Op>, k: nat, rest: seq<Op>, x: Op, y: Op)
    requires Distinct(ops) && k < |ops| && rest == ops[..k] + ops[k + 1..] && Precedes(ops, x, y)
    requires x != ops[k] && y != ops[k]
    ensures Precedes(rest, x, y)
  {
    var i, j :| 0 <= i < j < |ops| && ops[i] == x && ops[j] == y;
    var i', j' := if i < k then i else i - 1, if j < k then j else j - 1;
    assert ops[i] == rest[i'] && ops[j] == rest[j'];
  }

  lemma SomeMember(ops: seq<Op>)
    ensures ops != [] ==> exists x :: x in ops
  {
    if ops != [] {
      assert ops[0] in ops;
    }
  }

  lemma SameWithoutOne(a: seq<Op>, b: seq<Op>, i: nat, k: nat, a': seq<Op>, b': seq<Op>)
    requires SameConflictOrder(a, b) && i < |a| && k < |b| && a[i] == b[k]
    requires a' == a[..i] + a[i + 1..] && b' == b[..k] + b[k + 1..]
    ensures SameConflictOrder(a', b')
  {
    WithoutOne(a, i, a');
    WithoutOne(b, k, b');
    forall x, y | Conflict(x, y) && Precedes(a', x, y) ensures Precedes(b', x, y) {
      OrderInWhole(a, i, a', x, y);
      var p, q :| 0 <= p < q < |a'| && a'[p] == x && a'[q] == y;
      assert x in a' && y in a';
      OrderInRest(b, k, b', x, y);
    }
  }

  /** A piece of work that conflicts with nothing after it may be moved to the end. */
  lemma MoveLast<V>(f: Effect<V>, ops: seq<Op>, k: nat, m: Mem<V>)
    requires k < |ops| && forall i :: k < i < |ops| ==> !Conflict(ops[k], ops[i])
    ensures Exec(f, ops, m) == Apply(f, ops[k], Exec(f, ops[..k] + ops[k + 1..], m))
  {
    hide Apply, Conflict;
    var before, after := ops[..k], ops[k + 1..];
    assert ops == before + [ops[k]] + after;
    ExecAppend(f, before + [ops[k]], after, m);
    ExecAppend(f, before, after, m);
    assert (before + [ops[k]])[..k] == before;
    RunLast(f, ops[k], after, Exec(f, before, m));
  }

  /** Two orders of the same work that agree on conflicting pieces leave the same memory,
      whatever the callbacks compute. */
  lemma {:induction false} SameEffect<V>(f: Effect<V>, a: seq<Op>, b: seq<Op>, m: Mem<V>)
    requires SameConflictOrder(a, b)
    ensures Exec(f, a, m) == Exec(f, b, m)
    decreases |a|
  {
    hide Apply, Conflict, Precedes;
    if a == [] {
      SomeMember(b);
    } else {
      var x, a' := a[|a| - 1], a[..|a| - 1];
      assert x in b;
      var k :| 0 <= k < |b| && b[k] == x;
      var b' := b[..k] + b[k + 1..];
      assert a' == a[..|a| - 1] + a[|a| - 1 + 1..];
      SameWithoutOne(a, b, |a| - 1, k, a', b');
      SameEffect(f, a', b', m);
      forall i | k < i < |b| ensures !Conflict(b[k], b[i]) {
        NothingAfter(a, b, k, i - k - 1);
      }
      MoveLast(f, b, k, m);
    }
  }

  lemma NothingAfter(a: seq<Op>, b: seq<Op>, k: nat, i: nat)
    requires SameConflictOrder(a, b) && a != [] && k < |b| && b[k] == a[|a| - 1] && k + 1 + i < |b|
    ensures !Conflict(a[|a| - 1], b[k + 1 + i])
  {
    var x, y := a[|a| - 1], b[k + 1 + i];
    assert Precedes(b, x, y);
    if Conflict(x, y) {
      assert y in a;
      var j :| 0 <= j < |a| && a[j] == y;
      assert Precedes(a, y, x);
      ConflictSymmetric(x, y);
      assert Precedes(b, y, x);
      PrecedesOnce(b, x, y);
    }
  }

  lemma ConflictSymmetric(x: Op, y: Op)
    ensures Conflict(x, y) == Conflict(y, x)
  {
    assert Writes(x) * Writes(y) == Writes(y) * Writes(x);
    assert Writes(x) * Reads(y) == Reads(y) * Writes(x);
    assert Reads(x) * Writes(y) == Writes(y) * Reads(x);
  }
}
