/** Balancing loads over the partitions of several hosts: each load, largest first, to the least
    loaded host and then to its least loaded partition, around loads whose partition is fixed. */
module HostBalance {
  import opened Balancing
  import opened Orders

  /** A load; `key` is its stable key's place in the order of keys. */
  datatype Item = Item(primary: nat, secondary: nat, key: nat)

  datatype Fixed = Free | At(partition: nat)

  // ----- Keys

  predicate Less(a: (nat, nat, nat, nat), b: (nat, nat, nat, nat)) {
    a.0 < b.0 || (a.0 == b.0 && (a.1 < b.1 || (a.1 == b.1 && (a.2 < b.2 || (a.2 == b.2 && a.3 < b.3)))))
  }

  /** The place of `i` in the order 0, 2, 4, ..., 1, 3, ... */
  function EvenFirst(i: nat, count: nat): nat {
    if i % 2 == 0 then i / 2 else (count + 1) / 2 + i / 2
  }

  /** These places are those of 0, ..., count - 1 with all even numbers first, and in order otherwise. */
  lemma EvenFirstOnce(i: nat, j: nat, count: nat)
    requires i < count && j < count
    ensures EvenFirst(i, count) < count
    ensures EvenFirst(i, count) < EvenFirst(j, count) <==> i % 2 < j % 2 || (i % 2 == j % 2 && i < j)
  {
  }

  /** The one of least key. */
  method LeastKey(keys: seq<(nat, nat, nat, nat)>, among: seq<nat>) returns (best: nat)
    requires among != [] && forall i :: 0 <= i < |among| ==> among[i] < |keys|
    ensures best in among && forall x :: x in among ==> !Less(keys[x], keys[best])
  {
    best := among[0];
    for i := 1 to |among|
      invariant best in among && forall j :: 0 <= j < i ==> !Less(keys[among[j]], keys[best])
    {
      if Less(keys[among[i]], keys[best]) {
        best := among[i];
      }
    }
  }

  /** Larger primary first, then larger secondary, then by key; equal ones keep their order. */
  predicate ItemBefore(items: seq<Item>, i: nat, j: nat) {
    i < |items| && j < |items|
    && (items[i].primary > items[j].primary
        || (items[i].primary == items[j].primary
            && (items[i].secondary > items[j].secondary
                || (items[i].secondary == items[j].secondary
                    && (items[i].key < items[j].key || (items[i].key == items[j].key && i < j))))))
  }

  function ByItem(items: seq<Item>, ids: seq<nat>): (nat, nat) -> bool {
    (i: nat, j: nat) => i < |ids| && j < |ids| && ItemBefore(items, ids[i], ids[j])
  }

  // ----- Hosts

  /** Each host, numbered from 0, has partitions. */
  predicate HostsOk(hosts: seq<nat>, numHosts: nat) {
    && (forall q :: 0 <= q < |hosts| ==> hosts[q] < numHosts)
    && (forall h: nat :: h < numHosts ==> h in hosts)
  }

  function Members(hosts: seq<nat>, h: nat, n: nat): (members: seq<nat>)
    requires n <= |hosts|
    ensures forall i :: 0 <= i < |members| ==> members[i] < n && hosts[members[i]] == h
    ensures forall q: nat :: q < n && hosts[q] == h ==> q in members
    ensures forall i, j :: 0 <= i < j < |members| ==> members[i] < members[j]
  {
    if n == 0 then [] else Members(hosts, h, n - 1) + if hosts[n - 1] == h then [n - 1] else []
  }

  function HostInitial(initial: seq<nat>, hosts: seq<nat>, h: nat, n: nat): nat
    requires n <= |initial| == |hosts|
  {
    if n == 0 then 0 else HostInitial(initial, hosts, h, n - 1) + if hosts[n - 1] == h then initial[n - 1] else 0
  }

  /** A partition's place among those of its host, even ones first. */
  function Position(hosts: seq<nat>, q: nat): nat
    requires q < |hosts|
  {
    EvenFirst(|Members(hosts, hosts[q], q)|, |Members(hosts, hosts[q], |hosts|)|)
  }

  // ----- Runs

  /** The loads in the order in which they were assigned, with their partitions and hosts. */
  datatype Run = Run(primaries: seq<nat>, secondaries: seq<nat>, partitions: seq<nat>, hosts: seq<nat>)

  predicate RunOk(run: Run) {
    |run.primaries| == |run.secondaries| == |run.partitions| == |run.hosts|
  }

  function Size(run: Run): nat {
    |run.primaries|
  }

  function Then(run: Run, item: Item, q: nat, h: nat): Run {
    Run(run.primaries + [item.primary], run.secondaries + [item.secondary], run.partitions + [q], run.hosts + [h])
  }

  function PartKey(run: Run, initial: seq<nat>, hosts: seq<nat>, k: nat, q: nat): (nat, nat, nat, nat)
    requires RunOk(run) && k <= Size(run) && q < |initial| == |hosts|
  {
    (Load(run.primaries, run.partitions, q, k), Load(run.secondaries, run.partitions, q, k),
     initial[q] + Load(run.primaries, run.partitions, q, k), Position(hosts, q))
  }

  function HostKey(run: Run, initial: seq<nat>, hosts: seq<nat>, numHosts: nat, k: nat, h: nat): (nat, nat, nat, nat)
    requires RunOk(run) && k <= Size(run) && |initial| == |hosts|
  {
    (Load(run.primaries, run.hosts, h, k), Load(run.secondaries, run.hosts, h, k),
     HostInitial(initial, hosts, h, |hosts|) + Load(run.primaries, run.hosts, h, k), EvenFirst(h, numHosts))
  }

  /** The `k`-th load went to the host of least key, and to its partition of least key. */
  predicate PickOk(run: Run, initial: seq<nat>, hosts: seq<nat>, numHosts: nat, k: nat)
    requires RunOk(run) && k < Size(run) && |initial| == |hosts|
  {
    && run.partitions[k] < |hosts| && run.hosts[k] == hosts[run.partitions[k]] < numHosts
    && (forall h: nat | h < numHosts ::
          !Less(HostKey(run, initial, hosts, numHosts, k, h), HostKey(run, initial, hosts, numHosts, k, run.hosts[k])))
    && (forall q: nat | q < |hosts| && hosts[q] == run.hosts[k] ::
          !Less(PartKey(run, initial, hosts, k, q), PartKey(run, initial, hosts, k, run.partitions[k])))
  }

  /** Appending to a run adds to one partition and one host, and leaves what was before. */
  lemma LoadThen(w: seq<nat>, a: seq<nat>, x: nat, y: nat, r: nat)
    requires |w| == |a|
    ensures Load(w + [x], a + [y], r, |w| + 1) == Load(w, a, r, |w|) + if y == r then x else 0
    ensures forall k: nat :: k <= |w| ==> Load(w + [x], a + [y], r, k) == Load(w, a, r, k)
  {
    forall k: nat | k <= |w| ensures Load(w + [x], a + [y], r, k) == Load(w, a, r, k) {
      SameLoads(w + [x], a + [y], w, a, r, k);
    }
    LoadStep(w + [x], a + [y], r, |w| + 1);
  }

  lemma PickStays(run: Run, initial: seq<nat>, hosts: seq<nat>, numHosts: nat, k: nat, item: Item, q: nat, h: nat)
    requires RunOk(run) && k < Size(run) && |initial| == |hosts| && PickOk(run, initial, hosts, numHosts, k)
    ensures PickOk(Then(run, item, q, h), initial, hosts, numHosts, k)
  {
    hide Load, Position, HostInitial;
    var next := Then(run, item, q, h);
    forall r: nat
      ensures Load(next.primaries, next.partitions, r, k) == Load(run.primaries, run.partitions, r, k)
      ensures Load(next.secondaries, next.partitions, r, k) == Load(run.secondaries, run.partitions, r, k)
      ensures Load(next.primaries, next.hosts, r, k) == Load(run.primaries, run.hosts, r, k)
      ensures Load(next.secondaries, next.hosts, r, k) == Load(run.secondaries, run.hosts, r, k)
    {
      LoadThen(run.primaries, run.partitions, item.primary, q, r);
      LoadThen(run.secondaries, run.partitions, item.secondary, q, r);
      LoadThen(run.primaries, run.hosts, item.primary, h, r);
      LoadThen(run.secondaries, run.hosts, item.secondary, h, r);
    }
    SameKeys(run, next, initial, hosts, numHosts, k);
  }

  lemma SameKeys(run: Run, next: Run, initial: seq<nat>, hosts: seq<nat>, numHosts: nat, k: nat)
    requires RunOk(run) && RunOk(next) && k < Size(run) && Size(run) <= Size(next) && |initial| == |hosts|
    requires forall r: nat ::
               && Load(next.primaries, next.partitions, r, k) == Load(run.primaries, run.partitions, r, k)
               && Load(next.secondaries, next.partitions, r, k) == Load(run.secondaries, run.partitions, r, k)
               && Load(next.primaries, next.hosts, r, k) == Load(run.primaries, run.hosts, r, k)
               && Load(next.secondaries, next.hosts, r, k) == Load(run.secondaries, run.hosts, r, k)
    ensures forall h: nat :: HostKey(next, initial, hosts, numHosts, k, h)
             == HostKey(run, initial, hosts, numHosts, k, h)
    ensures forall q: nat :: q < |hosts| ==> PartKey(next, initial, hosts, k, q) == PartKey(run, initial, hosts, k, q)
  {
    hide Load, Position, HostInitial;
  }

  // ----- The tallies

  /** Running loads by partition and by host. */
  datatype Tallies = Tallies(primary: seq<nat>, secondary: seq<nat>, cumulative: seq<nat>,
                             hostPrimary: seq<nat>, hostSecondary: seq<nat>, hostCumulative: seq<nat>)

  predicate Sized(t: Tallies, n: nat, numHosts: nat) {
    && |t.primary| == |t.secondary| == |t.cumulative| == n
    && |t.hostPrimary| == |t.hostSecondary| == |t.hostCumulative| == numHosts
  }

  /** The tallies are those of the run so far. */
  predicate Tallied(t: Tallies, run: Run, initial: seq<nat>, hosts: seq<nat>, numHosts: nat)
    requires RunOk(run) && |initial| == |hosts|
  {
    && Sized(t, |hosts|, numHosts)
    && (forall q: nat | q < |hosts| :: (t.primary[q], t.secondary[q], t.cumulative[q], Position(hosts, q))
         == PartKey(run, initial, hosts, Size(run), q))
    && (forall h: nat | h < numHosts ::
          (t.hostPrimary[h], t.hostSecondary[h], t.hostCumulative[h], EvenFirst(h, numHosts))
              == HostKey(run, initial, hosts, numHosts, Size(run), h))
  }

  /** Gives a load to a partition. */
  method Assign(t: Tallies, item: Item, q: nat, hosts: seq<nat>, ghost run: Run, ghost initial: seq<nat>, numHosts: nat)
      returns (u: Tallies)
    requires RunOk(run) && |initial| == |hosts| && q < |hosts| && hosts[q] < numHosts
    requires Tallied(t, run, initial, hosts, numHosts)
    ensures Tallied(u, Then(run, item, q, hosts[q]), initial, hosts, numHosts)
  {
    hide Load, Position, HostInitial;
    var h := hosts[q];
    u := Tallies(t.primary[q := t.primary[q] + item.primary], t.secondary[q := t.secondary[q] + item.secondary],
                 t.cumulative[q := t.cumulative[q] + item.primary],
                 t.hostPrimary[h := t.hostPrimary[h] + item.primary],
                     t.hostSecondary[h := t.hostSecondary[h] + item.secondary],
                 t.hostCumulative[h := t.hostCumulative[h] + item.primary]);
    ghost var next := Then(run, item, q, h);
    forall r: nat
      ensures Load(next.primaries, next.partitions, r, Size(next)) == Load(run.primaries, run.partitions, r, Size(run))
          + if q == r then item.primary else 0
      ensures Load(next.secondaries, next.partitions, r, Size(next)) == Load(run.secondaries, run.partitions, r,
          Size(run)) + if q == r then item.secondary else 0
      ensures Load(next.primaries, next.hosts, r, Size(next)) == Load(run.primaries, run.hosts, r, Size(run)) + if h
          == r then item.primary else 0
      ensures Load(next.secondaries, next.hosts, r, Size(next)) == Load(run.secondaries, run.hosts, r, Size(run)) + if h
          == r then item.secondary else 0
    {
      LoadThen(run.primaries, run.partitions, item.primary, q, r);
      LoadThen(run.secondaries, run.partitions, item.secondary, q, r);
      LoadThen(run.primaries, run.hosts, item.primary, h, r);
      LoadThen(run.secondaries, run.hosts, item.secondary, h, r);
    }
  }

  /** Picks the host of least key, and its partition of least key. */
  method Choose(t: Tallies, hosts: seq<nat>, numHosts: nat, ghost run: Run, ghost initial: seq<nat>, ghost item: Item)
      returns (q: nat)
    requires RunOk(run) && |initial| == |hosts| && numHosts > 0 && HostsOk(hosts, numHosts)
    requires Tallied(t, run, initial, hosts, numHosts)
    ensures q < |hosts| && hosts[q] < numHosts
    ensures PickOk(Then(run, item, q, hosts[q]), initial, hosts, numHosts, Size(run))
  {
    hide Load, Position, HostInitial, EvenFirst;
    var hostKeys := seq(numHosts, h requires 0 <= h < numHosts =>
        (t.hostPrimary[h], t.hostSecondary[h], t.hostCumulative[h], EvenFirst(h, numHosts)));
    var all := seq(numHosts, h requires 0 <= h < numHosts => h);
    var host := LeastKey(hostKeys, all);
    forall h: nat | h < numHosts ensures !Less(hostKeys[h], hostKeys[host]) {
      assert all[h] == h;
    }
    var keys := seq(|hosts|, p requires 0 <= p < |hosts| =>
        (t.primary[p], t.secondary[p], t.cumulative[p], Position(hosts, p)));
    var members := Members(hosts, host, |hosts|);
    assert host in hosts;
    var some: nat :| some < |hosts| && hosts[some] == host;
    assert some in members;
    forall i | 0 <= i < |members| ensures members[i] < |keys| {
      assert members[i] in members;
    }
    q := LeastKey(keys, members);
    assert hosts[q] == host;
    KeysApart(t, hosts, numHosts, hostKeys, keys, q);
    PickIs(t, run, initial, hosts, numHosts, item, q);
  }

  lemma KeysApart(t: Tallies, hosts: seq<nat>, numHosts: nat, hostKeys: seq<(nat, nat, nat, nat)>,
                  keys: seq<(nat, nat, nat, nat)>, q: nat)
    requires Sized(t, |hosts|, numHosts) && q < |hosts| && hosts[q] < numHosts == |hostKeys| && |keys| == |hosts|
    requires forall h: nat :: h < numHosts
              ==> hostKeys[h] == (t.hostPrimary[h], t.hostSecondary[h], t.hostCumulative[h], EvenFirst(h, numHosts))
    requires forall p: nat :: p < |hosts|
              ==> keys[p] == (t.primary[p], t.secondary[p], t.cumulative[p], Position(hosts, p))
    requires forall h: nat :: h < numHosts ==> !Less(hostKeys[h], hostKeys[hosts[q]])
    requires forall p :: p in Members(hosts, hosts[q], |hosts|) ==> p < |hosts| && !Less(keys[p], keys[q])
    ensures forall h: nat | h < numHosts ::
              !Less((t.hostPrimary[h], t.hostSecondary[h], t.hostCumulative[h], EvenFirst(h, numHosts)),
                    (t.hostPrimary[hosts[q]], t.hostSecondary[hosts[q]], t.hostCumulative[hosts[q]],
                        EvenFirst(hosts[q], numHosts)))
    ensures forall p: nat | p < |hosts| && hosts[p] == hosts[q] ::
              !Less((t.primary[p], t.secondary[p], t.cumulative[p], Position(hosts, p)),
                    (t.primary[q], t.secondary[q], t.cumulative[q], Position(hosts, q)))
  {
    hide Less, Position, EvenFirst;
    forall h: nat | h < numHosts
      ensures !Less((t.hostPrimary[h], t.hostSecondary[h], t.hostCumulative[h], EvenFirst(h, numHosts)),
                    (t.hostPrimary[hosts[q]], t.hostSecondary[hosts[q]], t.hostCumulative[hosts[q]],
                        EvenFirst(hosts[q], numHosts)))
    {
      assert !Less(hostKeys[h], hostKeys[hosts[q]]);
    }
    forall p: nat | p < |hosts| && hosts[p] == hosts[q]
      ensures !Less((t.primary[p], t.secondary[p], t.cumulative[p], Position(hosts, p)),
                    (t.primary[q], t.secondary[q], t.cumulative[q], Position(hosts, q)))
    {
      assert p in Members(hosts, hosts[q], |hosts|);
      assert !Less(keys[p], keys[q]);
    }
  }

  lemma PickIs(t: Tallies, run: Run, initial: seq<nat>, hosts: seq<nat>, numHosts: nat, item: Item, q: nat)
    requires RunOk(run) && |initial| == |hosts| && Tallied(t, run, initial, hosts, numHosts) && q < |hosts|
    requires hosts[q] < numHosts
    requires forall h: nat | h < numHosts ::
               !Less((t.hostPrimary[h], t.hostSecondary[h], t.hostCumulative[h], EvenFirst(h, numHosts)),
                     (t.hostPrimary[hosts[q]], t.hostSecondary[hosts[q]], t.hostCumulative[hosts[q]],
                         EvenFirst(hosts[q], numHosts)))
    requires forall p: nat | p < |hosts| && hosts[p] == hosts[q] ::
               !Less((t.primary[p], t.secondary[p], t.cumulative[p], Position(hosts, p)),
                     (t.primary[q], t.secondary[q], t.cumulative[q], Position(hosts, q)))
    ensures PickOk(Then(run, item, q, hosts[q]), initial, hosts, numHosts, Size(run))
  {
    hide Load, Position, HostInitial, EvenFirst, Less;
    var k, next := Size(run), Then(run, item, q, hosts[q]);
    forall r: nat
      ensures Load(next.primaries, next.partitions, r, k) == Load(run.primaries, run.partitions, r, k)
      ensures Load(next.secondaries, next.partitions, r, k) == Load(run.secondaries, run.partitions, r, k)
      ensures Load(next.primaries, next.hosts, r, k) == Load(run.primaries, run.hosts, r, k)
      ensures Load(next.secondaries, next.hosts, r, k) == Load(run.secondaries, run.hosts, r, k)
    {
      LoadThen(run.primaries, run.partitions, item.primary, q, r);
      LoadThen(run.secondaries, run.partitions, item.secondary, q, r);
      LoadThen(run.primaries, run.hosts, item.primary, hosts[q], r);
      LoadThen(run.secondaries, run.hosts, item.secondary, hosts[q], r);
    }
    forall h: nat ensures HostKey(next, initial, hosts, numHosts, k, h)
        == HostKey(run, initial, hosts, numHosts, k, h) {
    }
    forall p: nat | p < |hosts| ensures PartKey(next, initial, hosts, k, p) == PartKey(run, initial, hosts, k, p) {
    }
  }

  // ----- The whole balancing

  /** The run has assigned the loads of `done`, in that order. */
  predicate Follows(items: seq<Item>, assignments: seq<nat>, hosts: seq<nat>, done: seq<nat>, run: Run) {
    && RunOk(run) && |done| == Size(run) && |assignments| == |items|
    && (forall j, k :: 0 <= j < k < |done| ==> done[j] != done[k])
    && forall k :: 0 <= k < |done| ==>
         && done[k] < |items|
         && run.primaries[k] == items[done[k]].primary && run.secondaries[k] == items[done[k]].secondary
         && run.partitions[k] == assignments[done[k]] < |hosts| && run.hosts[k] == hosts[assignments[done[k]]]
  }

  lemma FollowsNext(items: seq<Item>, assignments: seq<nat>, hosts: seq<nat>, done: seq<nat>, run: Run, i: nat, q: nat)
    requires Follows(items, assignments, hosts, done, run) && i < |items| && i !in done && q < |hosts|
    ensures Follows(items, assignments[i := q], hosts, done + [i], Then(run, items[i], q, hosts[q]))
  {
    assert forall k :: 0 <= k < |done| ==> done[k] in done;
  }

  predicate Picks(run: Run, initial: seq<nat>, hosts: seq<nat>, numHosts: nat, first: nat)
    requires RunOk(run) && |initial| == |hosts|
  {
    forall k: nat | first <= k < Size(run) :: PickOk(run, initial, hosts, numHosts, k)
  }

  lemma PicksNext(run: Run, initial: seq<nat>, hosts: seq<nat>, numHosts: nat, first: nat, item: Item, q: nat)
    requires RunOk(run) && |initial| == |hosts| && q < |hosts| && Picks(run, initial, hosts, numHosts, first)
    requires PickOk(Then(run, item, q, hosts[q]), initial, hosts, numHosts, Size(run))
    ensures Picks(Then(run, item, q, hosts[q]), initial, hosts, numHosts, first)
  {
    hide PickOk;
    forall k: nat | first <= k < Size(run) ensures PickOk(Then(run, item, q, hosts[q]), initial, hosts, numHosts, k) {
      PickStays(run, initial, hosts, numHosts, k, item, q, hosts[q]);
    }
  }

  lemma NoLoad(r: nat)
    ensures Load([], [], r, 0) == 0
  {
  }

  method Start(initial: seq<nat>, hosts: seq<nat>, numHosts: nat) returns (t: Tallies)
    requires |initial| == |hosts|
    ensures Tallied(t, Run([], [], [], []), initial, hosts, numHosts)
  {
    hide Load, Position, HostInitial, EvenFirst;
    forall r: nat ensures Load([], [], r, 0) == 0 {
      NoLoad(r);
    }
    var sums := seq(numHosts, h requires 0 <= h < numHosts => HostInitial(initial, hosts, h, |hosts|));
    t := Tallies(seq(|hosts|, _ => 0), seq(|hosts|, _ => 0), initial, seq(numHosts, _ => 0),
        seq(numHosts, _ => 0), sums);
  }

  predicate FixedOk(fixed: seq<Fixed>, n: nat, partitions: nat) {
    |fixed| == n && forall i :: 0 <= i < n && fixed[i].At? ==> fixed[i].partition < partitions
  }

  /** The loads without a fixed partition. */
  function FreeOnes(fixed: seq<Fixed>, n: nat): (ids: seq<nat>)
    requires n <= |fixed|
    ensures forall i: nat :: i in ids <==> i < n && fixed[i].Free?
    ensures forall k :: 0 <= k < |ids| ==> ids[k] < n
    ensures forall j, k :: 0 <= j < k < |ids| ==> ids[j] < ids[k]
  {
    if n == 0 then [] else FreeOnes(fixed, n - 1) + if fixed[n - 1].Free? then [n - 1] else []
  }

  /** Fixed loads first, in their order, then the others, sorted. */
  predicate InTurn(items: seq<Item>, fixed: seq<Fixed>, order: seq<nat>, first: nat)
    requires |fixed| == |items|
  {
    && IsOrder(order, |items|) && first <= |order|
    && (forall k :: 0 <= k < first ==> fixed[order[k]].At?)
    && (forall k :: first <= k < |order| ==> fixed[order[k]].Free?)
    && (forall j, k :: first <= j < k < |order| ==> ItemBefore(items, order[j], order[k]))
  }

  method Balance(items: seq<Item>, initial: seq<nat>, hosts: seq<nat>, numHosts: nat, fixed: seq<Fixed>)
    returns (assignments: seq<nat>, cumulative: seq<nat>, ghost order: seq<nat>, ghost first: nat, ghost run: Run)
    requires |initial| == |hosts| && numHosts > 0 && HostsOk(hosts, numHosts) && FixedOk(fixed, |items|, |hosts|)
    ensures InTurn(items, fixed, order, first) && Follows(items, assignments, hosts, order, run)
    ensures forall i :: 0 <= i < |items| && fixed[i].At? ==> assignments[i] == fixed[i].partition
    ensures Picks(run, initial, hosts, numHosts, first)
    ensures |cumulative| == |hosts|
    ensures forall q: nat :: q < |hosts| ==>
              cumulative[q] == initial[q] + Load(run.primaries, run.partitions, q, |items|)
  {
    hide Tallied, PickOk, Load, Position, HostInitial, ItemBefore, Sorted, Follows, InOrder, FreeOnes;
    run := Run([], [], [], []);
    order := [];
    assignments := seq(|items|, _ => 0);
    var t := Start(initial, hosts, numHosts);
    FollowsNothing(items, assignments, hosts);
    for i := 0 to |items|
      invariant RunOk(run) && |order| == Size(run) && |assignments| == |items|
      invariant Follows(items, assignments, hosts, order, run) && Tallied(t, run, initial, hosts, numHosts)
      invariant forall j: nat :: j in order <==> j < i && fixed[j].At?
      invariant forall j :: 0 <= j < i && fixed[j].At? ==> assignments[j] == fixed[j].partition
    {
      if fixed[i].At? {
        var q := fixed[i].partition;
        t := Assign(t, items[i], q, hosts, run, initial, numHosts);
        FollowsNext(items, assignments, hosts, order, run, i, q);
        assignments := assignments[i := q];
        run := Then(run, items[i], q, hosts[q]);
        order := order + [i];
      }
    }
    first := |order|;
    ghost var fixedOrder := order;
    var free := FreeOnes(fixed, |items|);
    var sorted := SortFree(items, free);
    for k := 0 to |sorted|
      invariant RunOk(run) && |order| == Size(run) && |assignments| == |items|
      invariant Follows(items, assignments, hosts, order, run) && Tallied(t, run, initial, hosts, numHosts)
      invariant order == fixedOrder + InOrder(sorted, free)[..k]
      invariant forall i :: 0 <= i < |items| && fixed[i].At? ==> assignments[i] == fixed[i].partition
      invariant Picks(run, initial, hosts, numHosts, first)
    {
      var i := free[sorted[k]];
      FreshLoad(fixed, fixedOrder, free, sorted, k);
      var q := Choose(t, hosts, numHosts, run, initial, items[i]);
      PicksNext(run, initial, hosts, numHosts, first, items[i], q);
      t := Assign(t, items[i], q, hosts, run, initial, numHosts);
      FollowsNext(items, assignments, hosts, order, run, i, q);
      assignments := assignments[i := q];
      run := Then(run, items[i], q, hosts[q]);
      order := order + [i];
      assert InOrder(sorted, free)[..k + 1] == InOrder(sorted, free)[..k] + [i];
    }
    FollowsShape(items, assignments, hosts, order, run);
    assert InOrder(sorted, free)[..|sorted|] == InOrder(sorted, free);
    TurnsIn(items, fixed, fixedOrder, free, sorted);
    cumulative := t.cumulative;
    CumulativeIs(t, run, initial, hosts, numHosts);
  }

  lemma FollowsNothing(items: seq<Item>, assignments: seq<nat>, hosts: seq<nat>)
    requires |assignments| == |items|
    ensures Follows(items, assignments, hosts, [], Run([], [], [], []))
  {
  }

  lemma FollowsShape(items: seq<Item>, assignments: seq<nat>, hosts: seq<nat>, done: seq<nat>, run: Run)
    requires Follows(items, assignments, hosts, done, run)
    ensures RunOk(run) && |done| == Size(run) && |assignments| == |items| && Unrepeated(done)
  {
  }

  method SortFree(items: seq<Item>, free: seq<nat>) returns (sorted: seq<nat>)
    requires forall i :: 0 <= i < |free| ==> free[i] < |items|
    requires forall j, k :: 0 <= j < k < |free| ==> free[j] < free[k]
    ensures IsOrder(sorted, |free|) && Sorted(ByItem(items, free), sorted)
  {
    sorted := SortNumbers(|free|, ByItem(items, free));
  }

  lemma FreshLoad(fixed: seq<Fixed>, fixedOrder: seq<nat>, free: seq<nat>, sorted: seq<nat>, k: nat)
    requires IsOrder(sorted, |free|) && k < |sorted| && free == FreeOnes(fixed, |fixed|)
    requires forall j: nat :: j in fixedOrder <==> j < |fixed| && fixed[j].At?
    ensures free[sorted[k]] < |fixed| && free[sorted[k]] !in fixedOrder + InOrder(sorted, free)[..k]
  {
    var i := free[sorted[k]];
    assert i in free;
    forall j | 0 <= j < k ensures InOrder(sorted, free)[j] != i {
      if sorted[j] < sorted[k] {
        assert free[sorted[j]] < free[sorted[k]];
      } else {
        assert free[sorted[k]] < free[sorted[j]];
      }
    }
  }

  lemma TurnsIn(items: seq<Item>, fixed: seq<Fixed>, fixedOrder: seq<nat>, free: seq<nat>, sorted: seq<nat>)
    requires |fixed| == |items| && free == FreeOnes(fixed, |fixed|)
    requires IsOrder(sorted, |free|) && Sorted(ByItem(items, free), sorted)
    requires forall j: nat :: j in fixedOrder <==> j < |fixed| && fixed[j].At?
    requires Unrepeated(fixedOrder + InOrder(sorted, free))
    ensures InTurn(items, fixed, fixedOrder + InOrder(sorted, free), |fixedOrder|)
  {
    hide Sorted, ItemBefore, FreeOnes;
    var order := fixedOrder + InOrder(sorted, free);
    KindsInTurn(fixed, fixedOrder, free, sorted);
    forall j, k | |fixedOrder| <= j < k < |order| ensures ItemBefore(items, order[j], order[k]) {
      FreeSorted(items, free, sorted, j - |fixedOrder|, k - |fixedOrder|);
    }
    hide Unrepeated;
    Room(order, |items|);
    forall i: nat | i < |items| ensures i in order {
      AllTaken(fixed, fixedOrder, free, sorted, i);
    }
    AllIn(order, |items|);
  }

  lemma KindsInTurn(fixed: seq<Fixed>, fixedOrder: seq<nat>, free: seq<nat>, sorted: seq<nat>)
    requires free == FreeOnes(fixed, |fixed|) && IsOrder(sorted, |free|)
    requires forall j: nat :: j in fixedOrder <==> j < |fixed| && fixed[j].At?
    ensures var order := fixedOrder + InOrder(sorted, free);
            forall k :: 0 <= k < |order| ==> order[k] < |fixed| && (fixed[order[k]].At? <==> k < |fixedOrder|)
  {
    hide FreeOnes;
    var order := fixedOrder + InOrder(sorted, free);
    forall k | 0 <= k < |order| ensures order[k] < |fixed| && (fixed[order[k]].At? <==> k < |fixedOrder|) {
      if k < |fixedOrder| {
        assert order[k] in fixedOrder;
      } else {
        assert order[k] == free[sorted[k - |fixedOrder|]];
        assert order[k] in free;
      }
    }
  }

  predicate Unrepeated(order: seq<nat>) {
    forall j, k :: 0 <= j < k < |order| ==> order[j] != order[k]
  }

  lemma FreeSorted(items: seq<Item>, free: seq<nat>, sorted: seq<nat>, j: nat, k: nat)
    requires IsOrder(sorted, |free|) && Sorted(ByItem(items, free), sorted) && j < k < |sorted|
    ensures ItemBefore(items, free[sorted[j]], free[sorted[k]])
  {
    hide ItemBefore;
    assert ByItem(items, free)(sorted[j], sorted[k]);
  }

  lemma AllTaken(fixed: seq<Fixed>, fixedOrder: seq<nat>, free: seq<nat>, sorted: seq<nat>, i: nat)
    requires i < |fixed| && free == FreeOnes(fixed, |fixed|) && IsOrder(sorted, |free|)
    requires forall j: nat :: j in fixedOrder <==> j < |fixed| && fixed[j].At?
    ensures i in fixedOrder + InOrder(sorted, free)
  {
    if fixed[i].Free? {
      assert i in free;
      var x :| 0 <= x < |free| && free[x] == i;
      var y := PlaceOf(sorted, |free|, x);
      assert InOrder(sorted, free)[y] == i;
    }
  }

  /** A list that has every number below `n` is at least that long. */
  lemma {:induction false} AllIn(order: seq<nat>, n: nat)
    requires forall i: nat :: i < n ==> i in order
    ensures |order| >= n
  {
    if n > 0 {
      assert n - 1 in order;
      var k :| 0 <= k < |order| && order[k] == n - 1;
      var rest := Without(order, k);
      forall i: nat | i < n - 1 ensures i in rest {
        assert i in order;
        var j :| 0 <= j < |order| && order[j] == i;
        assert rest[if j < k then j else j - 1] == i;
      }
      AllIn(rest, n - 1);
    }
  }

  lemma CumulativeIs(t: Tallies, run: Run, initial: seq<nat>, hosts: seq<nat>, numHosts: nat)
    requires RunOk(run) && |initial| == |hosts| && Tallied(t, run, initial, hosts, numHosts)
    ensures |t.cumulative| == |hosts|
    ensures forall q: nat :: q < |hosts|
             ==> t.cumulative[q] == initial[q] + Load(run.primaries, run.partitions, q, Size(run))
  {
    hide Load, Position, HostInitial;
  }

  // ----- What it gives

  /** With no fixed loads, hosts' loads of one call differ by no more than the largest. */
  lemma HostsEven(run: Run, initial: seq<nat>, hosts: seq<nat>, numHosts: nat, x: nat, y: nat, largest: nat)
    requires RunOk(run) && |initial| == |hosts| && Picks(run, initial, hosts, numHosts, 0) && x < numHosts
    requires y < numHosts
    requires forall k :: 0 <= k < Size(run) ==> run.primaries[k] <= largest
    ensures Load(run.primaries, run.hosts, x, Size(run)) <= Load(run.primaries, run.hosts, y, Size(run)) + largest
  {
    hide Load, Position, HostInitial, EvenFirst;
    var members := {x, y};
    forall k: nat | k < Size(run) && run.hosts[k] in members ensures LeastAmong(run.primaries, run.hosts, members, k) {
      assert PickOk(run, initial, hosts, numHosts, k);
      forall h | h in members ensures Load(run.primaries, run.hosts, run.hosts[k], k)
          <= Load(run.primaries, run.hosts, h, k) {
        assert !Less(HostKey(run, initial, hosts, numHosts, k, h),
            HostKey(run, initial, hosts, numHosts, k, run.hosts[k]));
      }
    }
    GreedyIsEven(run.primaries, run.hosts, members, Size(run), x, y, largest);
  }

  /** And so do those of the partitions of one host. */
  lemma PartitionsEven(run: Run, initial: seq<nat>, hosts: seq<nat>, numHosts: nat, p: nat, q: nat, largest: nat)
    requires RunOk(run) && |initial| == |hosts| && Picks(run, initial, hosts, numHosts, 0)
    requires p < |hosts| && q < |hosts| && hosts[p] == hosts[q]
    requires forall k :: 0 <= k < Size(run) ==> run.primaries[k] <= largest
    ensures Load(run.primaries, run.partitions, p, Size(run)) <= Load(run.primaries, run.partitions, q, Size(run))
        + largest
  {
    hide Load, Position, HostInitial, EvenFirst;
    var members := {p, q};
    forall k: nat | k < Size(run) && run.partitions[k] in members
        ensures LeastAmong(run.primaries, run.partitions, members, k) {
      assert PickOk(run, initial, hosts, numHosts, k);
      forall r | r in members ensures Load(run.primaries, run.partitions, run.partitions[k], k)
          <= Load(run.primaries, run.partitions, r, k) {
        assert !Less(PartKey(run, initial, hosts, k, r), PartKey(run, initial, hosts, k, run.partitions[k]));
      }
    }
    GreedyIsEven(run.primaries, run.partitions, members, Size(run), p, q, largest);
  }

  /** No load is lost or counted twice: a partition's load is that of the loads assigned to it, and
      all partitions together have all of them. */
  lemma LoadConserved(items: seq<Item>, assignments: seq<nat>, hosts: seq<nat>, order: seq<nat>, run: Run)
    requires Follows(items, assignments, hosts, order, run) && IsOrder(order, |items|)
    ensures forall q: nat :: Load(run.primaries, run.partitions, q, |items|)
             == Load(Primaries(items), assignments, q, |items|)
    ensures LoadsOver(Primaries(items), assignments, |hosts|, |items|) == Total(Primaries(items), |items|)
  {
    hide Load, LoadsOver;
    assert run.primaries == InOrder(order, Primaries(items)) && run.partitions == InOrder(order, assignments);
    forall q: nat ensures Load(run.primaries, run.partitions, q, |items|)
        == Load(Primaries(items), assignments, q, |items|) {
      OrderedLoads(Primaries(items), assignments, order, |items|, q);
    }
    forall i: nat | i < |items| ensures assignments[i] < |hosts| {
      var k := PlaceOf(order, |items|, i);
      assert run.partitions[k] == assignments[order[k]];
    }
    LoadsTotal(Primaries(items), assignments, |hosts|, |items|);
  }

  function Primaries(items: seq<Item>): (w: seq<nat>)
    ensures |w| == |items| && forall i :: 0 <= i < |items| ==> w[i] == items[i].primary
  {
    seq(|items|, i requires 0 <= i < |items| => items[i].primary)
  }
}
