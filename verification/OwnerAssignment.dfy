/** Assigning parameters to owners: largest first to the least loaded rank, or to hosts first and
    then to the partitions within them. */
module OwnerAssignment {
  import opened Balancing
  import opened Orders

  /** Which comes first: the larger, and of equal ones the earlier. */
  predicate Sooner(w: seq<nat>, i: nat, j: nat) {
    i < |w| && j < |w| && (w[i] > w[j] || (w[i] == w[j] && i < j))
  }

  /** Largest first; equal ones keep their order. */
  function BySize(w: seq<nat>): (nat, nat) -> bool {
    (i: nat, j: nat) => Sooner(w, i, j)
  }

  predicate SortedBy(w: seq<nat>, order: seq<nat>) {
    Sorted(BySize(w), order)
  }

  method LargestFirstOrder(w: seq<nat>) returns (order: seq<nat>)
    ensures IsOrder(order, |w|) && SortedBy(w, order)
  {
    order := SortNumbers(|w|, BySize(w));
  }

  // ----- To the least loaded rank

  /** Loads on top of those carried over from earlier buckets. */
  function Carried(carried: seq<nat>, p: seq<nat>, g: seq<nat>, r: nat, k: nat): nat
    requires k <= |p| && k <= |g| && r < |carried|
  {
    carried[r] + Load(p, g, r, k)
  }

  /** Of the ranks with the least load, the first. */
  predicate FirstLeast(loads: seq<nat>, r: nat) {
    r < |loads| && forall q :: 0 <= q < |loads| ==> loads[r] < loads[q] || (loads[r] == loads[q] && r <= q)
  }

  function CarriedLoads(carried: seq<nat>, p: seq<nat>, g: seq<nat>, k: nat): (loads: seq<nat>)
    requires k <= |p| && k <= |g|
    ensures |loads| == |carried| && forall r :: 0 <= r < |carried| ==> loads[r] == Carried(carried, p, g, r, k)
  {
    seq(|carried|, r requires 0 <= r < |carried| => Carried(carried, p, g, r, k))
  }

  method PopLeast(loads: seq<nat>) returns (rank: nat)
    requires |loads| > 0
    ensures FirstLeast(loads, rank)
  {
    rank := 0;
    for q := 1 to |loads|
      invariant rank < q && forall x :: 0 <= x < q ==> loads[rank] < loads[x] || (loads[rank] == loads[x] && rank <= x)
    {
      if loads[q] < loads[rank] {
        rank := q;
      }
    }
  }

  /** No rank would have less, with its parameters and what it carried before, if one of them were
      another rank's. */
  predicate EvenFrom(sizes: seq<nat>, carried: seq<nat>, owners: seq<nat>)
    requires |owners| == |sizes|
  {
    forall i, r, q :: 0 <= i < |sizes| && owners[i] == r && r < |carried| && 0 <= q < |carried| ==>
      carried[r] + Load(sizes, owners, r, |sizes|) <= carried[q] + Load(sizes, owners, q, |sizes|) + sizes[i]
  }

  /** Each full parameter, largest first, to the least loaded rank. */
  method AssignParamsToRanks(sizes: seq<nat>, carried: seq<nat>) returns (owners: seq<nat>, ghost order: seq<nat>)
    requires |carried| > 0
    ensures |owners| == |sizes| && IsOrder(order, |sizes|) && SortedBy(sizes, order)
    ensures forall k: nat :: k < |order| ==>
              FirstLeast(CarriedLoads(carried, InOrder(order, sizes), InOrder(order, owners), k), owners[order[k]])
    ensures EvenFrom(sizes, carried, owners)
  {
    hide SortedBy, EvenFrom;
    var sorted := LargestFirstOrder(sizes);
    order := sorted;
    var loads := carried;
    owners := seq(|sizes|, _ => 0);
    for k := 0 to |sorted|
      invariant |owners| == |sizes| && |loads| == |carried|
      invariant loads == CarriedLoads(carried, InOrder(sorted, sizes), InOrder(sorted, owners), k)
      invariant forall j: nat :: j < k ==>
                  FirstLeast(CarriedLoads(carried, InOrder(sorted, sizes), InOrder(sorted, owners), j),
                      owners[sorted[j]])
    {
      var rank := PopLeast(loads);
      AssignNext(carried, sizes, sorted, owners, k, rank);
      owners := owners[sorted[k] := rank];
      loads := loads[rank := loads[rank] + sizes[sorted[k]]];
    }
    CarriedEven(sizes, carried, owners, sorted);
  }

  /** The last job that a machine got. */
  lemma {:induction false} LastOf(p: seq<nat>, g: seq<nat>, k: nat, n: nat) returns (j: nat)
    requires k < n <= |p| && n <= |g|
    ensures k <= j < n && g[j] == g[k] && Load(p, g, g[k], n) == Load(p, g, g[k], j) + p[j]
    decreases n
  {
    if g[n - 1] == g[k] {
      j := n - 1;
    } else {
      j := LastOf(p, g, k, n - 1);
    }
  }

  lemma CarriedEven(sizes: seq<nat>, carried: seq<nat>, owners: seq<nat>, order: seq<nat>)
    requires |owners| == |sizes| && IsOrder(order, |sizes|) && SortedBy(sizes, order)
    requires forall k: nat :: k < |order| ==>
               FirstLeast(CarriedLoads(carried, InOrder(order, sizes), InOrder(order, owners), k), owners[order[k]])
    ensures EvenFrom(sizes, carried, owners)
  {
    hide Load, SortedBy, IsOrder, FirstLeast, Sorted;
    OrderIn(order, |sizes|);
    forall i: nat, r: nat, q: nat | i < |sizes| && owners[i] == r && r < |carried| && q < |carried|
      ensures carried[r] + Load(sizes, owners, r, |sizes|) <= carried[q] + Load(sizes, owners, q, |sizes|) + sizes[i]
    {
      var k := PlaceOf(order, |sizes|, i);
      OneEven(sizes, carried, owners, order, k, q);
      OrderedLoads(sizes, owners, order, |sizes|, r);
      OrderedLoads(sizes, owners, order, |sizes|, q);
    }
  }

  lemma OneEven(sizes: seq<nat>, carried: seq<nat>, owners: seq<nat>, order: seq<nat>, k: nat, q: nat)
    requires |owners| == |sizes| && |order| == |sizes| && SortedBy(sizes, order) && k < |order| && q < |carried|
    requires forall i :: 0 <= i < |order| ==> order[i] < |sizes|
    requires forall k: nat :: k < |order| ==>
               FirstLeast(CarriedLoads(carried, InOrder(order, sizes), InOrder(order, owners), k), owners[order[k]])
    requires owners[order[k]] < |carried|
    ensures var p, g := InOrder(order, sizes), InOrder(order, owners);
            carried[g[k]] + Load(p, g, g[k], |order|) <= carried[q] + Load(p, g, q, |order|) + sizes[order[k]]
  {
    hide Load;
    var p, g, n := InOrder(order, sizes), InOrder(order, owners), |order|;
    var j := LastOf(p, g, k, n);
    assert k < j ==> Sooner(sizes, order[k], order[j]);
    var loads := CarriedLoads(carried, p, g, j);
    assert FirstLeast(loads, g[j]);
    assert loads[g[j]] <= loads[q];
    LoadGrows(p, g, q, j, n);
  }

  /** The owner of the `k`-th parameter doesn't matter for the loads up to it. */
  lemma AssignNext(carried: seq<nat>, sizes: seq<nat>, order: seq<nat>, owners: seq<nat>, k: nat, rank: nat)
    requires IsOrder(order, |sizes|) && |owners| == |sizes| && k < |sizes| && rank < |carried|
    ensures var p, before, after := InOrder(order, sizes), InOrder(order, owners),
        InOrder(order, owners[order[k] := rank]);
            && (forall j: nat :: j <= k ==> CarriedLoads(carried, p, after, j) == CarriedLoads(carried, p, before, j))
            && CarriedLoads(carried, p, after, k + 1) ==
               CarriedLoads(carried, p, before, k)[rank := CarriedLoads(carried, p, before, k)[rank] + sizes[order[k]]]
  {
    var p, before, after := InOrder(order, sizes), InOrder(order, owners), InOrder(order, owners[order[k] := rank]);
    forall j: nat, r: nat | j <= k && r < |carried| ensures Load(p, after, r, j) == Load(p, before, r, j) {
      SameLoads(p, after, p, before, r, j);
    }
    forall r: nat | r < |carried| ensures Load(p, after, r, k + 1) == Load(p, before, r, k) + if r
        == rank then sizes[order[k]] else 0 {
      LoadStep(p, after, r, k + 1);
    }
  }

  /** Without loads carried over, the largest load is within `4/3 - 1/(3m)` of that of any other
      assignment. */
  lemma OwnersNearBest(sizes: seq<nat>, m: nat, owners: seq<nat>, order: seq<nat>, best: seq<nat>, cap: nat, r: nat)
    requires m > 0 && |owners| == |sizes| == |best| && IsOrder(order, |sizes|) && SortedBy(sizes, order)
    requires forall k: nat :: k < |order| ==>
               FirstLeast(CarriedLoads(Zeros(m), InOrder(order, sizes), InOrder(order, owners), k), owners[order[k]])
    requires Within(sizes, best, m, |sizes|, cap) && r < m
    ensures 3 * m * Load(sizes, owners, r, |sizes|) <= (4 * m - 1) * cap
  {
    hide Load, IsOrder, Within;
    OrderIn(order, |sizes|);
    var p, g, a := InOrder(order, sizes), InOrder(order, owners), InOrder(order, best);
    OwnersGreedy(sizes, m, owners, order);
    WithinInOrder(sizes, best, m, order, cap);
    LargestFirstBound(p, g, m, a, cap, r);
    OrderedLoads(sizes, owners, order, |sizes|, r);
  }

  function Zeros(m: nat): (z: seq<nat>)
    ensures |z| == m && forall r :: 0 <= r < m ==> z[r] == 0
  {
    seq(m, _ => 0)
  }

  lemma OwnersGreedy(sizes: seq<nat>, m: nat, owners: seq<nat>, order: seq<nat>)
    requires |owners| == |sizes| && IsOrder(order, |sizes|) && SortedBy(sizes, order)
    requires forall k: nat :: k < |order| ==>
               FirstLeast(CarriedLoads(Zeros(m), InOrder(order, sizes), InOrder(order, owners), k), owners[order[k]])
    ensures LargestFirst(InOrder(order, sizes)) && Greedy(InOrder(order, sizes), InOrder(order, owners), m, |sizes|)
  {
    hide Load;
    var p, g := InOrder(order, sizes), InOrder(order, owners);
    forall i, j | 0 <= i < j < |p| ensures p[j] <= p[i] {
      assert Sooner(sizes, order[i], order[j]);
    }
    forall k: nat | k < |order| ensures g[k] < m && Least(p, g, m, k) {
      var loads := CarriedLoads(Zeros(m), p, g, k);
      assert FirstLeast(loads, owners[order[k]]);
      forall r: nat | r < m ensures Load(p, g, g[k], k) <= Load(p, g, r, k) {
        assert loads[g[k]] <= loads[r];
      }
    }
  }

  lemma WithinInOrder(sizes: seq<nat>, best: seq<nat>, m: nat, order: seq<nat>, cap: nat)
    requires |best| == |sizes| && IsOrder(order, |sizes|) && Within(sizes, best, m, |sizes|, cap)
    ensures Within(InOrder(order, sizes), InOrder(order, best), m, |sizes|, cap)
  {
    hide Load;
    forall r: nat | r < m ensures Load(InOrder(order, sizes), InOrder(order, best), r, |sizes|) <= cap {
      OrderedLoads(sizes, best, order, |sizes|, r);
    }
  }

  function Below(m: nat): (s: set<nat>)
    ensures forall r: nat :: r in s <==> r < m
  {
    if m == 0 then {} else Below(m - 1) + {m - 1}
  }

  /** Without loads carried over, ranks' loads differ by no more than the largest parameter. */
  lemma OwnersEven(sizes: seq<nat>, m: nat, owners: seq<nat>, order: seq<nat>, r: nat, q: nat, largest: nat)
    requires |owners| == |sizes| && IsOrder(order, |sizes|) && SortedBy(sizes, order) && r < m && q < m
    requires forall k: nat :: k < |order| ==>
               FirstLeast(CarriedLoads(Zeros(m), InOrder(order, sizes), InOrder(order, owners), k), owners[order[k]])
    requires forall i :: 0 <= i < |sizes| ==> sizes[i] <= largest
    ensures Load(sizes, owners, r, |sizes|) <= Load(sizes, owners, q, |sizes|) + largest
  {
    hide Load, IsOrder;
    OrderIn(order, |sizes|);
    var p, g := InOrder(order, sizes), InOrder(order, owners);
    OwnersGreedy(sizes, m, owners, order);
    var members := Below(m);
    forall j: nat | j < |sizes| && g[j] in members ensures LeastAmong(p, g, members, j) {
      assert Least(p, g, m, j);
    }
    GreedyIsEven(p, g, members, |sizes|, r, q, largest);
    OrderedLoads(sizes, owners, order, |sizes|, r);
    OrderedLoads(sizes, owners, order, |sizes|, q);
  }
}
