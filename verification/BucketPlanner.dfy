/** Balancing groups of matrices and of equal blocks over ranks, one group after the other on top of
    the loads so far. */
module BucketPlanner {
  import opened Arithmetic
  import opened Basics
  import opened Balancing
  import opened Orders
  import opened OwnerAssignment

  /** No two ranks' loads differ by more than that. */
  predicate EvenWithin(loads: seq<nat>, d: nat) {
    forall r, q :: 0 <= r < |loads| && 0 <= q < |loads| ==> loads[r] <= loads[q] + d
  }

  function Loads(w: seq<nat>, a: seq<nat>, m: nat): (loads: seq<nat>)
    requires |w| == |a|
    ensures |loads| == m && forall r :: 0 <= r < m ==> loads[r] == Load(w, a, r, |w|)
  {
    seq(m, r requires 0 <= r < m => Load(w, a, r, |w|))
  }

  function Added(loads: seq<nat>, more: seq<nat>): (sum: seq<nat>)
    requires |loads| == |more|
    ensures |sum| == |loads| && forall r :: 0 <= r < |loads| ==> sum[r] == loads[r] + more[r]
  {
    seq(|loads|, r requires 0 <= r < |loads| => loads[r] + more[r])
  }

  /** Whoever gets more had no more before. */
  predicate Opposed(loads: seq<nat>, more: seq<nat>)
    requires |loads| == |more|
  {
    forall r, q :: 0 <= r < |loads| && 0 <= q < |loads| && more[r] > more[q] ==> loads[r] <= loads[q]
  }

  /** Even loads, given out the other way round than the loads so far, stay as even. */
  lemma OpposedStaysEven(loads: seq<nat>, more: seq<nat>, d: nat)
    requires |loads| == |more| && Opposed(loads, more) && EvenWithin(loads, d) && EvenWithin(more, d)
    ensures EvenWithin(Added(loads, more), d)
  {
  }

  // ----- Whole matrices

  /** Least loaded first; equal ones keep their order. */
  function ByLoad(w: seq<nat>): (nat, nat) -> bool {
    (i: nat, j: nat) => i < |w| && j < |w| && (w[i] < w[j] || (w[i] == w[j] && i < j))
  }

  /** The rank of each slot: the heaviest slot's is the least loaded one. */
  ghost predicate Paired(slotLoads: seq<nat>, loads: seq<nat>, heavy: seq<nat>, light: seq<nat>, rankOf: seq<nat>) {
    && |slotLoads| == |loads| == |rankOf| && IsOrder(heavy, |loads|) && IsOrder(light, |loads|)
    && SortedBy(slotLoads, heavy) && Sorted(ByLoad(loads), light)
    && forall i :: 0 <= i < |loads| ==> rankOf[heavy[i]] == light[i]
  }

  method PairSlots(slotLoads: seq<nat>, loads: seq<nat>)
      returns (rankOf: seq<nat>, ghost heavy: seq<nat>, ghost light: seq<nat>)
    requires |slotLoads| == |loads|
    ensures Paired(slotLoads, loads, heavy, light, rankOf)
  {
    hide Sorted, SortedBy;
    var heaviest := LargestFirstOrder(slotLoads);
    var lightest := SortNumbers(|loads|, ByLoad(loads));
    heavy, light := heaviest, lightest;
    rankOf := seq(|loads|, _ => 0);
    for i := 0 to |loads|
      invariant |rankOf| == |loads| && forall j :: 0 <= j < i ==> rankOf[heaviest[j]] == lightest[j]
    {
      rankOf := rankOf[heaviest[i] := lightest[i]];
    }
  }

  /** Pairing is one-to-one, and gives the heavier slot to the rank with the smaller load. */
  lemma PairedIs(slotLoads: seq<nat>, loads: seq<nat>, heavy: seq<nat>, light: seq<nat>, rankOf: seq<nat>)
    requires Paired(slotLoads, loads, heavy, light, rankOf)
    ensures |rankOf| == |loads| && IsOrder(rankOf, |loads|)
    ensures forall s :: 0 <= s < |loads| ==> rankOf[s] < |loads|
    ensures forall s, t :: 0 <= s < t < |loads| ==> rankOf[s] != rankOf[t]
    ensures forall s, t :: 0 <= s < |loads| && 0 <= t < |loads| && slotLoads[s] > slotLoads[t]
             ==> loads[rankOf[s]] <= loads[rankOf[t]]
  {
    forall s: nat, t: nat | s < |loads| && t < |loads| && s != t
      ensures rankOf[s] < |loads| && rankOf[t] < |loads| && rankOf[s] != rankOf[t]
      ensures slotLoads[s] > slotLoads[t] ==> loads[rankOf[s]] <= loads[rankOf[t]]
    {
      var i := PlaceOf(heavy, |loads|, s);
      var j := PlaceOf(heavy, |loads|, t);
      if i < j {
        assert Sooner(slotLoads, heavy[i], heavy[j]) && ByLoad(loads)(light[i], light[j]);
      } else {
        assert Sooner(slotLoads, heavy[j], heavy[i]) && ByLoad(loads)(light[j], light[i]);
      }
    }
    forall s: nat | s < |loads| ensures rankOf[s] < |loads| {
      var i := PlaceOf(heavy, |loads|, s);
    }
  }

  function Renamed(slots: seq<nat>, rankOf: seq<nat>): (owners: seq<nat>)
    requires forall i :: 0 <= i < |slots| ==> slots[i] < |rankOf|
    ensures |owners| == |slots| && forall i :: 0 <= i < |slots| ==> owners[i] == rankOf[slots[i]]
  {
    seq(|slots|, i requires 0 <= i < |slots| => rankOf[slots[i]])
  }

  /** What a slot has, its rank gets. */
  lemma {:induction false} RenamedLoad(w: seq<nat>, slots: seq<nat>, rankOf: seq<nat>, s: nat, n: nat)
    requires |w| == |slots| && n <= |w| && s < |rankOf| && forall i :: 0 <= i < |slots| ==> slots[i] < |rankOf|
    requires forall x, y :: 0 <= x < y < |rankOf| ==> rankOf[x] != rankOf[y]
    ensures Load(w, Renamed(slots, rankOf), rankOf[s], n) == Load(w, slots, s, n)
  {
    if n > 0 {
      RenamedLoad(w, slots, rankOf, s, n - 1);
    }
  }

  /** A group's matrices: into slots, largest first to the least loaded slot, and then the heaviest
      slot to the least loaded rank. The loads given out are even and near the best, and loads that
      differ by no more than the largest matrix stay so. */
  method AssignMatrices(sizes: seq<nat>, loads: seq<nat>) returns (owners: seq<nat>, after: seq<nat>)
    requires |loads| > 0
    ensures |owners| == |sizes| && forall i :: 0 <= i < |sizes| ==> owners[i] < |loads|
    ensures after == Added(loads, Loads(sizes, owners, |loads|)) && Opposed(loads, Loads(sizes, owners, |loads|))
    ensures forall best: seq<nat>, cap: nat, r: nat | |best| == |sizes| && Within(sizes, best, |loads|, |sizes|, cap)
        && r < |loads| ::
              3 * |loads| * Load(sizes, owners, r, |sizes|) <= (4 * |loads| - 1) * cap
    ensures forall d: nat | SizesWithin(sizes, d) :: EvenWithin(Loads(sizes, owners, |loads|), d)
    ensures forall d: nat | SizesWithin(sizes, d) && EvenWithin(loads, d) :: EvenWithin(after, d)
  {
    hide Load, Loads, Within, Paired, EvenWithin, SortedBy, Opposed, Slotted, OneToOne, Renamed;
    var m := |loads|;
    var slots, order := AssignParamsToRanks(sizes, Zeros(m));
    AreSlotted(sizes, m, slots, order);
    SlotsBelow(sizes, m, slots, order);
    var slotLoads := Loads(sizes, slots, m);
    var rankOf, heavy, light := PairSlots(slotLoads, loads);
    PairedIs(slotLoads, loads, heavy, light, rankOf);
    owners := Renamed(slots, rankOf);
    AreOneToOne(sizes, m, slots, owners, rankOf);
    var more := seq(m, _ => 0);
    for s := 0 to m
      invariant |more| == m && forall t :: 0 <= t < s ==> more[rankOf[t]] == slotLoads[t]
    {
      more := more[rankOf[s] := slotLoads[s]];
    }
    after := Added(loads, more);
    RankLoads(sizes, m, slots, owners, rankOf, more);
    MoreOpposed(loads, slotLoads, rankOf, more);
    NearBest(sizes, m, slots, order, owners, rankOf);
    GivenEvenly(sizes, m, slots, order, owners, rankOf);
    forall d: nat | SizesWithin(sizes, d) && EvenWithin(loads, d) ensures EvenWithin(after, d) {
      OpposedStaysEven(loads, more, d);
    }
  }

  predicate SizesWithin(sizes: seq<nat>, d: nat) {
    forall i :: 0 <= i < |sizes| ==> sizes[i] <= d
  }

  lemma AreSlotted(sizes: seq<nat>, m: nat, slots: seq<nat>, order: seq<nat>)
    requires |slots| == |sizes| && IsOrder(order, |sizes|) && SortedBy(sizes, order)
    requires forall k: nat :: k < |order|
              ==> FirstLeast(CarriedLoads(Zeros(m), InOrder(order, sizes), InOrder(order, slots), k), slots[order[k]])
    ensures Slotted(sizes, m, slots, order)
  {
  }

  lemma AreOneToOne(sizes: seq<nat>, m: nat, slots: seq<nat>, owners: seq<nat>, rankOf: seq<nat>)
    requires |rankOf| == m && |slots| == |sizes| && (forall i :: 0 <= i < |slots| ==> slots[i] < m)
    requires (forall s :: 0 <= s < m ==> rankOf[s] < m) && (forall s, t :: 0 <= s < t < m ==> rankOf[s] != rankOf[t])
    requires owners == Renamed(slots, rankOf)
    ensures OneToOne(sizes, m, slots, owners, rankOf) && forall i :: 0 <= i < |owners| ==> owners[i] < m
  {
  }

  lemma RankLoads(sizes: seq<nat>, m: nat, slots: seq<nat>, owners: seq<nat>, rankOf: seq<nat>, more: seq<nat>)
    requires OneToOne(sizes, m, slots, owners, rankOf) && |more| == m
    requires forall t :: 0 <= t < m ==> more[rankOf[t]] == Loads(sizes, slots, m)[t]
    ensures |owners| == |sizes| && more == Loads(sizes, owners, m)
  {
    hide Load;
    forall r: nat | r < m ensures more[r] == Load(sizes, owners, r, |sizes|) {
      var s := PlaceOf(rankOf, m, r);
      RenamedLoad(sizes, slots, rankOf, s, |sizes|);
    }
  }

  lemma MoreOpposed(loads: seq<nat>, slotLoads: seq<nat>, rankOf: seq<nat>, more: seq<nat>)
    requires |slotLoads| == |loads| == |more| && IsOrder(rankOf, |loads|)
    requires forall t :: 0 <= t < |loads| ==> more[rankOf[t]] == slotLoads[t]
    requires forall s, t :: 0 <= s < |loads| && 0 <= t < |loads| && slotLoads[s] > slotLoads[t]
              ==> loads[rankOf[s]] <= loads[rankOf[t]]
    ensures Opposed(loads, more)
  {
    forall r: nat, q: nat | r < |loads| && q < |loads| && more[r] > more[q] ensures loads[r] <= loads[q] {
      var s := PlaceOf(rankOf, |loads|, r);
      var t := PlaceOf(rankOf, |loads|, q);
    }
  }

  /** The slots of a group, as `AssignMatrices` makes and pairs them. */
  ghost predicate Slotted(sizes: seq<nat>, m: nat, slots: seq<nat>, order: seq<nat>) {
    && |slots| == |sizes| && IsOrder(order, |sizes|) && SortedBy(sizes, order)
    && forall k: nat :: k < |order|
        ==> FirstLeast(CarriedLoads(Zeros(m), InOrder(order, sizes), InOrder(order, slots), k), slots[order[k]])
  }

  lemma SlotsBelow(sizes: seq<nat>, m: nat, slots: seq<nat>, order: seq<nat>)
    requires Slotted(sizes, m, slots, order)
    ensures forall i :: 0 <= i < |slots| ==> slots[i] < m
  {
    hide Load, SortedBy;
    forall i: nat | i < |slots| ensures slots[i] < m {
      var k := PlaceOf(order, |sizes|, i);
      assert FirstLeast(CarriedLoads(Zeros(m), InOrder(order, sizes), InOrder(order, slots), k), slots[order[k]]);
    }
  }

  ghost predicate OneToOne(sizes: seq<nat>, m: nat, slots: seq<nat>, owners: seq<nat>, rankOf: seq<nat>) {
    && |rankOf| == m && |slots| == |sizes| && (forall i :: 0 <= i < |slots| ==> slots[i] < m)
    && IsOrder(rankOf, m) && owners == Renamed(slots, rankOf)
  }

  lemma NearBest(sizes: seq<nat>, m: nat, slots: seq<nat>, order: seq<nat>, owners: seq<nat>, rankOf: seq<nat>)
    requires m > 0 && Slotted(sizes, m, slots, order) && OneToOne(sizes, m, slots, owners, rankOf)
    ensures forall best: seq<nat>, cap: nat, r: nat | |best| == |sizes|
        && Within(sizes, best, m, |sizes|, cap) && r < m ::
              3 * m * Load(sizes, owners, r, |sizes|) <= (4 * m - 1) * cap
  {
    hide Load, Within, SortedBy;
    forall best: seq<nat>, cap: nat, r: nat | |best| == |sizes| && Within(sizes, best, m, |sizes|, cap) && r < m
      ensures 3 * m * Load(sizes, owners, r, |sizes|) <= (4 * m - 1) * cap
    {
      var s := PlaceOf(rankOf, m, r);
      OwnersNearBest(sizes, m, slots, order, best, cap, s);
      RenamedLoad(sizes, slots, rankOf, s, |sizes|);
    }
  }

  lemma GivenEvenly(sizes: seq<nat>, m: nat, slots: seq<nat>, order: seq<nat>, owners: seq<nat>, rankOf: seq<nat>)
    requires m > 0 && Slotted(sizes, m, slots, order) && OneToOne(sizes, m, slots, owners, rankOf)
    ensures forall d: nat | SizesWithin(sizes, d) :: EvenWithin(Loads(sizes, owners, m), d)
  {
    hide Load, SortedBy;
    forall d: nat | SizesWithin(sizes, d) ensures EvenWithin(Loads(sizes, owners, m), d) {
      forall r: nat, q: nat | r < m && q < m
          ensures Load(sizes, owners, r, |sizes|) <= Load(sizes, owners, q, |sizes|) + d {
        var s := PlaceOf(rankOf, m, r);
        var t := PlaceOf(rankOf, m, q);
        OwnersEven(sizes, m, slots, order, s, t, d);
        RenamedLoad(sizes, slots, rankOf, s, |sizes|);
        RenamedLoad(sizes, slots, rankOf, t, |sizes|);
      }
    }
  }

  // ----- Nothing gets lost

  function TotalOf(loads: seq<nat>): nat {
    Total(loads, |loads|)
  }

  lemma {:induction false} TotalAdded(loads: seq<nat>, more: seq<nat>, n: nat)
    requires n <= |loads| == |more|
    ensures Total(Added(loads, more), n) == Total(loads, n) + Total(more, n)
  {
    if n > 0 {
      TotalAdded(loads, more, n - 1);
    }
  }

  lemma {:induction false} TotalOver(w: seq<nat>, a: seq<nat>, m: nat, n: nat)
    requires |w| == |a| && n <= m
    ensures Total(Loads(w, a, m), n) == LoadsOver(w, a, n, |w|)
  {
    if n > 0 {
      TotalOver(w, a, m, n - 1);
    }
  }

  lemma {:induction false} TotalMore(loads: seq<nat>, r: nat, x: nat, n: nat)
    requires n <= |loads| && r < |loads|
    ensures Total(loads[r := loads[r] + x], n) == Total(loads, n) + if r < n then x else 0
  {
    if n > 0 {
      TotalMore(loads, r, x, n - 1);
    }
  }

  /** The ranks' loads grow by all of the matrices together. */
  lemma MatricesConserved(sizes: seq<nat>, owners: seq<nat>, loads: seq<nat>, after: seq<nat>)
    requires |owners| == |sizes| && (forall i :: 0 <= i < |owners| ==> owners[i] < |loads|)
    requires after == Added(loads, Loads(sizes, owners, |loads|))
    ensures TotalOf(after) == TotalOf(loads) + TotalOf(sizes)
  {
    var m := |loads|;
    TotalAdded(loads, Loads(sizes, owners, m), m);
    TotalOver(sizes, owners, m, m);
    LoadsTotal(sizes, owners, m, |sizes|);
  }

  // ----- Equal blocks

  /** Equal blocks for some of the ranks. */
  datatype Blocks = Blocks(count: nat, numel: nat, ranks: seq<nat>)

  /** A block group has ranks, each once. */
  predicate BlocksOk(b: Blocks, m: nat) {
    && b.ranks != [] && (forall g :: 0 <= g < |b.ranks| ==> b.ranks[g] < m)
    && forall g, h :: 0 <= g < h < |b.ranks| ==> b.ranks[g] != b.ranks[h]
  }

  function AtRanks(loads: seq<nat>, ranks: seq<nat>): (at: seq<nat>)
    requires forall g :: 0 <= g < |ranks| ==> ranks[g] < |loads|
    ensures |at| == |ranks| && forall g :: 0 <= g < |ranks| ==> at[g] == loads[ranks[g]]
  {
    seq(|ranks|, g requires 0 <= g < |ranks| => loads[ranks[g]])
  }

  /** What a block group adds to the loads. */
  ghost predicate BlocksAdded(b: Blocks, loads: seq<nat>, counts: seq<nat>, after: seq<nat>) {
    && BlocksOk(b, |loads|) && |counts| == |b.ranks| && |after| == |loads|
    && (forall g :: 0 <= g < |b.ranks| ==> after[b.ranks[g]] == loads[b.ranks[g]] + counts[g] * b.numel)
    && (forall r :: 0 <= r < |loads| && r !in b.ranks ==> after[r] == loads[r])
  }

  /** A rank that gets a block has no more than any other of the group's ranks and one block. */
  ghost predicate BlocksEven(b: Blocks, counts: seq<nat>, after: seq<nat>) {
    && |counts| == |b.ranks| && BlocksOk(b, |after|)
    && forall g, h :: 0 <= g < |b.ranks| && 0 <= h < |b.ranks| && counts[g] > 0
        ==> after[b.ranks[g]] <= after[b.ranks[h]] + b.numel
  }

  /** The group's first `n` blocks are given out. */
  ghost predicate Given(b: Blocks, loads: seq<nat>, counts: seq<nat>, after: seq<nat>, n: nat) {
    && BlocksAdded(b, loads, counts, after) && BlocksEven(b, counts, after)
    && Sum(counts) == n && TotalOf(after) == TotalOf(loads) + n * b.numel
  }

  lemma GivenIs(b: Blocks, loads: seq<nat>, counts: seq<nat>, after: seq<nat>, n: nat)
    requires Given(b, loads, counts, after, n)
    ensures BlocksOk(b, |after|) && b.ranks != [] && |counts| == |b.ranks| && |after| == |loads|
    ensures forall g :: 0 <= g < |b.ranks| ==> b.ranks[g] < |after|
    ensures Sum(counts) == n && TotalOf(after) == TotalOf(loads) + n * b.numel
  {
  }

  /** Each block to the group's least loaded rank. */
  method AssignBlocks(b: Blocks, loads: seq<nat>) returns (counts: seq<nat>, after: seq<nat>)
    requires BlocksOk(b, |loads|)
    ensures |counts| == |b.ranks| && Sum(counts) == b.count
    ensures |after| == |loads| && TotalOf(after) == TotalOf(loads) + b.count * b.numel
    ensures BlocksAdded(b, loads, counts, after) && BlocksEven(b, counts, after)
  {
    hide BlocksOk, Given, Sum, TotalOf;
    counts, after := seq(|b.ranks|, _ => 0), loads;
    NoBlocks(b, loads, counts);
    for i := 0 to b.count
      invariant Given(b, loads, counts, after, i)
    {
      GivenIs(b, loads, counts, after, i);
      var g := PopLeast(AtRanks(after, b.ranks));
      OneBlock(b, loads, counts, after, g, i);
      counts, after := counts[g := counts[g] + 1], after[b.ranks[g] := after[b.ranks[g]] + b.numel];
    }
    GivenIs(b, loads, counts, after, b.count);
    AllGiven(b, loads, counts, after);
  }

  lemma AllGiven(b: Blocks, loads: seq<nat>, counts: seq<nat>, after: seq<nat>)
    requires Given(b, loads, counts, after, b.count)
    ensures BlocksAdded(b, loads, counts, after) && BlocksEven(b, counts, after)
  {
  }

  lemma NoBlocks(b: Blocks, loads: seq<nat>, counts: seq<nat>)
    requires BlocksOk(b, |loads|) && |counts| == |b.ranks| && forall g :: 0 <= g < |counts| ==> counts[g] == 0
    ensures Given(b, loads, counts, loads, 0)
  {
    SumOfNone(counts);
  }

  lemma {:induction false} SumOfNone(s: seq<nat>)
    requires forall g :: 0 <= g < |s| ==> s[g] == 0
    ensures Sum(s) == 0
  {
    if s != [] {
      SumOfNone(s[..|s| - 1]);
    }
  }

  lemma {:induction false} SumOneMore(s: seq<nat>, g: nat)
    requires g < |s|
    ensures Sum(s[g := s[g] + 1]) == Sum(s) + 1
  {
    var t := s[g := s[g] + 1];
    if g < |s| - 1 {
      assert t[..|s| - 1] == s[..|s| - 1][g := s[g] + 1];
      SumOneMore(s[..|s| - 1], g);
    } else {
      assert t[..|s| - 1] == s[..|s| - 1];
    }
  }

  lemma OneBlock(b: Blocks, loads: seq<nat>, counts: seq<nat>, after: seq<nat>, g: nat, n: nat)
    requires Given(b, loads, counts, after, n) && FirstLeast(AtRanks(after, b.ranks), g)
    ensures Given(b, loads, counts[g := counts[g] + 1], after[b.ranks[g] := after[b.ranks[g]] + b.numel], n + 1)
  {
    hide Sum, TotalOf, BlocksAdded, BlocksEven;
    GivenIs(b, loads, counts, after, n);
    SumOneMore(counts, g);
    OneMore(n, b.numel);
    TotalMore(after, b.ranks[g], b.numel, |after|);
    TotalIs(after);
    TotalIs(after[b.ranks[g] := after[b.ranks[g]] + b.numel]);
    OneAdded(b, loads, counts, after, g);
    OneEven(b, counts, after, g);
  }

  lemma TotalIs(loads: seq<nat>)
    ensures TotalOf(loads) == Total(loads, |loads|)
  {
  }

  lemma OneAdded(b: Blocks, loads: seq<nat>, counts: seq<nat>, after: seq<nat>, g: nat)
    requires BlocksAdded(b, loads, counts, after) && g < |b.ranks|
    ensures BlocksAdded(b, loads, counts[g := counts[g] + 1], after[b.ranks[g] := after[b.ranks[g]] + b.numel])
  {
    OneMore(counts[g], b.numel);
  }

  lemma OneEven(b: Blocks, counts: seq<nat>, after: seq<nat>, g: nat)
    requires BlocksEven(b, counts, after) && FirstLeast(AtRanks(after, b.ranks), g)
    ensures BlocksEven(b, counts[g := counts[g] + 1], after[b.ranks[g] := after[b.ranks[g]] + b.numel])
  {
    var more, next := counts[g := counts[g] + 1], after[b.ranks[g] := after[b.ranks[g]] + b.numel];
    forall x, y | 0 <= x < |b.ranks| && 0 <= y < |b.ranks| && more[x] > 0
        ensures next[b.ranks[x]] <= next[b.ranks[y]] + b.numel {
      assert AtRanks(after, b.ranks)[g] <= AtRanks(after, b.ranks)[y];
      assert x != g ==> after[b.ranks[x]] <= after[b.ranks[y]] + b.numel;
    }
  }

  /** Blocks for all ranks keep loads even. */
  lemma BlocksStayEven(b: Blocks, loads: seq<nat>, counts: seq<nat>, after: seq<nat>, d: nat)
    requires BlocksAdded(b, loads, counts, after) && BlocksEven(b, counts, after) && EvenWithin(loads, d)
    requires b.numel <= d
    requires |b.ranks| == |loads|
    ensures EvenWithin(after, d)
  {
    forall r: nat, q: nat | r < |loads| && q < |loads| ensures after[r] <= after[q] + d {
      hide BlocksEven, EvenWithin;
      var g := PlaceOf(b.ranks, |loads|, r);
      var h := PlaceOf(b.ranks, |loads|, q);
      PairStaysEven(b, loads, counts, after, d, g, h);
    }
  }

  lemma PairStaysEven(b: Blocks, loads: seq<nat>, counts: seq<nat>, after: seq<nat>, d: nat, g: nat, h: nat)
    requires BlocksAdded(b, loads, counts, after) && BlocksEven(b, counts, after) && EvenWithin(loads, d)
    requires b.numel <= d
    requires g < |b.ranks| && h < |b.ranks|
    ensures after[b.ranks[g]] <= after[b.ranks[h]] + d
  {
    NonNegative(counts[h], b.numel);
    if counts[g] == 0 {
      assert after[b.ranks[g]] == loads[b.ranks[g]] <= loads[b.ranks[h]] + d;
    }
  }

  // ----- All groups

  /** Matrices and block groups that are balanced in one step. */
  datatype Group = Group(matrices: seq<nat>, blocks: seq<Blocks>)

  predicate GroupOk(g: Group, m: nat) {
    forall i :: 0 <= i < |g.blocks| ==> BlocksOk(g.blocks[i], m)
  }

  /** The owners of a group's matrices, and the block counts of its block groups. */
  datatype Assigned = Assigned(owners: seq<nat>, counts: seq<seq<nat>>)

  function BlocksTotal(blocks: seq<Blocks>): nat {
    if blocks == [] then 0
    else
      NonNegative(blocks[|blocks| - 1].count, blocks[|blocks| - 1].numel);
      BlocksTotal(blocks[..|blocks| - 1]) + blocks[|blocks| - 1].count * blocks[|blocks| - 1].numel
  }

  lemma BlocksTotalNext(blocks: seq<Blocks>, n: nat)
    requires n < |blocks|
    ensures BlocksTotal(blocks[..n + 1]) == BlocksTotal(blocks[..n]) + blocks[n].count * blocks[n].numel
  {
    assert blocks[..n + 1][..n] == blocks[..n];
  }

  predicate BlocksWithin(blocks: seq<Blocks>, m: nat, d: nat) {
    forall i :: 0 <= i < |blocks| ==> blocks[i].numel <= d && |blocks[i].ranks| == m
  }

  predicate Counted(b: Blocks, counts: seq<nat>) {
    |counts| == |b.ranks| && Sum(counts) == b.count
  }

  predicate AllCounted(blocks: seq<Blocks>, counts: seq<seq<nat>>) {
    |counts| == |blocks| && forall k :: 0 <= k < |blocks| ==> Counted(blocks[k], counts[k])
  }

  /** What the first `n` of a block group's ranks get, as far as they are rank `r`. */
  function GivenBlocks(b: Blocks, counts: seq<nat>, r: nat, n: nat): nat
    requires n <= |b.ranks| == |counts|
  {
    if n == 0 then 0
    else
      NonNegative(counts[n - 1], b.numel);
      GivenBlocks(b, counts, r, n - 1) + if b.ranks[n - 1] == r then counts[n - 1] * b.numel else 0
  }

  /** What rank `r` gets of the first `n` block groups. */
  function GivenAll(blocks: seq<Blocks>, counts: seq<seq<nat>>, r: nat, n: nat): nat
    requires n <= |blocks| && n <= |counts| && forall k :: 0 <= k < n ==> |counts[k]| == |blocks[k].ranks|
  {
    if n == 0 then 0
    else
      GivenAll(blocks, counts, r, n - 1)
      + GivenBlocks(blocks[n - 1], counts[n - 1], r, |blocks[n - 1].ranks|)
  }

  /** The loads with the first `n` block groups. */
  function WithBlocks(loads: seq<nat>, blocks: seq<Blocks>, counts: seq<seq<nat>>, n: nat): (after: seq<nat>)
    requires n <= |blocks| && n <= |counts| && forall k :: 0 <= k < n ==> |counts[k]| == |blocks[k].ranks|
    ensures |after| == |loads|
    ensures forall r :: 0 <= r < |loads| ==> after[r] == loads[r] + GivenAll(blocks, counts, r, n)
  {
    seq(|loads|, r requires 0 <= r < |loads| => loads[r] + GivenAll(blocks, counts, r, n))
  }

  lemma {:induction false} GivenIsAdded(b: Blocks, loads: seq<nat>, counts: seq<nat>, after: seq<nat>, r: nat, n: nat)
    requires BlocksAdded(b, loads, counts, after) && r < |loads| && n <= |b.ranks|
    ensures GivenBlocks(b, counts, r, n) == if r in b.ranks[..n] then after[r] - loads[r] else 0
  {
    if n > 0 {
      GivenIsAdded(b, loads, counts, after, r, n - 1);
      assert b.ranks[..n] == b.ranks[..n - 1] + [b.ranks[n - 1]];
    }
  }

  lemma {:induction false} GivenPrefix(blocks: seq<Blocks>, counts: seq<seq<nat>>, more: seq<seq<nat>>, r: nat, n: nat)
    requires n <= |blocks| && n <= |counts| <= |more| && counts == more[..|counts|]
    requires forall k :: 0 <= k < n ==> |counts[k]| == |blocks[k].ranks|
    ensures GivenAll(blocks, more, r, n) == GivenAll(blocks, counts, r, n)
  {
    hide GivenBlocks;
    if n > 0 {
      GivenPrefix(blocks, counts, more, r, n - 1);
    }
  }

  /** Every block group given out so far was given out evenly, at its turn. */
  ghost predicate BlockTurns(loads: seq<nat>, blocks: seq<Blocks>, counts: seq<seq<nat>>, n: nat) {
    && n == |counts| <= |blocks| && (forall k :: 0 <= k < n ==> Counted(blocks[k], counts[k]))
    && forall k :: 0 <= k < n ==> BlocksEven(blocks[k], counts[k], WithBlocks(loads, blocks, counts, k + 1))
  }

  lemma NextTurn(loads: seq<nat>, blocks: seq<Blocks>, counts: seq<seq<nat>>, n: nat, some: seq<nat>, next: seq<nat>)
    requires BlockTurns(loads, blocks, counts, n) && n < |blocks| && Counted(blocks[n], some)
    requires BlocksAdded(blocks[n], WithBlocks(loads, blocks, counts, n), some, next)
    requires BlocksEven(blocks[n], some, next)
    ensures BlockTurns(loads, blocks, counts + [some], n + 1)
    ensures next == WithBlocks(loads, blocks, counts + [some], n + 1)
  {
    hide BlocksEven, Counted, GivenBlocks;
    LikeCounted(blocks, counts, n);
    CountedLen(blocks[n], some);
    var more := counts + [some];
    var before := WithBlocks(loads, blocks, counts, n);
    forall r: nat | r < |loads| ensures next[r] == loads[r] + GivenAll(blocks, more, r, n + 1) {
      GivenPrefix(blocks, counts, more, r, n);
      GivenIsAdded(blocks[n], before, some, next, r, |blocks[n].ranks|);
      assert blocks[n].ranks[..|blocks[n].ranks|] == blocks[n].ranks;
    }
    assert next == WithBlocks(loads, blocks, more, n + 1);
    forall k | 0 <= k < n ensures BlocksEven(blocks[k], more[k], WithBlocks(loads, blocks, more, k + 1)) {
      SameWithBlocks(loads, blocks, counts, more, k + 1);
    }
  }

  lemma SameWithBlocks(loads: seq<nat>, blocks: seq<Blocks>, counts: seq<seq<nat>>, more: seq<seq<nat>>, n: nat)
    requires n <= |blocks| && n <= |counts| <= |more| && counts == more[..|counts|]
    requires forall k :: 0 <= k < n ==> |counts[k]| == |blocks[k].ranks|
    ensures WithBlocks(loads, blocks, more, n) == WithBlocks(loads, blocks, counts, n)
  {
    forall r: nat | r < |loads| ensures GivenAll(blocks, more, r, n) == GivenAll(blocks, counts, r, n) {
      GivenPrefix(blocks, counts, more, r, n);
    }
  }

  lemma LikeCounted(blocks: seq<Blocks>, counts: seq<seq<nat>>, n: nat)
    requires n <= |counts| && n <= |blocks| && forall k :: 0 <= k < n ==> Counted(blocks[k], counts[k])
    ensures forall k :: 0 <= k < n ==> |counts[k]| == |blocks[k].ranks|
  {
  }

  lemma CountedLen(b: Blocks, counts: seq<nat>)
    requires Counted(b, counts)
    ensures |counts| == |b.ranks|
  {
  }

  method AssignAllBlocks(blocks: seq<Blocks>, loads: seq<nat>) returns (counts: seq<seq<nat>>, after: seq<nat>)
    requires forall i :: 0 <= i < |blocks| ==> BlocksOk(blocks[i], |loads|)
    ensures AllCounted(blocks, counts) && BlockTurns(loads, blocks, counts, |blocks|)
    ensures after == WithBlocks(loads, blocks, counts, |blocks|)
    ensures TotalOf(after) == TotalOf(loads) + BlocksTotal(blocks)
    ensures forall d: nat | EvenWithin(loads, d) && BlocksWithin(blocks, |loads|, d) :: EvenWithin(after, d)
  {
    hide BlocksOk, EvenWithin, BlocksEven, BlocksAdded, BlocksTotal, TotalOf, BlockTurns;
    counts, after := [], loads;
    BlocksTotalNone(blocks);
    NoTurns(loads, blocks);
    for n := 0 to |blocks|
      invariant |counts| == n && forall i :: 0 <= i < n ==> Counted(blocks[i], counts[i])
      invariant BlockTurns(loads, blocks, counts, n) && after == WithBlocks(loads, blocks, counts, n)
      invariant TotalOf(after) == TotalOf(loads) + BlocksTotal(blocks[..n])
      invariant forall d: nat | EvenWithin(loads, d) && BlocksWithin(blocks, |loads|, d) :: EvenWithin(after, d)
    {
      var some, next := AssignBlocks(blocks[n], after);
      BlocksTotalNext(blocks, n);
      NextTurn(loads, blocks, counts, n, some, next);
      forall d: nat | EvenWithin(loads, d) && BlocksWithin(blocks, |loads|, d) ensures EvenWithin(next, d) {
        BlocksStayEven(blocks[n], after, some, next, d);
      }
      counts, after := counts + [some], next;
    }
    assert blocks[..|blocks|] == blocks;
  }

  lemma NoTurns(loads: seq<nat>, blocks: seq<Blocks>)
    ensures BlockTurns(loads, blocks, [], 0) && WithBlocks(loads, blocks, [], 0) == loads
  {
  }

  lemma BlocksTotalNone(blocks: seq<Blocks>)
    ensures BlocksTotal(blocks[..0]) == 0
  {
  }

  function GroupsTotal(groups: seq<Group>): nat {
    if groups == [] then 0
    else
      var last := groups[|groups| - 1];
      GroupsTotal(groups[..|groups| - 1]) + TotalOf(last.matrices) + BlocksTotal(last.blocks)
  }

  lemma GroupsTotalNext(groups: seq<Group>, n: nat)
    requires n < |groups|
    ensures GroupsTotal(groups[..n + 1]) == GroupsTotal(groups[..n]) + TotalOf(groups[n].matrices)
        + BlocksTotal(groups[n].blocks)
    ensures GroupsTotal(groups[..0]) == 0
  {
    assert groups[..n + 1][..n] == groups[..n];
  }

  predicate AllWithin(groups: seq<Group>, m: nat, d: nat) {
    forall i :: 0 <= i < |groups| ==> SizesWithin(groups[i].matrices, d) && BlocksWithin(groups[i].blocks, m, d)
  }

  /** Every matrix has an owner, and all blocks of each block group are given out. */
  predicate AssignedOk(g: Group, a: Assigned, m: nat) {
    && |a.owners| == |g.matrices| && (forall k :: 0 <= k < |a.owners| ==> a.owners[k] < m)
    && AllCounted(g.blocks, a.counts)
  }

  /** What rank `r` gets of a group: its matrices and its blocks. */
  function RankShare(g: Group, a: Assigned, r: nat): nat
    requires |a.owners| == |g.matrices| && AllCounted(g.blocks, a.counts)
  {
    Load(g.matrices, a.owners, r, |g.matrices|) + GivenAll(g.blocks, a.counts, r, |g.blocks|)
  }

  /** What rank `r` gets of the first `n` groups. */
  function RankTotal(groups: seq<Group>, result: seq<Assigned>, m: nat, r: nat, n: nat): nat
    requires n <= |groups| && n <= |result| && forall i :: 0 <= i < n ==> AssignedOk(groups[i], result[i], m)
  {
    if n == 0 then 0
    else
      assert AssignedOk(groups[n - 1], result[n - 1], m);
      RankTotal(groups, result, m, r, n - 1) + RankShare(groups[n - 1], result[n - 1], r)
  }

  /** What all ranks have before group `n`. */
  function LoadsBefore(groups: seq<Group>, result: seq<Assigned>, m: nat, n: nat): (loads: seq<nat>)
    requires n <= |groups| && n <= |result| && forall i :: 0 <= i < n ==> AssignedOk(groups[i], result[i], m)
    ensures |loads| == m && forall r :: 0 <= r < m ==> loads[r] == RankTotal(groups, result, m, r, n)
  {
    seq(m, r requires 0 <= r < m => RankTotal(groups, result, m, r, n))
  }

  /** At its turn, a group's matrices are given out evenly and near the best, the most of them to
      whoever had least, and then its blocks, each to a rank that had least. */
  ghost predicate TurnOk(g: Group, a: Assigned, loads: seq<nat>) {
    && AssignedOk(g, a, |loads|)
    && MatricesOk(g.matrices, a.owners, loads)
    && BlockTurns(Added(loads, Loads(g.matrices, a.owners, |loads|)), g.blocks, a.counts, |g.blocks|)
  }

  ghost predicate MatricesOk(sizes: seq<nat>, owners: seq<nat>, loads: seq<nat>)
    requires |owners| == |sizes|
  {
    && Opposed(loads, Loads(sizes, owners, |loads|))
    && (forall d: nat | SizesWithin(sizes, d) :: EvenWithin(Loads(sizes, owners, |loads|), d))
    && forall best: seq<nat>, cap: nat, r: nat
         | |best| == |sizes| && Within(sizes, best, |loads|, |sizes|, cap) && r < |loads| ::
         3 * |loads| * Load(sizes, owners, r, |sizes|) <= (4 * |loads| - 1) * cap
  }

  lemma {:induction false} TotalPrefix(groups: seq<Group>, result: seq<Assigned>,
                                       more: seq<Assigned>, m: nat, r: nat, n: nat)
    requires n <= |groups| && n <= |result| <= |more| && result == more[..|result|]
    requires forall i :: 0 <= i < n ==> AssignedOk(groups[i], result[i], m)
    ensures RankTotal(groups, more, m, r, n) == RankTotal(groups, result, m, r, n)
  {
    hide AssignedOk, RankShare;
    if n > 0 {
      TotalPrefix(groups, result, more, m, r, n - 1);
    }
  }

  /** The groups so far were assigned in turn. */
  ghost predicate InTurns(groups: seq<Group>, result: seq<Assigned>, m: nat, n: nat) {
    && n == |result| <= |groups| && (forall i :: 0 <= i < n ==> AssignedOk(groups[i], result[i], m))
    && forall i :: 0 <= i < n ==> TurnOk(groups[i], result[i], LoadsBefore(groups, result, m, i))
  }

  lemma NextInTurn(groups: seq<Group>, result: seq<Assigned>, m: nat, n: nat, a: Assigned,
                   loads: seq<nat>, next: seq<nat>)
    requires InTurns(groups, result, m, n) && n < |groups| && loads == LoadsBefore(groups, result, m, n)
    requires TurnOk(groups[n], a, loads)
    requires next == WithBlocks(Added(loads, Loads(groups[n].matrices, a.owners, m)), groups[n].blocks, a.counts,
                                |groups[n].blocks|)
    ensures InTurns(groups, result + [a], m, n + 1) && next == LoadsBefore(groups, result + [a], m, n + 1)
  {
    hide BlockTurns, MatricesOk, AllCounted, Load, GivenAll;
    var more := result + [a];
    forall i | 0 <= i < |more| ensures AssignedOk(groups[i], more[i], m) {
    }
    forall i | 0 <= i <= n ensures LoadsBefore(groups, more, m, i) == LoadsBefore(groups, result, m, i) {
      forall r: nat | r < m ensures RankTotal(groups, more, m, r, i) == RankTotal(groups, result, m, r, i) {
        TotalPrefix(groups, result, more, m, r, i);
      }
    }
    assert next == LoadsBefore(groups, more, m, n + 1);
  }

  lemma NoneInTurn(groups: seq<Group>, m: nat)
    ensures InTurns(groups, [], m, 0) && LoadsBefore(groups, [], m, 0) == Zeros(m)
  {
  }

  /** All groups in turn, from zero. When all ranks get blocks, ranks' loads never differ by more
      than the largest matrix or block. */
  method AssignGroups(groups: seq<Group>, m: nat) returns (result: seq<Assigned>, loads: seq<nat>)
    requires m > 0 && forall i :: 0 <= i < |groups| ==> GroupOk(groups[i], m)
    ensures |loads| == m && |result| == |groups|
    ensures forall i :: 0 <= i < |groups| ==> AssignedOk(groups[i], result[i], m)
    ensures forall r :: 0 <= r < m ==> loads[r] == RankTotal(groups, result, m, r, |groups|)
    ensures forall i :: 0 <= i < |groups| ==> TurnOk(groups[i], result[i], LoadsBefore(groups, result, m, i))
    ensures TotalOf(loads) == GroupsTotal(groups)
    ensures forall d: nat | AllWithin(groups, m, d) :: EvenWithin(loads, d)
  {
    hide BlocksOk, Total, BlocksTotal, GroupsTotal, EvenWithin, Opposed, Within, TurnOk,
        InTurns, BlockTurns, AssignedOk;
    result, loads := [], Zeros(m);
    ZerosEven(m);
    NoGroups(groups);
    NoneInTurn(groups, m);
    for n := 0 to |groups|
      invariant |result| == n && forall i :: 0 <= i < n ==> AssignedOk(groups[i], result[i], m)
      invariant InTurns(groups, result, m, n) && loads == LoadsBefore(groups, result, m, n)
      invariant TotalOf(loads) == GroupsTotal(groups[..n])
      invariant forall d: nat | AllWithin(groups, m, d) :: EvenWithin(loads, d)
    {
      var owners, after := AssignMatrices(groups[n].matrices, loads);
      MatricesConserved(groups[n].matrices, owners, loads, after);
      var counts, next := AssignAllBlocks(groups[n].blocks, after);
      GroupsTotalNext(groups, n);
      IsTurn(groups[n], owners, counts, loads);
      NextInTurn(groups, result, m, n, Assigned(owners, counts), loads, next);
      forall d: nat | AllWithin(groups, m, d) ensures EvenWithin(next, d) {
        assert EvenWithin(loads, d) && SizesWithin(groups[n].matrices, d) && BlocksWithin(groups[n].blocks, m, d);
      }
      result, loads := result + [Assigned(owners, counts)], next;
      AllAssigned(groups, result, m, n + 1);
    }
    assert groups[..|groups|] == groups;
    AllInTurn(groups, result, m);
  }

  lemma IsTurn(g: Group, owners: seq<nat>, counts: seq<seq<nat>>, loads: seq<nat>)
    requires |owners| == |g.matrices| && (forall k :: 0 <= k < |owners| ==> owners[k] < |loads|)
    requires AllCounted(g.blocks, counts) && MatricesOk(g.matrices, owners, loads)
    requires BlockTurns(Added(loads, Loads(g.matrices, owners, |loads|)), g.blocks, counts, |g.blocks|)
    ensures TurnOk(g, Assigned(owners, counts), loads)
  {
  }

  lemma AllAssigned(groups: seq<Group>, result: seq<Assigned>, m: nat, n: nat)
    requires InTurns(groups, result, m, n)
    ensures forall i :: 0 <= i < n ==> AssignedOk(groups[i], result[i], m)
  {
  }

  lemma AllInTurn(groups: seq<Group>, result: seq<Assigned>, m: nat)
    requires InTurns(groups, result, m, |groups|)
    ensures forall i :: 0 <= i < |groups| ==> AssignedOk(groups[i], result[i], m)
    ensures forall i :: 0 <= i < |groups| ==> TurnOk(groups[i], result[i], LoadsBefore(groups, result, m, i))
  {
  }

  lemma NoGroups(groups: seq<Group>)
    ensures GroupsTotal(groups[..0]) == 0
  {
  }

  lemma {:induction false} ZeroTotal(m: nat, n: nat)
    requires n <= m
    ensures Total(Zeros(m), n) == 0
  {
    if n > 0 {
      ZeroTotal(m, n - 1);
    }
  }

  lemma ZerosEven(m: nat)
    ensures TotalOf(Zeros(m)) == 0 && forall d: nat :: EvenWithin(Zeros(m), d)
  {
    ZeroTotal(m, m);
  }
}
