/** Dividing a row of costed units into contiguous parts, one for each rank: the smallest
    capacity that suffices, by binary search over a greedy test, and the cuts at it. */
module UnitPartition {
  import opened Arithmetic

  function Max(s: seq<nat>): nat
    requires s != []
  {
    if |s| == 1 then s[0] else if Max(s[..|s| - 1]) < s[|s| - 1] then s[|s| - 1] else Max(s[..|s| - 1])
  }

  /** The cost of the units from `lo` up to `hi`. */
  function Cost(costs: seq<nat>, lo: nat, hi: nat): nat
    requires hi <= |costs|
  {
    if hi <= lo then 0 else Cost(costs, lo, hi - 1) + costs[hi - 1]
  }

  predicate Cuts(costs: seq<nat>, cuts: seq<nat>) {
    && cuts != [] && cuts[0] == 0 && cuts[|cuts| - 1] == |costs|
    && forall i, j :: 0 <= i <= j < |cuts| ==> cuts[i] <= cuts[j]
  }

  /** Every part is within the capacity. */
  ghost predicate Within(costs: seq<nat>, cuts: seq<nat>, capacity: int)
    requires Cuts(costs, cuts)
  {
    forall p :: 0 <= p < |cuts| - 1 ==> Cost(costs, cuts[p], cuts[p + 1]) <= capacity
  }

  ghost predicate Divides(costs: seq<nat>, cuts: seq<nat>, parts: nat, capacity: int) {
    Cuts(costs, cuts) && |cuts| <= parts + 1 && Within(costs, cuts, capacity)
  }

  /** The units can be divided into at most `parts` contiguous parts within the capacity. */
  ghost predicate Feasible(costs: seq<nat>, parts: nat, capacity: int) {
    exists cuts :: Divides(costs, cuts, parts, capacity)
  }

  /** A part that the greedy cuts would make: within the capacity, unless only its last unit
      costs anything. */
  predicate Fits(costs: seq<nat>, lo: nat, hi: nat, capacity: int)
    requires hi <= |costs|
  {
    lo >= hi || Cost(costs, lo, hi) <= capacity || Cost(costs, lo, hi) == costs[hi - 1]
  }

  ghost predicate AllFit(costs: seq<nat>, cuts: seq<nat>, capacity: int)
    requires Cuts(costs, cuts)
  {
    forall p :: 0 <= p < |cuts| - 1 ==> Fits(costs, cuts[p], cuts[p + 1], capacity)
  }

  /** The units can be cut into at most `parts` contiguous parts that fit. */
  ghost predicate CanCut(costs: seq<nat>, parts: nat, capacity: int) {
    exists cuts :: Cuts(costs, cuts) && |cuts| <= parts + 1 && AllFit(costs, cuts, capacity)
  }

  // ----- Costs

  lemma {:induction false} CostSplit(costs: seq<nat>, lo: nat, mid: nat, hi: nat)
    requires lo <= mid <= hi <= |costs|
    ensures Cost(costs, lo, hi) == Cost(costs, lo, mid) + Cost(costs, mid, hi)
  {
    if mid < hi {
      CostSplit(costs, lo, mid, hi - 1);
    }
  }

  lemma {:induction false} UnitInPart(costs: seq<nat>, lo: nat, i: nat, hi: nat)
    requires lo <= i < hi <= |costs|
    ensures costs[i] <= Cost(costs, lo, hi)
  {
    if i < hi - 1 {
      UnitInPart(costs, lo, i, hi - 1);
    }
  }

  /** Every unit is in a part. */
  lemma {:induction false} PartOf(cuts: seq<nat>, n: nat, i: nat) returns (p: nat)
    requires n < |cuts| && cuts[0] == 0 && i < cuts[n]
    ensures p < n && cuts[p] <= i < cuts[p + 1]
  {
    if cuts[n - 1] <= i {
      p := n - 1;
    } else {
      p := PartOf(cuts, n - 1, i);
    }
  }

  lemma MaxIs(s: seq<nat>)
    requires s != []
    ensures Max(s) in s && forall x :: x in s ==> x <= Max(s)
  {
    if |s| > 1 {
      MaxIs(s[..|s| - 1]);
      assert s == s[..|s| - 1] + [s[|s| - 1]];
    }
  }

  /** No capacity below the largest cost will do. */
  lemma LargestFits(costs: seq<nat>, parts: nat, capacity: int)
    requires Feasible(costs, parts, capacity) && costs != []
    ensures Max(costs) <= capacity
  {
    hide Cost;
    var cuts :| Divides(costs, cuts, parts, capacity);
    MaxIs(costs);
    var i: nat :| i < |costs| && costs[i] == Max(costs);
    var p := PartOf(cuts, |cuts| - 1, i);
    UnitInPart(costs, cuts[p], i, cuts[p + 1]);
  }

  lemma {:induction false} PartsAddUp(costs: seq<nat>, cuts: seq<nat>, capacity: int, p: nat)
    requires Cuts(costs, cuts) && Within(costs, cuts, capacity) && p < |cuts|
    ensures Cost(costs, 0, cuts[p]) <= p * capacity
  {
    hide Cost;
    if p > 0 {
      PartsAddUp(costs, cuts, capacity, p - 1);
      CostSplit(costs, 0, cuts[p - 1], cuts[p]);
      assert Cost(costs, cuts[p - 1], cuts[p - 1 + 1]) <= capacity;
      OneMore(p - 1, capacity);
    } else {
      assert Cost(costs, 0, 0) == 0 by {
        NothingCosts(costs, 0);
      }
    }
  }

  lemma NothingCosts(costs: seq<nat>, i: nat)
    requires i <= |costs|
    ensures Cost(costs, i, i) == 0
  {
  }

  /** Nor will any below the average. */
  lemma AverageFits(costs: seq<nat>, parts: nat, capacity: int)
    requires Feasible(costs, parts, capacity) && costs != []
    ensures Cost(costs, 0, |costs|) <= parts * capacity
  {
    hide Cost;
    var cuts :| Divides(costs, cuts, parts, capacity);
    PartsAddUp(costs, cuts, capacity, |cuts| - 1);
    LargestFits(costs, parts, capacity);
    NonNegative(parts - (|cuts| - 1), capacity);
    assert parts * capacity == (|cuts| - 1) * capacity + (parts - (|cuts| - 1)) * capacity;
  }

  lemma MoreCapacity(costs: seq<nat>, parts: nat, capacity: int, more: int)
    requires Feasible(costs, parts, capacity) && capacity <= more
    ensures Feasible(costs, parts, more)
  {
    var cuts :| Divides(costs, cuts, parts, capacity);
    assert Divides(costs, cuts, parts, more);
  }

  lemma OnePart(costs: seq<nat>, parts: nat)
    requires parts > 0
    ensures Feasible(costs, parts, Cost(costs, 0, |costs|))
  {
    assert Divides(costs, [0, |costs|], parts, Cost(costs, 0, |costs|));
  }

  // ----- Parts that fit

  /** If no unit alone is over the capacity, parts fit exactly within the capacity. */
  lemma FitsWithin(costs: seq<nat>, cuts: seq<nat>, capacity: int)
    requires Cuts(costs, cuts) && forall i :: 0 <= i < |costs| ==> costs[i] <= capacity
    requires capacity >= 0
    ensures AllFit(costs, cuts, capacity) <==> Within(costs, cuts, capacity)
  {
    hide Cost;
    forall p | 0 <= p < |cuts| - 1
      ensures Fits(costs, cuts[p], cuts[p + 1], capacity) <==> Cost(costs, cuts[p], cuts[p + 1]) <= capacity
    {
      if cuts[p] == cuts[p + 1] {
        NothingCosts(costs, cuts[p]);
      }
    }
  }

  lemma DivisionFits(costs: seq<nat>, parts: nat, capacity: int)
    requires Feasible(costs, parts, capacity)
    ensures CanCut(costs, parts, capacity)
  {
    hide Cost;
    var cuts :| Divides(costs, cuts, parts, capacity);
    assert AllFit(costs, cuts, capacity);
  }

  lemma CutsDivide(costs: seq<nat>, parts: nat, capacity: int)
    requires CanCut(costs, parts, capacity) && capacity >= 0 && forall i :: 0 <= i < |costs| ==> costs[i] <= capacity
    ensures Feasible(costs, parts, capacity)
  {
    hide Cost, Within, AllFit;
    var cuts :| Cuts(costs, cuts) && |cuts| <= parts + 1 && AllFit(costs, cuts, capacity);
    FitsWithin(costs, cuts, capacity);
    assert Divides(costs, cuts, parts, capacity);
  }

  /** A part that fits still fits without its first or its last units. */
  lemma PieceFits(costs: seq<nat>, lo: nat, start: nat, end: nat, hi: nat, capacity: int)
    requires lo <= start <= end <= hi <= |costs| && Fits(costs, lo, hi, capacity)
    ensures Fits(costs, start, end, capacity)
    ensures end < hi ==> Cost(costs, lo, end) == 0 || Cost(costs, lo, hi) <= capacity
  {
    CostSplit(costs, lo, start, hi);
    CostSplit(costs, start, end, hi);
    CostSplit(costs, lo, end, hi);
    if end < hi {
      CostSplit(costs, end, hi - 1, hi);
    }
  }

  // ----- The greedy test

  /** How many parts the greedy test has opened after `i` units, and what is in the last. */
  datatype Greedy = Greedy(parts: nat, current: nat)

  function GreedyAt(costs: seq<nat>, capacity: int, i: nat): Greedy
    requires i <= |costs|
  {
    if i == 0 then Greedy(1, 0)
    else
      var g, cost := GreedyAt(costs, capacity, i - 1), costs[i - 1];
      if g.current == 0 || g.current + cost <= capacity then Greedy(g.parts, g.current + cost)
          else Greedy(g.parts + 1, cost)
  }

  predicate Ahead(g: Greedy, parts: nat, current: nat) {
    g.parts < parts || (g.parts == parts && g.current <= current)
  }

  /** In the middle of any division, the greedy test is no further than it. */
  lemma {:induction false} GreedyInPart(costs: seq<nat>, capacity: int, lo: nat, i: nat, hi: nat, p: nat)
    requires lo <= i <= hi <= |costs| && Fits(costs, lo, hi, capacity)
    requires Ahead(GreedyAt(costs, capacity, lo), p, 0)
    ensures Ahead(GreedyAt(costs, capacity, i), p, Cost(costs, lo, i))
  {
    if lo < i {
      GreedyInPart(costs, capacity, lo, i - 1, hi, p);
      PieceFits(costs, lo, lo, i - 1, hi, capacity);
      CostSplit(costs, lo, i, hi);
    }
  }

  lemma {:induction false} GreedyAfterParts(costs: seq<nat>, cuts: seq<nat>, capacity: int, p: nat)
    requires Cuts(costs, cuts) && AllFit(costs, cuts, capacity) && p < |cuts|
    ensures GreedyAt(costs, capacity, cuts[p]).parts <= if p == 0 then 1 else p
  {
    if p > 0 {
      GreedyAfterParts(costs, cuts, capacity, p - 1);
      assert Fits(costs, cuts[p - 1], cuts[p - 1 + 1], capacity);
      GreedyInPart(costs, capacity, cuts[p - 1], cuts[p], cuts[p], p);
    }
  }

  /** The greedy test opens no more parts than any other cuts into parts that fit. */
  lemma GreedyBest(costs: seq<nat>, parts: nat, capacity: int)
    requires CanCut(costs, parts, capacity) && parts > 0
    ensures GreedyAt(costs, capacity, |costs|).parts <= parts
  {
    hide GreedyAt, AllFit;
    var cuts :| Cuts(costs, cuts) && |cuts| <= parts + 1 && AllFit(costs, cuts, capacity);
    GreedyAfterParts(costs, cuts, capacity, |cuts| - 1);
  }

  method CanPartitionUnits(costs: seq<nat>, parts: int, capacity: int) returns (can: bool)
    ensures can <==> parts > 0 && Feasible(costs, parts, capacity)
  {
    var used: nat, current: nat := 1, 0;
    ghost var cuts: seq<nat> := [0];
    for i := 0 to |costs|
      invariant Greedy(used, current) == GreedyAt(costs, capacity, i)
      invariant |cuts| == used && cuts[0] == 0 && forall p, q :: 0 <= p <= q < |cuts| ==> cuts[p] <= cuts[q] <= i
      invariant current == Cost(costs, cuts[used - 1], i) && (current <= capacity || i == 0)
      invariant forall p :: 0 <= p < |cuts| - 1 ==> Cost(costs, cuts[p], cuts[p + 1]) <= capacity
    {
      if costs[i] > capacity {
        if parts > 0 {
          TooLarge(costs, parts, capacity, i);
        }
        return false;
      }
      if current + costs[i] <= capacity {
        current := current + costs[i];
      } else {
        used := used + 1;
        current := costs[i];
        cuts := cuts + [i];
      }
    }
    can := used <= parts;
    if parts > 0 && Feasible(costs, parts, capacity) {
      DivisionFits(costs, parts, capacity);
      GreedyBest(costs, parts, capacity);
    }
    if can {
      GreedyCutsDivide(costs, cuts, parts, capacity);
    }
  }

  lemma TooLarge(costs: seq<nat>, parts: nat, capacity: int, i: nat)
    requires i < |costs| && costs[i] > capacity
    ensures !Feasible(costs, parts, capacity)
  {
    assert costs[i] in costs;
    MaxIs(costs);
    if Feasible(costs, parts, capacity) {
      LargestFits(costs, parts, capacity);
    }
  }

  /** The parts that the greedy test opened are a division. */
  lemma GreedyCutsDivide(costs: seq<nat>, cuts: seq<nat>, parts: nat, capacity: int)
    requires cuts != [] && cuts[0] == 0 && |cuts| <= parts
    requires forall p, q :: 0 <= p <= q < |cuts| ==> cuts[p] <= cuts[q] <= |costs|
    requires forall p :: 0 <= p < |cuts| - 1 ==> Cost(costs, cuts[p], cuts[p + 1]) <= capacity
    requires Cost(costs, cuts[|cuts| - 1], |costs|) <= capacity || costs == []
    ensures Feasible(costs, parts, capacity)
  {
    hide Cost, Cuts, Within;
    if costs == [] {
      NothingDivides(costs, parts, capacity);
    } else {
      var all := cuts + [|costs|];
      EndCut(costs, cuts);
      EndWithin(costs, cuts, capacity);
      assert Divides(costs, all, parts, capacity);
    }
  }

  lemma NothingDivides(costs: seq<nat>, parts: nat, capacity: int)
    requires costs == []
    ensures Feasible(costs, parts, capacity)
  {
    assert Divides(costs, [0], parts, capacity);
  }

  lemma EndCut(costs: seq<nat>, cuts: seq<nat>)
    requires cuts != [] && cuts[0] == 0 && forall p, q :: 0 <= p <= q < |cuts| ==> cuts[p] <= cuts[q] <= |costs|
    ensures Cuts(costs, cuts + [|costs|])
  {
  }

  lemma EndWithin(costs: seq<nat>, cuts: seq<nat>, capacity: int)
    requires cuts != [] && Cuts(costs, cuts + [|costs|]) && forall p :: 0 <= p < |cuts| ==> cuts[p] <= |costs|
    requires forall p :: 0 <= p < |cuts| - 1 ==> Cost(costs, cuts[p], cuts[p + 1]) <= capacity
    requires Cost(costs, cuts[|cuts| - 1], |costs|) <= capacity
    ensures Within(costs, cuts + [|costs|], capacity)
  {
    hide Cost, Cuts;
    var all := cuts + [|costs|];
    forall p | 0 <= p < |all| - 1 ensures Cost(costs, all[p], all[p + 1]) <= capacity {
      assert p < |cuts| - 1 ==> Cost(costs, cuts[p], cuts[p + 1]) <= capacity;
    }
  }

  // ----- The smallest capacity

  datatype Result<+T> = Ok(value: T) | ValueError | AssertionError

  method MinPartitionCapacity(costs: seq<nat>, parts: int) returns (r: Result<nat>)
    ensures r.ValueError? <==> parts <= 0
    ensures parts > 0 ==> r.Ok? && Feasible(costs, parts, r.value)
    ensures parts > 0 ==> forall c: nat :: c < r.value ==> !Feasible(costs, parts, c)
  {
    if parts <= 0 {
      return ValueError;
    }
    if costs == [] {
      assert Divides(costs, [0], parts, 0);
      return Ok(0);
    }
    var total := Cost(costs, 0, |costs|);
    var average := (total + parts - 1) / parts;
    AverageCeil(total, parts, average);
    var low: nat := if Max(costs) < average then average else Max(costs);
    var high: nat := total;
    forall c: nat | c < low ensures !Feasible(costs, parts, c) {
      if Feasible(costs, parts, c) {
        LargestFits(costs, parts, c);
        AverageFits(costs, parts, c);
        CeilLeast(total, parts, average, c);
      }
    }
    OnePart(costs, parts);
    LowFirst(costs, parts, low, high);
    while low < high
      invariant low <= high && Feasible(costs, parts, high)
      invariant forall c: nat :: c < low ==> !Feasible(costs, parts, c)
    {
      var mid := (low + high) / 2;
      var can := CanPartitionUnits(costs, parts, mid);
      if can {
        high := mid;
      } else {
        forall c: nat | c < mid + 1 ensures !Feasible(costs, parts, c) {
          if Feasible(costs, parts, c) {
            MoreCapacity(costs, parts, c, mid);
          }
        }
        low := mid + 1;
      }
    }
    return Ok(low);
  }

  /** The search starts with its lower end below its upper end, as the upper one is feasible
      and nothing below the lower one is. */
  lemma LowFirst(costs: seq<nat>, parts: nat, low: nat, high: nat)
    requires Feasible(costs, parts, high) && forall c: nat :: c < low ==> !Feasible(costs, parts, c)
    ensures low <= high
  {
  }

  lemma AverageCeil(total: nat, parts: nat, average: int)
    requires parts > 0 && average == (total + parts - 1) / parts
    ensures average >= 0 && (average - 1) * parts < total
  {
    assert average * parts <= total + parts - 1;
  }

  lemma CeilLeast(total: nat, parts: nat, average: int, c: nat)
    requires parts > 0 && (average - 1) * parts < total <= parts * c
    ensures average <= c
  {
    var d: int := c - (average - 1);
    assert d * parts == c * parts - (average - 1) * parts;
    if d <= 0 {
      NonNegative(-d, parts);
    }
  }

  // ----- The cuts

  /** Cuts without an empty part. */
  predicate Nonempty(cuts: seq<nat>) {
    forall p :: 0 <= p < |cuts| - 1 ==> cuts[p] < cuts[p + 1]
  }

  /** Divides some part of several units after its first, if there is one. */
  method SplitOne(costs: seq<nat>, cuts: seq<nat>, ghost capacity: int) returns (split: bool, more: seq<nat>)
    requires Cuts(costs, cuts) && AllFit(costs, cuts, capacity)
    ensures split <==> exists p :: 0 <= p < |cuts| - 1 && cuts[p + 1] - cuts[p] > 1
    ensures split ==> Cuts(costs, more) && AllFit(costs, more, capacity) && |more| == |cuts| + 1
    ensures split && Nonempty(cuts) ==> Nonempty(more)
  {
    split, more := false, cuts;
    for p := 0 to |cuts| - 1
      invariant forall q :: 0 <= q < p ==> cuts[q + 1] - cuts[q] <= 1
    {
      var start, end := cuts[p], cuts[p + 1];
      if end - start > 1 {
        more := cuts[..p + 1] + [start + 1] + cuts[p + 1..];
        SplitKeeps(costs, cuts, capacity, p, more);
        return true, more;
      }
    }
  }

  /** `more` are the cuts with part `p` divided after its first unit. */
  ghost predicate IsSplit(cuts: seq<nat>, p: nat, more: seq<nat>) {
    && p + 1 < |cuts| && cuts[p] + 1 < cuts[p + 1] && |more| == |cuts| + 1
    && (forall q | 0 <= q <= p :: more[q] == cuts[q])
    && more[p + 1] == cuts[p] + 1
    && (forall q | p + 1 < q < |more| :: more[q] == cuts[q - 1])
  }

  lemma SplitKeeps(costs: seq<nat>, cuts: seq<nat>, capacity: int, p: nat, more: seq<nat>)
    requires Cuts(costs, cuts) && AllFit(costs, cuts, capacity) && p < |cuts| - 1 && cuts[p + 1] - cuts[p] > 1
    requires more == cuts[..p + 1] + [cuts[p] + 1] + cuts[p + 1..]
    ensures Cuts(costs, more) && AllFit(costs, more, capacity) && |more| == |cuts| + 1
    ensures Nonempty(cuts) ==> Nonempty(more)
  {
    hide Cost, AllFit, Nonempty;
    assert IsSplit(cuts, p, more);
    SplitCuts(costs, cuts, p, more);
    SplitFits(costs, cuts, capacity, p, more);
    SplitNonempty(cuts, p, more);
  }

  lemma SplitCuts(costs: seq<nat>, cuts: seq<nat>, p: nat, more: seq<nat>)
    requires Cuts(costs, cuts) && IsSplit(cuts, p, more)
    ensures Cuts(costs, more)
  {
    forall i, j | 0 <= i <= j < |more| ensures more[i] <= more[j] {
      assert i > p + 1 ==> cuts[i - 1] <= cuts[j - 1];
      assert i <= p && j > p + 1 ==> cuts[i] <= cuts[j - 1];
      assert j == p + 1 && i <= p ==> cuts[i] <= cuts[p];
      assert i == p + 1 && j > p + 1 ==> cuts[p + 1] <= cuts[j - 1];
    }
  }

  lemma SplitNonempty(cuts: seq<nat>, p: nat, more: seq<nat>)
    requires IsSplit(cuts, p, more)
    ensures Nonempty(cuts) ==> Nonempty(more)
  {
    if Nonempty(cuts) {
      forall q | 0 <= q < |more| - 1 ensures more[q] < more[q + 1] {
        if q < p {
          assert cuts[q] < cuts[q + 1];
        } else if q > p + 1 {
          assert cuts[q - 1] < cuts[q - 1 + 1];
        }
      }
    }
  }

  lemma SplitFits(costs: seq<nat>, cuts: seq<nat>, capacity: int, p: nat, more: seq<nat>)
    requires Cuts(costs, cuts) && AllFit(costs, cuts, capacity) && IsSplit(cuts, p, more) && Cuts(costs, more)
    ensures AllFit(costs, more, capacity)
  {
    hide Cost;
    assert Fits(costs, cuts[p], cuts[p + 1], capacity);
    PieceFits(costs, cuts[p], cuts[p], cuts[p] + 1, cuts[p + 1], capacity);
    PieceFits(costs, cuts[p], cuts[p] + 1, cuts[p + 1], cuts[p + 1], capacity);
    hide Fits;
    forall q | 0 <= q < |more| - 1 ensures Fits(costs, more[q], more[q + 1], capacity) {
      if q < p {
        assert Fits(costs, cuts[q], cuts[q + 1], capacity);
      } else if q > p + 1 {
        assert Fits(costs, cuts[q - 1], cuts[q - 1 + 1], capacity);
      }
    }
  }

  /** Cuts without a part of several units or an empty part have a part for every unit. */
  lemma {:induction false} AllSingle(cuts: seq<nat>, p: nat)
    requires p < |cuts| && cuts[0] == 0 && Nonempty(cuts)
    requires forall q :: 0 <= q < |cuts| - 1 ==> cuts[q + 1] - cuts[q] <= 1
    ensures cuts[p] == p
  {
    if p > 0 {
      AllSingle(cuts, p - 1);
      assert cuts[p - 1] < cuts[p - 1 + 1] && cuts[p - 1 + 1] - cuts[p - 1] <= 1;
    }
  }

  /** The cuts of the greedy test, one part for each that it opened. */
  method GreedyCuts(costs: seq<nat>, capacity: int) returns (cuts: seq<nat>)
    ensures Cuts(costs, cuts) && AllFit(costs, cuts, capacity) && |cuts| > 1 && (costs != [] ==> Nonempty(cuts))
    ensures |cuts| - 1 == GreedyAt(costs, capacity, |costs|).parts
  {
    hide AllFit, Nonempty, Cuts, Fits;
    cuts := [0];
    var current := 0;
    StartsOk(costs, capacity);
    for i := 0 to |costs|
      invariant CutSoFar(costs, cuts, capacity, i)
      invariant current == Cost(costs, cuts[|cuts| - 1], i)
      invariant Greedy(|cuts|, current) == GreedyAt(costs, capacity, i)
    {
      ghost var before := current;
      if current > 0 && current + costs[i] > capacity {
        CutOk(costs, cuts, capacity, i);
        cuts := cuts + [i];
        current := 0;
      } else {
        GrowOk(costs, cuts, capacity, i);
      }
      current := current + costs[i];
    }
    LastOk(costs, cuts, capacity);
    cuts := cuts + [|costs|];
  }

  /** After `i` units: the parts before the last cut fit, and so does the last one so far. */
  ghost predicate CutSoFar(costs: seq<nat>, cuts: seq<nat>, capacity: int, i: nat) {
    && i <= |costs| && cuts != [] && cuts[0] == 0 && (forall p, q :: 0 <= p <= q < |cuts| ==> cuts[p] <= cuts[q] <= i)
    && (forall p :: 0 <= p < |cuts| - 1 ==> Fits(costs, cuts[p], cuts[p + 1], capacity))
    && Nonempty(cuts) && (i > 0 ==> cuts[|cuts| - 1] < i)
    && Fits(costs, cuts[|cuts| - 1], i, capacity)
  }

  lemma StartsOk(costs: seq<nat>, capacity: int)
    ensures CutSoFar(costs, [0], capacity, 0)
  {
  }

  lemma GrowOk(costs: seq<nat>, cuts: seq<nat>, capacity: int, i: nat)
    requires CutSoFar(costs, cuts, capacity, i) && i < |costs|
    requires var current := Cost(costs, cuts[|cuts| - 1], i); current == 0 || current + costs[i] <= capacity
    ensures CutSoFar(costs, cuts, capacity, i + 1)
  {
  }

  lemma CutOk(costs: seq<nat>, cuts: seq<nat>, capacity: int, i: nat)
    requires CutSoFar(costs, cuts, capacity, i) && i < |costs| && Cost(costs, cuts[|cuts| - 1], i) > 0
    ensures CutSoFar(costs, cuts + [i], capacity, i + 1)
  {
    hide Fits;
    var more := cuts + [i];
    forall p | 0 <= p < |more| - 1 ensures Fits(costs, more[p], more[p + 1], capacity) {
      assert p < |cuts| - 1 ==> Fits(costs, cuts[p], cuts[p + 1], capacity);
    }
    NothingCosts(costs, i);
    OneFits(costs, i, capacity);
  }

  lemma OneFits(costs: seq<nat>, i: nat, capacity: int)
    requires i < |costs|
    ensures Fits(costs, i, i + 1, capacity)
  {
  }

  lemma LastOk(costs: seq<nat>, cuts: seq<nat>, capacity: int)
    requires CutSoFar(costs, cuts, capacity, |costs|)
    ensures var all := cuts + [|costs|];
            Cuts(costs, all) && AllFit(costs, all, capacity) && (costs != [] ==> Nonempty(all))
  {
    hide Fits;
    var all := cuts + [|costs|];
    forall p | 0 <= p < |all| - 1 ensures Fits(costs, all[p], all[p + 1], capacity) {
      assert p < |cuts| - 1 ==> Fits(costs, cuts[p], cuts[p + 1], capacity);
    }
  }

  /** Cuts for all ranks: those of the greedy test, then parts split until every rank has one,
      or empty parts at the end. It fails exactly if there are more parts than ranks, which is
      when the units cannot be cut into that many parts that fit. */
  method RankUnitCuts(costs: seq<nat>, worldSize: int, capacity: int) returns (r: Result<seq<nat>>)
    ensures r.Ok? <==> worldSize > 0 && CanCut(costs, worldSize, capacity)
    ensures !r.Ok? ==> r.AssertionError?
    ensures r.Ok? ==> Cuts(costs, r.value) && AllFit(costs, r.value, capacity) && |r.value| == worldSize + 1
    ensures r.Ok? && |costs| >= worldSize ==> Nonempty(r.value)
  {
    hide GreedyAt, Cost, AllFit;
    var cuts := GreedyCuts(costs, capacity);
    if worldSize > 0 && CanCut(costs, worldSize, capacity) {
      GreedyBest(costs, worldSize, capacity);
    }
    while |cuts| - 1 < worldSize
      invariant Cuts(costs, cuts) && AllFit(costs, cuts, capacity) && |cuts| > 1
      invariant |cuts| - 1 <= worldSize || |cuts| - 1 == GreedyAt(costs, capacity, |costs|).parts
      invariant |costs| >= worldSize ==> costs == [] || Nonempty(cuts)
    {
      var split, more := SplitOne(costs, cuts, capacity);
      if split {
        cuts := more;
      } else {
        if Nonempty(cuts) {
          AllSingle(cuts, |cuts| - 1);
        }
        cuts := AppendEmpty(costs, cuts, capacity);
      }
    }
    if |cuts| - 1 > worldSize {
      return AssertionError;
    }
    return Ok(cuts);
  }

  method AppendEmpty(costs: seq<nat>, cuts: seq<nat>, ghost capacity: int) returns (more: seq<nat>)
    requires Cuts(costs, cuts) && AllFit(costs, cuts, capacity)
    ensures Cuts(costs, more) && AllFit(costs, more, capacity) && |more| == |cuts| + 1
  {
    more := cuts + [cuts[|cuts| - 1]];
    forall p | 0 <= p < |more| - 1 ensures Fits(costs, more[p], more[p + 1], capacity) {
      if p < |cuts| - 1 {
        assert Fits(costs, cuts[p], cuts[p + 1], capacity);
      }
    }
  }

  /** Cutting a bucket for all ranks: at the smallest capacity, without failing. */
  method CutForRanks(costs: seq<nat>, worldSize: int) returns (r: Result<seq<nat>>, capacity: nat)
    ensures r.ValueError? <==> worldSize <= 0
    ensures worldSize > 0 ==> r.Ok? && Divides(costs, r.value, worldSize, capacity) && |r.value| == worldSize + 1
    ensures worldSize > 0 ==> forall c: nat :: c < capacity ==> !Feasible(costs, worldSize, c)
    ensures worldSize > 0 && |costs| >= worldSize ==> Nonempty(r.value)
  {
    hide Cost, AllFit, Within, Nonempty;
    var smallest := MinPartitionCapacity(costs, worldSize);
    if !smallest.Ok? {
      return ValueError, 0;
    }
    capacity := smallest.value;
    UnitsFit(costs, worldSize, capacity);
    DivisionFits(costs, worldSize, capacity);
    r := RankUnitCuts(costs, worldSize, capacity);
    FitsWithin(costs, r.value, capacity);
  }

  lemma UnitsFit(costs: seq<nat>, parts: nat, capacity: int)
    requires Feasible(costs, parts, capacity)
    ensures forall i :: 0 <= i < |costs| ==> costs[i] <= capacity
  {
    forall i | 0 <= i < |costs| ensures costs[i] <= capacity {
      LargestFits(costs, parts, capacity);
      MaxIs(costs);
      assert costs[i] in costs;
    }
  }
}
