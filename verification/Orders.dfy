/** Orders of numbered jobs. */
module Orders {
  import B = Balancing

  /** A list of the numbers below `n`, each once. */
  predicate IsOrder(order: seq<nat>, n: nat) {
    && |order| == n
    && (forall k :: 0 <= k < n ==> order[k] < n)
    && (forall j, k :: 0 <= j < k < n ==> order[j] != order[k])
  }

  function InOrder(order: seq<nat>, w: seq<nat>): (p: seq<nat>)
    requires forall k :: 0 <= k < |order| ==> order[k] < |w|
    ensures |p| == |order| && forall k :: 0 <= k < |order| ==> p[k] == w[order[k]]
  {
    seq(|order|, k requires 0 <= k < |order| => w[order[k]])
  }

  /** A strict total order of the numbers below `n`. */
  ghost predicate TotalOrder(before: (nat, nat) -> bool, n: nat) {
    && (forall i: nat, j: nat | i < n && j < n && i != j :: before(i, j) <==> !before(j, i))
    && (forall i: nat, j: nat, k: nat | i < n && j < n && k < n && before(i, j)
        && before(j, k) && i != k :: before(i, k))
  }

  predicate Sorted(before: (nat, nat) -> bool, order: seq<nat>) {
    forall j, k :: 0 <= j < k < |order| ==> before(order[j], order[k])
  }

  function Inserted(s: seq<nat>, at: nat, x: nat): (t: seq<nat>)
    requires at <= |s|
    ensures |t| == |s| + 1
    ensures forall k :: 0 <= k < |t| ==> t[k] == if k < at then s[k] else if k == at then x else s[k - 1]
  {
    s[..at] + [x] + s[at..]
  }

  /** Sorts the numbers below `n`. */
  method SortNumbers(n: nat, before: (nat, nat) -> bool) returns (order: seq<nat>)
    requires TotalOrder(before, n)
    ensures IsOrder(order, n) && Sorted(before, order)
  {
    order := [];
    for i := 0 to n
      invariant IsOrder(order, i) && Sorted(before, order)
    {
      var at := 0;
      while at < |order| && before(order[at], i)
        invariant at <= |order| && forall k :: 0 <= k < at ==> before(order[k], i)
      {
        at := at + 1;
      }
      OrderInserted(order, i, at);
      SortedInserted(n, before, order, i, at);
      order := Inserted(order, at, i);
    }
  }

  lemma OrderInserted(order: seq<nat>, n: nat, at: nat)
    requires IsOrder(order, n) && at <= n
    ensures IsOrder(Inserted(order, at, n), n + 1)
  {
  }

  lemma SortedInserted(n: nat, before: (nat, nat) -> bool, order: seq<nat>, i: nat, at: nat)
    requires i < n && TotalOrder(before, n) && IsOrder(order, i) && Sorted(before, order) && at <= |order|
    requires (forall k :: 0 <= k < at ==> before(order[k], i)) && (at < |order| ==> !before(order[at], i))
    ensures Sorted(before, Inserted(order, at, i))
  {
    forall k | at <= k < |order| ensures before(i, order[k]) {
      if k > at {
        assert before(order[at], order[k]);
      }
    }
    var more := Inserted(order, at, i);
    forall j, k | 0 <= j < k < |more| ensures before(more[j], more[k]) {
      if j != at && k != at {
        assert before(order[if j < at then j else j - 1], order[if k < at then k else k - 1]);
      }
    }
  }

  // ----- Orders don't change loads

  function Without(s: seq<nat>, i: nat): (t: seq<nat>)
    requires i < |s|
    ensures |t| == |s| - 1 && forall k :: 0 <= k < |t| ==> t[k] == if k < i then s[k] else s[k + 1]
  {
    s[..i] + s[i + 1..]
  }

  /** A job taken out takes its weight along. */
  lemma {:induction false} LoadWithout(w: seq<nat>, a: seq<nat>, r: nat, i: nat, n: nat)
    requires i < n <= |w| == |a|
    ensures B.Load(w, a, r, n) == B.Load(Without(w, i), Without(a, i), r, n - 1) + if a[i] == r then w[i] else 0
    decreases n
  {
    if i < n - 1 {
      LoadWithout(w, a, r, i, n - 1);
    } else {
      SameLoads(w, a, Without(w, i), Without(a, i), r, i);
    }
  }

  lemma {:induction false} SameLoads(w: seq<nat>, a: seq<nat>, v: seq<nat>, b: seq<nat>, r: nat, n: nat)
    requires n <= |w| && n <= |a| && n <= |v| && n <= |b|
    requires forall k :: 0 <= k < n ==> w[k] == v[k] && a[k] == b[k]
    ensures B.Load(w, a, r, n) == B.Load(v, b, r, n)
  {
    if n > 0 {
      SameLoads(w, a, v, b, r, n - 1);
    }
  }

  /** Different numbers below `m` are at most `m`. */
  lemma {:induction false} Room(s: seq<nat>, m: nat)
    requires (forall k :: 0 <= k < |s| ==> s[k] < m) && forall j, k :: 0 <= j < k < |s| ==> s[j] != s[k]
    ensures |s| <= m
    decreases m
  {
    if s == [] {
      return;
    }
    assert 0 <= s[0] < m;
    if j :| 0 <= j < |s| && s[j] == m - 1 {
      var rest := Without(s, j);
      forall k | 0 <= k < |rest| ensures rest[k] < m - 1 {
        assert s[if k < j then k else k + 1] != m - 1;
      }
      Room(rest, m - 1);
    } else {
      Room(s, m - 1);
    }
  }

  /** Some place of the order has each number. */
  lemma PlaceOf(order: seq<nat>, n: nat, x: nat) returns (i: nat)
    requires IsOrder(order, n) && x < n
    ensures i < n && order[i] == x
  {
    Everywhere(order, n, x);
    i :| i < n && order[i] == x;
  }

  lemma Everywhere(order: seq<nat>, n: nat, x: nat)
    requires IsOrder(order, n) && x < n
    ensures exists i: nat :: i < n && order[i] == x
  {
    if forall i: nat :: i < n ==> order[i] != x {
      var closed: seq<nat> := seq(n, k requires 0 <= k < n => if order[k] > x then order[k] - 1 else order[k]);
      Room(closed, n - 1);
    }
  }

  /** In any order, jobs make the same loads. */
  lemma {:induction false} OrderedLoads(w: seq<nat>, a: seq<nat>, order: seq<nat>, n: nat, r: nat)
    requires n <= |w| == |a| && IsOrder(order, n)
    ensures B.Load(InOrder(order, w), InOrder(order, a), r, n) == B.Load(w, a, r, n)
  {
    if n > 0 {
      hide B.Load, IsOrder, InOrder, Without;
      var i := PlaceOf(order, n, n - 1);
      OrderWithout(order, n, i);
      OrderIn(order, n);
      LoadWithout(InOrder(order, w), InOrder(order, a), r, i, n);
      WithoutInOrder(order, w, i);
      WithoutInOrder(order, a, i);
      OrderedLoads(w, a, Without(order, i), n - 1, r);
      LoadStep(w, a, r, n);
    }
  }

  lemma OrderIn(order: seq<nat>, n: nat)
    requires IsOrder(order, n)
    ensures |order| == n && forall k :: 0 <= k < n ==> order[k] < n
  {
  }

  lemma LoadStep(w: seq<nat>, a: seq<nat>, r: nat, n: nat)
    requires 0 < n <= |w| && n <= |a|
    ensures B.Load(w, a, r, n) == B.Load(w, a, r, n - 1) + if a[n - 1] == r then w[n - 1] else 0
  {
  }

  lemma OrderWithout(order: seq<nat>, n: nat, i: nat)
    requires IsOrder(order, n) && i < n && order[i] == n - 1
    ensures IsOrder(Without(order, i), n - 1)
  {
    var rest := Without(order, i);
    forall k | 0 <= k < n - 1 ensures rest[k] < n - 1 {
      assert rest[k] == order[if k < i then k else k + 1];
    }
    forall j, k | 0 <= j < k < n - 1 ensures rest[j] != rest[k] {
      assert rest[j] == order[if j < i then j else j + 1] && rest[k] == order[if k < i then k else k + 1];
    }
  }

  lemma WithoutInOrder(order: seq<nat>, w: seq<nat>, i: nat)
    requires i < |order| && forall k :: 0 <= k < |order| ==> order[k] < |w|
    ensures forall k :: 0 <= k < |order| - 1 ==> Without(order, i)[k] < |w|
    ensures Without(InOrder(order, w), i) == InOrder(Without(order, i), w)
  {
  }
}
