/** Assigning loads to the least loaded of several machines: how far the result can be from even,
    and from the best that any assignment does. */
module Balancing {
  import opened Arithmetic

  /** What the first `n` jobs put on machine `r`, each of weight `w[k]` on machine `a[k]`. */
  function Load(w: seq<nat>, a: seq<nat>, r: nat, n: nat): nat
    requires n <= |w| && n <= |a|
  {
    if n == 0 then 0 else Load(w, a, r, n - 1) + if a[n - 1] == r then w[n - 1] else 0
  }

  function Total(w: seq<nat>, n: nat): nat
    requires n <= |w|
  {
    if n == 0 then 0 else Total(w, n - 1) + w[n - 1]
  }

  /** The loads of the first `m` machines together. */
  function LoadsOver(w: seq<nat>, a: seq<nat>, m: nat, n: nat): nat
    requires n <= |w| && n <= |a|
  {
    if m == 0 then 0 else LoadsOver(w, a, m - 1, n) + Load(w, a, m - 1, n)
  }

  lemma {:induction false} LoadsOverNext(w: seq<nat>, a: seq<nat>, m: nat, n: nat)
    requires 0 < n <= |w| && n <= |a|
    ensures LoadsOver(w, a, m, n) == LoadsOver(w, a, m, n - 1) + if a[n - 1] < m then w[n - 1] else 0
  {
    if m > 0 {
      LoadsOverNext(w, a, m - 1, n);
    }
  }

  /** Every job's weight is on one machine. */
  lemma {:induction false} LoadsTotal(w: seq<nat>, a: seq<nat>, m: nat, n: nat)
    requires n <= |w| && n <= |a| && forall k :: 0 <= k < n ==> a[k] < m
    ensures LoadsOver(w, a, m, n) == Total(w, n)
  {
    if n == 0 {
      NoLoads(w, a, m);
    } else {
      LoadsTotal(w, a, m, n - 1);
      LoadsOverNext(w, a, m, n);
    }
  }

  lemma {:induction false} NoLoads(w: seq<nat>, a: seq<nat>, m: nat)
    ensures LoadsOver(w, a, m, 0) == 0
  {
    if m > 0 {
      NoLoads(w, a, m - 1);
    }
  }

  lemma {:induction false} EachAtLeast(w: seq<nat>, a: seq<nat>, m: nat, n: nat, x: nat)
    requires n <= |w| && n <= |a| && forall r: nat :: r < m ==> x <= Load(w, a, r, n)
    ensures m * x <= LoadsOver(w, a, m, n)
  {
    if m > 0 {
      EachAtLeast(w, a, m - 1, n, x);
      OneMore(m - 1, x);
    }
  }

  lemma {:induction false} EachAtMost(w: seq<nat>, a: seq<nat>, m: nat, n: nat, x: nat)
    requires n <= |w| && n <= |a| && forall r: nat :: r < m ==> Load(w, a, r, n) <= x
    ensures LoadsOver(w, a, m, n) <= m * x
  {
    if m > 0 {
      EachAtMost(w, a, m - 1, n, x);
      OneMore(m - 1, x);
    }
  }

  lemma {:induction false} LoadGrows(w: seq<nat>, a: seq<nat>, r: nat, j: nat, n: nat)
    requires j <= n <= |w| && n <= |a|
    ensures Load(w, a, r, j) <= Load(w, a, r, n)
    decreases n
  {
    if j < n {
      LoadGrows(w, a, r, j, n - 1);
    }
  }

  lemma {:induction false} TotalGrows(w: seq<nat>, j: nat, n: nat)
    requires j <= n <= |w|
    ensures Total(w, j) <= Total(w, n)
    decreases n
  {
    if j < n {
      TotalGrows(w, j, n - 1);
    }
  }

  // ----- Greedy assignments

  /** Among `members`, each job that went to one went to one of least load. */
  predicate GreedyAmong(p: seq<nat>, g: seq<nat>, members: set<nat>, n: nat)
    requires n <= |p| && n <= |g|
  {
    forall j: nat | j < n && g[j] in members :: LeastAmong(p, g, members, j)
  }

  predicate LeastAmong(p: seq<nat>, g: seq<nat>, members: set<nat>, j: nat)
    requires j < |p| && j < |g|
  {
    forall r | r in members :: Load(p, g, g[j], j) <= Load(p, g, r, j)
  }

  /** The job that brought a machine to its load. */
  lemma {:induction false} LastJob(p: seq<nat>, g: seq<nat>, r: nat, n: nat) returns (j: nat)
    requires n <= |p| && n <= |g| && Load(p, g, r, n) > 0
    ensures j < n && g[j] == r && Load(p, g, r, n) == Load(p, g, r, j) + p[j]
  {
    if g[n - 1] == r {
      j := n - 1;
    } else {
      j := LastJob(p, g, r, n - 1);
    }
  }

  /** Greedy loads differ by no more than one job. */
  lemma {:induction false} GreedyIsEven(p: seq<nat>, g: seq<nat>, members: set<nat>, n: nat, r: nat, q: nat,
                                        largest: nat)
    requires n <= |p| && n <= |g| && GreedyAmong(p, g, members, n) && r in members && q in members
    requires forall j :: 0 <= j < n ==> p[j] <= largest
    ensures Load(p, g, r, n) <= Load(p, g, q, n) + largest
  {
    if Load(p, g, r, n) > 0 {
      var j := LastJob(p, g, r, n);
      assert LeastAmong(p, g, members, j);
      LoadGrows(p, g, q, j, n);
    }
  }

  // ----- Against the best assignment

  /** Each job goes to a machine of least load, of `m`. */
  predicate Greedy(p: seq<nat>, g: seq<nat>, m: nat, n: nat)
    requires n <= |p| && n <= |g|
  {
    forall j: nat | j < n :: g[j] < m && Least(p, g, m, j)
  }

  predicate Least(p: seq<nat>, g: seq<nat>, m: nat, j: nat)
    requires j < |p| && j < |g|
  {
    forall r: nat | r < m :: Load(p, g, g[j], j) <= Load(p, g, r, j)
  }

  /** Some assignment of the first `n` jobs stays within `cap` on every machine. */
  predicate Within(p: seq<nat>, a: seq<nat>, m: nat, n: nat, cap: nat)
    requires n <= |p| && n <= |a|
  {
    && (forall k :: 0 <= k < n ==> a[k] < m)
    && (forall r: nat :: r < m ==> Load(p, a, r, n) <= cap)
  }

  lemma OneJobFits(p: seq<nat>, a: seq<nat>, m: nat, n: nat, cap: nat, j: nat)
    requires n <= |p| && n <= |a| && Within(p, a, m, n, cap) && j < n
    ensures p[j] <= cap
  {
    LoadGrows(p, a, a[j], j + 1, n);
  }

  /** What a greedy machine has is at most its share of everything, and the last job's rest. */
  lemma GreedyShare(p: seq<nat>, g: seq<nat>, m: nat, n: nat, a: seq<nat>, cap: nat, j: nat)
    requires n <= |p| && n <= |g| && n <= |a| && j < n && m > 0 && Greedy(p, g, m, n) && Within(p, a, m, n, cap)
    ensures m * Load(p, g, g[j], j) + p[j] <= m * cap
  {
    assert Least(p, g, m, j);
    EachAtLeast(p, g, m, j, Load(p, g, g[j], j));
    LoadsTotal(p, g, m, j);
    TotalGrows(p, j + 1, n);
    LoadsTotal(p, a, m, n);
    EachAtMost(p, a, m, n, cap);
  }

  /** In any order, greedy loads are within `2 - 1/m` of the best assignment's largest. */
  lemma ListBound(p: seq<nat>, g: seq<nat>, m: nat, n: nat, a: seq<nat>, cap: nat, r: nat)
    requires n <= |p| && n <= |g| && n <= |a| && m > 0 && Greedy(p, g, m, n) && Within(p, a, m, n, cap) && r < m
    ensures m * Load(p, g, r, n) <= (2 * m - 1) * cap
  {
    NonNegative(2 * m - 1, cap);
    if Load(p, g, r, n) > 0 {
      var j := LastJob(p, g, r, n);
      GreedyShare(p, g, m, n, a, cap, j);
      OneJobFits(p, a, m, n, cap, j);
      Combine(m, Load(p, g, r, j), p[j], cap);
    }
  }

  lemma Combine(m: nat, before: nat, job: nat, cap: nat)
    requires m > 0 && m * before + job <= m * cap && job <= cap
    ensures m * (before + job) <= (2 * m - 1) * cap
  {
    Spread(m, before, job);
    Spread(m - 1, job, cap - job);
    NonNegative(m - 1, cap - job);
    assert m * job == (m - 1) * job + job;
    assert (2 * m - 1) * cap == m * cap + (m - 1) * cap;
  }

  lemma Spread(x: int, y: int, z: int)
    ensures x * (y + z) == x * y + x * z
  {
  }

  // ----- Largest first

  predicate LargestFirst(p: seq<nat>) {
    forall i, j :: 0 <= i < j < |p| ==> p[j] <= p[i]
  }

  function Ones(n: nat): (w: seq<nat>)
    ensures |w| == n && forall k :: 0 <= k < n ==> w[k] == 1
  {
    seq(n, _ => 1)
  }

  /** One for each job that leaves less than `job` of the cap. */
  function Bigs(p: seq<nat>, n: nat, cap: nat, job: nat): (w: seq<nat>)
    requires n <= |p|
    ensures |w| == n && forall k :: 0 <= k < n ==> w[k] == if p[k] + job > cap then 1 else 0
  {
    seq(n, k requires 0 <= k < n => if p[k] + job > cap then 1 else 0)
  }

  /** In an assignment within the cap, jobs of at least `job` each, more than a third of the cap: at
      most two to a machine, and a big one only alone. */
  lemma {:induction false} FewWithin(p: seq<nat>, a: seq<nat>, r: nat, n: nat, size: nat, cap: nat, job: nat)
    requires n <= size <= |p| && n <= |a| && 3 * job > cap && forall k :: 0 <= k < n ==> p[k] >= job
    ensures Load(p, a, r, n) >= job * Load(Ones(size), a, r, n)
    ensures Load(p, a, r, n) <= cap ==> Load(Ones(size), a, r, n) + Load(Bigs(p, size, cap, job), a, r, n) <= 2
    ensures Load(Bigs(p, size, cap, job), a, r, n) >= 1 ==> Load(p, a, r, n) + job > cap
    ensures Load(Ones(size), a, r, n) == 0 ==> Load(Bigs(p, size, cap, job), a, r, n) == 0
  {
    if n > 0 {
      FewWithin(p, a, r, n - 1, size, cap, job);
      if a[n - 1] == r {
        var c := Load(Ones(size), a, r, n - 1);
        assert job * (c + 1) == job * c + job;
        AtLeastTimes(job, c);
      }
    }
  }

  lemma AtLeastTimes(job: nat, c: nat)
    ensures c >= 1 ==> job * c >= job
    ensures c >= 2 ==> job * c >= 2 * job
  {
    if c >= 2 {
      NonNegative(job, c - 2);
      assert job * c == job * (c - 2) + 2 * job;
    } else if c == 1 {
    }
  }

  /** A machine with more than `cap - job` has two jobs or a big one. */
  lemma {:induction false} EnoughGreedy(p: seq<nat>, g: seq<nat>, r: nat, n: nat, size: nat, cap: nat, job: nat)
    requires n <= size <= |p| && n <= |g|
    ensures Load(Ones(size), g, r, n) == 0 ==> Load(p, g, r, n) == 0 && Load(Bigs(p, size, cap, job), g, r, n) == 0
    ensures Load(Ones(size), g, r, n) == 1 && Load(p, g, r, n) + job > cap
        ==> Load(Bigs(p, size, cap, job), g, r, n) == 1
  {
    if n > 0 {
      EnoughGreedy(p, g, r, n - 1, size, cap, job);
    }
  }

  /** Each job counts once, and a big one twice. */
  function Counts(p: seq<nat>, n: nat, cap: nat, job: nat): (w: seq<nat>)
    requires n <= |p|
    ensures |w| == n
  {
    Both(Ones(n), Bigs(p, n, cap, job))
  }

  /** The best assignment has at most two counts per machine. */
  lemma BestCounts(p: seq<nat>, a: seq<nat>, m: nat, n: nat, cap: nat, job: nat)
    requires n <= |p| && n <= |a| && Within(p, a, m, n, cap) && 3 * job > cap && forall k :: 0 <= k < n ==> p[k] >= job
    ensures Total(Counts(p, n, cap, job), n) <= 2 * m
  {
    hide Load, Ones, Bigs, Both, Total, LoadsOver;
    var both := Counts(p, n, cap, job);
    forall r: nat | r < m ensures Load(both, a, r, n) <= 2 {
      FewWithin(p, a, r, n, n, cap, job);
      LoadBoth(Ones(n), Bigs(p, n, cap, job), a, r, n);
    }
    EachAtMost(both, a, m, n, 2);
    LoadsTotal(both, a, m, n);
  }

  /** A greedy one without room for a job has at least two counts on each machine. */
  lemma GreedyCounts(p: seq<nat>, g: seq<nat>, m: nat, j: nat, cap: nat)
    requires j < |p| && j < |g| && Greedy(p, g, m, j + 1) && p[j] <= cap && Load(p, g, g[j], j) + p[j] > cap
    ensures Total(Counts(p, j + 1, cap, p[j]), j) >= 2 * m
  {
    hide Load, Ones, Bigs, Both, Total, LoadsOver;
    var both := Counts(p, j + 1, cap, p[j]);
    assert Least(p, g, m, j);
    forall r: nat | r < m ensures Load(both, g, r, j) >= 2 {
      EnoughGreedy(p, g, r, j, j + 1, cap, p[j]);
      LoadBoth(Ones(j + 1), Bigs(p, j + 1, cap, p[j]), g, r, j);
    }
    EachAtLeast(both, g, m, j, 2);
    LoadsTotal(both, g, m, j);
  }

  /** When the job that comes last is more than a third of the cap, a greedy machine that takes it
      stays within the cap: otherwise there would be too many jobs for the best assignment. */
  lemma LastBigFits(p: seq<nat>, g: seq<nat>, m: nat, a: seq<nat>, cap: nat, j: nat)
    requires j < |p| && j < |g| && j < |a| && m > 0 && LargestFirst(p)
    requires Greedy(p, g, m, j + 1) && Within(p, a, m, j + 1, cap) && 3 * p[j] > cap
    ensures Load(p, g, g[j], j) + p[j] <= cap
  {
    hide Load, Greedy, Within;
    OneJobFits(p, a, m, j + 1, cap, j);
    assert Counts(p, j + 1, cap, p[j])[j] >= 1;
    BestCounts(p, a, m, j + 1, cap, p[j]);
    if Load(p, g, g[j], j) + p[j] > cap {
      GreedyCounts(p, g, m, j, cap);
    }
  }

  function Both(v: seq<nat>, w: seq<nat>): (b: seq<nat>)
    requires |v| == |w|
    ensures |b| == |v| && forall k :: 0 <= k < |v| ==> b[k] == v[k] + w[k]
  {
    seq(|v|, k requires 0 <= k < |v| => v[k] + w[k])
  }

  lemma {:induction false} LoadBoth(v: seq<nat>, w: seq<nat>, a: seq<nat>, r: nat, n: nat)
    requires |v| == |w| && n <= |v| && n <= |a|
    ensures Load(Both(v, w), a, r, n) == Load(v, a, r, n) + Load(w, a, r, n)
  {
    if n > 0 {
      LoadBoth(v, w, a, r, n - 1);
    }
  }

  /** Largest first, greedy loads are within `4/3 - 1/(3m)` of the best assignment's largest. */
  lemma LargestFirstBound(p: seq<nat>, g: seq<nat>, m: nat, a: seq<nat>, cap: nat, r: nat)
    requires |g| == |p| == |a| && m > 0 && LargestFirst(p) && Greedy(p, g, m, |p|) && Within(p, a, m, |p|, cap) && r < m
    ensures 3 * m * Load(p, g, r, |p|) <= (4 * m - 1) * cap
  {
    NonNegative(4 * m - 1, cap);
    if Load(p, g, r, |p|) > 0 {
      var j := LastJob(p, g, r, |p|);
      FirstWithin(p, a, m, |p|, cap, j + 1);
      if 3 * p[j] > cap {
        LastBigFits(p, g, m, a, cap, j);
        CombineBig(m, Load(p, g, r, |p|), cap);
      } else {
        GreedyShare(p, g, m, |p|, a, cap, j);
        CombineSmall(m, Load(p, g, r, j), p[j], cap);
      }
    }
  }

  lemma FirstWithin(p: seq<nat>, a: seq<nat>, m: nat, n: nat, cap: nat, k: nat)
    requires k <= n <= |p| && n <= |a| && Within(p, a, m, n, cap)
    ensures Within(p, a, m, k, cap)
  {
    forall r: nat | r < m ensures Load(p, a, r, k) <= cap {
      LoadGrows(p, a, r, k, n);
    }
  }

  lemma CombineBig(m: nat, load: nat, cap: nat)
    requires m > 0 && load <= cap
    ensures 3 * m * load <= (4 * m - 1) * cap
  {
    NonNegative(3 * m, cap - load);
    NonNegative(m - 1, cap);
    assert (4 * m - 1) * cap == 3 * m * cap + (m - 1) * cap;
    assert 3 * m * cap == 3 * m * load + 3 * m * (cap - load);
  }

  lemma CombineSmall(m: nat, before: nat, job: nat, cap: nat)
    requires m > 0 && m * before + job <= m * cap && 3 * job <= cap
    ensures 3 * m * (before + job) <= (4 * m - 1) * cap
  {
    NonNegative(m - 1, cap - 3 * job);
    SpreadSmall(m, before, job, cap);
  }

  lemma SpreadSmall(m: int, before: int, job: int, cap: int)
    ensures (m - 1) * (cap - 3 * job) == m * cap - cap - 3 * (m * job) + 3 * job
    ensures (4 * m - 1) * cap == 4 * (m * cap) - cap
    ensures 3 * m * (before + job) == 3 * (m * before) + 3 * (m * job)
  {
    Spread(3 * m, before, job);
    assert 3 * m * before == 3 * (m * before) && 3 * m * job == 3 * (m * job);
    assert (m - 1) * (cap - 3 * job) == m * (cap - 3 * job) - (cap - 3 * job);
    assert m * (cap - 3 * job) == m * cap - 3 * (m * job);
  }
}
