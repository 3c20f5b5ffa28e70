/** The strided views of a slice of rows: one for each size of the pattern, that lists all matrices
    of that size in the slice. */
module MatrixViews {
  import opened Arithmetic
  import opened Basics
  import opened Multiples
  import opened BlockShards
  import opened Orders

  /** Rows of a parameter whose rows are a repeating pattern of blocks. */
  datatype Slice = Slice(sizes: seq<nat>, start: nat, rows: nat, columns: nat)

  /** Matrices in a flat tensor, `matrixStride` elements apart, with rows `rowStride` apart. */
  datatype View = View(matrices: nat, rows: nat, columns: nat, matrixStride: nat, rowStride: nat, offset: nat)

  function Period(s: Slice): (period: nat)
    requires SizesOk(s.sizes)
    ensures period > 0
  {
    PeriodPositive(s.sizes);
    Sum(s.sizes)
  }

  /** The first row of the slice where a block of the pattern's `j`-th size may start. */
  function First(s: Slice, j: nat): (row: nat)
    requires SizesOk(s.sizes) && j < |s.sizes|
  {
    (Sum(s.sizes[..j]) - s.start) % Period(s)
  }

  /** How many blocks of the `j`-th size are complete in the slice. */
  function Count(s: Slice, j: nat): nat
    requires SizesOk(s.sizes) && j < |s.sizes|
  {
    var more := 1 + (s.rows - First(s, j) - s.sizes[j]) / Period(s);
    if more < 0 then 0 else more
  }

  /** The block lies in the slice. */
  predicate Complete(s: Slice, k: nat)
    requires SizesOk(s.sizes)
  {
    s.start <= BlockStart(s.sizes, k) && BlockStart(s.sizes, k + 1) <= s.start + s.rows
  }

  lemma QuotientAtMost(m: int, x: int, p: int)
    requires p > 0
    ensures m * p <= x <==> m <= x / p
  {
    var q := x / p;
    assert x == q * p + x % p;
    if m <= q {
      NonNegative(q - m, p);
      Distributes(p, m, q - m);
    } else {
      NonNegative(m - q - 1, p);
      Distributes(p, q + 1, m - q - 1);
      OneMore(q, p);
    }
  }

  lemma PartSum(sizes: seq<nat>, j: nat)
    requires SizesOk(sizes) && j < |sizes|
    ensures Sum(sizes[..j]) + sizes[j] <= Sum(sizes)
    decreases |sizes|
  {
    OneSizeMore(sizes, j);
    SumGrows(sizes, j + 1);
  }

  lemma {:induction false} SumGrows(sizes: seq<nat>, j: nat)
    requires j <= |sizes|
    ensures Sum(sizes[..j]) <= Sum(sizes)
  {
    if j < |sizes| {
      var shorter := sizes[..|sizes| - 1];
      assert shorter[..j] == sizes[..j];
      SumGrows(shorter, j);
    } else {
      assert sizes[..j] == sizes;
    }
  }

  /** Every block that starts in the slice or behind it is an occurrence of its size. */
  lemma OccurrenceOf(s: Slice, k: nat) returns (m: nat)
    requires SizesOk(s.sizes) && s.start <= BlockStart(s.sizes, k)
    ensures m * Period(s) >= 0 && BlockStart(s.sizes, k) == s.start + First(s, k % |s.sizes|) + m * Period(s)
  {
    m := WholePeriods(k / |s.sizes|, Sum(s.sizes[..k % |s.sizes|]) - s.start, Period(s));
  }

  lemma WholePeriods(q: nat, r: int, p: nat) returns (m: nat)
    requires p > 0 && q * p + r >= 0
    ensures m * p >= 0 && q * p + r == r % p + m * p
  {
    var d := q * p + r;
    m := d / p;
    NonNegative(m, p);
    var back: int := m - q;
    Distributes(p, q, back);
    QuotientIs(r, back, d % p, p);
  }

  /** Every occurrence of a size in the slice is a block; it is complete if it is counted. */
  lemma BlockOfOccurrence(s: Slice, j: nat, m: nat) returns (k: nat)
    requires SizesOk(s.sizes) && j < |s.sizes|
    ensures k % |s.sizes| == j && m * Period(s) >= 0 && BlockStart(s.sizes, k) == s.start + First(s, j) + m * Period(s)
    ensures m < Count(s, j) <==> Complete(s, k)
  {
    hide Sum;
    PartSum(s.sizes, j);
    var q := PeriodsAfter(Sum(s.sizes[..j]) - s.start, Period(s), m);
    NonNegative(q, |s.sizes|);
    k := q * |s.sizes| + j;
    QuotientIs(k, q, j, |s.sizes|);
    NextBlock(s.sizes, k);
    hide BlockStart;
    QuotientAtMost(m, s.rows - First(s, j) - s.sizes[j], Period(s));
  }

  /** The period that the `m`-th place behind the start falls into. */
  lemma PeriodsAfter(r: int, p: nat, m: nat) returns (q: nat)
    requires p > 0 && r < p
    ensures m * p >= 0 && q * p + r == r % p + m * p
  {
    var d := r / p;
    NonNegative(m, p);
    NegativeQuotient(r, p);
    q := m - d;
    Distributes(p, q, d);
  }

  lemma NegativeQuotient(r: int, p: nat)
    requires p > 0 && r < p
    ensures r / p <= 0
  {
  }

  // ----- How many rows the views have

  /** The blocks of the `j`-th size from block `a` to block `b`. */
  function Among(n: nat, a: nat, b: nat, j: nat): nat
    requires n > 0
  {
    if b <= a then 0 else Among(n, a, b - 1, j) + if (b - 1) % n == j then 1 else 0
  }

  /** `m` repetitions of the pattern behind block `k0`. */
  function Step(n: nat, k0: nat, m: nat): (k: nat) {
    NonNegative(m, n);
    k0 + m * n
  }

  lemma StepsApart(n: nat, k0: nat, m: nat, l: nat)
    requires n > 0
    ensures m < l <==> Step(n, k0, m) < Step(n, k0, l)
  {
    if m < l {
      NonNegative(l - m - 1, n);
      Distributes(n, m + 1, l - m - 1);
      OneMore(m, n);
    } else {
      NonNegative(m - l, n);
      Distributes(n, l, m - l);
    }
  }

  lemma StepFrom(n: nat, k0: nat, k: nat) returns (m: nat)
    requires n > 0 && k0 <= k && k % n == k0 % n
    ensures Step(n, k0, m) == k
  {
    var d := k / n - k0 / n;
    Distributes(n, k / n, -(k0 / n));
    if d < 0 {
      NonNegative(-d - 1, n);
      OneMore(-d - 1, n);
    }
    m := d;
  }

  lemma StepAt(n: nat, k0: nat, m: nat)
    requires n > 0
    ensures Step(n, k0, m) % n == k0 % n && Step(n, k0, m) >= k0 && Step(n, k0, 0) == k0
  {
    NonNegative(m, n);
    Distributes(n, k0 / n, m);
    QuotientIs(k0 + m * n, k0 / n + m, k0 % n, n);
  }

  /** `count` is how many steps there are from `k0` before block `b`. */
  ghost predicate Steps(n: nat, k0: nat, b: nat, count: nat) {
    forall m: nat :: m < count <==> Step(n, k0, m) < b
  }

  /** Counting in steps of the pattern counts them all. */
  lemma {:induction false} AmongIs(n: nat, a: nat, b: nat, k0: nat, count: nat)
    requires n > 0 && a <= k0 < a + n && Steps(n, k0, b, count)
    ensures Among(n, a, b, k0 % n) == count
  {
    hide Step, Steps;
    if b <= a {
      NoSteps(n, k0, b, count);
    } else {
      var before := StepBefore(n, a, b - 1, k0, count);
      AmongIs(n, a, b - 1, k0, before);
    }
  }

  lemma NoSteps(n: nat, k0: nat, b: nat, count: nat)
    requires n > 0 && Steps(n, k0, b, count) && b <= k0
    ensures count == 0
  {
    hide Step;
    StepAt(n, k0, 0);
    assert 0 < count <==> Step(n, k0, 0) < b;
  }

  lemma StepBefore(n: nat, a: nat, b: nat, k0: nat, count: nat) returns (before: nat)
    requires n > 0 && a <= k0 < a + n && a <= b && Steps(n, k0, b + 1, count)
    ensures Steps(n, k0, b, before) && count == before + if b % n == k0 % n then 1 else 0
  {
    hide Step;
    if b % n == k0 % n {
      if b < k0 {
        RemaindersDiffer(b, k0, n);
      }
      var m0 := StepFrom(n, k0, b);
      before := m0;
      forall m: nat ensures m < m0 <==> Step(n, k0, m) < b {
        StepsApart(n, k0, m, m0);
      }
      StepsApart(n, k0, m0, m0 + 1);
      assert m0 < count && !(m0 + 1 < count);
    } else {
      before := count;
      forall m: nat ensures m < count <==> Step(n, k0, m) < b {
        StepAt(n, k0, m);
        assert m < count <==> Step(n, k0, m) < b + 1;
      }
    }
  }

  /** The rows of the blocks of the first `j` sizes. */
  function RowsAmong(sizes: seq<nat>, a: nat, b: nat, j: nat): nat
    requires sizes != [] && j <= |sizes|
  {
    if j == 0 then 0
    else
      NonNegative(Among(|sizes|, a, b, j - 1), sizes[j - 1]);
      RowsAmong(sizes, a, b, j - 1) + Among(|sizes|, a, b, j - 1) * sizes[j - 1]
  }

  lemma {:induction false} OneBlockMore(sizes: seq<nat>, a: nat, b: nat, j: nat)
    requires sizes != [] && j <= |sizes| && a <= b
    ensures RowsAmong(sizes, a, b + 1, j) == RowsAmong(sizes, a, b, j) + if b % |sizes| < j then sizes[b % |sizes|]
        else 0
  {
    if j > 0 {
      OneBlockMore(sizes, a, b, j - 1);
      OneMore(Among(|sizes|, a, b, j - 1), sizes[j - 1]);
    }
  }

  lemma {:induction false} NoRows(sizes: seq<nat>, a: nat, b: nat, j: nat)
    requires sizes != [] && j <= |sizes| && b <= a
    ensures RowsAmong(sizes, a, b, j) == 0
  {
    if j > 0 {
      NoRows(sizes, a, b, j - 1);
    }
  }

  /** Blocks of all sizes have all rows from the first block to the last. */
  lemma {:induction false} AllRows(sizes: seq<nat>, a: nat, b: nat)
    requires SizesOk(sizes) && a <= b
    ensures RowsAmong(sizes, a, b, |sizes|) == BlockStart(sizes, b) - BlockStart(sizes, a)
  {
    hide BlockStart, RowsAmong;
    if a == b {
      NoRows(sizes, a, b, |sizes|);
    } else {
      AllRows(sizes, a, b - 1);
      OneBlockMore(sizes, a, b - 1, |sizes|);
      NextBlock(sizes, b - 1);
    }
  }

  /** The first block that starts in the slice or behind it. */
  lemma FirstBlockFrom(sizes: seq<nat>, row: nat) returns (a: nat)
    requires SizesOk(sizes)
    ensures row <= BlockStart(sizes, a) && (a > 0 ==> BlockStart(sizes, a - 1) < row)
  {
    hide BlockStart;
    Beyond(sizes, row + 1);
    var k := BlockOf(sizes, row, row + 1);
    a := if BlockStart(sizes, k) == row then k else k + 1;
    FirstBlock(sizes);
    if a > 0 && a == k {
      NextBlock(sizes, a - 1);
    }
  }

  lemma {:induction false} Beyond(sizes: seq<nat>, k: nat)
    requires SizesOk(sizes)
    ensures k <= BlockStart(sizes, k)
  {
    hide BlockStart;
    if k > 0 {
      Beyond(sizes, k - 1);
      NextBlock(sizes, k - 1);
    }
  }

  /** The complete blocks are those from the first one that starts in the slice to the one that
      the slice ends in. */
  lemma CompleteBlocks(s: Slice) returns (a: nat, b: nat)
    requires SizesOk(s.sizes)
    ensures s.start <= BlockStart(s.sizes, a) && (a > 0 ==> BlockStart(s.sizes, a - 1) < s.start)
    ensures BlockStart(s.sizes, b) <= s.start + s.rows < BlockStart(s.sizes, b + 1)
    ensures forall k: nat :: Complete(s, k) <==> a <= k < b
  {
    hide BlockStart;
    a := FirstBlockFrom(s.sizes, s.start);
    var end := s.start + s.rows;
    Beyond(s.sizes, end + 1);
    b := BlockOf(s.sizes, end, end + 1);
    forall k: nat ensures Complete(s, k) <==> a <= k < b {
      StartsSorted(s.sizes, a, k);
      if a > 0 {
        StartsSorted(s.sizes, k, a - 1);
      }
      StartsSorted(s.sizes, k + 1, b);
      StartsSorted(s.sizes, b + 1, k + 1);
    }
  }

  lemma StartsSorted(sizes: seq<nat>, k: nat, l: nat)
    requires SizesOk(sizes)
    ensures k <= l ==> BlockStart(sizes, k) <= BlockStart(sizes, l)
    ensures k < l ==> BlockStart(sizes, k) < BlockStart(sizes, l)
  {
    hide BlockStart;
    if k < l {
      BlocksInOrder(sizes, k, l);
    }
  }

  /** What is counted of a size is the complete blocks of that size. */
  lemma CountIs(s: Slice, j: nat, a: nat, b: nat)
    requires SizesOk(s.sizes) && j < |s.sizes| && s.start <= BlockStart(s.sizes, a)
    requires (a > 0 ==> BlockStart(s.sizes, a - 1) < s.start)
    requires forall k: nat :: Complete(s, k) <==> a <= k < b
    ensures Count(s, j) == Among(|s.sizes|, a, b, j)
  {
    hide BlockStart, First, Count, Complete, Period, Step;
    var n := |s.sizes|;
    var k0 := BlockOfOccurrence(s, j, 0);
    FirstOccurrence(s, j, a, k0);
    forall m: nat ensures m < Count(s, j) <==> Step(n, k0, m) < b {
      var k := BlockOfOccurrence(s, j, m);
      OccurrenceIs(s, j, k0, m, k);
      StepAt(n, k0, m);
    }
    AmongIs(n, a, b, k0, Count(s, j));
  }

  lemma FirstOccurrence(s: Slice, j: nat, a: nat, k0: nat)
    requires SizesOk(s.sizes) && j < |s.sizes| && s.start <= BlockStart(s.sizes, a)
    requires (a > 0 ==> BlockStart(s.sizes, a - 1) < s.start)
    requires BlockStart(s.sizes, k0) == s.start + First(s, j)
    ensures a <= k0 < a + |s.sizes|
  {
    hide BlockStart;
    if a > 0 {
      StartsSorted(s.sizes, k0, a - 1);
    }
    if k0 >= a + |s.sizes| {
      PeriodLater(s.sizes, k0 - |s.sizes|, 1);
      StartsSorted(s.sizes, a, k0 - |s.sizes|);
    }
  }

  lemma OccurrenceIs(s: Slice, j: nat, k0: nat, m: nat, k: nat)
    requires SizesOk(s.sizes) && j < |s.sizes| && m * Period(s) >= 0
    requires BlockStart(s.sizes, k0) == s.start + First(s, j)
    requires BlockStart(s.sizes, k) == s.start + First(s, j) + m * Period(s)
    ensures k == Step(|s.sizes|, k0, m)
  {
    hide BlockStart;
    PeriodLater(s.sizes, k0, m);
    StartsSorted(s.sizes, k, k0 + m * |s.sizes|);
    StartsSorted(s.sizes, k0 + m * |s.sizes|, k);
  }

  /** The rows that the views of the first `j` sizes have. */
  function CountedRows(s: Slice, j: nat): nat
    requires SizesOk(s.sizes) && j <= |s.sizes|
  {
    if j == 0 then 0
    else
      NonNegative(Count(s, j - 1), s.sizes[j - 1]);
      CountedRows(s, j - 1) + Count(s, j - 1) * s.sizes[j - 1]
  }

  lemma {:induction false} CountedAre(s: Slice, a: nat, b: nat, j: nat)
    requires SizesOk(s.sizes) && j <= |s.sizes| && s.start <= BlockStart(s.sizes, a)
    requires (a > 0 ==> BlockStart(s.sizes, a - 1) < s.start)
    requires forall k: nat :: Complete(s, k) <==> a <= k < b
    ensures CountedRows(s, j) == RowsAmong(s.sizes, a, b, j)
  {
    hide BlockStart, Complete, Count;
    if j > 0 {
      CountedAre(s, a, b, j - 1);
      CountIs(s, j - 1, a, b);
    }
  }

  /** A row where a block starts. */
  ghost predicate IsEdge(sizes: seq<nat>, row: nat)
    requires SizesOk(sizes)
  {
    exists k: nat :: BlockStart(sizes, k) == row
  }

  /** The slice is whole blocks. */
  ghost predicate WholeBlocks(s: Slice)
    requires SizesOk(s.sizes)
  {
    s.rows == 0 || (IsEdge(s.sizes, s.start) && IsEdge(s.sizes, s.start + s.rows))
  }

  /** The views have all rows of the slice exactly if it is whole blocks. */
  lemma AllRowsCounted(s: Slice)
    requires SizesOk(s.sizes)
    ensures CountedRows(s, |s.sizes|) == s.rows <==> WholeBlocks(s)
  {
    hide BlockStart, Complete, CountedRows;
    var a, b := CompleteBlocks(s);
    CountedAre(s, a, b, |s.sizes|);
    if b <= a {
      NoRows(s.sizes, a, b, |s.sizes|);
      if s.rows > 0 && WholeBlocks(s) {
        EdgesComplete(s, a, b);
      }
    } else {
      AllRows(s.sizes, a, b);
      if WholeBlocks(s) && s.rows > 0 {
        EdgesComplete(s, a, b);
      }
    }
  }

  lemma EdgesComplete(s: Slice, a: nat, b: nat)
    requires SizesOk(s.sizes) && s.rows > 0 && IsEdge(s.sizes, s.start) && IsEdge(s.sizes, s.start + s.rows)
    requires s.start <= BlockStart(s.sizes, a) && (a > 0 ==> BlockStart(s.sizes, a - 1) < s.start)
    requires BlockStart(s.sizes, b) <= s.start + s.rows < BlockStart(s.sizes, b + 1)
    ensures BlockStart(s.sizes, a) == s.start && BlockStart(s.sizes, b) == s.start + s.rows && a < b
  {
    hide BlockStart;
    var x: nat :| BlockStart(s.sizes, x) == s.start;
    var y: nat :| BlockStart(s.sizes, y) == s.start + s.rows;
    if a > 0 {
      StartsSorted(s.sizes, x, a - 1);
    }
    StartsSorted(s.sizes, a, x);
    StartsSorted(s.sizes, y, b);
    StartsSorted(s.sizes, b + 1, y);
    StartsSorted(s.sizes, b, a);
    StartsSorted(s.sizes, x, a);
    StartsSorted(s.sizes, b, y);
  }

  // ----- The views

  function ViewOf(s: Slice, j: nat): View
    requires SizesOk(s.sizes) && j < |s.sizes|
  {
    NonNegative(Period(s), s.columns);
    NonNegative(First(s, j), s.columns);
    View(Count(s, j), s.sizes[j], s.columns, Period(s) * s.columns, s.columns, First(s, j) * s.columns)
  }

  /** Element `c` of row `i` of matrix `m`, in the flat tensor. */
  function ElementOf(v: View, m: nat, i: nat, c: nat): int {
    v.offset + m * v.matrixStride + i * v.rowStride + c
  }

  datatype Place = Place(view: nat, matrix: nat, row: nat, column: nat)

  predicate PlaceOk(views: seq<View>, p: Place) {
    p.view < |views| && p.matrix < views[p.view].matrices && p.row < views[p.view].rows
        && p.column < views[p.view].columns
  }

  predicate IsAt(views: seq<View>, p: Place, e: int) {
    PlaceOk(views, p) && ElementOf(views[p.view], p.matrix, p.row, p.column) == e
  }

  /** The row of the slice that row `i` of matrix `m` of the `j`-th size is. */
  function RowAt(s: Slice, j: nat, m: nat, i: nat): int
    requires SizesOk(s.sizes) && j < |s.sizes|
  {
    First(s, j) + m * Period(s) + i
  }

  lemma ElementIs(s: Slice, j: nat, m: nat, i: nat, c: nat)
    requires SizesOk(s.sizes) && j < |s.sizes|
    ensures ElementOf(ViewOf(s, j), m, i, c) == RowAt(s, j, m, i) * s.columns + c
  {
    Associates(m, Period(s), s.columns);
    Distributes(s.columns, First(s, j), m * Period(s));
    Distributes(s.columns, First(s, j) + m * Period(s), i);
  }

  /** The rows of a counted matrix are those of a block in the slice. */
  lemma RowInBlock(s: Slice, j: nat, m: nat, i: nat) returns (k: nat)
    requires SizesOk(s.sizes) && j < |s.sizes| && m < Count(s, j) && i < s.sizes[j]
    ensures Complete(s, k) && k % |s.sizes| == j
    ensures s.start + RowAt(s, j, m, i) == BlockStart(s.sizes, k) + i < BlockStart(s.sizes, k + 1)
    ensures 0 <= RowAt(s, j, m, i) < s.rows
  {
    hide BlockStart, First, Count;
    k := BlockOfOccurrence(s, j, m);
    NextBlock(s.sizes, k);
  }

  /** A row of the slice in a complete block is a row of some counted matrix. */
  lemma RowCounted(s: Slice, k: nat, x: nat) returns (m: nat, i: nat)
    requires SizesOk(s.sizes) && Complete(s, k) && BlockStart(s.sizes, k) <= s.start + x < BlockStart(s.sizes, k + 1)
    ensures var j := k % |s.sizes|; m < Count(s, j) && i < s.sizes[j] && RowAt(s, j, m, i) == x
  {
    hide BlockStart, First, Count;
    m := OccurrenceOf(s, k);
    var l := BlockOfOccurrence(s, k % |s.sizes|, m);
    StartsSorted(s.sizes, k, l);
    StartsSorted(s.sizes, l, k);
    NextBlock(s.sizes, k);
    i := s.start + x - BlockStart(s.sizes, k);
  }

  /** A row is in one matrix only. */
  lemma RowOnce(s: Slice, j: nat, m: nat, i: nat, j1: nat, m1: nat, i1: nat)
    requires SizesOk(s.sizes) && j < |s.sizes| && m < Count(s, j) && i < s.sizes[j]
    requires j1 < |s.sizes| && m1 < Count(s, j1) && i1 < s.sizes[j1] && RowAt(s, j, m, i) == RowAt(s, j1, m1, i1)
    ensures j == j1 && m == m1 && i == i1
  {
    hide BlockStart, First, Count, Complete;
    var k := RowInBlock(s, j, m, i);
    var l := RowInBlock(s, j1, m1, i1);
    StartsSorted(s.sizes, k + 1, l);
    StartsSorted(s.sizes, l + 1, k);
    SameStep(m, m1, Period(s));
  }

  lemma SameStep(m: nat, l: nat, p: nat)
    requires p > 0
    ensures m * p == l * p ==> m == l
  {
    if m * p == l * p {
      Cancels(m, l, p);
    }
  }

  /** One view for each size that has a complete matrix, in the order of the pattern. */
  ghost predicate ViewsFor(s: Slice, views: seq<View>, js: seq<nat>, n: nat)
    requires SizesOk(s.sizes)
  {
    && |js| == |views| && (forall v :: 0 <= v < |js| ==>
                             js[v] < n && js[v] < |s.sizes| && Count(s, js[v]) > 0 && views[v] == ViewOf(s, js[v]))
    && (forall v, w :: 0 <= v < w < |js| ==> js[v] != js[w])
    && (forall j: nat :: j < n && j < |s.sizes| && Count(s, j) > 0 ==> j in js)
  }

  /** The slice's matrices, and whether they have all of its rows. */
  method CollectViews(s: Slice) returns (views: seq<View>, rows: nat, ghost js: seq<nat>)
    requires SizesOk(s.sizes)
    ensures ViewsFor(s, views, js, |s.sizes|) && rows == CountedRows(s, |s.sizes|)
  {
    hide First, Count, Period;
    views, js, rows := [], [], 0;
    var position := 0;
    for j := 0 to |s.sizes|
      invariant position == Sum(s.sizes[..j])
      invariant ViewsFor(s, views, js, j) && rows == CountedRows(s, j)
    {
      var period := Sum(s.sizes);
      PeriodPositive(s.sizes);
      var first := (position - s.start) % period;
      var more := 1 + (s.rows - first - s.sizes[j]) / period;
      var count := if more < 0 then 0 else more;
      CountedAs(s, j, position, first, count);
      if count > 0 {
        views, js := views + [View(count, s.sizes[j], s.columns, period * s.columns, s.columns, first * s.columns)],
            js + [j];
      }
      rows := rows + count * s.sizes[j];
      OneSizeMore(s.sizes, j);
      position := position + s.sizes[j];
    }
  }

  lemma CountedAs(s: Slice, j: nat, position: nat, first: int, count: int)
    requires SizesOk(s.sizes) && j < |s.sizes| && position == Sum(s.sizes[..j]) && Sum(s.sizes) > 0
    requires first == (position - s.start) % Sum(s.sizes)
    requires var more := 1 + (s.rows - first - s.sizes[j]) / Sum(s.sizes); count == if more < 0 then 0 else more
    ensures count == Count(s, j) && count * s.sizes[j] >= 0 && Sum(s.sizes) * s.columns >= 0 && first * s.columns >= 0
    ensures View(count, s.sizes[j], s.columns, Sum(s.sizes) * s.columns, s.columns, first * s.columns) == ViewOf(s, j)
  {
    NonNegative(count, s.sizes[j]);
    NonNegative(Sum(s.sizes), s.columns);
    NonNegative(first, s.columns);
  }

  ghost predicate HasPlace(views: seq<View>, e: int) {
    exists p: Place :: IsAt(views, p, e)
  }

  /** The views list every element of the slice once, matrix by matrix. */
  ghost predicate ListsOnce(s: Slice, views: seq<View>) {
    && (forall e: nat | e < s.rows * s.columns :: HasPlace(views, e))
    && (forall p: Place, q: Place, e: int | IsAt(views, p, e) && IsAt(views, q, e) :: p == q)
    && (forall p: Place, e: int | IsAt(views, p, e) :: 0 <= e < s.rows * s.columns)
  }

  /** Each matrix is one whole block of the slice. */
  ghost predicate MatricesAreBlocks(s: Slice, views: seq<View>)
    requires SizesOk(s.sizes)
  {
    forall v: nat, m: nat | v < |views| && m < views[v].matrices :: IsSomeBlock(s, views[v], m)
  }

  ghost predicate IsSomeBlock(s: Slice, v: View, m: nat)
    requires SizesOk(s.sizes)
  {
    exists k: nat :: IsBlock(s, v, m, k)
  }

  predicate IsBlock(s: Slice, v: View, m: nat, k: nat)
    requires SizesOk(s.sizes)
  {
    && Complete(s, k) && v.rows == BlockStart(s.sizes, k + 1) - BlockStart(s.sizes, k)
        && v.columns == v.rowStride == s.columns
    && ElementOf(v, m, 0, 0) == (BlockStart(s.sizes, k) - s.start) * s.columns
  }

  lemma ViewsListOnce(s: Slice, views: seq<View>, js: seq<nat>)
    requires SizesOk(s.sizes) && ViewsFor(s, views, js, |s.sizes|) && WholeBlocks(s)
    ensures ListsOnce(s, views)
  {
    hide BlockStart, First, Count, ViewOf, ElementOf, RowAt, Complete, Period, WholeBlocks;
    forall e: nat | e < s.rows * s.columns ensures HasPlace(views, e) {
      var p := PlaceFound(s, views, js, e);
    }
    forall p: Place, e: int | IsAt(views, p, e) ensures 0 <= e < s.rows * s.columns {
      PlaceInside(s, views, js, p, e);
    }
    forall p: Place, q: Place, e: int | IsAt(views, p, e) && IsAt(views, q, e) ensures p == q {
      PlaceOnce(s, views, js, p, q, e);
    }
  }

  lemma PlaceFound(s: Slice, views: seq<View>, js: seq<nat>, e: nat) returns (p: Place)
    requires SizesOk(s.sizes) && ViewsFor(s, views, js, |s.sizes|) && WholeBlocks(s) && e < s.rows * s.columns
    ensures IsAt(views, p, e)
  {
    hide BlockStart, First, Count, ElementOf, RowAt, Period, WholeBlocks;
    Positive(s.rows, s.columns);
    QuotientBelow(e, s.rows, s.columns);
    var x, c := e / s.columns, e % s.columns;
    var k := BlockHolding(s, x);
    var m, i := RowCounted(s, k, x);
    var j := k % |s.sizes|;
    assert j in js;
    var v: nat :| v < |js| && js[v] == j;
    ElementIs(s, j, m, i, c);
    p := Place(v, m, i, c);
  }

  /** A row of a slice of whole blocks is in one of them. */
  lemma BlockHolding(s: Slice, x: nat) returns (k: nat)
    requires SizesOk(s.sizes) && WholeBlocks(s) && x < s.rows
    ensures Complete(s, k) && BlockStart(s.sizes, k) <= s.start + x < BlockStart(s.sizes, k + 1)
  {
    hide BlockStart, Complete;
    var a, b := CompleteBlocks(s);
    EdgesComplete(s, a, b);
    k := BlockOf(s.sizes, s.start + x, b);
    StartsSorted(s.sizes, k + 1, a);
  }

  lemma PlaceInside(s: Slice, views: seq<View>, js: seq<nat>, p: Place, e: int)
    requires SizesOk(s.sizes) && ViewsFor(s, views, js, |s.sizes|) && IsAt(views, p, e)
    ensures 0 <= e < s.rows * s.columns
  {
    hide BlockStart, First, Count, ElementOf, RowAt, Period, Complete;
    var j := js[p.view];
    var k := RowInBlock(s, j, p.matrix, p.row);
    ElementIs(s, j, p.matrix, p.row, p.column);
    PlaceBelow(RowAt(s, j, p.matrix, p.row), s.rows, s.columns, p.column);
  }

  lemma PlaceOnce(s: Slice, views: seq<View>, js: seq<nat>, p: Place, q: Place, e: int)
    requires SizesOk(s.sizes) && ViewsFor(s, views, js, |s.sizes|) && IsAt(views, p, e) && IsAt(views, q, e)
    ensures p == q
  {
    hide BlockStart, First, Count, ElementOf, RowAt, Period, Complete;
    var j, l := js[p.view], js[q.view];
    ElementIs(s, j, p.matrix, p.row, p.column);
    ElementIs(s, l, q.matrix, q.row, q.column);
    QuotientIs(e, RowAt(s, j, p.matrix, p.row), p.column, s.columns);
    QuotientIs(e, RowAt(s, l, q.matrix, q.row), q.column, s.columns);
    RowOnce(s, j, p.matrix, p.row, l, q.matrix, q.row);
  }

  lemma ViewsAreBlocks(s: Slice, views: seq<View>, js: seq<nat>)
    requires SizesOk(s.sizes) && ViewsFor(s, views, js, |s.sizes|)
    ensures MatricesAreBlocks(s, views)
  {
    hide BlockStart, First, Count, ElementOf, RowAt, Period, Complete;
    forall v: nat, m: nat | v < |views| && m < views[v].matrices ensures IsSomeBlock(s, views[v], m) {
      var k := RowInBlock(s, js[v], m, 0);
      ElementIs(s, js[v], m, 0, 0);
      NextBlock(s.sizes, k);
      assert IsBlock(s, views[v], m, k);
    }
  }

  // ----- In the order of their offsets

  function Before(views: seq<View>): ((nat, nat) -> bool) {
    (v: nat, w: nat) => v < |views| && w < |views|
        && (views[v].offset < views[w].offset || (views[v].offset == views[w].offset && v < w))
  }

  function Pick(views: seq<View>, order: seq<nat>): (picked: seq<View>)
    requires forall k :: 0 <= k < |order| ==> order[k] < |views|
    ensures |picked| == |order| && forall k :: 0 <= k < |order| ==> picked[k] == views[order[k]]
  {
    seq(|order|, k requires 0 <= k < |order| => views[order[k]])
  }

  /** The views of a slice, by offset. It fails exactly if the slice isn't whole blocks; otherwise
      they list every element of it once, and each matrix is one block. */
  method MatrixBatchViews(s: Slice) returns (ok: bool, views: seq<View>)
    requires SizesOk(s.sizes)
    ensures ok <==> WholeBlocks(s)
    ensures ok ==> ListsOnce(s, views) && MatricesAreBlocks(s, views)
    ensures forall v, w :: 0 <= v < w < |views| ==> views[v].offset <= views[w].offset
  {
    hide WholeBlocks, ViewsFor, ListsOnce, MatricesAreBlocks, CountedRows;
    var collected, rows, js := CollectViews(s);
    AllRowsCounted(s);
    var order := SortNumbers(|collected|, Before(collected));
    ghost var ordered := ViewsReordered(s, collected, js, order);
    views := Pick(collected, order);
    ok := rows == s.rows;
    if ok {
      ViewsListOnce(s, views, ordered);
      ViewsAreBlocks(s, views, ordered);
    }
  }

  lemma ViewsReordered(s: Slice, views: seq<View>, js: seq<nat>, order: seq<nat>) returns (ordered: seq<nat>)
    requires SizesOk(s.sizes) && ViewsFor(s, views, js, |s.sizes|) && IsOrder(order, |views|)
    ensures ViewsFor(s, Pick(views, order), ordered, |s.sizes|)
  {
    hide Count, ViewOf;
    ordered := seq(|order|, k requires 0 <= k < |order| => js[order[k]]);
    forall j: nat | j < |s.sizes| && Count(s, j) > 0 ensures j in ordered {
      assert j in js;
      var v: nat :| v < |js| && js[v] == j;
      var i := PlaceOf(order, |views|, v);
      assert ordered[i] == j;
    }
  }

  /** The rows of a shard of blocks are whole blocks. */
  lemma ShardIsWhole(sizes: seq<nat>, units: nat, n: nat, j: nat, columns: nat)
    requires SizesOk(sizes) && n > 0
    ensures var shard := LocalShard(units, n, j);
            var start, end := BlockStart(sizes, shard.1), BlockStart(sizes, shard.1 + shard.0);
            start <= end && WholeBlocks(Slice(sizes, start, end - start, columns))
  {
    hide BlockStart, LocalShard;
    var shard := LocalShard(units, n, j);
    StartsSorted(sizes, shard.1, shard.1 + shard.0);
    var start, end := BlockStart(sizes, shard.1), BlockStart(sizes, shard.1 + shard.0);
    assert IsEdge(sizes, start) && IsEdge(sizes, end);
  }
}
