/** Expert-parallel dispatch and combine: rows go to the ranks that hold their experts, are
    regrouped by expert, processed, and come back, as if every rank held all experts. */
module ExpertParallel {
  import opened Basics
  import opened Arithmetic
  import O = Orders

  // ----- Counts, starts and groups

  /** The exclusive running sums: where each group starts. */
  function Starts(c: seq<nat>): (s: seq<nat>)
    ensures |s| == |c| && forall k :: 0 <= k < |c| ==> s[k] == Sum(c[..k])
  {
    seq(|c|, k requires 0 <= k < |c| => Sum(c[..k]))
  }

  /** The group that element `j` is in, when the groups follow each other. */
  function GroupOf(c: seq<nat>, j: nat): (k: nat)
    requires j < Sum(c)
    ensures k < |c| && Sum(c[..k]) <= j < Sum(c[..k]) + c[k]
  {
    var n := |c| - 1;
    if j < Sum(c[..n]) then
      var k := GroupOf(c[..n], j);
      assert c[..n][..k] == c[..k];
      k
    else
      n
  }

  /** Each index of `lens` as often as `lens` says. */
  function RepeatInterleave(lens: seq<nat>): seq<nat> {
    if lens == [] then []
    else
      var n := |lens| - 1;
      RepeatInterleave(lens[..n]) + seq(lens[n], _ => n)
  }

  lemma {:induction false} RepeatsGroup(lens: seq<nat>)
    ensures |RepeatInterleave(lens)| == Sum(lens)
    ensures forall j :: 0 <= j < Sum(lens) ==> RepeatInterleave(lens)[j] == GroupOf(lens, j)
  {
    if lens != [] {
      RepeatsGroup(lens[..|lens| - 1]);
    }
  }

  lemma {:induction false} SumPrefix(c: seq<nat>, i: nat, j: nat)
    requires i <= j <= |c|
    ensures Sum(c[..i]) <= Sum(c[..j])
    ensures i < j ==> Sum(c[..i]) + c[i] <= Sum(c[..j])
  {
    if i < j {
      SumPrefix(c, i, j - 1);
      assert c[..j][..j - 1] == c[..j - 1];
    }
  }

  lemma SumWhole(c: seq<nat>)
    ensures Sum(c[..|c|]) == Sum(c)
  {
    assert c[..|c|] == c;
  }

  /** An element of a group is in that group. */
  lemma GroupIs(c: seq<nat>, k: nat, o: nat)
    requires k < |c| && o < c[k]
    ensures Sum(c[..k]) + o < Sum(c) && GroupOf(c, Sum(c[..k]) + o) == k
  {
    SumPrefix(c, k, |c|);
    SumWhole(c);
    var j := Sum(c[..k]) + o;
    var g := GroupOf(c, j);
    if g < k {
      SumPrefix(c, g, k);
    } else if k < g {
      SumPrefix(c, k, g);
    }
  }

  // ----- Concatenation

  function Concat<T>(parts: seq<seq<T>>): seq<T> {
    if parts == [] then [] else Concat(parts[..|parts| - 1]) + parts[|parts| - 1]
  }

  function Lengths<T>(parts: seq<seq<T>>): (c: seq<nat>)
    ensures |c| == |parts| && forall k :: 0 <= k < |parts| ==> c[k] == |parts[k]|
  {
    seq(|parts|, k requires 0 <= k < |parts| => |parts[k]|)
  }

  lemma {:induction false} ConcatLength<T>(parts: seq<seq<T>>)
    ensures |Concat(parts)| == Sum(Lengths(parts))
  {
    if parts != [] {
      var n := |parts| - 1;
      ConcatLength(parts[..n]);
      assert Lengths(parts)[..n] == Lengths(parts[..n]);
    }
  }

  /** Where the elements of a part are. */
  lemma {:induction false} ConcatAt<T>(parts: seq<seq<T>>, k: nat, o: nat)
    requires k < |parts| && o < |parts[k]|
    ensures Sum(Lengths(parts)[..k]) + o < |Concat(parts)|
    ensures Concat(parts)[Sum(Lengths(parts)[..k]) + o] == parts[k][o]
    decreases |parts|
  {
    var n := |parts| - 1;
    ConcatLength(parts[..n]);
    assert Lengths(parts)[..n] == Lengths(parts[..n]);
    if k < n {
      ConcatAt(parts[..n], k, o);
      assert Lengths(parts)[..k] == Lengths(parts[..n])[..k];
    }
  }

  // ----- Matrices of counts

  predicate IsMatrix<T>(m: seq<seq<T>>, cols: nat) {
    forall r :: 0 <= r < |m| ==> |m[r]| == cols
  }

  function Transpose<T>(m: seq<seq<T>>, cols: nat): (t: seq<seq<T>>)
    requires IsMatrix(m, cols)
    ensures |t| == cols && IsMatrix(t, |m|) && forall r, l :: 0 <= r < |m| && 0 <= l < cols ==> t[l][r] == m[r][l]
  {
    seq(cols, l requires 0 <= l < cols => seq(|m|, r requires 0 <= r < |m| => m[r][l]))
  }

  /** A flat list as rows of the given length. */
  function View<T>(c: seq<T>, rows: nat, cols: nat): (m: seq<seq<T>>)
    requires |c| == rows * cols
    ensures |m| == rows && IsMatrix(m, cols) && Concat(m) == c
    decreases rows
  {
    if rows == 0 then []
    else
      OneMore(rows - 1, cols);
      NonNegative(rows - 1, cols);
      var start := (rows - 1) * cols;
      assert c == c[..start] + c[start..];
      View(c[..start], rows - 1, cols) + [c[start..]]
  }

  lemma {:induction false} FlatLength<T>(m: seq<seq<T>>, cols: nat)
    requires IsMatrix(m, cols)
    ensures |Concat(m)| == |m| * cols
  {
    if m != [] {
      var n: nat := |m| - 1;
      FlatLength(m[..n], cols);
      OneMore(n, cols);
    }
  }

  /** The element of a flattened matrix. */
  lemma {:induction false} FlatAt<T>(m: seq<seq<T>>, cols: nat, r: nat, l: nat)
    requires IsMatrix(m, cols) && r < |m| && l < cols
    ensures 0 <= r * cols + l < |Concat(m)| && Concat(m)[r * cols + l] == m[r][l]
    decreases |m|
  {
    var n: nat := |m| - 1;
    FlatLength(m[..n], cols);
    NonNegative(r, cols);
    if r < n {
      FlatAt(m[..n], cols, r, l);
    }
  }

  /** The rows' sums. */
  function RowSums(m: seq<seq<nat>>): (s: seq<nat>)
    ensures |s| == |m| && forall r :: 0 <= r < |m| ==> s[r] == Sum(m[r])
  {
    seq(|m|, r requires 0 <= r < |m| => Sum(m[r]))
  }

  lemma {:induction false} SumConcat(a: seq<nat>, b: seq<nat>)
    ensures Sum(a + b) == Sum(a) + Sum(b)
  {
    if b == [] {
      assert a + b == a;
    } else {
      assert (a + b)[..|a + b| - 1] == a + b[..|b| - 1];
      SumConcat(a, b[..|b| - 1]);
    }
  }

  lemma {:induction false} SumFlat(m: seq<seq<nat>>)
    ensures Sum(Concat(m)) == Sum(RowSums(m))
  {
    if m != [] {
      var n := |m| - 1;
      SumFlat(m[..n]);
      assert RowSums(m)[..n] == RowSums(m[..n]);
      SumConcat(Concat(m[..n]), m[n]);
    }
  }

  /** In a flattened matrix, row `r`, column `l` starts after the rows before and the row's own
      elements before. */
  lemma {:induction false} FlatStart(m: seq<seq<nat>>, cols: nat, r: nat, l: nat)
    requires IsMatrix(m, cols) && r < |m| && l < cols
    ensures 0 <= r * cols + l <= |Concat(m)|
    ensures Sum(Concat(m)[..r * cols + l]) == Sum(RowSums(m)[..r]) + Sum(m[r][..l])
    decreases |m|
  {
    hide Sum;
    var n: nat := |m| - 1;
    var at := r * cols + l;
    FlatAt(m, cols, r, l);
    FlatLength(m[..n], cols);
    if r < n {
      FlatAt(m[..n], cols, r, l);
      FlatStart(m[..n], cols, r, l);
      assert Concat(m)[..at] == Concat(m[..n])[..at];
      assert RowSums(m)[..r] == RowSums(m[..n])[..r];
    } else {
      assert Concat(m)[..at] == Concat(m[..n]) + m[n][..l];
      SumConcat(Concat(m[..n]), m[n][..l]);
      SumFlat(m[..n]);
      assert RowSums(m)[..n] == RowSums(m[..n]);
    }
  }

  lemma {:induction false} SumPointwise(a: seq<nat>, b: seq<nat>, c: seq<nat>)
    requires |a| == |b| == |c| && forall k :: 0 <= k < |a| ==> c[k] == a[k] + b[k]
    ensures Sum(c) == Sum(a) + Sum(b)
  {
    if a != [] {
      var n := |a| - 1;
      SumPointwise(a[..n], b[..n], c[..n]);
    }
  }

  lemma {:induction false} SumZeros(c: seq<nat>)
    requires forall k :: 0 <= k < |c| ==> c[k] == 0
    ensures Sum(c) == 0
  {
    if c != [] {
      SumZeros(c[..|c| - 1]);
    }
  }

  /** A matrix and its transpose add up to the same. */
  lemma {:induction false} TransposeSum(m: seq<seq<nat>>, cols: nat)
    requires IsMatrix(m, cols)
    ensures Sum(RowSums(Transpose(m, cols))) == Sum(RowSums(m))
  {
    hide Sum;
    if m == [] {
      forall l | 0 <= l < cols ensures RowSums(Transpose(m, cols))[l] == 0 {
        SumZeros(Transpose(m, cols)[l]);
      }
      SumZeros(RowSums(Transpose(m, cols)));
      SumZeros(RowSums(m));
    } else {
      var n := |m| - 1;
      var before, all := Transpose(m[..n], cols), Transpose(m, cols);
      TransposeSum(m[..n], cols);
      forall l | 0 <= l < cols ensures RowSums(all)[l] == RowSums(before)[l] + m[n][l] {
        assert all[l] == before[l] + [m[n][l]];
        SumConcat(before[l], [m[n][l]]);
        SumOne(m[n][l]);
      }
      SumPointwise(RowSums(before), m[n], RowSums(all));
      assert RowSums(m) == RowSums(m[..n]) + [Sum(m[n])];
      SumConcat(RowSums(m[..n]), [Sum(m[n])]);
      SumOne(Sum(m[n]));
    }
  }

  lemma SumOne(x: nat)
    ensures Sum([x]) == x
  {
    assert Sum([x]) == Sum([]) + x;
  }

  // ----- The permutation

  /** The lengths of the (expert, rank) segments that the regrouped rows consist of. */
  function SegmentLens(received: seq<seq<nat>>, e: nat): seq<nat>
    requires IsMatrix(received, e)
  {
    Concat(Transpose(received, e))
  }

  /** Where each (expert, rank) segment starts in the rows as received. */
  function InputStarts(received: seq<seq<nat>>, e: nat): seq<nat>
    requires IsMatrix(received, e)
  {
    FlatLength(received, e);
    Concat(Transpose(View(Starts(Concat(received)), |received|, e), e))
  }

  function PermutedIndices(received: seq<seq<nat>>, e: nat): (p: seq<int>)
    requires IsMatrix(received, e)
    ensures |p| == Sum(SegmentLens(received, e))
  {
    var lens, starts := SegmentLens(received, e), InputStarts(received, e);
    var ids, outputStarts := RepeatInterleave(lens), Starts(lens);
    RepeatsGroup(lens);
    SameSegments(received, e);
    seq(|ids|, j requires 0 <= j < |ids| => starts[ids[j]] + j - outputStarts[ids[j]])
  }

  lemma SameSegments(received: seq<seq<nat>>, e: nat)
    requires IsMatrix(received, e)
    ensures |InputStarts(received, e)| == |SegmentLens(received, e)| == e * |received|
  {
    FlatLength(received, e);
    FlatLength(Transpose(received, e), |received|);
    FlatLength(Transpose(View(Starts(Concat(received)), |received|, e), e), |received|);
  }

  /** Where expert `l`'s rows from rank `r` start, as received. */
  function ReceivedStart(received: seq<seq<nat>>, r: nat, l: nat): nat
    requires r < |received| && l < |received[r]|
  {
    Sum(RowSums(received)[..r]) + Sum(received[r][..l])
  }

  /** And where they start after regrouping. */
  function RegroupedStart(received: seq<seq<nat>>, e: nat, l: nat, r: nat): nat
    requires IsMatrix(received, e) && r < |received| && l < e
  {
    Sum(RowSums(Transpose(received, e))[..l]) + Sum(Transpose(received, e)[l][..r])
  }

  lemma SegmentIs(received: seq<seq<nat>>, e: nat, l: nat, r: nat)
    requires IsMatrix(received, e) && r < |received| && l < e
    ensures 0 <= l * |received| + r < |SegmentLens(received, e)| == |InputStarts(received, e)|
    ensures SegmentLens(received, e)[l * |received| + r] == received[r][l]
    ensures InputStarts(received, e)[l * |received| + r] == ReceivedStart(received, r, l)
    ensures Sum(SegmentLens(received, e)[..l * |received| + r]) == RegroupedStart(received, e, l, r)
  {
    hide Sum, Concat;
    var n := |received|;
    var counts := Concat(received);
    FlatLength(received, e);
    SameSegments(received, e);
    var starts := View(Starts(counts), n, e);
    FlatAt(Transpose(received, e), n, l, r);
    FlatAt(Transpose(starts, e), n, l, r);
    FlatAt(starts, e, r, l);
    FlatAt(received, e, r, l);
    FlatStart(received, e, r, l);
    FlatStart(Transpose(received, e), n, l, r);
  }

  /** A row of a segment comes from the same place of that segment as received. */
  lemma PermutedAt(received: seq<seq<nat>>, e: nat, l: nat, r: nat, o: nat)
    requires IsMatrix(received, e) && r < |received| && l < e && o < received[r][l]
    ensures RegroupedStart(received, e, l, r) + o < |PermutedIndices(received, e)|
    ensures PermutedIndices(received, e)[RegroupedStart(received, e, l, r) + o] == ReceivedStart(received, r, l) + o
  {
    hide Sum, Concat, ReceivedStart, RegroupedStart, SegmentLens, InputStarts;
    var s := l * |received| + r;
    var lens := SegmentLens(received, e);
    SegmentIs(received, e, l, r);
    GroupIs(lens, s, o);
    RepeatsGroup(lens);
  }

  lemma Unflatten(k: nat, rows: nat, cols: nat) returns (r: nat, l: nat)
    requires k < rows * cols
    ensures r < rows && l < cols && k == r * cols + l
  {
    Positive(rows, cols);
    QuotientBelow(k, rows, cols);
    r, l := k / cols, k % cols;
  }

  /** Every row after regrouping is in some segment. */
  lemma RegroupedRow(received: seq<seq<nat>>, e: nat, j: nat) returns (l: nat, r: nat, o: nat)
    requires IsMatrix(received, e) && j < |PermutedIndices(received, e)|
    ensures r < |received| && l < e && o < received[r][l] && j == RegroupedStart(received, e, l, r) + o
  {
    hide Sum, Concat, RegroupedStart, SegmentLens;
    var lens := SegmentLens(received, e);
    var s := GroupOf(lens, j);
    SameSegments(received, e);
    l, r := Unflatten(s, e, |received|);
    SegmentIs(received, e, l, r);
    o := j - Sum(lens[..s]);
  }

  /** Regrouping is a permutation of the received rows. */
  lemma PermutedIsPermutation(received: seq<seq<nat>>, e: nat)
    requires IsMatrix(received, e)
    ensures |PermutedIndices(received, e)| == Sum(Concat(received))
    ensures forall j :: 0 <= j < |PermutedIndices(received, e)|
             ==> 0 <= PermutedIndices(received, e)[j] < Sum(Concat(received))
    ensures forall i, j :: 0 <= i < j < |PermutedIndices(received, e)| ==>
                             PermutedIndices(received, e)[i] != PermutedIndices(received, e)[j]
  {
    hide PermutedIndices, RegroupedStart, ReceivedStart, Concat, Sum, SegmentLens;
    var p := PermutedIndices(received, e);
    SegmentTotal(received, e);
    forall j | 0 <= j < |p| ensures 0 <= p[j] < Sum(Concat(received)) {
      var l, r, o := RegroupedRow(received, e, j);
      PermutedAt(received, e, l, r, o);
      ReceivedGroup(received, e, r, l, o);
    }
    forall i, j | 0 <= i < j < |p| ensures p[i] != p[j] {
      var l, r, o := RegroupedRow(received, e, i);
      var l', r', o' := RegroupedRow(received, e, j);
      PermutedAt(received, e, l, r, o);
      PermutedAt(received, e, l', r', o');
      if p[i] == p[j] {
        ReceivedGroup(received, e, r, l, o);
        ReceivedGroup(received, e, r', l', o');
        SamePlace(r, l, r', l', e);
      }
    }
  }

  lemma SamePlace(r: nat, l: nat, r': nat, l': nat, e: nat)
    requires l < e && l' < e && r * e + l == r' * e + l'
    ensures r == r' && l == l'
  {
    QuotientIs(r * e + l, r, l, e);
    QuotientIs(r * e + l, r', l', e);
  }

  lemma SegmentTotal(received: seq<seq<nat>>, e: nat)
    requires IsMatrix(received, e)
    ensures Sum(SegmentLens(received, e)) == Sum(Concat(received))
  {
    SumFlat(received);
    SumFlat(Transpose(received, e));
    TransposeSum(received, e);
  }

  /** The received rows of a segment are group `r * e + l` of the flat counts. */
  lemma ReceivedGroup(received: seq<seq<nat>>, e: nat, r: nat, l: nat, o: nat)
    requires IsMatrix(received, e) && r < |received| && l < e && o < received[r][l]
    ensures ReceivedStart(received, r, l) + o < Sum(Concat(received))
    ensures GroupOf(Concat(received), ReceivedStart(received, r, l) + o) == r * e + l
    ensures 0 <= r * e + l < |Concat(received)| && ReceivedStart(received, r, l) == Sum(Concat(received)[..r * e + l])
  {
    hide Sum, Concat;
    FlatAt(received, e, r, l);
    FlatStart(received, e, r, l);
    GroupIs(Concat(received), r * e + l, o);
  }

  /** How many rows each of the rank's experts gets. */
  function PerExpert(received: seq<seq<nat>>, e: nat): seq<nat>
    requires IsMatrix(received, e)
  {
    RowSums(Transpose(received, e))
  }

  /** After regrouping, every expert's rows are contiguous and in the experts' order. */
  lemma ExpertContiguous(received: seq<seq<nat>>, e: nat, l: nat, r: nat, o: nat)
    requires IsMatrix(received, e) && r < |received| && l < e && o < received[r][l]
    ensures RegroupedStart(received, e, l, r) + o < Sum(PerExpert(received, e))
    ensures GroupOf(PerExpert(received, e), RegroupedStart(received, e, l, r) + o) == l
  {
    hide Sum, Concat;
    var t := Transpose(received, e);
    SumPrefix(t[l], r, |received|);
    SumWhole(t[l]);
    GroupIs(RowSums(t), l, Sum(t[l][..r]) + o);
  }

  // ----- The exchanges

  /** What a rank sends to rank `g`: the `g`-th part of its rows, by its splits. */
  function Chunk<T>(x: seq<T>, splits: seq<nat>, g: nat): (chunk: seq<T>)
    requires g < |splits| && |x| == Sum(splits)
    ensures |chunk| == splits[g]
  {
    SumPrefix(splits, g, |splits|);
    SumWhole(splits);
    x[Sum(splits[..g])..Sum(splits[..g]) + splits[g]]
  }

  predicate SplitsFit<T>(xs: seq<seq<T>>, splits: seq<seq<nat>>) {
    |xs| == |splits| && IsMatrix(splits, |xs|) && forall r :: 0 <= r < |xs| ==> |xs[r]| == Sum(splits[r])
  }

  function ChunksFor<T>(xs: seq<seq<T>>, splits: seq<seq<nat>>, g: nat): (chunks: seq<seq<T>>)
    requires SplitsFit(xs, splits) && g < |xs|
    ensures |chunks| == |xs| && forall r :: 0 <= r < |xs| ==> chunks[r] == Chunk(xs[r], splits[r], g)
  {
    seq(|xs|, r requires 0 <= r < |xs| => Chunk(xs[r], splits[r], g))
  }

  /** What rank `g` receives: the parts that all ranks have for it, rank by rank. */
  function AllToAll<T>(xs: seq<seq<T>>, splits: seq<seq<nat>>, g: nat): seq<T>
    requires SplitsFit(xs, splits) && g < |xs|
  {
    Concat(ChunksFor(xs, splits, g))
  }

  /** Element `o` of what rank `r` sends to rank `g` arrives behind what the ranks before send. */
  lemma Arrives<T>(xs: seq<seq<T>>, splits: seq<seq<nat>>, g: nat, received: seq<nat>, r: nat, o: nat)
    requires SplitsFit(xs, splits) && g < |xs| == |received| && r < |xs| && o < received[r]
    requires forall s :: 0 <= s < |xs| ==> received[s] == splits[s][g]
    ensures Sum(splits[r][..g]) + o < |xs[r]| && Sum(received[..r]) + o < |AllToAll(xs, splits, g)|
    ensures AllToAll(xs, splits, g)[Sum(received[..r]) + o] == xs[r][Sum(splits[r][..g]) + o]
  {
    hide Sum, Concat;
    var chunks := ChunksFor(xs, splits, g);
    assert Lengths(chunks) == received;
    ConcatAt(chunks, r, o);
    SumPrefix(splits[r], g, |splits[r]|);
    SumWhole(splits[r]);
  }

  lemma ArrivedLength<T>(xs: seq<seq<T>>, splits: seq<seq<nat>>, g: nat, received: seq<nat>)
    requires SplitsFit(xs, splits) && g < |xs| == |received|
    requires forall s :: 0 <= s < |xs| ==> received[s] == splits[s][g]
    ensures |AllToAll(xs, splits, g)| == Sum(received)
  {
    hide Sum, Concat;
    var chunks := ChunksFor(xs, splits, g);
    assert Lengths(chunks) == received;
    ConcatLength(chunks);
  }

  // ----- Dispatch and combine

  /** The counts of all ranks: `counts[r][x]` rows of rank `r` go to expert `x`; each of the
      ranks holds `e` experts. */
  predicate CountsOk<T>(rows: seq<seq<T>>, counts: seq<seq<nat>>, e: nat) {
    && |rows| == |counts|
    && (forall r :: 0 <= r < |counts| ==> |counts[r]| == |counts| * e && |rows[r]| == Sum(counts[r]))
  }

  /** Row `r`: what rank `r` sends to each of rank `g`'s experts. */
  function ReceivedCounts(counts: seq<seq<nat>>, e: nat, g: nat): (received: seq<seq<nat>>)
    requires (forall r :: 0 <= r < |counts| ==> |counts[r]| == |counts| * e) && g < |counts|
    ensures |received| == |counts| && IsMatrix(received, e)
    ensures forall r :: 0 <= r < |counts| ==> received[r] == View(counts[r], |counts|, e)[g]
  {
    seq(|counts|, r requires 0 <= r < |counts| => View(counts[r], |counts|, e)[g])
  }

  /** How many rows a rank sends to each rank. */
  function InputSplits(counts: seq<seq<nat>>, e: nat, r: nat): seq<nat>
    requires r < |counts| && |counts[r]| == |counts| * e
  {
    RowSums(View(counts[r], |counts|, e))
  }

  function AllInputSplits(counts: seq<seq<nat>>, e: nat): (splits: seq<seq<nat>>)
    requires forall r :: 0 <= r < |counts| ==> |counts[r]| == |counts| * e
    ensures |splits| == |counts| && forall r :: 0 <= r < |counts| ==> splits[r] == InputSplits(counts, e, r)
  {
    seq(|counts|, r requires 0 <= r < |counts| => InputSplits(counts, e, r))
  }

  /** How many rows a rank receives from each rank. */
  function OutputSplits(counts: seq<seq<nat>>, e: nat, g: nat): seq<nat>
    requires (forall r :: 0 <= r < |counts| ==> |counts[r]| == |counts| * e) && g < |counts|
  {
    RowSums(ReceivedCounts(counts, e, g))
  }

  function AllOutputSplits(counts: seq<seq<nat>>, e: nat): (splits: seq<seq<nat>>)
    requires forall r :: 0 <= r < |counts| ==> |counts[r]| == |counts| * e
    ensures |splits| == |counts| && forall g :: 0 <= g < |counts| ==> splits[g] == OutputSplits(counts, e, g)
  {
    seq(|counts|, g requires 0 <= g < |counts| => OutputSplits(counts, e, g))
  }

  /** The two sides of every exchange have the same splits. */
  lemma SplitsMatch<T>(rows: seq<seq<T>>, counts: seq<seq<nat>>, e: nat)
    requires CountsOk(rows, counts, e)
    ensures SplitsFit(rows, AllInputSplits(counts, e))
    ensures IsMatrix(AllOutputSplits(counts, e), |counts|)
    ensures forall r, g | 0 <= r < |counts| && 0 <= g < |counts| :: AllInputSplits(counts, e)[r][g]
             == AllOutputSplits(counts, e)[g][r]
  {
    hide Sum, Concat;
    forall r | 0 <= r < |counts| ensures Sum(InputSplits(counts, e, r)) == Sum(counts[r]) {
      SumFlat(View(counts[r], |counts|, e));
    }
  }

  /** The rows as rank `g` receives them. */
  function Arrived<T>(rows: seq<seq<T>>, counts: seq<seq<nat>>, e: nat, g: nat): (arrived: seq<T>)
    requires CountsOk(rows, counts, e) && g < |counts|
    ensures |arrived| == Sum(Concat(ReceivedCounts(counts, e, g)))
  {
    SplitsMatch(rows, counts, e);
    ArrivedLength(rows, AllInputSplits(counts, e), g, OutputSplits(counts, e, g));
    SumFlat(ReceivedCounts(counts, e, g));
    AllToAll(rows, AllInputSplits(counts, e), g)
  }

  /** The rows as rank `g`'s experts process them. */
  function Dispatch<T>(rows: seq<seq<T>>, counts: seq<seq<nat>>, e: nat, g: nat): (regrouped: seq<T>)
    requires CountsOk(rows, counts, e) && g < |counts|
    ensures |regrouped| == Sum(PerExpert(ReceivedCounts(counts, e, g), e))
  {
    var received, arrived := ReceivedCounts(counts, e, g), Arrived(rows, counts, e, g);
    PermutedIsPermutation(received, e);
    SumFlat(received);
    TransposeSum(received, e);
    var p := PermutedIndices(received, e);
    seq(|p|, j requires 0 <= j < |p| => arrived[p[j]])
  }

  /** Rows grouped by expert, each processed by its expert. */
  function Grouped<T, U>(f: (nat, T) -> U, first: nat, groups: seq<nat>, rows: seq<T>): (out: seq<U>)
    requires |rows| == Sum(groups)
    ensures |out| == |rows| && forall j :: 0 <= j < |rows| ==> out[j] == f(first + GroupOf(groups, j), rows[j])
  {
    seq(|rows|, j requires 0 <= j < |rows| => f(first + GroupOf(groups, j), rows[j]))
  }

  /** Writes row `j` to index `indices[j]` of a fresh buffer. */
  function Scatter<U>(scratch: seq<U>, indices: seq<int>, rows: seq<U>, n: nat): (out: seq<U>)
    requires |indices| == |rows| && n <= |rows| && forall j :: 0 <= j < |indices| ==> 0 <= indices[j] < |scratch|
    ensures |out| == |scratch|
  {
    if n == 0 then scratch else Scatter(scratch, indices, rows, n - 1)[indices[n - 1] := rows[n - 1]]
  }

  lemma {:induction false} Scattered<U>(scratch: seq<U>, indices: seq<int>, rows: seq<U>, n: nat, j: nat)
    requires |indices| == |rows| && j < n <= |rows| && forall i :: 0 <= i < |indices| ==> 0 <= indices[i] < |scratch|
    requires forall i, k :: 0 <= i < k < |indices| ==> indices[i] != indices[k]
    ensures Scatter(scratch, indices, rows, n)[indices[j]] == rows[j]
  {
    if j < n - 1 {
      Scattered(scratch, indices, rows, n - 1, j);
    }
  }

  /** The expert outputs of rank `g`, back in the order in which it received the rows. */
  function Unpermuted<U>(scratch: seq<U>, out: seq<U>, counts: seq<seq<nat>>, e: nat, g: nat): (rows: seq<U>)
    requires (forall r :: 0 <= r < |counts| ==> |counts[r]| == |counts| * e) && g < |counts|
    requires |scratch| == |out| == ReceivedTotal(counts, e, g)
    ensures |rows| == |scratch|
  {
    var received := ReceivedCounts(counts, e, g);
    PermutedIsPermutation(received, e);
    Scatter(scratch, PermutedIndices(received, e), out, |out|)
  }

  /** The first of rank `g`'s experts. */
  function FirstExpert(g: nat, e: nat): nat {
    NonNegative(g, e);
    g * e
  }

  /** How many rows rank `g` receives. */
  function ReceivedTotal(counts: seq<seq<nat>>, e: nat, g: nat): nat
    requires (forall r :: 0 <= r < |counts| ==> |counts[r]| == |counts| * e) && g < |counts|
  {
    Sum(Concat(ReceivedCounts(counts, e, g)))
  }

  /** The expert outputs of all ranks, each in the order of the received rows. */
  function ExpertOutputs<T, U>(f: (nat, T) -> U, rows: seq<seq<T>>, counts: seq<seq<nat>>, e: nat, g: nat,
                               scratch: seq<U>): (out: seq<U>)
    requires CountsOk(rows, counts, e) && g < |counts| && |scratch| == ReceivedTotal(counts, e, g)
    ensures |out| == |scratch|
  {
    var received := ReceivedCounts(counts, e, g);
    SumFlat(received);
    TransposeSum(received, e);
    Unpermuted(scratch, Grouped(f, FirstExpert(g, e), PerExpert(received, e), Dispatch(rows, counts, e, g)), counts, e,
        g)
  }

  predicate ScratchOk<U>(scratch: seq<seq<U>>, counts: seq<seq<nat>>, e: nat)
    requires forall r :: 0 <= r < |counts| ==> |counts[r]| == |counts| * e
  {
    |scratch| == |counts| && forall g :: 0 <= g < |counts| ==> |scratch[g]| == ReceivedTotal(counts, e, g)
  }

  function AllOutputs<T, U>(f: (nat, T) -> U, rows: seq<seq<T>>, counts: seq<seq<nat>>, e: nat,
                            scratch: seq<seq<U>>): (outs: seq<seq<U>>)
    requires CountsOk(rows, counts, e) && ScratchOk(scratch, counts, e)
    ensures |outs| == |counts|
    ensures forall g :: 0 <= g < |counts| ==> outs[g] == ExpertOutputs(f, rows, counts, e, g, scratch[g])
  {
    seq(|counts|, g requires 0 <= g < |counts| => ExpertOutputs(f, rows, counts, e, g, scratch[g]))
  }

  /** What rank `r` gets back. */
  function Combine<T, U>(f: (nat, T) -> U, rows: seq<seq<T>>, counts: seq<seq<nat>>, e: nat,
                         scratch: seq<seq<U>>, r: nat): seq<U>
    requires CountsOk(rows, counts, e) && ScratchOk(scratch, counts, e) && r < |counts|
  {
    OutputsFit(f, rows, counts, e, scratch);
    AllToAll(AllOutputs(f, rows, counts, e, scratch), AllOutputSplits(counts, e), r)
  }

  lemma OutputsFit<T, U>(f: (nat, T) -> U, rows: seq<seq<T>>, counts: seq<seq<nat>>, e: nat, scratch: seq<seq<U>>)
    requires CountsOk(rows, counts, e) && ScratchOk(scratch, counts, e)
    ensures SplitsFit(AllOutputs(f, rows, counts, e, scratch), AllOutputSplits(counts, e))
  {
    hide Sum, Concat, ExpertOutputs;
    SplitsMatch(rows, counts, e);
    forall g | 0 <= g < |counts| ensures Sum(OutputSplits(counts, e, g)) == Sum(Concat(ReceivedCounts(counts, e, g))) {
      SumFlat(ReceivedCounts(counts, e, g));
    }
  }

  /** Where row `o` of rank `r` for expert `l` of rank `g` starts in rank `r`'s rows. */
  function RowStart(counts: seq<seq<nat>>, e: nat, r: nat, g: nat, l: nat): nat
    requires r < |counts| && |counts[r]| == |counts| * e && g < |counts| && l < e
  {
    Sum(InputSplits(counts, e, r)[..g]) + Sum(View(counts[r], |counts|, e)[g][..l])
  }

  lemma RowArrives<T>(rows: seq<seq<T>>, counts: seq<seq<nat>>, e: nat, r: nat, g: nat, l: nat, o: nat)
    requires CountsOk(rows, counts, e) && r < |counts| && g < |counts| && l < e
    requires o < ReceivedCounts(counts, e, g)[r][l]
    ensures RowStart(counts, e, r, g, l) + o < |rows[r]|
    ensures ReceivedStart(ReceivedCounts(counts, e, g), r, l) + o < |Arrived(rows, counts, e, g)|
    ensures Arrived(rows, counts, e, g)[ReceivedStart(ReceivedCounts(counts, e, g), r, l) + o] ==
            rows[r][RowStart(counts, e, r, g, l) + o]
  {
    hide Sum, Concat, View, AllToAll;
    var received := ReceivedCounts(counts, e, g);
    SumPrefix(received[r], l, e);
    SumWhole(received[r]);
    SplitsMatch(rows, counts, e);
    Arrives(rows, AllInputSplits(counts, e), g, OutputSplits(counts, e, g), r, Sum(received[r][..l]) + o);
  }

  /** The row's expert output returns to where the row came from. */
  lemma RowReturns<T, U>(f: (nat, T) -> U, rows: seq<seq<T>>, counts: seq<seq<nat>>, e: nat, scratch: seq<seq<U>>,
                         r: nat, g: nat, l: nat, o: nat)
    requires CountsOk(rows, counts, e) && ScratchOk(scratch, counts, e) && r < |counts| && g < |counts| && l < e
    requires o < ReceivedCounts(counts, e, g)[r][l]
    ensures var i := RowStart(counts, e, r, g, l) + o;
            && i < |rows[r]| && i < |Combine(f, rows, counts, e, scratch, r)|
            && Combine(f, rows, counts, e, scratch, r)[i] == f(FirstExpert(g, e) + l, rows[r][i])
  {
    hide Sum, Concat, View, PermutedIndices, RegroupedStart, ExpertOutputs, FirstExpert, AllToAll, PerExpert, Arrived,
         RowStart, ReceivedStart;
    var received := ReceivedCounts(counts, e, g);
    RowArrives(rows, counts, e, r, g, l, o);
    PermutedAt(received, e, l, r, o);
    ExpertContiguous(received, e, l, r, o);
    OutputAt(f, rows, counts, e, g, scratch[g], ReceivedStart(received, r, l) + o,
        RegroupedStart(received, e, l, r) + o);
    OutputReturns(f, rows, counts, e, scratch, r, g, l, o);
  }

  lemma OutputReturns<T, U>(f: (nat, T) -> U, rows: seq<seq<T>>, counts: seq<seq<nat>>, e: nat, scratch: seq<seq<U>>,
                            r: nat, g: nat, l: nat, o: nat)
    requires CountsOk(rows, counts, e) && ScratchOk(scratch, counts, e) && r < |counts| && g < |counts| && l < e
    requires o < ReceivedCounts(counts, e, g)[r][l]
    ensures RowStart(counts, e, r, g, l) + o < |Combine(f, rows, counts, e, scratch, r)|
    ensures ReceivedStart(ReceivedCounts(counts, e, g), r, l) + o < |ExpertOutputs(f, rows, counts, e, g, scratch[g])|
    ensures Combine(f, rows, counts, e, scratch, r)[RowStart(counts, e, r, g, l) + o] ==
            ExpertOutputs(f, rows, counts, e, g, scratch[g])[ReceivedStart(ReceivedCounts(counts, e, g), r, l) + o]
  {
    hide Sum, Concat, View, ExpertOutputs, AllToAll;
    var received := ReceivedCounts(counts, e, g);
    SumPrefix(received[r], l, e);
    SumWhole(received[r]);
    SplitsMatch(rows, counts, e);
    OutputsFit(f, rows, counts, e, scratch);
    Arrives(AllOutputs(f, rows, counts, e, scratch), AllOutputSplits(counts, e), r, InputSplits(counts, e, r), g,
            Sum(received[r][..l]) + o);
  }

  lemma OutputAt<T, U>(f: (nat, T) -> U, rows: seq<seq<T>>, counts: seq<seq<nat>>, e: nat, g: nat,
                       scratch: seq<U>, p: nat, j: nat)
    requires CountsOk(rows, counts, e) && g < |counts| && |scratch| == ReceivedTotal(counts, e, g)
    requires j < |PermutedIndices(ReceivedCounts(counts, e, g), e)|
    requires PermutedIndices(ReceivedCounts(counts, e, g), e)[j] == p
    requires p < |Arrived(rows, counts, e, g)| && j < Sum(PerExpert(ReceivedCounts(counts, e, g), e))
    ensures p < |ExpertOutputs(f, rows, counts, e, g, scratch)|
    ensures ExpertOutputs(f, rows, counts, e, g, scratch)[p] ==
            f(FirstExpert(g, e) + GroupOf(PerExpert(ReceivedCounts(counts, e, g), e), j),
                Arrived(rows, counts, e, g)[p])
  {
    hide Sum, Concat, View, PermutedIndices, PerExpert, Arrived;
    var received := ReceivedCounts(counts, e, g);
    PermutedIsPermutation(received, e);
    SumFlat(received);
    TransposeSum(received, e);
    PerExpertTotal(received, e);
    var out := Grouped(f, FirstExpert(g, e), PerExpert(received, e), Dispatch(rows, counts, e, g));
    Scattered(scratch, PermutedIndices(received, e), out, |out|, j);
  }

  lemma PerExpertTotal(received: seq<seq<nat>>, e: nat)
    requires IsMatrix(received, e)
    ensures Sum(PerExpert(received, e)) == Sum(Concat(received))
  {
    hide Sum, Concat;
    SumFlat(received);
    TransposeSum(received, e);
  }

  /** On every rank, dispatching, processing and combining gives what processing all rows with
      all experts would give, in the original order. */
  lemma CombineIsLocal<T, U>(f: (nat, T) -> U, rows: seq<seq<T>>, counts: seq<seq<nat>>, e: nat,
                             scratch: seq<seq<U>>, r: nat)
    requires CountsOk(rows, counts, e) && ScratchOk(scratch, counts, e) && r < |counts|
    ensures Combine(f, rows, counts, e, scratch, r) == Grouped(f, 0, counts[r], rows[r])
  {
    hide Sum, Concat, View, AllToAll, InputSplits;
    var back, n := Combine(f, rows, counts, e, scratch, r), |counts|;
    CombinedLength(f, rows, counts, e, scratch, r);
    forall i: nat | i < |rows[r]| ensures back[i] == f(GroupOf(counts[r], i), rows[r][i]) {
      var x := GroupOf(counts[r], i);
      var g, l := Unflatten(x, n, e);
      var view, o := View(counts[r], n, e), i - Sum(counts[r][..x]);
      FlatAt(view, e, g, l);
      FlatStart(view, e, g, l);
      InputSplitsAre(counts, e, r);
      RowReturns(f, rows, counts, e, scratch, r, g, l, o);
    }
  }

  lemma InputSplitsAre(counts: seq<seq<nat>>, e: nat, r: nat)
    requires r < |counts| && |counts[r]| == |counts| * e
    ensures InputSplits(counts, e, r) == RowSums(View(counts[r], |counts|, e))
  {
  }

  lemma CombinedLength<T, U>(f: (nat, T) -> U, rows: seq<seq<T>>, counts: seq<seq<nat>>, e: nat,
                             scratch: seq<seq<U>>, r: nat)
    requires CountsOk(rows, counts, e) && ScratchOk(scratch, counts, e) && r < |counts|
    ensures |Combine(f, rows, counts, e, scratch, r)| == |rows[r]|
  {
    hide Sum, Concat, View, AllToAll, ExpertOutputs;
    SplitsMatch(rows, counts, e);
    OutputsFit(f, rows, counts, e, scratch);
    ArrivedLength(AllOutputs(f, rows, counts, e, scratch), AllOutputSplits(counts, e), r, InputSplits(counts, e, r));
    SumFlat(View(counts[r], |counts|, e));
  }

  // ----- The routed experts

  /** `order` sorts the expert ids, and is a permutation. */
  ghost predicate SortsIds(order: seq<nat>, ids: seq<nat>) {
    && O.IsOrder(order, |ids|)
    && (forall i, j :: 0 <= i < j < |order| ==> ids[order[i]] <= ids[order[j]])
  }

  predicate Ascending(s: seq<nat>) {
    forall i, j :: 0 <= i < j < |s| ==> s[i] <= s[j]
  }

  /** How often a value occurs. */
  function Count(s: seq<nat>, x: nat): nat {
    if s == [] then 0 else Count(s[..|s| - 1], x) + if s[|s| - 1] == x then 1 else 0
  }

  lemma {:induction false} CountNone(s: seq<nat>, x: nat)
    requires forall i :: 0 <= i < |s| ==> s[i] != x
    ensures Count(s, x) == 0
  {
    if s != [] {
      CountNone(s[..|s| - 1], x);
    }
  }

  /** In a sorted list whose counts are known, element `i` is the group that `i` falls into. */
  lemma {:induction false} SortedGroups(s: seq<nat>, counts: seq<nat>)
    requires Ascending(s) && forall i :: 0 <= i < |s| ==> s[i] < |counts|
    requires forall x :: 0 <= x < |counts| ==> counts[x] == Count(s, x)
    ensures Sum(counts) == |s| && forall i :: 0 <= i < |s| ==> GroupOf(counts, i) == s[i]
    decreases |s|
  {
    hide Sum, Count;
    if s == [] {
      forall x | 0 <= x < |counts| ensures counts[x] == 0 {
        CountNone(s, x);
      }
      SumZeros(counts);
    } else {
      var n: nat := |s| - 1;
      var last := s[n];
      forall x ensures Count(s, x) == Count(s[..n], x) + if last == x then 1 else 0 {
        CountLast(s, x);
      }
      var fewer := counts[last := counts[last] - 1];
      SortedGroups(s[..n], fewer);
      OneLess(counts, last);
      forall x | last < x < |counts| ensures counts[x] == 0 {
        CountNone(s, x);
      }
      ZeroAfter(counts, last);
      forall i: nat | i < n ensures GroupOf(counts, i) == s[i] {
        LaterGrows(counts, last, i);
        assert s[..n][i] == s[i];
      }
      GroupIs(counts, last, counts[last] - 1);
    }
  }

  lemma CountLast(s: seq<nat>, x: nat)
    requires s != []
    ensures Count(s, x) == Count(s[..|s| - 1], x) + if s[|s| - 1] == x then 1 else 0
  {
  }

  lemma {:induction false} OneLess(counts: seq<nat>, k: nat)
    requires k < |counts| && counts[k] > 0
    ensures Sum(counts[k := counts[k] - 1]) == Sum(counts) - 1
    decreases |counts|
  {
    var n := |counts| - 1;
    if k < n {
      assert counts[k := counts[k] - 1][..n] == counts[..n][k := counts[k] - 1];
      OneLess(counts[..n], k);
    } else {
      assert counts[k := counts[k] - 1][..n] == counts[..n];
    }
  }

  /** If no group after `k` has elements, group `k` ends at the end. */
  lemma {:induction false} ZeroAfter(counts: seq<nat>, k: nat)
    requires k < |counts| && forall x :: k < x < |counts| ==> counts[x] == 0
    ensures Sum(counts) == Sum(counts[..k]) + counts[k]
    decreases |counts|
  {
    var n := |counts| - 1;
    if k < n {
      ZeroAfter(counts[..n], k);
      assert counts[..n][..k] == counts[..k];
    }
  }

  /** One more element in the last group changes nothing for the elements before. */
  lemma LaterGrows(counts: seq<nat>, k: nat, i: nat)
    requires k < |counts| && counts[k] > 0 && i + 1 < Sum(counts) == Sum(counts[..k]) + counts[k]
    requires forall x :: k < x < |counts| ==> counts[x] == 0
    ensures i < Sum(counts[k := counts[k] - 1]) && GroupOf(counts, i) == GroupOf(counts[k := counts[k] - 1], i)
  {
    hide Sum;
    var fewer := counts[k := counts[k] - 1];
    OneLess(counts, k);
    var g := GroupOf(fewer, i);
    assert fewer[g] > 0;
    assert fewer[..g] == counts[..g];
    GroupIs(counts, g, i - Sum(counts[..g]));
  }

  /** The token of a pair. */
  function TokenOf(p: nat, topK: nat): nat
    requires topK > 0
  {
    p / topK
  }

  /** The rows to route, one for each pair of a token and one of its `topK` experts, in the
      sorted order of the pairs. */
  function RoutedRows<T>(tokens: seq<T>, topK: nat, order: seq<nat>): (rows: seq<T>)
    requires topK > 0 && forall i :: 0 <= i < |order| ==> order[i] < |tokens| * topK
    ensures |rows| == |order|
  {
    seq(|order|, i requires 0 <= i < |order| =>
      QuotientBelow(order[i], |tokens|, topK);
      tokens[TokenOf(order[i], topK)])
  }

  /** With pairs sorted by expert and the experts' counts, each row is processed by the expert
      of its pair. */
  lemma OwnExpert<T, U>(f: (nat, T) -> U, ids: seq<nat>, order: seq<nat>, counts: seq<nat>, rows: seq<T>)
    requires SortsIds(order, ids) && |rows| == |order| && forall i :: 0 <= i < |ids| ==> ids[i] < |counts|
    requires forall x :: 0 <= x < |counts| ==> counts[x] == Count(SortedIds(order, ids), x)
    ensures |rows| == Sum(counts)
    ensures forall i :: 0 <= i < |order| ==> Grouped(f, 0, counts, rows)[i] == f(ids[order[i]], rows[i])
  {
    hide Sum, Count;
    SortedGroups(SortedIds(order, ids), counts);
  }

  function SortedIds(order: seq<nat>, ids: seq<nat>): (s: seq<nat>)
    requires forall i :: 0 <= i < |order| ==> order[i] < |ids|
    ensures |s| == |order| && forall i :: 0 <= i < |order| ==> s[i] == ids[order[i]]
  {
    seq(|order|, i requires 0 <= i < |order| => ids[order[i]])
  }

  /** What one rank routes: its tokens, the experts of each, the sorted order of the pairs, and
      the counts per expert. */
  ghost predicate Routes<T>(tokens: seq<T>, topK: nat, ids: seq<nat>, order: seq<nat>, counts: seq<nat>, rows: seq<T>) {
    && topK > 0 && |ids| == |tokens| * topK && SortsIds(order, ids)
    && (forall i :: 0 <= i < |ids| ==> ids[i] < |counts|)
    && (forall x :: 0 <= x < |counts| ==> counts[x] == Count(SortedIds(order, ids), x))
    && rows == RoutedRows(tokens, topK, order)
  }

  /** The routed experts' outputs on a rank are the same with and without expert parallelism:
      output `i` is what the expert of pair `order[i]` makes of that pair's token. */
  lemma RoutedExpertsAgree<T, U>(f: (nat, T) -> U, tokens: seq<T>, topK: nat, ids: seq<nat>,
                                 order: seq<nat>, rows: seq<seq<T>>,
                                 counts: seq<seq<nat>>, e: nat, scratch: seq<seq<U>>, r: nat)
    requires CountsOk(rows, counts, e) && ScratchOk(scratch, counts, e) && r < |counts|
    requires Routes(tokens, topK, ids, order, counts[r], rows[r])
    ensures Combine(f, rows, counts, e, scratch, r) == Grouped(f, 0, counts[r], rows[r])
    ensures |rows[r]| == |order| && |Combine(f, rows, counts, e, scratch, r)| == |order|
    ensures forall i :: 0 <= i < |order| ==>
              Combine(f, rows, counts, e, scratch, r)[i] == f(ids[order[i]], RoutedRows(tokens, topK, order)[i])
  {
    hide Combine, Sum, Count;
    CombineIsLocal(f, rows, counts, e, scratch, r);
    OwnExpert(f, ids, order, counts[r], rows[r]);
  }
}
