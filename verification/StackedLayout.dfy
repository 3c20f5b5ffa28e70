/** Where a rank's rows of stacked matrices sit in the stacked parameter: one box per matrix. */
module StackedLayout {
  import opened Arithmetic
  import opened Regions
  import opened GlobalLayouts
  import opened Multiples

  /** The dimensions from `k` on are read off: `low` is the number among them, `rest` what is left of the number. */
  ghost predicate Peeled(shape: seq<int>, k: nat, index: nat, rest: nat, low: nat, coords: Index)
    requires Sized(shape) && k <= |shape|
  {
    && low < Prod(shape[k..]) && index == rest * Prod(shape[k..]) + low
    && coords == CellAt(Zeros(|shape| - k), shape[k..], low)
  }

  /** The index of an element from its number, last dimension first. */
  method UnravelIndex(index: nat, shape: seq<int>) returns (coords: Index)
    requires Sized(shape) && index < Prod(shape)
    ensures coords == CellAt(Zeros(|shape|), shape, index)
  {
    hide CellAt, Prod, Peeled;
    var rest := index;
    coords := [];
    ghost var low: nat := 0;
    NonePeeled(shape, index);
    for k := |shape| downto 0
      invariant rest >= 0 && Peeled(shape, k, index, rest, low, coords)
    {
      low := UnravelStep(shape, k, rest, low, index, coords);
      rest, coords := rest / shape[k], [rest % shape[k]] + coords;
    }
    AllPeeled(shape, index, rest, low, coords);
  }

  lemma NonePeeled(shape: seq<int>, index: nat)
    requires Sized(shape)
    ensures Peeled(shape, |shape|, index, index, 0, [])
  {
  }

  lemma AllPeeled(shape: seq<int>, index: nat, rest: nat, low: nat, coords: Index)
    requires Sized(shape) && index < Prod(shape) && Peeled(shape, 0, index, rest, low, coords)
    ensures coords == CellAt(Zeros(|shape|), shape, index)
  {
    hide CellAt, Prod;
    assert shape[0..] == shape;
    OnlyOnce(rest, Prod(shape), low, index);
  }

  lemma OnlyOnce(rest: nat, size: nat, low: nat, index: nat)
    requires index == rest * size + low && index < size && low < size
    ensures low == index
  {
    if rest > 0 {
      NonNegative(rest - 1, size);
      OneMore(rest - 1, size);
    }
  }

  /** One division of `UnravelIndex`. */
  lemma UnravelStep(shape: seq<int>, k: nat, rest: nat, low: nat, index: nat, coords: Index) returns (next: nat)
    requires Sized(shape) && k < |shape| && index < Prod(shape) && Peeled(shape, k + 1, index, rest, low, coords)
    ensures shape[k] > 0 && rest / shape[k] >= 0
    ensures Peeled(shape, k, index, rest / shape[k], next, [rest % shape[k]] + coords)
  {
    hide CellAt, Prod;
    PositiveAt(shape, k);
    assert shape[k..][1..] == shape[k + 1..];
    ProdFirst(shape[k..]);
    Peel(rest, shape[k], Prod(shape[k + 1..]), low);
    CellOf(shape[k..], rest % shape[k], low);
    next := rest % shape[k] * Prod(shape[k + 1..]) + low;
  }

  lemma ProdFirst(shape: seq<int>)
    requires shape != []
    ensures Prod(shape) == shape[0] * Prod(shape[1..])
  {
  }

  lemma Peel(rest: nat, size: nat, tail: nat, low: nat)
    requires size > 0 && low < tail
    ensures 0 <= rest % size * tail + low < size * tail
    ensures rest * tail + low == rest / size * (size * tail) + (rest % size * tail + low)
  {
    var q, c := rest / size, rest % size;
    PlaceBelow(c, size, tail, low);
    Distributes(tail, q * size, c);
    Associates(q, size, tail);
  }

  lemma CellOf(shape: seq<int>, c: nat, low: nat)
    requires Sized(shape) && shape != [] && c < shape[0] && low < Prod(shape[1..])
    requires 0 <= c * Prod(shape[1..]) + low < Prod(shape)
    ensures CellAt(Zeros(|shape|), shape, c * Prod(shape[1..]) + low) == [c]
        + CellAt(Zeros(|shape| - 1), shape[1..], low)
  {
    hide CellAt, Prod;
    var size, q, r := SplitNumber(Zeros(|shape|), shape, c * Prod(shape[1..]) + low);
    QuotientIs(c * size + low, c, low, size);
    QuotientIs(c * size + low, q, r, size);
    assert Zeros(|shape|)[1..] == Zeros(|shape| - 1);
  }

  /** No dimension of a shape with elements is empty. */
  lemma {:induction false} PositiveAt(shape: seq<int>, k: nat)
    requires Sized(shape) && k < |shape| && Prod(shape) > 0
    ensures shape[k] > 0
  {
    if k > 0 {
      ProdTail(shape);
      PositiveAt(shape[1..], k - 1);
    } else {
      ProdTail(shape);
    }
  }

  // ----- The boxes

  /** Row `r` of the stacked rows is a row of one matrix. */
  function RowIndex(stack: seq<int>, outDim: nat, r: nat, c: int): Index
    requires Sized(stack) && outDim > 0 && r / outDim < Prod(stack)
  {
    CellAt(Zeros(|stack|), stack, r / outDim) + [r % outDim, c]
  }

  function LocalIndex(stack: seq<int>, i: int, c: int): Index {
    Zeros(|stack|) + [i, c]
  }

  /** Local row `i`, column `c` of a rank is one of the rows from `start` to `end` of the stacked rows. */
  predicate IsRow(stack: seq<int>, outDim: nat, inDim: nat, rowStart: nat, start: nat, end: nat,
                  l: Index, g: Index, i: nat, c: nat)
    requires Sized(stack) && outDim > 0
  {
    && start <= rowStart + i < end && c < inDim && (rowStart + i) / outDim < Prod(stack)
    && l == LocalIndex(stack, i, c) && g == RowIndex(stack, outDim, rowStart + i, c)
  }

  /** The rank whose rows begin at `rowStart` has `g` at `l`, among the rows from `start` to `end`. */
  ghost predicate HasRow(stack: seq<int>, outDim: nat, inDim: nat, rowStart: nat, start: nat,
                         end: nat, l: Index, g: Index)
    requires Sized(stack) && outDim > 0
  {
    exists i: nat, c: nat :: IsRow(stack, outDim, inDim, rowStart, start, end, l, g, i, c)
  }

  function Ones(n: nat): (s: Index)
    ensures |s| == n && forall d :: 0 <= d < n ==> s[d] == 1
  {
    seq(n, _ => 1)
  }

  /** The box of one matrix's rows. */
  function BoxOf(stack: seq<int>, outDim: nat, inDim: nat, rowStart: nat, matrix: nat, start: nat, end: nat): (c: Chunk)
    requires Sized(stack) && matrix < Prod(stack)
  {
    Chunk(CellAt(Zeros(|stack|), stack, matrix) + [start - matrix * outDim, 0],
          Zeros(|stack|) + [start - rowStart, 0],
          Ones(|stack|) + [end - start, inDim])
  }

  lemma LastTwo(a: Index, x: int, y: int, d: nat)
    requires d < |a| + 2
    ensures (a + [x, y])[d] == if d < |a| then a[d] else if d == |a| then x else y
  {
  }

  /** What a box maps: the rows of one matrix, each to its place. */
  lemma BoxMaps(stack: seq<int>, outDim: nat, inDim: nat, rowStart: nat, matrix: nat, start: nat,
                end: nat, l: Index, g: Index)
    requires Sized(stack) && outDim > 0 && matrix < Prod(stack) && rowStart <= start && matrix * outDim <= start
    requires end <= matrix * outDim + outDim
    ensures MapsOne(BoxOf(stack, outDim, inDim, rowStart, matrix, start, end), l, g) <==>
            HasRow(stack, outDim, inDim, rowStart, start, end, l, g)
  {
    hide CellAt, Prod, RowIndex;
    var box := BoxOf(stack, outDim, inDim, rowStart, matrix, start, end);
    var n := |stack|;
    CellInside(Zeros(n), stack, matrix);
    var cell := CellAt(Zeros(n), stack, matrix);
    assert |cell| == n;
    if MapsOne(box, l, g) {
      forall d: nat | d < n + 2 ensures MapsAt(box, l, g, d) {
      }
      BoxParts(stack, outDim, inDim, rowStart, matrix, start, end, cell, l, g);
    }
    if HasRow(stack, outDim, inDim, rowStart, start, end, l, g) {
      var i: nat, c: nat :| IsRow(stack, outDim, inDim, rowStart, start, end, l, g, i, c);
      RowIs(stack, outDim, matrix, rowStart + i, c);
      forall d: nat | d < n + 2 ensures MapsAt(box, l, g, d) {
        LastTwo(cell, start - matrix * outDim, 0, d);
        LastTwo(Zeros(n), start - rowStart, 0, d);
        LastTwo(Ones(n), end - start, inDim, d);
        LastTwo(Zeros(n), i, c, d);
        LastTwo(cell, rowStart + i - matrix * outDim, c, d);
      }
    }
  }

  /** A row between the edges of a matrix is one of that matrix. */
  lemma RowIs(stack: seq<int>, outDim: nat, matrix: nat, r: nat, c: int)
    requires Sized(stack) && outDim > 0 && matrix < Prod(stack) && matrix * outDim <= r < matrix * outDim + outDim
    ensures r / outDim == matrix
    ensures RowIndex(stack, outDim, r, c) == CellAt(Zeros(|stack|), stack, matrix) + [r - matrix * outDim, c]
  {
    QuotientIs(r, matrix, r - matrix * outDim, outDim);
  }

  lemma BoxParts(stack: seq<int>, outDim: nat, inDim: nat, rowStart: nat, matrix: nat, start: nat, end: nat,
                 cell: Index, l: Index, g: Index)
    requires Sized(stack) && outDim > 0 && matrix < Prod(stack) && rowStart <= start && matrix * outDim <= start
    requires end <= matrix * outDim + outDim
    requires cell == CellAt(Zeros(|stack|), stack, matrix) && |cell| == |stack| && |l| == |g| == |stack| + 2
    requires forall d: nat :: d < |stack| + 2
              ==> MapsAt(BoxOf(stack, outDim, inDim, rowStart, matrix, start, end), l, g, d)
    ensures HasRow(stack, outDim, inDim, rowStart, start, end, l, g)
  {
    hide CellAt, Prod, RowIndex;
    var n := |stack|;
    var box := BoxOf(stack, outDim, inDim, rowStart, matrix, start, end);
    forall d: nat | d < n + 2 ensures
        && box.globalAt[d] == (if d < n then cell[d] else if d == n then start - matrix * outDim else 0)
        && box.localAt[d] == (if d < n then 0 else if d == n then start - rowStart else 0)
        && box.size[d] == (if d < n then 1 else if d == n then end - start else inDim) {
      LastTwo(cell, start - matrix * outDim, 0, d);
      LastTwo(Zeros(n), start - rowStart, 0, d);
      LastTwo(Ones(n), end - start, inDim, d);
    }
    assert MapsAt(box, l, g, n) && MapsAt(box, l, g, n + 1);
    var i: nat, c: nat := l[n], l[n + 1];
    RowIs(stack, outDim, matrix, rowStart + i, c);
    forall d: nat | d < n + 2 ensures l[d] == LocalIndex(stack, i, c)[d]
        && g[d] == (cell + [rowStart + i - matrix * outDim, c])[d] {
      assert MapsAt(box, l, g, d);
      LastTwo(Zeros(n), i, c, d);
      LastTwo(cell, rowStart + i - matrix * outDim, c, d);
    }
    assert l == LocalIndex(stack, i, c);
    assert g == cell + [rowStart + i - matrix * outDim, c];
    assert IsRow(stack, outDim, inDim, rowStart, start, end, l, g, i, c);
  }

  // ----- The layout

  lemma RowsJoin(stack: seq<int>, outDim: nat, inDim: nat, rowStart: nat, start: nat, mid: nat,
                 end: nat, l: Index, g: Index)
    requires Sized(stack) && outDim > 0 && start <= mid <= end
    ensures HasRow(stack, outDim, inDim, rowStart, start, end, l, g) <==>
            HasRow(stack, outDim, inDim, rowStart, start, mid, l, g)
                || HasRow(stack, outDim, inDim, rowStart, mid, end, l, g)
  {
    hide RowIndex, LocalIndex, Prod;
    forall i: nat, c: nat
      ensures IsRow(stack, outDim, inDim, rowStart, start, end, l, g, i, c) <==>
              IsRow(stack, outDim, inDim, rowStart, start, mid, l, g, i, c)
                  || IsRow(stack, outDim, inDim, rowStart, mid, end, l, g, i, c)
    {
    }
  }

  /** How far a rank's rows are laid out when a matrix is reached. */
  function Reached(rowStart: nat, rowEnd: nat, outDim: nat, matrix: nat): (r: int)
    requires rowStart <= rowEnd
    ensures rowStart <= r <= rowEnd
  {
    Clamp(rowStart, matrix * outDim, rowEnd)
  }

  /** The box of one matrix: the rows from where the matrix before it ended to where it ends. */
  method MatrixBox(stack: seq<int>, outDim: nat, inDim: nat, rowStart: nat, rowEnd: nat, matrix: nat) returns (c: Chunk)
    requires Sized(stack) && outDim > 0 && inDim > 0 && rowStart < rowEnd <= Prod(stack) * outDim
    requires rowStart / outDim <= matrix < CeilDiv(rowEnd, outDim)
    ensures ChunkOk(c, |stack| + 2) && NonEmpty(c)
    ensures Reached(rowStart, rowEnd, outDim, matrix) <= Reached(rowStart, rowEnd, outDim, matrix + 1)
    ensures forall l: Index, g: Index :: MapsOne(c, l, g) <==>
              HasRow(stack, outDim, inDim, rowStart, Reached(rowStart, rowEnd, outDim, matrix),
                  Reached(rowStart, rowEnd, outDim, matrix + 1), l, g)
  {
    hide MapsOne, HasRow, NonEmpty, CellAt, Prod, BoxOf, ChunkOk;
    var row := matrix * outDim;
    var start, end := Max(rowStart, row), Min(rowEnd, row + outDim);
    InMatrix(rowStart, rowEnd, outDim, Prod(stack), matrix);
    var index := UnravelIndex(matrix, stack);
    c := Chunk(index + [start - row, 0], Zeros(|stack|) + [start - rowStart, 0], Ones(|stack|) + [end - start, inDim]);
    BoxFits(stack, outDim, inDim, rowStart, matrix, start, end, c);
    forall l: Index, g: Index ensures MapsOne(c, l, g) <==> HasRow(stack, outDim, inDim, rowStart, start, end, l, g) {
      BoxMaps(stack, outDim, inDim, rowStart, matrix, start, end, l, g);
    }
  }

  /** The `k`-th chunk maps the rows of the `k`-th matrix after the first. */
  ghost predicate ChunkRows(chunks: seq<Chunk>, stack: seq<int>, outDim: nat, inDim: nat, rowStart: nat,
                            rowEnd: nat, first: nat, k: nat)
    requires Sized(stack) && outDim > 0 && rowStart <= rowEnd && k < |chunks|
  {
    forall l: Index, g: Index :: MapsOne(chunks[k], l, g) <==>
      HasRow(stack, outDim, inDim, rowStart, Reached(rowStart, rowEnd, outDim, first + k),
          Reached(rowStart, rowEnd, outDim, first + k + 1), l, g)
  }

  lemma ReachedInOrder(rowStart: nat, rowEnd: nat, outDim: nat, k: nat, m: nat)
    requires rowStart <= rowEnd && k <= m
    ensures Reached(rowStart, rowEnd, outDim, k) <= Reached(rowStart, rowEnd, outDim, m)
  {
    if k < m {
      LessTimes(k, m, outDim);
    }
  }

  /** A place in the rank has one row, and so does an element of the parameter. */
  lemma OneRow(stack: seq<int>, outDim: nat, inDim: nat, rowStart: nat, s: nat, e: nat, s1: nat, e1: nat, l: Index,
               g: Index, m: Index, h: Index)
    requires Sized(stack) && outDim > 0 && HasRow(stack, outDim, inDim, rowStart, s, e, l, g)
    requires HasRow(stack, outDim, inDim, rowStart, s1, e1, m, h)
    requires l == m || g == h
    ensures s < e1 && s1 < e
  {
    hide CellAt, NumberOf, Prod, RowIndex, RowOf;
    var i: nat, c: nat :| IsRow(stack, outDim, inDim, rowStart, s, e, l, g, i, c);
    var j: nat, d: nat :| IsRow(stack, outDim, inDim, rowStart, s1, e1, m, h, j, d);
    RowOfIndex(stack, outDim, rowStart + i, c);
    RowOfIndex(stack, outDim, rowStart + j, d);
    assert LocalIndex(stack, i, c)[|stack|] == i && LocalIndex(stack, j, d)[|stack|] == j;
  }

  /** No two matrices' boxes share an index. */
  lemma BoxesApart(chunks: seq<Chunk>, stack: seq<int>, outDim: nat, inDim: nat, rowStart: nat, rowEnd: nat, first: nat)
    requires Sized(stack) && outDim > 0 && rowStart <= rowEnd
    requires forall k :: 0 <= k < |chunks| ==> ChunkRows(chunks, stack, outDim, inDim, rowStart, rowEnd, first, k)
    ensures LocalsApart(chunks) && GlobalsApart(chunks)
  {
    hide MapsOne, HasRow, Reached, Prod;
    forall i: nat, j: nat, l: Index, g: Index, m: Index, h: Index
      | i < |chunks| && j < |chunks| && MapsOne(chunks[i], l, g) && MapsOne(chunks[j], m, h) && (l == m || g == h)
      ensures i == j
    {
      assert ChunkRows(chunks, stack, outDim, inDim, rowStart, rowEnd, first, i);
      assert ChunkRows(chunks, stack, outDim, inDim, rowStart, rowEnd, first, j);
      OneRow(stack, outDim, inDim, rowStart, Reached(rowStart, rowEnd, outDim, first + i),
          Reached(rowStart, rowEnd, outDim, first + i + 1),
             Reached(rowStart, rowEnd, outDim, first + j), Reached(rowStart, rowEnd, outDim, first + j + 1), l, g, m,
                 h);
      if i < j {
        ReachedInOrder(rowStart, rowEnd, outDim, first + i + 1, first + j);
      } else if j < i {
        ReachedInOrder(rowStart, rowEnd, outDim, first + j + 1, first + i);
      }
    }
  }

  /** Where the rows `rowStart` to `rowEnd` of the stacked matrices sit: `g` is at `l` exactly when `l`
      is that row's place, in one box for each matrix that the rows touch. */
  method GlobalLayout(stack: seq<int>, outDim: nat, inDim: nat, rowStart: nat, rowEnd: nat) returns (layout: Layout)
    requires Sized(stack) && outDim > 0 && inDim > 0 && rowStart <= rowEnd <= Prod(stack) * outDim
    ensures layout.shape == stack + [outDim, inDim] && LayoutOk(layout, |stack| + 2)
    ensures |layout.chunks| == if rowStart == rowEnd then 0 else CeilDiv(rowEnd, outDim) - rowStart / outDim
    ensures forall k :: 0 <= k < |layout.chunks| ==> NonEmpty(layout.chunks[k])
    ensures LocalsApart(layout.chunks) && GlobalsApart(layout.chunks)
    ensures forall l: Index, g: Index :: Maps(layout.chunks, l, g)
             <==> HasRow(stack, outDim, inDim, rowStart, rowStart, rowEnd, l, g)
  {
    hide Maps, HasRow, NonEmpty, Prod, Reached, ChunkOk, LocalsApart, GlobalsApart, LaidOut, CeilDiv;
    if rowEnd == rowStart {
      NoRows(stack, outDim, inDim, rowStart);
      return Layout(stack + [outDim, inDim], []);
    }
    var first, count := rowStart / outDim, CeilDiv(rowEnd, outDim);
    Edges(rowStart, rowEnd, outDim, Prod(stack));
    var chunks := [];
    LaidOutStarts(stack, outDim, inDim, rowStart, rowEnd, first);
    for matrix := first to count
      invariant LaidOut(chunks, stack, outDim, inDim, rowStart, rowEnd, first, matrix)
    {
      var c := MatrixBox(stack, outDim, inDim, rowStart, rowEnd, matrix);
      LaidOutMore(chunks, c, stack, outDim, inDim, rowStart, rowEnd, first, matrix);
      chunks := chunks + [c];
    }
    layout := Layout(stack + [outDim, inDim], chunks);
    LaidOutAll(layout, stack, outDim, inDim, rowStart, rowEnd, first, count);
  }

  lemma NoRows(stack: seq<int>, outDim: nat, inDim: nat, rowStart: nat)
    requires Sized(stack) && outDim > 0
    ensures LocalsApart([]) && GlobalsApart([])
    ensures forall l: Index, g: Index :: Maps([], l, g)
             <==> HasRow(stack, outDim, inDim, rowStart, rowStart, rowStart, l, g)
  {
    hide Maps, HasRow;
    forall l: Index, g: Index
      ensures !Maps([], l, g) && !HasRow(stack, outDim, inDim, rowStart, rowStart, rowStart, l, g)
    {
      NothingYet(stack, outDim, inDim, rowStart, l, g);
    }
  }

  /** The chunks of the matrices before `matrix`. */
  ghost predicate LaidOut(chunks: seq<Chunk>, stack: seq<int>, outDim: nat, inDim: nat,
                          rowStart: nat, rowEnd: nat, first: nat,
                          matrix: nat)
    requires Sized(stack) && outDim > 0 && rowStart <= rowEnd
  {
    && (forall k :: 0 <= k < |chunks| ==> ChunkOk(chunks[k], |stack| + 2) && NonEmpty(chunks[k]))
    && first + |chunks| == matrix
    && (forall k :: 0 <= k < |chunks| ==> ChunkRows(chunks, stack, outDim, inDim, rowStart, rowEnd, first, k))
    && forall l: Index, g: Index :: Maps(chunks, l, g) <==>
         HasRow(stack, outDim, inDim, rowStart, rowStart, Reached(rowStart, rowEnd, outDim, matrix), l, g)
  }

  lemma LaidOutStarts(stack: seq<int>, outDim: nat, inDim: nat, rowStart: nat, rowEnd: nat, first: nat)
    requires Sized(stack) && outDim > 0 && rowStart <= rowEnd && Reached(rowStart, rowEnd, outDim, first) == rowStart
    ensures LaidOut([], stack, outDim, inDim, rowStart, rowEnd, first, first)
  {
    hide Maps, HasRow, Reached;
    NoRows(stack, outDim, inDim, rowStart);
  }

  lemma LaidOutMore(chunks: seq<Chunk>, c: Chunk, stack: seq<int>, outDim: nat, inDim: nat, rowStart: nat, rowEnd: nat,
                    first: nat, matrix: nat)
    requires Sized(stack) && outDim > 0 && rowStart <= rowEnd
    requires LaidOut(chunks, stack, outDim, inDim, rowStart, rowEnd, first, matrix)
    requires ChunkOk(c, |stack| + 2) && NonEmpty(c)
    requires Reached(rowStart, rowEnd, outDim, matrix) <= Reached(rowStart, rowEnd, outDim, matrix + 1)
    requires forall l: Index, g: Index :: MapsOne(c, l, g) <==>
               HasRow(stack, outDim, inDim, rowStart, Reached(rowStart, rowEnd, outDim, matrix),
                      Reached(rowStart, rowEnd, outDim, matrix + 1), l, g)
    ensures LaidOut(chunks + [c], stack, outDim, inDim, rowStart, rowEnd, first, matrix + 1)
  {
    hide Maps, MapsOne, HasRow, Reached, ChunkOk, NonEmpty, ChunkRows;
    var start, end := Reached(rowStart, rowEnd, outDim, matrix), Reached(rowStart, rowEnd, outDim, matrix + 1);
    forall l: Index, g: Index
      ensures Maps(chunks + [c], l, g) <==> HasRow(stack, outDim, inDim, rowStart, rowStart, end, l, g)
    {
      MapsMore(chunks, c, l, g);
      RowsJoin(stack, outDim, inDim, rowStart, rowStart, start, end, l, g);
    }
    ChunkRowsMore(chunks, c, stack, outDim, inDim, rowStart, rowEnd, first);
  }

  lemma LaidOutAll(layout: Layout, stack: seq<int>, outDim: nat, inDim: nat, rowStart: nat,
                   rowEnd: nat, first: nat, count: nat)
    requires Sized(stack) && outDim > 0 && rowStart <= rowEnd && Reached(rowStart, rowEnd, outDim, count) == rowEnd
    requires LaidOut(layout.chunks, stack, outDim, inDim, rowStart, rowEnd, first, count)
    requires layout.shape == stack + [outDim, inDim]
    ensures LayoutOk(layout, |stack| + 2) && |layout.chunks| == count - first
    ensures forall k :: 0 <= k < |layout.chunks| ==> NonEmpty(layout.chunks[k])
    ensures LocalsApart(layout.chunks) && GlobalsApart(layout.chunks)
    ensures forall l: Index, g: Index :: Maps(layout.chunks, l, g) <==>
              HasRow(stack, outDim, inDim, rowStart, rowStart, rowEnd, l, g)
  {
    hide Maps, HasRow, Reached, ChunkOk, NonEmpty, ChunkRows, LocalsApart, GlobalsApart;
    BoxesApart(layout.chunks, stack, outDim, inDim, rowStart, rowEnd, first);
  }

  lemma ChunkRowsMore(chunks: seq<Chunk>, c: Chunk, stack: seq<int>, outDim: nat, inDim: nat,
                      rowStart: nat, rowEnd: nat, first: nat)
    requires Sized(stack) && outDim > 0 && rowStart <= rowEnd
    requires forall k :: 0 <= k < |chunks| ==> ChunkRows(chunks, stack, outDim, inDim, rowStart, rowEnd, first, k)
    requires forall l: Index, g: Index :: MapsOne(c, l, g) <==>
               HasRow(stack, outDim, inDim, rowStart, Reached(rowStart, rowEnd, outDim, first + |chunks|),
                   Reached(rowStart, rowEnd, outDim, first + |chunks| + 1), l, g)
    ensures forall k :: 0 <= k < |chunks| + 1
             ==> ChunkRows(chunks + [c], stack, outDim, inDim, rowStart, rowEnd, first, k)
  {
    hide MapsOne, HasRow, Reached, Prod;
    var more := chunks + [c];
    forall k | 0 <= k < |more| ensures ChunkRows(more, stack, outDim, inDim, rowStart, rowEnd, first, k) {
      if k < |chunks| {
        assert more[k] == chunks[k] && ChunkRows(chunks, stack, outDim, inDim, rowStart, rowEnd, first, k);
      } else {
        assert more[k] == c;
      }
    }
  }

  function Clamp(low: int, x: int, high: int): int {
    if x < low then low else if x > high then high else x
  }

  lemma NothingYet(stack: seq<int>, outDim: nat, inDim: nat, rowStart: nat, l: Index, g: Index)
    requires Sized(stack) && outDim > 0
    ensures !Maps([], l, g) && !HasRow(stack, outDim, inDim, rowStart, rowStart, rowStart, l, g)
  {
  }

  /** The matrices a rank's rows touch begin at or before its first row, and end at or after its last. */
  lemma Edges(rowStart: nat, rowEnd: nat, outDim: nat, matrices: int)
    requires outDim > 0 && rowStart < rowEnd <= matrices * outDim
    ensures rowStart / outDim * outDim <= rowStart && rowEnd <= CeilDiv(rowEnd, outDim) * outDim
    ensures rowStart / outDim <= CeilDiv(rowEnd, outDim) <= matrices
    ensures Reached(rowStart, rowEnd, outDim, rowStart / outDim) == rowStart
    ensures Reached(rowStart, rowEnd, outDim, CeilDiv(rowEnd, outDim)) == rowEnd
  {
    CeilDivCovers(rowEnd, outDim);
    if CeilDiv(rowEnd, outDim) > matrices {
      LessTimes(matrices, CeilDiv(rowEnd, outDim), outDim);
    }
    if rowStart / outDim > CeilDiv(rowEnd, outDim) {
      LessTimes(CeilDiv(rowEnd, outDim), rowStart / outDim, outDim);
    }
  }

  lemma LessTimes(a: int, b: int, x: int)
    requires a < b && x >= 0
    ensures a * x + x <= b * x
  {
    OneMore(a, x);
    NonNegative(b - a - 1, x);
    Distributes(x, a + 1, b - a - 1);
  }

  /** The matrix's rows of a rank: some, all of the matrix, and beginning where the matrix before ended. */
  lemma InMatrix(rowStart: nat, rowEnd: nat, outDim: nat, matrices: int, matrix: nat)
    requires outDim > 0 && rowStart < rowEnd <= matrices * outDim
    requires rowStart / outDim <= matrix < CeilDiv(rowEnd, outDim)
    ensures 0 <= matrix * outDim && matrix < matrices
    ensures var start, end := Max(rowStart, matrix * outDim), Min(rowEnd, matrix * outDim + outDim);
            && start < end && start == Reached(rowStart, rowEnd, outDim, matrix)
            && end == Reached(rowStart, rowEnd, outDim, matrix + 1)
  {
    hide CeilDiv, Reached;
    Edges(rowStart, rowEnd, outDim, matrices);
    NonNegative(matrix, outDim);
    BelowNext(rowStart, outDim, matrix);
    CeilDivCovers(rowEnd, outDim);
    LessTimes(matrix, CeilDiv(rowEnd, outDim), outDim);
    OneMore(CeilDiv(rowEnd, outDim) - 1, outDim);
    ReachedIs(rowStart, rowEnd, outDim, matrix);
  }

  lemma BelowNext(r: nat, outDim: nat, matrix: nat)
    requires outDim > 0 && r / outDim <= matrix
    ensures r < matrix * outDim + outDim
  {
    OneMore(r / outDim, outDim);
    if r / outDim < matrix {
      LessTimes(r / outDim, matrix, outDim);
    }
  }

  lemma ReachedIs(rowStart: nat, rowEnd: nat, outDim: nat, matrix: nat)
    requires rowStart < rowEnd && matrix * outDim < rowEnd && rowStart < matrix * outDim + outDim
    ensures Reached(rowStart, rowEnd, outDim, matrix) == Max(rowStart, matrix * outDim)
    ensures Reached(rowStart, rowEnd, outDim, matrix + 1) == Min(rowEnd, matrix * outDim + outDim)
  {
    OneMore(matrix, outDim);
  }

  lemma BoxFits(stack: seq<int>, outDim: nat, inDim: nat, rowStart: nat, matrix: nat, start: nat, end: nat, c: Chunk)
    requires Sized(stack) && matrix < Prod(stack) && start < end && inDim > 0
    requires c == Chunk(CellAt(Zeros(|stack|), stack, matrix) + [start - matrix * outDim, 0],
                        Zeros(|stack|) + [start - rowStart, 0], Ones(|stack|) + [end - start, inDim])
    ensures c == BoxOf(stack, outDim, inDim, rowStart, matrix, start, end) && ChunkOk(c, |stack| + 2) && NonEmpty(c)
  {
    CellInside(Zeros(|stack|), stack, matrix);
  }

  // ----- All the ranks

  /** The number of an element's row among the stacked rows. */
  function RowOf(stack: seq<int>, outDim: nat, g: Index): int
    requires |g| == |stack| + 2
  {
    NumberOf(Zeros(|stack|), stack, g[..|stack|]) * outDim + g[|stack|]
  }

  /** A rank has an element at a place exactly when the element's row is one of its rows, and the
      place is that row's. */
  lemma HasRowIs(stack: seq<int>, outDim: nat, inDim: nat, rowStart: nat, rowEnd: nat, l: Index, g: Index)
    requires Sized(stack) && outDim > 0 && Inside(Zeros(|stack| + 2), stack + [outDim, inDim], g)
    ensures HasRow(stack, outDim, inDim, rowStart, rowStart, rowEnd, l, g) <==>
            rowStart <= RowOf(stack, outDim, g) < rowEnd
                && l == LocalIndex(stack, RowOf(stack, outDim, g) - rowStart, g[|stack| + 1])
  {
    hide CellAt, NumberOf, Prod, Inside, RowIndex;
    RowFound(stack, outDim, inDim, g);
    var n, row := |stack|, RowOf(stack, outDim, g);
    if HasRow(stack, outDim, inDim, rowStart, rowStart, rowEnd, l, g) {
      var i: nat, c: nat :| IsRow(stack, outDim, inDim, rowStart, rowStart, rowEnd, l, g, i, c);
      RowOfIndex(stack, outDim, rowStart + i, c);
    }
    if rowStart <= row < rowEnd && l == LocalIndex(stack, row - rowStart, g[n + 1]) {
      assert IsRow(stack, outDim, inDim, rowStart, rowStart, rowEnd, l, g, row - rowStart, g[n + 1]);
    }
  }

  /** Every element of the parameter is in one row, at its column. */
  lemma RowFound(stack: seq<int>, outDim: nat, inDim: nat, g: Index)
    requires Sized(stack) && outDim > 0 && Inside(Zeros(|stack| + 2), stack + [outDim, inDim], g)
    ensures |g| == |stack| + 2 && 0 <= g[|stack| + 1] < inDim && 0 <= RowOf(stack, outDim, g) < Prod(stack) * outDim
    ensures RowOf(stack, outDim, g) / outDim < Prod(stack)
    ensures g == RowIndex(stack, outDim, RowOf(stack, outDim, g), g[|stack| + 1])
  {
    hide *;
    MatrixFound(stack, outDim, inDim, g);
    RowAt(stack, outDim, g);
  }

  lemma MatrixFound(stack: seq<int>, outDim: nat, inDim: nat, g: Index)
    requires Sized(stack) && outDim > 0 && Inside(Zeros(|stack| + 2), stack + [outDim, inDim], g)
    ensures |g| == |stack| + 2 && 0 <= g[|stack|] < outDim && 0 <= g[|stack| + 1] < inDim
    ensures 0 <= NumberOf(Zeros(|stack|), stack, g[..|stack|]) < Prod(stack)
    ensures g == CellAt(Zeros(|stack|), stack, NumberOf(Zeros(|stack|), stack, g[..|stack|]))
        + [g[|stack|], g[|stack| + 1]]
  {
    hide CellAt, NumberOf, Prod, Inside;
    IndexParts(stack, outDim, inDim, g);
    Numbered(Zeros(|stack|), stack, g[..|stack|]);
    SplitTwo(g, |stack|);
  }

  lemma SplitTwo(g: Index, n: nat)
    requires |g| == n + 2
    ensures g == g[..n] + [g[n], g[n + 1]]
  {
  }

  lemma RowAt(stack: seq<int>, outDim: nat, g: Index)
    requires Sized(stack) && outDim > 0 && |g| == |stack| + 2 && 0 <= g[|stack|] < outDim
    requires 0 <= NumberOf(Zeros(|stack|), stack, g[..|stack|]) < Prod(stack)
    ensures var r, m := RowOf(stack, outDim, g), NumberOf(Zeros(|stack|), stack, g[..|stack|]);
            && 0 <= r < Prod(stack) * outDim && r / outDim < Prod(stack)
            && RowIndex(stack, outDim, r, g[|stack| + 1]) == CellAt(Zeros(|stack|), stack, m)
                + [g[|stack|], g[|stack| + 1]]
  {
    hide CellAt, NumberOf, Prod;
    RowNumber(NumberOf(Zeros(|stack|), stack, g[..|stack|]), Prod(stack), outDim, g[|stack|]);
  }

  lemma IndexParts(stack: seq<int>, outDim: nat, inDim: nat, g: Index)
    requires Inside(Zeros(|stack| + 2), stack + [outDim, inDim], g)
    ensures |g| == |stack| + 2 && 0 <= g[|stack|] < outDim && 0 <= g[|stack| + 1] < inDim
    ensures Inside(Zeros(|stack|), stack, g[..|stack|])
  {
    var shape := stack + [outDim, inDim];
    forall d | 0 <= d < |stack| ensures 0 <= g[d] < stack[d] {
      assert shape[d] == stack[d];
    }
  }

  lemma RowNumber(m: int, matrices: int, outDim: int, r: int)
    requires 0 <= m < matrices && 0 <= r < outDim
    ensures 0 <= m * outDim + r < matrices * outDim && (m * outDim + r) / outDim == m && (m * outDim + r) % outDim == r
  {
    PlaceBelow(m, matrices, outDim, r);
    QuotientIs(m * outDim + r, m, r, outDim);
  }

  lemma RowOfIndex(stack: seq<int>, outDim: nat, r: nat, c: int)
    requires Sized(stack) && outDim > 0 && r / outDim < Prod(stack)
    ensures |RowIndex(stack, outDim, r, c)| == |stack| + 2
    ensures RowOf(stack, outDim, RowIndex(stack, outDim, r, c)) == r && RowIndex(stack, outDim, r, c)[|stack| + 1] == c
  {
    hide CellAt, NumberOf, Prod;
    NumberOfCell(Zeros(|stack|), stack, r / outDim);
    assert RowIndex(stack, outDim, r, c)[..|stack|] == CellAt(Zeros(|stack|), stack, r / outDim);
  }

  /** `starts` cuts the stacked rows into the ranks' ranges. */
  predicate Cuts(starts: seq<nat>, rows: int) {
    && |starts| >= 2 && starts[0] == 0 && starts[|starts| - 1] == rows
    && forall r, s :: 0 <= r < s < |starts| ==> starts[r] <= starts[s]
  }

  /** The rank a row belongs to. */
  lemma {:induction false} RankOf(starts: seq<nat>, row: nat, k: nat) returns (rank: nat)
    requires k < |starts| && starts[0] <= row < starts[k]
    ensures rank < k && starts[rank] <= row < starts[rank + 1]
  {
    if starts[k - 1] <= row {
      rank := k - 1;
    } else {
      rank := RankOf(starts, row, k - 1);
    }
  }

  /** The layouts of the ranks hold every element of the stacked parameter once. */
  lemma RanksTile(stack: seq<int>, outDim: nat, inDim: nat, starts: seq<nat>, layouts: seq<Layout>)
    requires Sized(stack) && outDim > 0 && Cuts(starts, Prod(stack) * outDim) && |layouts| == |starts| - 1
    requires forall r: nat, t: Index, g: Index :: r < |layouts| ==>
               (Maps(layouts[r].chunks, t, g) <==>
                   HasRow(stack, outDim, inDim, starts[r], starts[r], starts[r + 1], t, g))
    ensures TileOnce(layouts, stack + [outDim, inDim])
  {
    hide Maps, HasRow, Inside, Prod, RowOf;
    var shape := stack + [outDim, inDim];
    forall g: Index | Inside(Zeros(|shape|), shape, g)
      ensures exists rank: nat, l: Index :: AtOnly(layouts, g, rank, l)
    {
      RowFound(stack, outDim, inDim, g);
      var row := RowOf(stack, outDim, g);
      var rank := RankOf(starts, row, |starts| - 1);
      var l := LocalIndex(stack, row - starts[rank], g[|stack| + 1]);
      forall r: nat, t: Index | r < |layouts|
        ensures Maps(layouts[r].chunks, t, g) <==> r == rank && t == l
      {
        HasRowIs(stack, outDim, inDim, starts[r], starts[r + 1], t, g);
        CutsAt(starts, r, rank, row);
      }
      assert AtOnly(layouts, g, rank, l);
    }
  }

  lemma CutsAt(starts: seq<nat>, r: nat, rank: nat, row: nat)
    requires r + 1 < |starts| && rank + 1 < |starts| && forall r, s :: 0 <= r < s < |starts| ==> starts[r] <= starts[s]
    requires starts[rank] <= row < starts[rank + 1]
    ensures starts[r] <= row < starts[r + 1] <==> r == rank
  {
  }
}
