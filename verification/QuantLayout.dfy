/** How a bucket's matrices are cut into block-row units and regrouped into the chunks of each
    rank, and what it means to quantize a matrix block row by block row. */
module QuantLayout {
  import opened Arithmetic

  /** A parameter's matrix: its rows, and how many elements each has. */
  datatype Param<+R> = Param(rows: seq<R>, inDim: nat)

  /** Rows `start` to `end` of a parameter: a unit, or a rank's chunk. */
  datatype Piece = Piece(param: nat, start: nat, end: nat)

  /** A place in the bucket: a row of a parameter. */
  datatype Pos = Pos(param: nat, row: nat)

  function Min(a: nat, b: nat): nat {
    if a < b then a else b
  }

  predicate Shaped<R>(params: seq<Param<R>>) {
    forall p :: 0 <= p < |params| ==> |params[p].rows| > 0 && params[p].inDim > 0
  }

  /** The piece starts at `at` and ends at a block edge or at the last row. */
  predicate StartsAt<R>(params: seq<Param<R>>, block: nat, piece: Piece, at: Pos)
    requires block > 0
  {
    && piece.param == at.param < |params| && piece.start == at.row < piece.end <= |params[piece.param].rows|
    && piece.start % block == 0
    && (piece.end % block == 0 || piece.end == |params[piece.param].rows|)
  }

  function After<R>(params: seq<Param<R>>, piece: Piece): Pos
    requires piece.param < |params|
  {
    if piece.end == |params[piece.param].rows| then Pos(piece.param + 1, 0) else Pos(piece.param, piece.end)
  }

  /** The pieces follow each other without gaps, from `at` on. */
  predicate Chained<R>(params: seq<Param<R>>, block: nat, pieces: seq<Piece>, at: Pos)
    requires block > 0
  {
    pieces == [] || (StartsAt(params, block, pieces[0], at)
        && Chained(params, block, pieces[1..], After(params, pieces[0])))
  }

  function EndOf<R>(params: seq<Param<R>>, block: nat, pieces: seq<Piece>, at: Pos): Pos
    requires block > 0 && Chained(params, block, pieces, at)
  {
    if pieces == [] then at else EndOf(params, block, pieces[1..], After(params, pieces[0]))
  }

  /** The pieces are all of the bucket. */
  predicate Covers<R>(params: seq<Param<R>>, block: nat, pieces: seq<Piece>)
    requires block > 0
  {
    Chained(params, block, pieces, Pos(0, 0)) && EndOf(params, block, pieces, Pos(0, 0)) == Pos(|params|, 0)
  }

  lemma {:induction false} ChainSum<R>(params: seq<Param<R>>, block: nat, a: seq<Piece>, b: seq<Piece>, at: Pos)
    requires block > 0 && Chained(params, block, a, at)
    ensures Chained(params, block, a + b, at) <==> Chained(params, block, b, EndOf(params, block, a, at))
    ensures Chained(params, block, a + b, at) && Chained(params, block, b, EndOf(params, block, a, at)) ==>
              EndOf(params, block, a + b, at) == EndOf(params, block, b, EndOf(params, block, a, at))
  {
    hide After;
    if a == [] {
      assert a + b == b;
    } else {
      ChainSum(params, block, a[1..], b, After(params, a[0]));
      assert (a + b)[1..] == a[1..] + b;
    }
  }

  // ----- Units

  function BlockEnd(start: nat, block: nat, rows: nat): nat {
    Min(start + block, rows)
  }

  /** The units of a bucket: every parameter cut into block rows, the last of which may be
      shorter. */
  method BuildUnits<R>(params: seq<Param<R>>, block: nat) returns (units: seq<Piece>)
    requires block > 0 && Shaped(params)
    ensures Covers(params, block, units) && |units| == BlockRows(params, block, |params|)
    ensures forall u :: u in units ==> u.param < |params| && u.end == BlockEnd(u.start, block, |params[u.param].rows|)
  {
    units := [];
    for p := 0 to |params|
      invariant |units| == BlockRows(params, block, p)
      invariant Chained(params, block, units, Pos(0, 0)) && EndOf(params, block, units, Pos(0, 0)) == Pos(p, 0)
      invariant forall u :: u in units ==>
                  u.param < |params| && u.end == BlockEnd(u.start, block, |params[u.param].rows|)
    {
      var rows := |params[p].rows|;
      var start := 0;
      FirstEdge(block);
      while start < rows
        invariant start % block == 0 && start < rows + block && |units| == BlockRows(params, block, p) + start / block
        invariant Chained(params, block, units, Pos(0, 0))
        invariant EndOf(params, block, units, Pos(0, 0)) == if start < rows then Pos(p, start) else Pos(p + 1, 0)
        invariant forall u :: u in units ==>
                    u.param < |params| && u.end == BlockEnd(u.start, block, |params[u.param].rows|)
        decreases if start < rows then rows - start else 0
      {
        var unit := Piece(p, start, BlockEnd(start, block, rows));
        NextEdge(start, block);
        ChainSum(params, block, units, [unit], Pos(0, 0));
        OneChained(params, block, unit, Pos(p, start));
        units := units + [unit];
        start := start + block;
      }
      LastEdge(start, rows, block);
    }
  }

  /** How many block rows the first `n` parameters have. */
  function BlockRows<R>(params: seq<Param<R>>, block: nat, n: nat): nat
    requires block > 0 && n <= |params|
  {
    if n == 0 then 0 else BlockRows(params, block, n - 1) + CeilDiv(|params[n - 1].rows|, block)
  }

  lemma FirstEdge(block: nat)
    requires block > 0
    ensures 0 % block == 0 && 0 / block == 0
  {
    QuotientIs(0, 0, 0, block);
  }

  lemma LastEdge(start: nat, rows: nat, block: nat)
    requires block > 0 && start % block == 0 && rows <= start < rows + block
    ensures start / block == CeilDiv(rows, block)
  {
    QuotientIs(rows + block - 1, start / block, rows + block - 1 - start, block);
  }

  lemma NextEdge(start: nat, block: nat)
    requires block > 0 && start % block == 0
    ensures (start + block) % block == 0 && (start + block) / block == start / block + 1
  {
    OneMore(start / block, block);
    QuotientIs(start + block, start / block + 1, 0, block);
  }

  lemma NoneChained<R>(params: seq<Param<R>>, block: nat, at: Pos)
    requires block > 0
    ensures Chained(params, block, [], at) && EndOf(params, block, [], at) == at
  {
  }

  lemma OneChained<R>(params: seq<Param<R>>, block: nat, piece: Piece, at: Pos)
    requires block > 0 && StartsAt(params, block, piece, at)
    ensures Chained(params, block, [piece], at) && EndOf(params, block, [piece], at) == After(params, piece)
  {
    assert [piece][1..] == [];
  }

  // ----- Chunks

  /** Joins the units of one rank that follow each other in one parameter. */
  method JoinUnits<R>(params: seq<Param<R>>, block: nat, units: seq<Piece>, ghost at: Pos) returns (chunks: seq<Piece>)
    requires block > 0 && Chained(params, block, units, at)
    ensures Chained(params, block, chunks, at) && EndOf(params, block, chunks, at) == EndOf(params, block, units, at)
    ensures forall i, j :: 0 <= i < j < |chunks| ==> chunks[i].param < chunks[j].param
  {
    hide Chained, EndOf;
    chunks := [];
    var idx := 0;
    assert units[..0] == [];
    NoneChained(params, block, at);
    while idx < |units|
      invariant idx <= |units|
      invariant Chained(params, block, chunks, at) && Chained(params, block, units[..idx], at)
      invariant EndOf(params, block, chunks, at) == EndOf(params, block, units[..idx], at)
      invariant forall i, j :: 0 <= i < j < |chunks| ==> chunks[i].param < chunks[j].param
      invariant chunks != [] && idx < |units| ==> chunks[|chunks| - 1].param < units[idx].param
      decreases |units| - idx
    {
      ghost var here := EndOf(params, block, chunks, at);
      ghost var from := idx;
      var first := units[idx];
      UnitAt(params, block, units, idx, at);
      var last := first;
      idx := idx + 1;
      while idx < |units| && units[idx].param == first.param
        invariant from < idx <= |units| && last == units[idx - 1] && last.param == first.param
        invariant StartsAt(params, block, Piece(first.param, first.start, last.end), here)
        invariant Chained(params, block, units[..idx], at)
        invariant EndOf(params, block, units[..idx], at) == After(params, Piece(first.param, first.start, last.end))
      {
        UnitAt(params, block, units, idx, at);
        last := units[idx];
        idx := idx + 1;
      }
      var chunk := Piece(first.param, first.start, last.end);
      OneChained(params, block, chunk, here);
      ChainSum(params, block, chunks, [chunk], at);
      if idx < |units| {
        UnitAt(params, block, units, idx, at);
      }
      chunks := chunks + [chunk];
    }
    assert units[..|units|] == units;
  }

  /** Unit `idx` starts where the ones before end. */
  lemma UnitAt<R>(params: seq<Param<R>>, block: nat, units: seq<Piece>, idx: nat, at: Pos)
    requires block > 0 && Chained(params, block, units, at) && idx < |units|
    ensures Chained(params, block, units[..idx], at) && Chained(params, block, units[..idx + 1], at)
    ensures StartsAt(params, block, units[idx], EndOf(params, block, units[..idx], at))
    ensures EndOf(params, block, units[..idx + 1], at) == After(params, units[idx])
  {
    hide After;
    ChainPrefix(params, block, units, idx, at);
    ChainPrefix(params, block, units, idx + 1, at);
    assert units[..idx + 1] == units[..idx] + [units[idx]];
    ChainSum(params, block, units[..idx], [units[idx]], at);
  }

  lemma {:induction false} ChainPrefix<R>(params: seq<Param<R>>, block: nat, units: seq<Piece>, idx: nat, at: Pos)
    requires block > 0 && Chained(params, block, units, at) && idx <= |units|
    ensures Chained(params, block, units[..idx], at)
    ensures Chained(params, block, units[idx..], EndOf(params, block, units[..idx], at))
    ensures EndOf(params, block, units[idx..], EndOf(params, block, units[..idx], at))
        == EndOf(params, block, units, at)
  {
    hide After;
    if idx > 0 {
      ChainPrefix(params, block, units[1..], idx - 1, After(params, units[0]));
      assert units[..idx][1..] == units[1..][..idx - 1];
      assert units[idx..] == units[1..][idx - 1..];
    } else {
      assert units[..0] == [] && units[0..] == units;
    }
  }

  function Concat<T>(parts: seq<seq<T>>): seq<T> {
    if parts == [] then [] else Concat(parts[..|parts| - 1]) + parts[|parts| - 1]
  }

  predicate CutsOk(cuts: seq<nat>, units: nat) {
    && |cuts| > 0 && cuts[0] == 0 && cuts[|cuts| - 1] == units
    && forall i, j :: 0 <= i <= j < |cuts| ==> cuts[i] <= cuts[j]
  }

  function EndAt<R>(params: seq<Param<R>>, block: nat, units: seq<Piece>, i: nat): Pos
    requires block > 0 && i <= |units| && Chained(params, block, units[..i], Pos(0, 0))
  {
    EndOf(params, block, units[..i], Pos(0, 0))
  }

  /** The ranks' pieces end where the units before their cuts end. */
  ghost predicate CutAt<R>(params: seq<Param<R>>, block: nat, units: seq<Piece>, cuts: seq<nat>, ranks: seq<seq<Piece>>)
    requires block > 0
  {
    && Chained(params, block, units, Pos(0, 0)) && Chained(params, block, Concat(ranks), Pos(0, 0))
    && |cuts| == |ranks| + 1 && (forall i, j :: 0 <= i <= j < |cuts| ==> cuts[i] <= cuts[j] <= |units|)
    && forall r :: 0 <= r <= |ranks| ==>
         && Chained(params, block, units[..cuts[r]], Pos(0, 0)) && Chained(params, block, Concat(ranks[..r]), Pos(0, 0))
         && EndAt(params, block, units, cuts[r]) == EndOf(params, block, Concat(ranks[..r]), Pos(0, 0))
  }

  lemma ConcatNext<T>(parts: seq<seq<T>>, r: nat)
    requires r < |parts|
    ensures Concat(parts[..r + 1]) == Concat(parts[..r]) + parts[r]
  {
    assert parts[..r + 1][..r] == parts[..r];
  }

  lemma CutOneMore<R>(params: seq<Param<R>>, block: nat, units: seq<Piece>, before: seq<nat>,
                      ranks: seq<seq<Piece>>, next: nat)
    requires block > 0 && ranks != [] && CutAt(params, block, units, before, ranks[..|ranks| - 1])
    requires Chained(params, block, Concat(ranks), Pos(0, 0)) && before[|ranks| - 1] <= next <= |units|
    requires Chained(params, block, units[..next], Pos(0, 0))
    requires EndAt(params, block, units, next) == EndOf(params, block, Concat(ranks), Pos(0, 0))
    ensures CutAt(params, block, units, before + [next], ranks)
  {
    hide Chained, EndOf, Concat;
    var n, cuts := |ranks| - 1, before + [next];
    forall r | 0 <= r <= |ranks|
      ensures Chained(params, block, units[..cuts[r]], Pos(0, 0))
      ensures Chained(params, block, Concat(ranks[..r]), Pos(0, 0))
      ensures EndAt(params, block, units, cuts[r]) == EndOf(params, block, Concat(ranks[..r]), Pos(0, 0))
    {
      if r <= n {
        assert ranks[..n][..r] == ranks[..r];
      } else {
        assert ranks[..r] == ranks;
      }
    }
  }

  /** The chunks of every rank, from the cuts between the ranks' units. Together they are all of
      the bucket, and a rank has at most one chunk of a parameter. */
  method BuildChunks<R>(params: seq<Param<R>>, block: nat, units: seq<Piece>, cuts: seq<nat>)
      returns (ranks: seq<seq<Piece>>)
    requires block > 0 && Covers(params, block, units) && CutsOk(cuts, |units|)
    ensures |ranks| == |cuts| - 1 && Covers(params, block, Concat(ranks))
    ensures CutAt(params, block, units, cuts, ranks)
    ensures forall r :: 0 <= r < |ranks| ==>
              forall i, j :: 0 <= i < j < |ranks[r]| ==> ranks[r][i].param < ranks[r][j].param
  {
    hide Chained, EndOf, CutAt;
    ranks := [];
    NothingChained(params, block, units);
    CutNowhere(params, block, units);
    assert cuts[..1] == [0];
    for r := 0 to |cuts| - 1
      invariant |ranks| == r && CutAt(params, block, units, cuts[..r + 1], ranks)
      invariant Chained(params, block, units[..cuts[r]], Pos(0, 0)) && Chained(params, block, Concat(ranks), Pos(0, 0))
      invariant EndOf(params, block, Concat(ranks), Pos(0, 0)) == EndOf(params, block, units[..cuts[r]], Pos(0, 0))
      invariant forall q :: 0 <= q < r ==>
                  forall i, j :: 0 <= i < j < |ranks[q]| ==> ranks[q][i].param < ranks[q][j].param
    {
      ghost var here := EndOf(params, block, units[..cuts[r]], Pos(0, 0));
      var mine := units[cuts[r]..cuts[r + 1]];
      ChainMiddle(params, block, units, cuts[r], cuts[r + 1], Pos(0, 0));
      var chunks := JoinUnits(params, block, mine, here);
      ChainSum(params, block, Concat(ranks), chunks, Pos(0, 0));
      var more := ranks + [chunks];
      assert more[..r] == ranks && cuts[..r + 2] == cuts[..r + 1] + [cuts[r + 1]];
      CutOneMore(params, block, units, cuts[..r + 1], more, cuts[r + 1]);
      ranks := more;
    }
    assert units[..|units|] == units && cuts[..|cuts|] == cuts;
  }

  lemma CutNowhere<R>(params: seq<Param<R>>, block: nat, units: seq<Piece>)
    requires block > 0 && Chained(params, block, units, Pos(0, 0))
    ensures CutAt(params, block, units, [0], [])
  {
    NothingChained(params, block, units);
  }

  lemma NothingChained<R>(params: seq<Param<R>>, block: nat, units: seq<Piece>)
    requires block > 0
    ensures units[..0] == [] && Chained(params, block, [], Pos(0, 0))
    ensures EndOf(params, block, [], Pos(0, 0)) == Pos(0, 0)
  {
  }

  lemma ChainMiddle<R>(params: seq<Param<R>>, block: nat, units: seq<Piece>, lo: nat, hi: nat, at: Pos)
    requires block > 0 && Chained(params, block, units, at) && lo <= hi <= |units|
    ensures Chained(params, block, units[..lo], at) && Chained(params, block, units[..hi], at)
    ensures Chained(params, block, units[lo..hi], EndOf(params, block, units[..lo], at))
    ensures EndOf(params, block, units[lo..hi], EndOf(params, block, units[..lo], at))
        == EndOf(params, block, units[..hi], at)
  {
    hide Chained, EndOf;
    ChainPrefix(params, block, units, hi, at);
    ChainPrefix(params, block, units[..hi], lo, at);
    assert units[..hi][..lo] == units[..lo];
    assert units[..hi][lo..] == units[lo..hi];
  }

  // ----- Block by block

  /** What `g` makes of each block of rows, one after the other. */
  function Blockwise<R, V>(g: seq<R> -> seq<V>, rows: seq<R>, block: nat): seq<V>
    requires block > 0
  {
    if rows == [] then []
    else
      var n := Min(block, |rows|);
      g(rows[..n]) + Blockwise(g, rows[n..], block)
  }

  /** Cutting at a block edge changes nothing. */
  lemma {:induction false} BlockwiseSum<R, V>(g: seq<R> -> seq<V>, a: seq<R>, b: seq<R>, block: nat)
    requires block > 0 && |a| % block == 0
    ensures Blockwise(g, a + b, block) == Blockwise(g, a, block) + Blockwise(g, b, block)
    decreases |a|
  {
    if a == [] {
      assert a + b == b;
    } else {
      AtLeastBlock(|a|, block);
      assert (a + b)[..block] == a[..block] && (a + b)[block..] == a[block..] + b;
      BlockwiseSum(g, a[block..], b, block);
    }
  }

  lemma AtLeastBlock(n: nat, block: nat)
    requires block > 0 && n > 0 && n % block == 0
    ensures n >= block && (n - block) % block == 0
  {
    OneMore(n / block - 1, block);
    QuotientIs(n - block, n / block - 1, 0, block);
  }

  function For<R, V>(g: (nat, seq<R>) -> seq<V>, p: nat): seq<R> -> seq<V> {
    (u: seq<R>) => g(p, u)
  }

  /** What `g` makes of a piece. */
  function OfPiece<R, V>(params: seq<Param<R>>, block: nat, g: (nat, seq<R>) -> seq<V>, piece: Piece): seq<V>
    requires block > 0 && piece.param < |params| && piece.start <= piece.end <= |params[piece.param].rows|
  {
    Blockwise(For(g, piece.param), params[piece.param].rows[piece.start..piece.end], block)
  }

  predicate InRange<R>(params: seq<Param<R>>, pieces: seq<Piece>) {
    forall i :: 0 <= i < |pieces| ==>
        pieces[i].param < |params| && pieces[i].start <= pieces[i].end <= |params[pieces[i].param].rows|
  }

  lemma BothInRange<R>(params: seq<Param<R>>, a: seq<Piece>, b: seq<Piece>)
    ensures InRange(params, a + b) <==> InRange(params, a) && InRange(params, b)
  {
    assert forall i :: 0 <= i < |a| ==> (a + b)[i] == a[i];
    assert forall i :: 0 <= i < |b| ==> (a + b)[|a| + i] == b[i];
  }

  function OfPieces<R, V>(params: seq<Param<R>>, block: nat, g: (nat, seq<R>) -> seq<V>, pieces: seq<Piece>): seq<V>
    requires block > 0 && InRange(params, pieces)
  {
    if pieces == [] then [] else OfPiece(params, block, g, pieces[0]) + OfPieces(params, block, g, pieces[1..])
  }

  /** What `g` makes of the parameters from `at` on, each taken whole. */
  function OfRest<R, V>(params: seq<Param<R>>, block: nat, g: (nat, seq<R>) -> seq<V>, at: Pos): seq<V>
    requires block > 0 && at.param <= |params| && (at.param < |params| ==> at.row <= |params[at.param].rows|)
    decreases |params| - at.param
  {
    if at.param == |params| then []
    else
      Blockwise(For(g, at.param), params[at.param].rows[at.row..], block)
          + OfRest(params, block, g, Pos(at.param + 1, 0))
  }

  lemma {:induction false} ChainInRange<R>(params: seq<Param<R>>, block: nat, pieces: seq<Piece>, at: Pos)
    requires block > 0 && Chained(params, block, pieces, at)
    ensures InRange(params, pieces)
  {
    if pieces != [] {
      ChainInRange(params, block, pieces[1..], After(params, pieces[0]));
      assert pieces == [pieces[0]] + pieces[1..];
    }
  }

  /** Chained pieces make what the whole parameters make. */
  lemma {:induction false} PiecesAreWhole<R, V>(params: seq<Param<R>>, block: nat, g: (nat, seq<R>) -> seq<V>,
                                                pieces: seq<Piece>, at: Pos)
    requires block > 0 && Shaped(params) && Chained(params, block, pieces, at)
    requires EndOf(params, block, pieces, at) == Pos(|params|, 0)
    requires at.param <= |params| && (at.param < |params| ==> at.row < |params[at.param].rows|)
    requires InRange(params, pieces)
    ensures OfPieces(params, block, g, pieces) == OfRest(params, block, g, at)
    decreases |pieces|
  {
    hide Blockwise;
    if pieces != [] {
      var piece := pieces[0];
      PiecesAreWhole(params, block, g, pieces[1..], After(params, piece));
      PieceThenRest(params, block, g, piece, at);
    }
  }

  lemma PieceThenRest<R, V>(params: seq<Param<R>>, block: nat, g: (nat, seq<R>) -> seq<V>, piece: Piece, at: Pos)
    requires block > 0 && StartsAt(params, block, piece, at)
    ensures OfRest(params, block, g, at) == OfPiece(params, block, g, piece)
        + OfRest(params, block, g, After(params, piece))
  {
    hide Blockwise;
    var rows := params[piece.param].rows;
    if piece.end == |rows| {
      assert rows[piece.start..piece.end] == rows[piece.start..];
    } else {
      assert rows[piece.start..] == rows[piece.start..piece.end] + rows[piece.end..];
      EdgesApart(piece.start, piece.end, block);
      BlockwiseSum(For(g, piece.param), rows[piece.start..piece.end], rows[piece.end..], block);
    }
  }

  lemma EdgesApart(a: nat, b: nat, block: nat)
    requires block > 0 && a <= b && a % block == 0 && b % block == 0
    ensures (b - a) % block == 0
  {
    var q := b / block - a / block;
    assert b - a == q * block;
    QuotientIs(b - a, q, 0, block);
  }
}
