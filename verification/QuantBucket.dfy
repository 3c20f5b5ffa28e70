/** Gathering a quantized bucket: every rank quantizes and packs its own chunks, all rows are
    gathered, and the regions that matter are joined. What comes out is what quantizing the
    whole matrices would give. */
module QuantBucket {
  import opened Arithmetic
  import opened QuantLayout

  /** Block rows of `block` rows and tiles of `tileCols` columns, each with `tileBytes` bytes of
      scales and `gradBytes` bytes of input-gradient scales. The FP8 format has tiles of
      `block` by `block` elements with one scale of four bytes and no input-gradient scales;
      the MXFP8 format has tiles of 128 by 128 elements with 512 bytes of each. */
  datatype Format = Format(block: nat, tileCols: nat, tileBytes: nat, gradBytes: nat)

  /** What one block row quantizes to, for rows of a given length: its data, and for each
      column of tiles the scale tile, and the tile of the input-gradient scale. */
  datatype Quantizer<!R, !V> = Quantizer(
    data: (nat, seq<R>) -> seq<V>,
    scale: (nat, seq<R>, nat) -> seq<V>,
    grad: (nat, seq<R>, nat) -> seq<V>)

  predicate FormatOk(f: Format) {
    f.block > 0 && f.tileCols > 0
  }

  ghost predicate QuantizerOk<R(!new), V(!new)>(f: Format, q: Quantizer<R, V>) {
    && (forall n, u :: |q.data(n, u)| == |u| * n)
    && (forall n, u, c :: |q.scale(n, u, c)| == f.tileBytes)
    && (forall n, u, c :: |q.grad(n, u, c)| == f.gradBytes)
  }

  // ----- Whole matrices and chunks

  /** A block row's scale tiles. */
  function TileRow<R, V>(q: Quantizer<R, V>, n: nat, u: seq<R>, tiles: nat): seq<V> {
    if tiles == 0 then [] else TileRow(q, n, u, tiles - 1) + q.scale(n, u, tiles - 1)
  }

  function InTiles<R>(f: Format, params: seq<Param<R>>, p: nat): nat
    requires FormatOk(f) && p < |params|
  {
    CeilDiv(params[p].inDim, f.tileCols)
  }

  function DataOf<R, V>(q: Quantizer<R, V>, params: seq<Param<R>>): (nat, seq<R>) -> seq<V> {
    (p: nat, u: seq<R>) => if p < |params| then q.data(params[p].inDim, u) else []
  }

  function ScaleOf<R, V>(f: Format, q: Quantizer<R, V>, params: seq<Param<R>>): (nat, seq<R>) -> seq<V>
    requires FormatOk(f)
  {
    (p: nat, u: seq<R>) => if p < |params| then TileRow(q, params[p].inDim, u, InTiles(f, params, p)) else []
  }

  /** Tile row `c` of the input-gradient scale. */
  function GradOf<R, V>(q: Quantizer<R, V>, params: seq<Param<R>>, c: nat): (nat, seq<R>) -> seq<V> {
    (p: nat, u: seq<R>) => if p < |params| then q.grad(params[p].inDim, u, c) else []
  }

  /** The first `tiles` tile rows of the input-gradient scale of a piece. */
  function GradRows<R, V>(f: Format, q: Quantizer<R, V>, params: seq<Param<R>>, piece: Piece, tiles: nat): seq<V>
    requires FormatOk(f) && InRange(params, [piece])
  {
    assert [piece][0] == piece;
    if tiles == 0 then []
    else GradRows(f, q, params, piece, tiles - 1) + OfPiece(params, f.block, GradOf(q, params, tiles - 1), piece)
  }

  /** The input-gradient scale of a piece: a grid of tiles, one tile row per column of tiles of
      the data. */
  function GradGrid<R, V>(f: Format, q: Quantizer<R, V>, params: seq<Param<R>>, piece: Piece): seq<V>
    requires FormatOk(f) && InRange(params, [piece])
  {
    assert [piece][0] == piece;
    GradRows(f, q, params, piece, InTiles(f, params, piece.param))
  }

  function GradGrids<R, V>(f: Format, q: Quantizer<R, V>, params: seq<Param<R>>, pieces: seq<Piece>): seq<V>
    requires FormatOk(f) && InRange(params, pieces)
  {
    if pieces == [] then []
    else
      var n := |pieces| - 1;
      GradGrids(f, q, params, pieces[..n]) + GradGrid(f, q, params, pieces[n])
  }

  function WholePiece<R>(params: seq<Param<R>>, p: nat): Piece
    requires p < |params|
  {
    Piece(p, 0, |params[p].rows|)
  }

  // ----- Sizes

  function Tiles(f: Format, piece: Piece): nat
    requires FormatOk(f)
  {
    if piece.end <= piece.start then 0 else CeilDiv(piece.end - piece.start, f.block)
  }

  function DataLen<R>(params: seq<Param<R>>, piece: Piece): nat
    requires InRange(params, [piece])
  {
    assert [piece][0] == piece;
    NonNegative(piece.end - piece.start, params[piece.param].inDim);
    (piece.end - piece.start) * params[piece.param].inDim
  }

  /** The bytes of a piece's scales. */
  function ScaleLen<R>(f: Format, params: seq<Param<R>>, piece: Piece): nat
    requires FormatOk(f) && InRange(params, [piece])
  {
    assert [piece][0] == piece;
    NonNegative(InTiles(f, params, piece.param), f.tileBytes);
    NonNegative(Tiles(f, piece), InTiles(f, params, piece.param) * f.tileBytes);
    Tiles(f, piece) * (InTiles(f, params, piece.param) * f.tileBytes)
  }

  /** The bytes of one tile row of a piece's input-gradient scale. */
  function TileRowBytes(f: Format, piece: Piece): nat
    requires FormatOk(f)
  {
    NonNegative(Tiles(f, piece), f.gradBytes);
    Tiles(f, piece) * f.gradBytes
  }

  /** The bytes of a piece's input-gradient scale. */
  function GradLen<R>(f: Format, params: seq<Param<R>>, piece: Piece): nat
    requires FormatOk(f) && InRange(params, [piece])
  {
    assert [piece][0] == piece;
    NonNegative(InTiles(f, params, piece.param), TileRowBytes(f, piece));
    InTiles(f, params, piece.param) * TileRowBytes(f, piece)
  }

  function DataLens<R>(params: seq<Param<R>>, pieces: seq<Piece>): nat
    requires InRange(params, pieces)
  {
    if pieces == [] then 0
    else
      var n := |pieces| - 1;
      assert InRange(params, [pieces[n]]);
      DataLens(params, pieces[..n]) + DataLen(params, pieces[n])
  }

  function ScaleLens<R>(f: Format, params: seq<Param<R>>, pieces: seq<Piece>): nat
    requires FormatOk(f) && InRange(params, pieces)
  {
    if pieces == [] then 0
    else
      var n := |pieces| - 1;
      assert InRange(params, [pieces[n]]);
      ScaleLens(f, params, pieces[..n]) + ScaleLen(f, params, pieces[n])
  }

  function GradLens<R>(f: Format, params: seq<Param<R>>, pieces: seq<Piece>): nat
    requires FormatOk(f) && InRange(params, pieces)
  {
    if pieces == [] then 0
    else
      var n := |pieces| - 1;
      assert InRange(params, [pieces[n]]);
      GradLens(f, params, pieces[..n]) + GradLen(f, params, pieces[n])
  }

  lemma SumTimes(a: int, b: int, n: int)
    ensures (a + b) * n == a * n + b * n
  {
  }

  lemma {:induction false} BlockwiseRows<R, V>(g: seq<R> -> seq<V>, rows: seq<R>, block: nat, n: nat)
    requires block > 0 && forall u :: |g(u)| == |u| * n
    ensures |Blockwise(g, rows, block)| == |rows| * n
    decreases |rows|
  {
    if rows != [] {
      var k := Min(block, |rows|);
      BlockwiseRows(g, rows[k..], block, n);
      assert |g(rows[..k])| == |rows[..k]| * n;
      SumTimes(k, |rows| - k, n);
    }
  }

  lemma {:induction false} BlockwiseTiles<R, V>(g: seq<R> -> seq<V>, rows: seq<R>, block: nat, n: nat)
    requires block > 0 && forall u :: |g(u)| == n
    ensures |Blockwise(g, rows, block)| == (if rows == [] then 0 else CeilDiv(|rows|, block) * n)
    decreases |rows|
  {
    if rows != [] {
      var k := Min(block, |rows|);
      BlockwiseTiles(g, rows[k..], block, n);
      CeilStep(|rows|, block);
      if |rows| > block {
        OneMore(CeilDiv(|rows| - block, block), n);
      } else {
        assert CeilDiv(|rows|, block) * n == n;
      }
    }
  }

  lemma CeilStep(n: nat, block: nat)
    requires block > 0 && n > 0
    ensures n <= block ==> CeilDiv(n, block) == 1
    ensures n > block ==> CeilDiv(n, block) == CeilDiv(n - block, block) + 1
  {
    if n <= block {
      QuotientIs(n + block - 1, 1, n - 1, block);
    } else {
      var m := n - block + block - 1;
      OneMore(m / block, block);
      QuotientIs(m + block, m / block + 1, m % block, block);
    }
  }

  lemma {:induction false} TileRowLen<R(!new), V(!new)>(f: Format, q: Quantizer<R, V>, n: nat, u: seq<R>, tiles: nat)
    requires QuantizerOk(f, q)
    ensures |TileRow(q, n, u, tiles)| == tiles * f.tileBytes
  {
    if tiles > 0 {
      TileRowLen(f, q, n, u, tiles - 1);
      OneMore(tiles - 1, f.tileBytes);
    }
  }

  /** The sizes that the plan counts with are those of what the quantizer returns. */
  lemma PieceLens<R(!new), V(!new)>(f: Format, q: Quantizer<R, V>, params: seq<Param<R>>, piece: Piece)
    requires FormatOk(f) && QuantizerOk(f, q) && InRange(params, [piece])
    ensures piece.param < |params| && piece.start <= piece.end <= |params[piece.param].rows|
    ensures |OfPiece(params, f.block, DataOf(q, params), piece)| == DataLen(params, piece)
    ensures |OfPiece(params, f.block, ScaleOf(f, q, params), piece)| == ScaleLen(f, params, piece)
    ensures forall c: nat :: |OfPiece(params, f.block, GradOf(q, params, c), piece)| == TileRowBytes(f, piece)
  {
    hide Blockwise, TileRow, CeilDiv;
    assert [piece][0] == piece;
    var p, rows := piece.param, params[piece.param].rows[piece.start..piece.end];
    var n, t := params[p].inDim, InTiles(f, params, p);
    var data, scale := For(DataOf(q, params), p), For(ScaleOf(f, q, params), p);
    forall u ensures |data(u)| == |u| * n {
      assert data(u) == q.data(n, u);
    }
    BlockwiseRows(data, rows, f.block, n);
    forall u ensures |scale(u)| == t * f.tileBytes {
      assert scale(u) == TileRow(q, n, u, t);
      TileRowLen(f, q, n, u, t);
    }
    NonNegative(t, f.tileBytes);
    BlockwiseTiles(scale, rows, f.block, t * f.tileBytes);
    forall c: nat ensures |OfPiece(params, f.block, GradOf(q, params, c), piece)| == TileRowBytes(f, piece) {
      var grad := For(GradOf(q, params, c), p);
      forall u ensures |grad(u)| == f.gradBytes {
        assert grad(u) == q.grad(n, u, c);
      }
      BlockwiseTiles(grad, rows, f.block, f.gradBytes);
    }
  }

  lemma {:induction false} GradRowsLen<R(!new), V(!new)>(f: Format, q: Quantizer<R, V>,
                                         params: seq<Param<R>>, piece: Piece, tiles: nat)
    requires FormatOk(f) && QuantizerOk(f, q) && InRange(params, [piece])
    ensures |GradRows(f, q, params, piece, tiles)| == tiles * TileRowBytes(f, piece)
  {
    hide OfPiece, TileRowBytes;
    if tiles > 0 {
      GradRowsLen(f, q, params, piece, tiles - 1);
      PieceLens(f, q, params, piece);
      OneMore(tiles - 1, TileRowBytes(f, piece));
    }
  }

  /** Tile row `c` of a piece's input-gradient scale starts `c` tile rows after the first. */
  lemma {:induction false} GradRowAt<R(!new), V(!new)>(f: Format, q: Quantizer<R, V>, params: seq<Param<R>>,
                                       piece: Piece, tiles: nat, c: nat)
    requires FormatOk(f) && QuantizerOk(f, q) && InRange(params, [piece]) && c < tiles
    ensures 0 <= c * TileRowBytes(f, piece) <= c * TileRowBytes(f, piece) + TileRowBytes(f, piece)
        <= |GradRows(f, q, params, piece, tiles)|
    ensures piece.param < |params| && piece.start <= piece.end <= |params[piece.param].rows|
    ensures GradRows(f, q, params, piece, tiles)[c * TileRowBytes(f, piece)..c * TileRowBytes(f, piece)
        + TileRowBytes(f, piece)] ==
            OfPiece(params, f.block, GradOf(q, params, c), piece)
    decreases tiles
  {
    hide OfPiece, TileRowBytes;
    PieceLens(f, q, params, piece);
    GradRowsLen(f, q, params, piece, tiles - 1);
    var n := TileRowBytes(f, piece);
    NonNegative(c, n);
    if c < tiles - 1 {
      GradRowAt(f, q, params, piece, tiles - 1, c);
    }
  }
}
