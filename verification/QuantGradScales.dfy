/** The input-gradient scales: each rank has the grids of its chunks, and joining them tile row
    by tile row, chunk by chunk, gives each parameter's grid. */
module QuantGradScales {
  import opened Arithmetic
  import opened QuantLayout
  import opened QuantBucket
  import opened QuantGather

  /** Where the input-gradient scale of a rank's chunk is. */
  datatype GradChunk = GradChunk(rank: nat, offset: nat, piece: Piece)

  // ----- The chunks of one parameter

  function OfParam(pieces: seq<Piece>, p: nat): seq<Piece> {
    if pieces == [] then []
    else
      var n := |pieces| - 1;
      OfParam(pieces[..n], p) + if pieces[n].param == p then [pieces[n]] else []
  }

  /** The first `n` chunks of a rank that belong to parameter `p`. */
  function RankGradChunks<R>(f: Format, params: seq<Param<R>>, chunks: seq<Piece>, r: nat,
                             p: nat, n: nat): seq<GradChunk>
    requires FormatOk(f) && InRange(params, chunks) && n <= |chunks|
  {
    if n == 0 then []
    else
      RankGradChunks(f, params, chunks, r, p, n - 1)
      + if chunks[n - 1].param == p
        then [GradChunk(r, GradOffset(f, params, chunks) + GradLens(f, params, chunks[..n - 1]), chunks[n - 1])]
        else []
  }

  function GradChunks<R>(f: Format, params: seq<Param<R>>, ranks: seq<seq<Piece>>, p: nat): seq<GradChunk>
    requires FormatOk(f) && forall r :: 0 <= r < |ranks| ==> InRange(params, ranks[r])
  {
    if ranks == [] then []
    else
      var n := |ranks| - 1;
      GradChunks(f, params, ranks[..n], p) + RankGradChunks(f, params, ranks[n], n, p, |ranks[n]|)
  }

  function PiecesOf(chunks: seq<GradChunk>): (pieces: seq<Piece>)
    ensures |pieces| == |chunks| && forall i :: 0 <= i < |chunks| ==> pieces[i] == chunks[i].piece
  {
    seq(|chunks|, i requires 0 <= i < |chunks| => chunks[i].piece)
  }

  lemma {:induction false} RankPieces<R>(f: Format, params: seq<Param<R>>, chunks: seq<Piece>, r: nat, p: nat, n: nat)
    requires FormatOk(f) && InRange(params, chunks) && n <= |chunks|
    ensures PiecesOf(RankGradChunks(f, params, chunks, r, p, n)) == OfParam(chunks[..n], p)
  {
    if n > 0 {
      RankPieces(f, params, chunks, r, p, n - 1);
      assert chunks[..n][..n - 1] == chunks[..n - 1];
    }
  }

  lemma {:induction false} OfParamSum(a: seq<Piece>, b: seq<Piece>, p: nat)
    ensures OfParam(a + b, p) == OfParam(a, p) + OfParam(b, p)
  {
    if b == [] {
      assert a + b == a;
    } else {
      var n := |b| - 1;
      OfParamSum(a, b[..n], p);
      assert (a + b)[..|a + b| - 1] == a + b[..n];
    }
  }

  /** A parameter's chunks, in rank order. */
  lemma {:induction false} PiecesInRankOrder<R>(f: Format, params: seq<Param<R>>, ranks: seq<seq<Piece>>, p: nat)
    requires FormatOk(f) && forall r :: 0 <= r < |ranks| ==> InRange(params, ranks[r])
    ensures PiecesOf(GradChunks(f, params, ranks, p)) == OfParam(Concat(ranks), p)
  {
    hide RankGradChunks;
    if ranks != [] {
      var n := |ranks| - 1;
      PiecesInRankOrder(f, params, ranks[..n], p);
      RankPieces(f, params, ranks[n], n, p, |ranks[n]|);
      assert ranks[n][..|ranks[n]|] == ranks[n];
      OfParamSum(Concat(ranks[..n]), ranks[n], p);
    }
  }

  // ----- The regions

  /** Tile row `c` of each of the chunks. */
  function TileRowRegions(f: Format, chunks: seq<GradChunk>, c: nat): (regions: seq<Region>)
    requires FormatOk(f)
    ensures |regions| == |chunks|
    ensures forall i :: 0 <= i < |chunks| ==>
              regions[i] == Region(chunks[i].rank, chunks[i].offset + RowAt(f, chunks[i].piece, c),
                  TileRowBytes(f, chunks[i].piece))
  {
    seq(|chunks|, i requires 0 <= i < |chunks| =>
      Region(chunks[i].rank, chunks[i].offset + RowAt(f, chunks[i].piece, c), TileRowBytes(f, chunks[i].piece)))
  }

  function RowAt(f: Format, piece: Piece, c: nat): nat
    requires FormatOk(f)
  {
    NonNegative(c, TileRowBytes(f, piece));
    c * TileRowBytes(f, piece)
  }

  function ParamRegions(f: Format, chunks: seq<GradChunk>, tiles: nat): seq<Region>
    requires FormatOk(f)
  {
    if tiles == 0 then [] else ParamRegions(f, chunks, tiles - 1) + TileRowRegions(f, chunks, tiles - 1)
  }

  /** The regions of the first `n` parameters. */
  function GradRegions<R>(f: Format, params: seq<Param<R>>, ranks: seq<seq<Piece>>, n: nat): seq<Region>
    requires FormatOk(f) && n <= |params| && forall r :: 0 <= r < |ranks| ==> InRange(params, ranks[r])
  {
    if n == 0 then []
    else
      GradRegions(f, params, ranks, n - 1)
      + ParamRegions(f, GradChunks(f, params, ranks, n - 1), InTiles(f, params, n - 1))
  }

  function Known(byParam: map<nat, seq<GradChunk>>, p: nat): seq<GradChunk> {
    if p in byParam then byParam[p] else []
  }

  lemma NextChunk<R>(f: Format, params: seq<Param<R>>, chunks: seq<Piece>, r: nat, j: nat)
    requires FormatOk(f) && InRange(params, chunks) && j < |chunks|
    ensures InRange(params, chunks[..j]) && InRange(params, chunks[..j + 1]) && InRange(params, [chunks[j]])
    ensures GradLens(f, params, chunks[..j + 1]) == GradLens(f, params, chunks[..j]) + GradLen(f, params, chunks[j])
    ensures forall p: nat :: RankGradChunks(f, params, chunks, r, p, j + 1) ==
                             RankGradChunks(f, params, chunks, r, p, j)
                             + if chunks[j].param == p
                               then [GradChunk(r, GradOffset(f, params, chunks) + GradLens(f, params, chunks[..j]),
                                   chunks[j])]
                               else []
  {
    hide GradLen, GradOffset;
    assert chunks[..j + 1][..j] == chunks[..j];
  }

  lemma OneMoreKnown(byParam: map<nat, seq<GradChunk>>, q: nat, c: GradChunk, p: nat, known: seq<GradChunk>,
                     mine: seq<GradChunk>)
    requires Known(byParam, p) == known + mine
    ensures Known(byParam[q := Known(byParam, q) + [c]], p) == known + (mine + if q == p then [c] else [])
  {
    Regroup(known, mine, c);
  }

  /** Adds one rank's chunks, with a running offset. */
  method CollectRank<R>(f: Format, params: seq<Param<R>>, chunks: seq<Piece>, r: nat, from: map<nat, seq<GradChunk>>)
    returns (byParam: map<nat, seq<GradChunk>>)
    requires FormatOk(f) && InRange(params, chunks)
    ensures forall p: nat :: Known(byParam, p) == Known(from, p) + RankGradChunks(f, params, chunks, r, p, |chunks|)
  {
    hide GradOffset, GradLen, GradLens, RankGradChunks, InRange, Known;
    byParam := from;
    var offset := GradOffset(f, params, chunks);
    NoChunk(f, params, chunks, r);
    for j := 0 to |chunks|
      invariant InRange(params, chunks[..j])
      invariant offset == GradOffset(f, params, chunks) + GradLens(f, params, chunks[..j])
      invariant forall p: nat :: Known(byParam, p) == Known(from, p) + RankGradChunks(f, params, chunks, r, p, j)
    {
      var chunk := chunks[j];
      NextChunk(f, params, chunks, r, j);
      ghost var before := byParam;
      byParam := byParam[chunk.param := Known(byParam, chunk.param) + [GradChunk(r, offset, chunk)]];
      forall p: nat ensures Known(byParam, p) == Known(from, p) + RankGradChunks(f, params, chunks, r, p, j + 1) {
        OneMoreKnown(before, chunk.param, GradChunk(r, offset, chunk), p, Known(from, p),
                     RankGradChunks(f, params, chunks, r, p, j));
      }
      offset := offset + GradLen(f, params, chunk);
    }
  }

  lemma Regroup<T>(a: seq<T>, b: seq<T>, x: T)
    ensures (a + b) + [x] == a + (b + [x]) && b + [] == b
  {
  }

  lemma NoChunk<R>(f: Format, params: seq<Param<R>>, chunks: seq<Piece>, r: nat)
    requires FormatOk(f) && InRange(params, chunks)
    ensures InRange(params, chunks[..0]) && GradLens(f, params, chunks[..0]) == 0
    ensures forall p: nat :: RankGradChunks(f, params, chunks, r, p, 0) == []
  {
  }

  /** Collects each parameter's chunks, in rank order. */
  method CollectChunks<R>(f: Format, params: seq<Param<R>>, ranks: seq<seq<Piece>>)
      returns (byParam: map<nat, seq<GradChunk>>)
    requires FormatOk(f) && forall r :: 0 <= r < |ranks| ==> InRange(params, ranks[r])
    ensures forall p: nat :: Known(byParam, p) == GradChunks(f, params, ranks, p)
  {
    hide InRange, RankGradChunks;
    byParam := map[];
    for r := 0 to |ranks|
      invariant forall p: nat :: Known(byParam, p) == GradChunks(f, params, ranks[..r], p)
    {
      ghost var before := byParam;
      byParam := CollectRank(f, params, ranks[r], r, byParam);
      forall p: nat ensures Known(byParam, p) == GradChunks(f, params, ranks[..r + 1], p) {
        assert Known(before, p) == GradChunks(f, params, ranks[..r], p);
        assert ranks[..r + 1][..r] == ranks[..r];
      }
    }
    assert ranks[..|ranks|] == ranks;
  }

  /** The regions that join the input-gradient scales of all parameters. */
  method BuildGradRegions<R>(f: Format, params: seq<Param<R>>, ranks: seq<seq<Piece>>) returns (regions: seq<Region>)
    requires FormatOk(f) && forall r :: 0 <= r < |ranks| ==> InRange(params, ranks[r])
    ensures regions == GradRegions(f, params, ranks, |params|)
  {
    hide GradChunks, InRange, ParamRegions, InTiles;
    var byParam := CollectChunks(f, params, ranks);
    regions := [];
    for p := 0 to |params|
      invariant regions == GradRegions(f, params, ranks, p)
    {
      assert Known(byParam, p) == GradChunks(f, params, ranks, p);
      if p in byParam {
        var more := BuildParamRegions(f, byParam[p], InTiles(f, params, p));
        regions := regions + more;
      } else {
        NoRegions(f, InTiles(f, params, p));
      }
    }
  }

  method BuildParamRegions(f: Format, chunks: seq<GradChunk>, tiles: nat) returns (regions: seq<Region>)
    requires FormatOk(f)
    ensures regions == ParamRegions(f, chunks, tiles)
  {
    regions := [];
    for tileRow := 0 to tiles
      invariant regions == ParamRegions(f, chunks, tileRow)
    {
      ghost var before := regions;
      for i := 0 to |chunks|
        invariant regions == before + TileRowRegions(f, chunks, tileRow)[..i]
      {
        regions := regions + [Region(chunks[i].rank, chunks[i].offset + RowAt(f, chunks[i].piece, tileRow),
            TileRowBytes(f, chunks[i].piece))];
      }
    }
  }

  lemma {:induction false} NoRegions(f: Format, tiles: nat)
    requires FormatOk(f)
    ensures ParamRegions(f, [], tiles) == []
  {
    if tiles > 0 {
      NoRegions(f, tiles - 1);
    }
  }

  // ----- What the regions hold

  /** A rank's grids hold the grid of its `n`-th chunk behind those before. */
  lemma {:induction false} GridAt<R(!new), V(!new)>(f: Format, q: Quantizer<R, V>, params: seq<Param<R>>,
                                    chunks: seq<Piece>, n: nat)
    requires FormatOk(f) && QuantizerOk(f, q) && InRange(params, chunks) && n < |chunks|
    ensures InRange(params, [chunks[n]]) && InRange(params, chunks[..n])
    ensures var o, s := GradLens(f, params, chunks[..n]), GradLen(f, params, chunks[n]);
            && o + s <= GradLens(f, params, chunks) == |GradGrids(f, q, params, chunks)|
            && GradGrids(f, q, params, chunks)[o..o + s] == GradGrid(f, q, params, chunks[n])
    decreases |chunks|
  {
    hide GradGrid, GradLen, GradGrids, GradLens, InRange;
    var m := |chunks| - 1;
    GridsStep(f, q, params, chunks);
    if n < m {
      GridAt(f, q, params, chunks[..m], n);
      assert chunks[..m][..n] == chunks[..n];
    }
  }

  lemma GridsStep<R(!new), V(!new)>(f: Format, q: Quantizer<R, V>, params: seq<Param<R>>, chunks: seq<Piece>)
    requires FormatOk(f) && QuantizerOk(f, q) && InRange(params, chunks) && chunks != []
    ensures var m: nat := |chunks| - 1;
            && InRange(params, chunks[..m]) && InRange(params, [chunks[m]])
            && GradLens(f, params, chunks) == GradLens(f, params, chunks[..m]) + GradLen(f, params, chunks[m])
            && GradGrids(f, q, params, chunks) == GradGrids(f, q, params, chunks[..m])
                + GradGrid(f, q, params, chunks[m])
            && |GradGrids(f, q, params, chunks[..m])| == GradLens(f, params, chunks[..m])
            && |GradGrid(f, q, params, chunks[m])| == GradLen(f, params, chunks[m])
  {
    hide GradGrid, GradLen, QuantizerOk;
    var m: nat := |chunks| - 1;
    assert InRange(params, [chunks[m]]);
    GradGridLen(f, q, params, chunks[m]);
    RowLens(f, q, params, chunks[..m]);
  }

  /** Tile row `c` of a chunk is where its region says. */
  ghost predicate HoldsRow<R, V>(f: Format, q: Quantizer<R, V>, params: seq<Param<R>>,
                                 rows: seq<seq<V>>, ch: GradChunk, c: nat)
    requires FormatOk(f)
  {
    var region := Region(ch.rank, ch.offset + RowAt(f, ch.piece, c), TileRowBytes(f, ch.piece));
    && InRange(params, [ch.piece]) && Fits(rows, region) && [ch.piece][0] == ch.piece
    && Slice(rows, region) == OfPiece(params, f.block, GradOf(q, params, c), ch.piece)
  }

  /** Where tile row `c` of a rank's `n`-th chunk is in the rank's row. */
  lemma GradSlice<R(!new), V(!new)>(f: Format, q: Quantizer<R, V>, params: seq<Param<R>>, chunks: seq<Piece>,
                    send: nat, zero: V, n: nat, c: nat)
    requires FormatOk(f) && QuantizerOk(f, q) && InRange(params, chunks) && PackedLen(f, params, chunks) <= send
    requires n < |chunks| && chunks[n].param < |params| && c < InTiles(f, params, chunks[n].param)
    ensures InRange(params, chunks[..n]) && InRange(params, [chunks[n]])
    ensures var row := RankRow(f, q, params, chunks, send, zero);
            var lo := GradOffset(f, params, chunks) + GradLens(f, params, chunks[..n]) + RowAt(f, chunks[n], c);
            var hi := lo + TileRowBytes(f, chunks[n]);
            lo <= hi <= |row| && row[lo..hi] == OfPiece(params, f.block, GradOf(q, params, c), chunks[n])
  {
    hide RankRow, OfPiece, TileRowBytes, GradRows, GradLens, GradGrids, GradOffset, CeilDiv, DataLens;
    var piece, row := chunks[n], RankRow(f, q, params, chunks, send, zero);
    RowParts(f, q, params, chunks, send, zero);
    DataWithin(f, params, chunks);
    GridAt(f, q, params, chunks, n);
    assert [piece][0] == piece;
    GradRowAt(f, q, params, piece, InTiles(f, params, piece.param), c);
    GradGridLen(f, q, params, piece);
    var g, o, s, k := GradOffset(f, params, chunks), GradLens(f, params, chunks[..n]),
        GradLen(f, params, piece), TileRowBytes(f, piece);
    SliceOfSlice(row, g, g + GradLens(f, params, chunks), o, o + s, RowAt(f, piece, c), RowAt(f, piece, c) + k);
  }

  lemma SliceOfSlice<V>(row: seq<V>, a: nat, b: nat, c: nat, d: nat, e: nat, h: nat)
    requires a <= b <= |row| && c <= d <= b - a && e <= h <= d - c
    ensures row[a + c + e..a + c + h] == row[a..b][c..d][e..h]
  {
    forall i | 0 <= i < h - e ensures row[a + c + e..a + c + h][i] == row[a..b][c..d][e..h][i] {
    }
  }

  lemma ChunkHoldsRow<R(!new), V(!new)>(f: Format, q: Quantizer<R, V>, params: seq<Param<R>>,
                        ranks: seq<seq<Piece>>, send: nat, zero: V,
                                        r: nat, n: nat, c: nat)
    requires FormatOk(f) && QuantizerOk(f, q) && RanksOk(f, params, ranks, send)
    requires r < |ranks| && n < |ranks[r]| && ranks[r][n].param < |params| && c < InTiles(f, params, ranks[r][n].param)
    ensures InRange(params, ranks[r][..n])
    ensures HoldsRow(f, q, params, Rows(f, q, params, ranks, send, zero),
                     GradChunk(r, GradOffset(f, params, ranks[r]) + GradLens(f, params, ranks[r][..n]), ranks[r][n]), c)
  {
    hide RankRow, OfPiece, TileRowBytes, GradLens, GradOffset, PackedLen, InTiles, InRange, RowAt;
    GradSlice(f, q, params, ranks[r], send, zero, n, c);
    assert [ranks[r][n]][0] == ranks[r][n];
  }

  lemma {:induction false} RankHoldsRows<R(!new), V(!new)>(f: Format, q: Quantizer<R, V>,
                                           params: seq<Param<R>>, ranks: seq<seq<Piece>>,
                                                           send: nat, zero: V, r: nat, p: nat, n: nat, c: nat)
    requires FormatOk(f) && QuantizerOk(f, q) && RanksOk(f, params, ranks, send)
    requires r < |ranks| && n <= |ranks[r]| && p < |params| && c < InTiles(f, params, p)
    ensures forall ch :: ch in RankGradChunks(f, params, ranks[r], r, p, n) ==>
                           HoldsRow(f, q, params, Rows(f, q, params, ranks, send, zero), ch, c)
  {
    hide HoldsRow, RankRow, GradOffset, GradLens, CeilDiv, PackedLen;
    if n > 0 {
      RankHoldsRows(f, q, params, ranks, send, zero, r, p, n - 1, c);
      if ranks[r][n - 1].param == p {
        ChunkHoldsRow(f, q, params, ranks, send, zero, r, n - 1, c);
      }
    }
  }

  lemma {:induction false} AllHoldRows<R(!new), V(!new)>(f: Format, q: Quantizer<R, V>,
                                         params: seq<Param<R>>, ranks: seq<seq<Piece>>,
                                                         send: nat, zero: V, p: nat, m: nat, c: nat)
    requires FormatOk(f) && QuantizerOk(f, q) && RanksOk(f, params, ranks, send) && m <= |ranks|
    requires p < |params| && c < InTiles(f, params, p)
    ensures forall ch :: ch in GradChunks(f, params, ranks[..m], p) ==>
                           HoldsRow(f, q, params, Rows(f, q, params, ranks, send, zero), ch, c)
  {
    hide HoldsRow, RankRow, RankGradChunks, InRange, CeilDiv, PackedLen;
    if m > 0 {
      AllHoldRows(f, q, params, ranks, send, zero, p, m - 1, c);
      RankHoldsRows(f, q, params, ranks, send, zero, m - 1, p, |ranks[m - 1]|, c);
      assert ranks[..m][..m - 1] == ranks[..m - 1];
    }
  }

  /** Joining one tile row of all of a parameter's chunks gives what the chunks make of it. */
  lemma {:induction false} GatherTileRow<R, V>(f: Format, q: Quantizer<R, V>, params: seq<Param<R>>, rows: seq<seq<V>>,
                                               chunks: seq<GradChunk>, c: nat)
    requires FormatOk(f) && forall ch :: ch in chunks ==> HoldsRow(f, q, params, rows, ch, c)
    ensures AllFit(rows, TileRowRegions(f, chunks, c)) && InRange(params, PiecesOf(chunks))
    ensures Gather(rows, TileRowRegions(f, chunks, c))
        == OfPieces(params, f.block, GradOf(q, params, c), PiecesOf(chunks))
  {
    hide OfPiece, OfPieces, TileRowBytes, RowAt, Slice;
    if chunks != [] {
      var n := |chunks| - 1;
      var ch := chunks[n];
      assert HoldsRow(f, q, params, rows, ch, c);
      GatherTileRow(f, q, params, rows, chunks[..n], c);
      assert TileRowRegions(f, chunks, c)[..n] == TileRowRegions(f, chunks[..n], c);
      assert PiecesOf(chunks) == PiecesOf(chunks[..n]) + [ch.piece];
      OfPiecesSum(params, f.block, GradOf(q, params, c), PiecesOf(chunks[..n]), [ch.piece]);
      OfOne(params, f.block, GradOf(q, params, c), ch.piece);
    } else {
      NoPieces(params, f.block, GradOf(q, params, c));
      assert PiecesOf(chunks) == [];
    }
  }

  // ----- One parameter of a covering list

  /** `g` for parameter `p`, and nothing for the others. */
  function Only<R, V>(g: (nat, seq<R>) -> seq<V>, p: nat): (nat, seq<R>) -> seq<V> {
    (x: nat, u: seq<R>) => if x == p then g(x, u) else []
  }

  lemma {:induction false} BlockwiseNothing<R, V>(g: seq<R> -> seq<V>, rows: seq<R>, block: nat)
    requires block > 0 && forall u :: g(u) == []
    ensures Blockwise(g, rows, block) == []
    decreases |rows|
  {
    if rows != [] {
      BlockwiseNothing(g, rows[Min(block, |rows|)..], block);
    }
  }

  lemma {:induction false} BlockwiseSame<R, V>(g: seq<R> -> seq<V>, h: seq<R> -> seq<V>, rows: seq<R>, block: nat)
    requires block > 0 && forall u :: g(u) == h(u)
    ensures Blockwise(g, rows, block) == Blockwise(h, rows, block)
    decreases |rows|
  {
    if rows != [] {
      BlockwiseSame(g, h, rows[Min(block, |rows|)..], block);
    }
  }

  lemma OnlyOnPiece<R(!new), V>(params: seq<Param<R>>, block: nat, g: (nat, seq<R>) -> seq<V>,
                      p: nat, x: nat, rows: seq<R>)
    requires block > 0
    ensures Blockwise(For(Only(g, p), x), rows, block) == if x == p then Blockwise(For(g, x), rows, block) else []
  {
    hide Blockwise;
    var only, all := For(Only(g, p), x), For(g, x);
    if x == p {
      forall u ensures only(u) == all(u) {
        assert only(u) == Only(g, p)(x, u);
      }
      BlockwiseSame(only, all, rows, block);
    } else {
      forall u ensures only(u) == [] {
        assert only(u) == Only(g, p)(x, u);
      }
      BlockwiseNothing(only, rows, block);
    }
  }

  lemma {:induction false} OnlyOnPieces<R(!new), V>(params: seq<Param<R>>, block: nat, g: (nat, seq<R>) -> seq<V>,
                                          p: nat, pieces: seq<Piece>)
    requires block > 0 && InRange(params, pieces)
    ensures InRange(params, OfParam(pieces, p))
    ensures OfPieces(params, block, Only(g, p), pieces) == OfPieces(params, block, g, OfParam(pieces, p))
    decreases |pieces|
  {
    hide Blockwise, OfPieces;
    if pieces == [] {
      NoPieces(params, block, g);
      NoPieces(params, block, Only(g, p));
    } else {
      var n: nat := |pieces| - 1;
      var before, last := pieces[..n], pieces[n];
      OnlyOnPieces(params, block, g, p, before);
      assert pieces == before + [last] && [last][0] == last;
      OfPiecesSum(params, block, Only(g, p), before, [last]);
      OfOne(params, block, Only(g, p), last);
      OnlyOnPiece(params, block, g, p, last.param, params[last.param].rows[last.start..last.end]);
      var none: seq<V> := [];
      assert OfPieces(params, block, Only(g, p), before) + none == OfPieces(params, block, Only(g, p), before);
      assert OfParam(before, p) + [] == OfParam(before, p);
      if last.param == p {
        OfPiecesSum(params, block, g, OfParam(before, p), [last]);
        OfOne(params, block, g, last);
      }
    }
  }

  lemma {:induction false} OnlyOnRest<R(!new), V>(params: seq<Param<R>>, block: nat,
                                        g: (nat, seq<R>) -> seq<V>, p: nat, at: nat)
    requires block > 0 && Shaped(params) && p < |params| && at <= |params|
    ensures OfRest(params, block, Only(g, p), Pos(at, 0)) == if at <= p then Blockwise(For(g, p), params[p].rows, block)
        else []
    decreases |params| - at
  {
    hide Blockwise, OfRest, For, Only;
    RestStep(params, block, Only(g, p), at);
    if at < |params| {
      OnlyOnRest(params, block, g, p, at + 1);
      OnlyOnPiece(params, block, g, p, at, params[at].rows);
    }
  }

  lemma RestStep<R(!new), V>(params: seq<Param<R>>, block: nat, g: (nat, seq<R>) -> seq<V>, at: nat)
    requires block > 0 && Shaped(params) && at <= |params|
    ensures OfRest(params, block, g, Pos(at, 0)) ==
            if at == |params| then []
            else Blockwise(For(g, at), params[at].rows, block) + OfRest(params, block, g, Pos(at + 1, 0))
  {
    hide Blockwise, For;
    if at < |params| {
      assert params[at].rows[0..] == params[at].rows;
    }
  }

  /** A parameter's chunks make what the whole parameter makes. */
  lemma ParamIsWhole<R(!new), V>(params: seq<Param<R>>, block: nat, g: (nat, seq<R>) -> seq<V>,
                       p: nat, pieces: seq<Piece>)
    requires block > 0 && Shaped(params) && Covers(params, block, pieces) && p < |params|
    ensures InRange(params, OfParam(pieces, p)) && InRange(params, [WholePiece(params, p)])
    ensures OfPieces(params, block, g, OfParam(pieces, p)) == OfPiece(params, block, g, WholePiece(params, p))
  {
    hide Blockwise, OfPieces, OfRest, Covers;
    CoversIsWhole(params, block, Only(g, p), pieces);
    OnlyOnPieces(params, block, g, p, pieces);
    OnlyOnRest(params, block, g, p, 0);
    assert params[p].rows[0..|params[p].rows|] == params[p].rows;
  }

  // ----- The grids

  lemma WholeInRange<R>(params: seq<Param<R>>, p: nat)
    requires p < |params|
    ensures InRange(params, [WholePiece(params, p)])
    ensures WholePiece(params, p).param < |params|
    ensures WholePiece(params, p).start <= WholePiece(params, p).end <= |params[WholePiece(params, p).param].rows|
  {
  }

  lemma NothingGathered<V>(rows: seq<seq<V>>)
    ensures AllFit(rows, []) && Gather(rows, []) == []
  {
  }

  lemma {:induction false} ParamGridGathered<R(!new), V(!new)>(f: Format, q: Quantizer<R, V>,
                                               params: seq<Param<R>>, ranks: seq<seq<Piece>>,
                                                               send: nat, zero: V, p: nat, tiles: nat)
    requires FormatOk(f) && QuantizerOk(f, q) && Shaped(params) && RanksOk(f, params, ranks, send)
    requires Covers(params, f.block, Concat(ranks))
    requires p < |params| && tiles <= InTiles(f, params, p)
    ensures InRange(params, [WholePiece(params, p)])
    ensures AllFit(Rows(f, q, params, ranks, send, zero), ParamRegions(f, GradChunks(f, params, ranks, p), tiles))
    ensures Gather(Rows(f, q, params, ranks, send, zero), ParamRegions(f, GradChunks(f, params, ranks, p), tiles))
         == GradRows(f, q, params, WholePiece(params, p), tiles)
  {
    hide RankRow, OfPiece, OfPieces, GradChunks, Covers, HoldsRow, Fits, Slice, TileRowBytes, InTiles, PackedLen,
         AllFit, InRange, Gather, Shaped, WholePiece;
    var rows, chunks := Rows(f, q, params, ranks, send, zero), GradChunks(f, params, ranks, p);
    WholeInRange(params, p);
    if tiles == 0 {
      NothingGathered(rows);
    } else {
      ParamGridGathered(f, q, params, ranks, send, zero, p, tiles - 1);
      AllHoldRows(f, q, params, ranks, send, zero, p, |ranks|, tiles - 1);
      assert ranks[..|ranks|] == ranks;
      GatherTileRow(f, q, params, rows, chunks, tiles - 1);
      PiecesInRankOrder(f, params, ranks, p);
      ParamIsWhole(params, f.block, GradOf(q, params, tiles - 1), p, Concat(ranks));
      GatherSum(rows, ParamRegions(f, chunks, tiles - 1), TileRowRegions(f, chunks, tiles - 1));
    }
  }

  /** The input-gradient scale grids of the first `n` parameters, each of the whole matrix. */
  function WholeGrids<R, V>(f: Format, q: Quantizer<R, V>, params: seq<Param<R>>, n: nat): seq<V>
    requires FormatOk(f) && n <= |params|
  {
    if n == 0 then []
    else
      assert [WholePiece(params, n - 1)][0] == WholePiece(params, n - 1);
      WholeGrids(f, q, params, n - 1) + GradGrid(f, q, params, WholePiece(params, n - 1))
  }

  /** Joined tile row by tile row and chunk by chunk, the ranks' input-gradient scales are the
      grids of the whole matrices, in parameter order. */
  lemma {:induction false} GradsGathered<R(!new), V(!new)>(f: Format, q: Quantizer<R, V>,
                                           params: seq<Param<R>>, ranks: seq<seq<Piece>>,
                                                           send: nat, zero: V, n: nat)
    requires FormatOk(f) && QuantizerOk(f, q) && Shaped(params) && RanksOk(f, params, ranks, send)
    requires Covers(params, f.block, Concat(ranks))
    requires n <= |params|
    ensures AllFit(Rows(f, q, params, ranks, send, zero), GradRegions(f, params, ranks, n))
    ensures Gather(Rows(f, q, params, ranks, send, zero), GradRegions(f, params, ranks, n))
        == WholeGrids(f, q, params, n)
  {
    hide RankRow, GradChunks, Covers, Fits, Slice, InTiles, ParamRegions, GradRows, InRange, PackedLen;
    if n > 0 {
      var rows := Rows(f, q, params, ranks, send, zero);
      GradsGathered(f, q, params, ranks, send, zero, n - 1);
      ParamGridGathered(f, q, params, ranks, send, zero, n - 1, InTiles(f, params, n - 1));
      GatherSum(rows, GradRegions(f, params, ranks, n - 1),
                ParamRegions(f, GradChunks(f, params, ranks, n - 1), InTiles(f, params, n - 1)));
    }
  }
}
