/** Packing, gathering and joining: the regions of all ranks' rows that make up every
    parameter's data and scales, and the proof that they do. */
module QuantGather {
  import opened Arithmetic
  import opened QuantLayout
  import opened QuantBucket

  // ----- What a rank sends

  const ALIGN: nat := 16

  /** The least multiple of the alignment that is no less. */
  function AlignUp(n: nat): (a: nat)
    ensures n <= a < n + ALIGN && a % ALIGN == 0
  {
    CeilDivCovers(n, ALIGN);
    QuotientIs(CeilDiv(n, ALIGN) * ALIGN, CeilDiv(n, ALIGN), 0, ALIGN);
    CeilDiv(n, ALIGN) * ALIGN
  }

  function Fill<V>(zero: V, n: nat): (s: seq<V>)
    ensures |s| == n
  {
    seq(n, _ => zero)
  }

  function ScaleOffset<R>(params: seq<Param<R>>, chunks: seq<Piece>): nat
    requires InRange(params, chunks)
  {
    AlignUp(DataLens(params, chunks))
  }

  /** Where the input-gradient scales of a rank's chunks start, after the other scales. */
  function GradOffset<R>(f: Format, params: seq<Param<R>>, chunks: seq<Piece>): nat
    requires FormatOk(f) && InRange(params, chunks)
  {
    ScaleOffset(params, chunks) + ScaleLens(f, params, chunks)
  }

  function PackedLen<R>(f: Format, params: seq<Param<R>>, chunks: seq<Piece>): nat
    requires FormatOk(f) && InRange(params, chunks)
  {
    GradOffset(f, params, chunks) + GradLens(f, params, chunks)
  }

  /** A rank's row: its chunks' data, zeros up to the alignment, the scales, the input-gradient
      scales, and zeros up to the common length. */
  function RankRow<R, V>(f: Format, q: Quantizer<R, V>, params: seq<Param<R>>, chunks: seq<Piece>,
                         send: nat, zero: V): seq<V>
    requires FormatOk(f) && InRange(params, chunks) && PackedLen(f, params, chunks) <= send
  {
    OfPieces(params, f.block, DataOf(q, params), chunks)
    + Fill(zero, ScaleOffset(params, chunks) - DataLens(params, chunks))
    + OfPieces(params, f.block, ScaleOf(f, q, params), chunks)
    + GradGrids(f, q, params, chunks)
    + Fill(zero, send - PackedLen(f, params, chunks))
  }

  lemma {:induction false} OfPiecesSum<R, V>(params: seq<Param<R>>, block: nat,
                                             g: (nat, seq<R>) -> seq<V>, a: seq<Piece>,
                                             b: seq<Piece>)
    requires block > 0 && InRange(params, a) && InRange(params, b)
    ensures InRange(params, a + b)
    ensures OfPieces(params, block, g, a + b) == OfPieces(params, block, g, a) + OfPieces(params, block, g, b)
  {
    hide OfPiece, OfPieces, InRange;
    BothInRange(params, a, b);
    if a == [] {
      assert a + b == b;
      OfNoPieces(params, block, g);
    } else {
      assert [a[0]] + a[1..] == a && [a[0]] + (a[1..] + b) == a + b;
      BothInRange(params, [a[0]], a[1..]);
      OfPiecesSum(params, block, g, a[1..], b);
      PieceFirst(params, block, g, a[0], a[1..]);
      PieceFirst(params, block, g, a[0], a[1..] + b);
      Associative(OfPieces(params, block, g, [a[0]]), OfPieces(params, block, g, a[1..]),
          OfPieces(params, block, g, b));
    }
  }

  lemma OfNoPieces<R, V>(params: seq<Param<R>>, block: nat, g: (nat, seq<R>) -> seq<V>)
    requires block > 0
    ensures InRange(params, []) && OfPieces(params, block, g, []) == []
  {
  }

  lemma PieceFirst<R, V>(params: seq<Param<R>>, block: nat, g: (nat, seq<R>) -> seq<V>, p: Piece, rest: seq<Piece>)
    requires block > 0 && InRange(params, [p] + rest)
    ensures InRange(params, [p]) && InRange(params, rest)
    ensures OfPieces(params, block, g, [p] + rest) == OfPieces(params, block, g, [p]) + OfPieces(params, block, g, rest)
  {
    hide OfPiece;
    BothInRange(params, [p], rest);
    assert ([p] + rest)[1..] == rest && [p][1..] == [];
  }

  lemma Associative<T>(x: seq<T>, y: seq<T>, z: seq<T>)
    ensures (x + y) + z == x + (y + z)
  {
  }

  lemma OfOne<R, V>(params: seq<Param<R>>, block: nat, g: (nat, seq<R>) -> seq<V>, piece: Piece)
    requires block > 0 && InRange(params, [piece])
    ensures piece.param < |params| && piece.start <= piece.end <= |params[piece.param].rows|
    ensures OfPieces(params, block, g, [piece]) == OfPiece(params, block, g, piece)
  {
    hide OfPiece;
    assert [piece][0] == piece && [piece][1..] == [];
  }

  /** The lengths of the parts of a row. */
  lemma {:induction false} RowLens<R(!new), V(!new)>(f: Format, q: Quantizer<R, V>,
                                     params: seq<Param<R>>, chunks: seq<Piece>)
    requires FormatOk(f) && QuantizerOk(f, q) && InRange(params, chunks)
    ensures |OfPieces(params, f.block, DataOf(q, params), chunks)| == DataLens(params, chunks)
    ensures |OfPieces(params, f.block, ScaleOf(f, q, params), chunks)| == ScaleLens(f, params, chunks)
    ensures |GradGrids(f, q, params, chunks)| == GradLens(f, params, chunks)
  {
    hide OfPiece, DataLen, ScaleLen, GradLen, GradRows, OfPieces;
    if chunks != [] {
      var n: nat := |chunks| - 1;
      var before, last := chunks[..n], chunks[n];
      RowLens(f, q, params, before);
      assert chunks == before + [last] && InRange(params, [last]);
      OfPiecesSum(params, f.block, DataOf(q, params), before, [last]);
      OfPiecesSum(params, f.block, ScaleOf(f, q, params), before, [last]);
      OfOne(params, f.block, DataOf(q, params), last);
      OfOne(params, f.block, ScaleOf(f, q, params), last);
      PieceLens(f, q, params, last);
      GradGridLen(f, q, params, last);
    } else {
      NoPieces(params, f.block, DataOf(q, params));
      NoPieces(params, f.block, ScaleOf(f, q, params));
    }
  }

  lemma NoPieces<R, V>(params: seq<Param<R>>, block: nat, g: (nat, seq<R>) -> seq<V>)
    requires block > 0
    ensures OfPieces(params, block, g, []) == []
  {
  }

  lemma GradGridLen<R(!new), V(!new)>(f: Format, q: Quantizer<R, V>, params: seq<Param<R>>, piece: Piece)
    requires FormatOk(f) && QuantizerOk(f, q) && InRange(params, [piece])
    ensures |GradGrid(f, q, params, piece)| == GradLen(f, params, piece)
  {
    hide OfPiece, GradRows, TileRowBytes;
    assert [piece][0] == piece;
    GradRowsLen(f, q, params, piece, InTiles(f, params, piece.param));
  }

  // ----- Regions

  /** Bytes of one rank's row. */
  datatype Region = Region(rank: nat, offset: nat, nbytes: nat)

  predicate Fits<V>(rows: seq<seq<V>>, r: Region) {
    r.rank < |rows| && r.offset + r.nbytes <= |rows[r.rank]|
  }

  predicate AllFit<V>(rows: seq<seq<V>>, regions: seq<Region>) {
    forall i :: 0 <= i < |regions| ==> Fits(rows, regions[i])
  }

  function Slice<V>(rows: seq<seq<V>>, r: Region): seq<V>
    requires Fits(rows, r)
  {
    rows[r.rank][r.offset..r.offset + r.nbytes]
  }

  /** The regions joined. */
  function Gather<V>(rows: seq<seq<V>>, regions: seq<Region>): seq<V>
    requires AllFit(rows, regions)
  {
    if regions == [] then [] else Gather(rows, regions[..|regions| - 1]) + Slice(rows, regions[|regions| - 1])
  }

  lemma {:induction false} GatherSum<V>(rows: seq<seq<V>>, a: seq<Region>, b: seq<Region>)
    requires AllFit(rows, a) && AllFit(rows, b)
    ensures AllFit(rows, a + b) && Gather(rows, a + b) == Gather(rows, a) + Gather(rows, b)
  {
    hide Slice, Fits;
    if b == [] {
      assert a + b == a;
    } else {
      var n := |b| - 1;
      GatherSum(rows, a, b[..n]);
      assert (a + b)[..|a + b| - 1] == a + b[..n];
    }
  }

  lemma GatherOne<V>(rows: seq<seq<V>>, r: Region)
    requires Fits(rows, r)
    ensures AllFit(rows, [r]) && Gather(rows, [r]) == Slice(rows, r)
  {
    assert Gather(rows, [r]) == Gather(rows, []) + Slice(rows, r);
  }

  /** Joins each region that continues the one before in the same rank, and drops empty ones. */
  method MergeAdjacent<V(!new)>(ghost rows: seq<seq<V>>, regions: seq<Region>) returns (merged: seq<Region>)
    requires AllFit(rows, regions)
    ensures AllFit(rows, merged) && Gather(rows, merged) == Gather(rows, regions)
    ensures forall i :: 0 <= i < |merged| ==> merged[i].nbytes > 0
    ensures forall i :: 0 <= i < |merged| - 1 ==> !Continues(merged[i], merged[i + 1])
  {
    hide Slice, Fits, Gather, Merged;
    merged := [];
    assert regions[..0] == [];
    NothingMerged();
    for k := 0 to |regions|
      invariant AllFit(rows, merged) && AllFit(rows, regions[..k]) && Gather(rows, merged) == Gather(rows, regions[..k])
      invariant Merged(merged)
    {
      var region := regions[k];
      GatherNext(rows, regions, k);
      if region.nbytes == 0 {
        continue;
      }
      if merged != [] {
        var n := |merged| - 1;
        var prev := merged[n];
        if prev.rank == region.rank && prev.offset + prev.nbytes == region.offset {
          GatherLast(rows, merged, region);
          MergedWider(merged, region);
          merged := merged[n := prev.(nbytes := prev.nbytes + region.nbytes)];
          continue;
        }
      }
      GatherOne(rows, region);
      GatherSum(rows, merged, [region]);
      MergedMore(merged, region);
      merged := merged + [region];
    }
    assert regions[..|regions|] == regions;
    MergedIs(merged);
  }

  /** `next` begins in the same rank's row where `region` ends. */
  predicate Continues(region: Region, next: Region) {
    region.rank == next.rank && region.offset + region.nbytes == next.offset
  }

  /** No region is empty, and none continues the one before. */
  predicate Merged(merged: seq<Region>) {
    && (forall i :: 0 <= i < |merged| ==> merged[i].nbytes > 0)
    && (forall i :: 0 <= i < |merged| - 1 ==> !Continues(merged[i], merged[i + 1]))
  }

  lemma NothingMerged()
    ensures Merged([])
  {
  }

  lemma MergedIs(merged: seq<Region>)
    requires Merged(merged)
    ensures forall i :: 0 <= i < |merged| ==> merged[i].nbytes > 0
    ensures forall i :: 0 <= i < |merged| - 1 ==> !Continues(merged[i], merged[i + 1])
  {
  }

  lemma MergedMore(merged: seq<Region>, region: Region)
    requires Merged(merged) && region.nbytes > 0
    requires merged != [] ==> !Continues(merged[|merged| - 1], region)
    ensures Merged(merged + [region])
  {
    hide Continues;
  }

  lemma MergedWider(merged: seq<Region>, region: Region)
    requires Merged(merged) && merged != []
    ensures var n := |merged| - 1; Merged(merged[n := merged[n].(nbytes := merged[n].nbytes + region.nbytes)])
  {
    var n := |merged| - 1;
    var more := merged[n := merged[n].(nbytes := merged[n].nbytes + region.nbytes)];
    forall i | 0 <= i < n ensures !Continues(more[i], more[i + 1]) {
      assert !Continues(merged[i], merged[i + 1]);
    }
  }

  lemma GatherNext<V>(rows: seq<seq<V>>, regions: seq<Region>, k: nat)
    requires AllFit(rows, regions) && k < |regions|
    ensures AllFit(rows, regions[..k]) && AllFit(rows, regions[..k + 1]) && Fits(rows, regions[k])
    ensures Gather(rows, regions[..k + 1]) == Gather(rows, regions[..k]) + Slice(rows, regions[k])
    ensures regions[k].nbytes == 0 ==> Gather(rows, regions[..k + 1]) == Gather(rows, regions[..k])
  {
    assert regions[..k + 1][..k] == regions[..k];
  }

  lemma GatherLast<V>(rows: seq<seq<V>>, merged: seq<Region>, region: Region)
    requires AllFit(rows, merged) && Fits(rows, region) && merged != []
    requires var prev := merged[|merged| - 1]; prev.rank == region.rank && prev.offset + prev.nbytes == region.offset
    ensures var n := |merged| - 1;
            var more := merged[n := merged[n].(nbytes := merged[n].nbytes + region.nbytes)];
            AllFit(rows, more) && Gather(rows, more) == Gather(rows, merged) + Slice(rows, region)
  {
    var n := |merged| - 1;
    var prev := merged[n];
    var longer := prev.(nbytes := prev.nbytes + region.nbytes);
    var more := merged[n := longer];
    assert more[..n] == merged[..n];
    assert Slice(rows, longer) == Slice(rows, prev) + Slice(rows, region);
  }

  // ----- The regions of the data and the scales

  /** The chunks of all ranks. */
  predicate RanksOk<R>(f: Format, params: seq<Param<R>>, ranks: seq<seq<Piece>>, send: nat)
    requires FormatOk(f)
  {
    forall r :: 0 <= r < |ranks| ==> InRange(params, ranks[r]) && PackedLen(f, params, ranks[r]) <= send
  }

  function Rows<R, V>(f: Format, q: Quantizer<R, V>, params: seq<Param<R>>, ranks: seq<seq<Piece>>, send: nat,
                      zero: V): (rows: seq<seq<V>>)
    requires FormatOk(f) && RanksOk(f, params, ranks, send)
    ensures |rows| == |ranks| && forall r :: 0 <= r < |ranks| ==> rows[r] == RankRow(f, q, params, ranks[r], send, zero)
  {
    seq(|ranks|, r requires 0 <= r < |ranks| => RankRow(f, q, params, ranks[r], send, zero))
  }

  function DataRegions<R>(f: Format, params: seq<Param<R>>, ranks: seq<seq<Piece>>, send: nat): (regions: seq<Region>)
    requires FormatOk(f) && RanksOk(f, params, ranks, send)
    ensures |regions| == |ranks|
    ensures forall r :: 0 <= r < |ranks| ==> regions[r] == Region(r, 0, DataLens(params, ranks[r]))
  {
    seq(|ranks|, r requires 0 <= r < |ranks| => Region(r, 0, DataLens(params, ranks[r])))
  }

  function ScaleRegions<R>(f: Format, params: seq<Param<R>>, ranks: seq<seq<Piece>>, send: nat): (regions: seq<Region>)
    requires FormatOk(f) && RanksOk(f, params, ranks, send)
    ensures |regions| == |ranks|
    ensures forall r :: 0 <= r < |ranks| ==>
              regions[r] == Region(r, ScaleOffset(params, ranks[r]), ScaleLens(f, params, ranks[r]))
  {
    seq(|ranks|, r requires 0 <= r < |ranks| =>
        Region(r, ScaleOffset(params, ranks[r]), ScaleLens(f, params, ranks[r])))
  }

  /** Where the parts of a rank's row are. */
  lemma RowParts<R(!new), V(!new)>(f: Format, q: Quantizer<R, V>, params: seq<Param<R>>,
                   chunks: seq<Piece>, send: nat, zero: V)
    requires FormatOk(f) && QuantizerOk(f, q) && InRange(params, chunks) && PackedLen(f, params, chunks) <= send
    ensures var row, n, s := RankRow(f, q, params, chunks, send, zero), DataLens(params, chunks),
        ScaleLens(f, params, chunks);
            && |row| == send
            && row[..n] == OfPieces(params, f.block, DataOf(q, params), chunks)
            && row[ScaleOffset(params, chunks)..ScaleOffset(params, chunks) + s]
                == OfPieces(params, f.block, ScaleOf(f, q, params), chunks)
            && row[GradOffset(f, params, chunks)..GradOffset(f, params, chunks) + GradLens(f, params, chunks)]
                == GradGrids(f, q, params, chunks)
  {
    hide OfPieces, GradGrids, DataLens, ScaleLens, GradLens;
    RowLens(f, q, params, chunks);
  }

  /** One region per rank, each with what `g` makes of the rank's chunks, joined. */
  lemma {:induction false} GatherRanks<R, V>(params: seq<Param<R>>, block: nat,
                                             g: (nat, seq<R>) -> seq<V>, ranks: seq<seq<Piece>>,
                                             rows: seq<seq<V>>, regions: seq<Region>)
    requires block > 0 && |regions| == |ranks| && AllFit(rows, regions)
    requires forall r :: 0 <= r < |ranks| ==> InRange(params, ranks[r])
    requires forall r :: 0 <= r < |ranks| ==> Slice(rows, regions[r]) == OfPieces(params, block, g, ranks[r])
    ensures InRange(params, Concat(ranks)) && Gather(rows, regions) == OfPieces(params, block, g, Concat(ranks))
  {
    hide Slice, InRange;
    if ranks != [] {
      var n := |ranks| - 1;
      GatherRanks(params, block, g, ranks[..n], rows, regions[..n]);
      OfPiecesSum(params, block, g, Concat(ranks[..n]), ranks[n]);
    } else {
      NothingInRange(params);
      NoPieces(params, block, g);
    }
  }

  lemma NothingInRange<R>(params: seq<Param<R>>)
    ensures InRange(params, [])
  {
  }

  /** All parameters taken whole, one after the other. */
  function Wholes<R, V>(params: seq<Param<R>>, block: nat, g: (nat, seq<R>) -> seq<V>): seq<V>
    requires block > 0 && Shaped(params)
  {
    OfRest(params, block, g, Pos(0, 0))
  }

  lemma {:induction false} CoversIsWhole<R, V>(params: seq<Param<R>>, block: nat,
                                               g: (nat, seq<R>) -> seq<V>, pieces: seq<Piece>)
    requires block > 0 && Shaped(params) && Covers(params, block, pieces)
    ensures InRange(params, pieces) && OfPieces(params, block, g, pieces) == Wholes(params, block, g)
  {
    ChainInRange(params, block, pieces, Pos(0, 0));
    PiecesAreWhole(params, block, g, pieces, Pos(0, 0));
  }

  /** The gathered data are the data of the whole matrices. */
  lemma DataGathered<R(!new), V(!new)>(f: Format, q: Quantizer<R, V>, params: seq<Param<R>>,
                       ranks: seq<seq<Piece>>, send: nat, zero: V)
    requires FormatOk(f) && QuantizerOk(f, q) && Shaped(params) && RanksOk(f, params, ranks, send)
    requires Covers(params, f.block, Concat(ranks))
    ensures AllFit(Rows(f, q, params, ranks, send, zero), DataRegions(f, params, ranks, send))
    ensures Gather(Rows(f, q, params, ranks, send, zero), DataRegions(f, params, ranks, send))
        == Wholes(params, f.block, DataOf(q, params))
  {
    hide RankRow, OfPieces, InRange, Covers, DataOf, Wholes;
    var rows, regions := Rows(f, q, params, ranks, send, zero), DataRegions(f, params, ranks, send);
    forall r | 0 <= r < |ranks|
      ensures Fits(rows, regions[r])
      ensures Slice(rows, regions[r]) == OfPieces(params, f.block, DataOf(q, params), ranks[r])
    {
      RowParts(f, q, params, ranks[r], send, zero);
      DataWithin(f, params, ranks[r]);
    }
    GatherRanks(params, f.block, DataOf(q, params), ranks, rows, regions);
    CoversIsWhole(params, f.block, DataOf(q, params), Concat(ranks));
  }

  lemma DataWithin<R>(f: Format, params: seq<Param<R>>, chunks: seq<Piece>)
    requires FormatOk(f) && InRange(params, chunks)
    ensures DataLens(params, chunks) <= ScaleOffset(params, chunks)
    ensures ScaleOffset(params, chunks) + ScaleLens(f, params, chunks) == GradOffset(f, params, chunks)
    ensures GradOffset(f, params, chunks) + GradLens(f, params, chunks) == PackedLen(f, params, chunks)
  {
  }

  /** The gathered scales are those of the whole matrices. */
  lemma ScalesGathered<R(!new), V(!new)>(f: Format, q: Quantizer<R, V>, params: seq<Param<R>>,
                         ranks: seq<seq<Piece>>, send: nat, zero: V)
    requires FormatOk(f) && QuantizerOk(f, q) && Shaped(params) && RanksOk(f, params, ranks, send)
    requires Covers(params, f.block, Concat(ranks))
    ensures AllFit(Rows(f, q, params, ranks, send, zero), ScaleRegions(f, params, ranks, send))
    ensures Gather(Rows(f, q, params, ranks, send, zero), ScaleRegions(f, params, ranks, send))
         == Wholes(params, f.block, ScaleOf(f, q, params))
  {
    hide RankRow, OfPieces, InRange, Covers, ScaleOf, Wholes;
    var rows, regions := Rows(f, q, params, ranks, send, zero), ScaleRegions(f, params, ranks, send);
    forall r | 0 <= r < |ranks|
      ensures Fits(rows, regions[r])
      ensures Slice(rows, regions[r]) == OfPieces(params, f.block, ScaleOf(f, q, params), ranks[r])
    {
      RowParts(f, q, params, ranks[r], send, zero);
      DataWithin(f, params, ranks[r]);
    }
    GatherRanks(params, f.block, ScaleOf(f, q, params), ranks, rows, regions);
    CoversIsWhole(params, f.block, ScaleOf(f, q, params), Concat(ranks));
  }
}
