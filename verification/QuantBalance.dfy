/** The bytes that a division of a bucket's block rows gives each rank, and that cutting at the
    smallest capacity gives the best of all divisions. */
module QuantBalance {
  import opened Arithmetic
  import opened QuantLayout
  import opened QuantBucket
  import opened UnitPartition

  /** A piece's bytes: its data, its scales and its input-gradient scales. */
  function PieceBytes<R>(f: Format, params: seq<Param<R>>, piece: Piece): nat
    requires FormatOk(f) && InRange(params, [piece])
  {
    DataLen(params, piece) + ScaleLen(f, params, piece) + GradLen(f, params, piece)
  }

  /** What a rank's pieces take. */
  function RankBytes<R>(f: Format, params: seq<Param<R>>, pieces: seq<Piece>): nat
    requires FormatOk(f) && InRange(params, pieces)
  {
    DataLens(params, pieces) + ScaleLens(f, params, pieces) + GradLens(f, params, pieces)
  }

  /** One contiguous run of whole block rows for each rank, together the whole bucket. */
  predicate Division<R>(params: seq<Param<R>>, block: nat, ranks: seq<seq<Piece>>, worldSize: nat)
    requires block > 0
  {
    |ranks| == worldSize && Covers(params, block, Concat(ranks))
  }

  predicate RanksWithin<R>(f: Format, params: seq<Param<R>>, ranks: seq<seq<Piece>>, cap: nat)
    requires FormatOk(f)
  {
    forall r :: 0 <= r < |ranks| ==> InRange(params, ranks[r]) && RankBytes(f, params, ranks[r]) <= cap
  }

  /** Whatever suffices for the ranks of some division suffices for these. */
  ghost predicate BestDivision<R(!new)>(f: Format, params: seq<Param<R>>, ranks: seq<seq<Piece>>, worldSize: nat)
    requires FormatOk(f)
  {
    && Division(params, f.block, ranks, worldSize)
    && forall others: seq<seq<Piece>>, cap: nat
         | Division(params, f.block, others, worldSize) && RanksWithin(f, params, others, cap) ::
         RanksWithin(f, params, ranks, cap)
  }

  // ----- Bytes add up

  lemma TilesAdd(s: nat, m: nat, e: nat, block: nat)
    requires block > 0 && s <= m <= e && s % block == 0 && m % block == 0
    ensures CeilDiv(e - s, block) == CeilDiv(m - s, block) + CeilDiv(e - m, block)
  {
    var i, j := s / block, m / block;
    Distributes(block, i, j - i);
    assert m - s == (j - i) * block;
    NotNegative(j - i, block);
    WholeTiles(j - i, block);
    var a := e - m + block - 1;
    OneMore(j - i, block);
    TilesOn(a, j - i, block);
  }

  lemma NotNegative(k: int, block: int)
    requires block > 0 && k * block >= 0
    ensures k >= 0
  {
  }

  lemma Distributes(x: int, y: int, z: int)
    ensures x * (y + z) == x * y + x * z
  {
  }

  lemma WholeTiles(k: nat, block: nat)
    requires block > 0
    ensures k * block >= 0 && CeilDiv(k * block, block) == k
  {
    NonNegative(k, block);
    QuotientIs(k * block + block - 1, k, block - 1, block);
  }

  lemma TilesOn(a: int, k: int, block: nat)
    requires block > 0
    ensures (a + k * block) / block == a / block + k
  {
    var q, r := a / block, a % block;
    Distributes(block, q, k);
    QuotientIs(a + k * block, q + k, r, block);
  }

  /** A piece cut at a block edge. */
  lemma BytesAdd<R>(f: Format, params: seq<Param<R>>, p: nat, s: nat, m: nat, e: nat)
    requires FormatOk(f) && p < |params| && s <= m <= e <= |params[p].rows| && s % f.block == 0 && m % f.block == 0
    ensures InRange(params, [Piece(p, s, e)]) && InRange(params, [Piece(p, s, m)]) && InRange(params, [Piece(p, m, e)])
    ensures PieceBytes(f, params, Piece(p, s, e))
         == PieceBytes(f, params, Piece(p, s, m)) + PieceBytes(f, params, Piece(p, m, e))
  {
    hide CeilDiv;
    TilesAdd(s, m, e, f.block);
    NoTiles(f.block);
    var x, y := Tiles(f, Piece(p, s, m)), Tiles(f, Piece(p, m, e));
    var n := InTiles(f, params, p);
    assert Tiles(f, Piece(p, s, e)) == x + y;
    SumTimes(m - s, e - m, params[p].inDim);
    SumTimes(x, y, n * f.tileBytes);
    SumTimes(x, y, f.gradBytes);
    Distributes(n, x * f.gradBytes, y * f.gradBytes);
  }

  lemma NoTiles(block: nat)
    requires block > 0
    ensures CeilDiv(0, block) == 0
  {
    QuotientIs(block - 1, 0, block - 1, block);
  }

  lemma NoBytes<R>(f: Format, params: seq<Param<R>>, p: nat, s: nat)
    requires FormatOk(f) && p < |params| && s <= |params[p].rows|
    ensures InRange(params, [Piece(p, s, s)]) && PieceBytes(f, params, Piece(p, s, s)) == 0
  {
  }

  // ----- Bytes up to a place

  predicate Place<R>(params: seq<Param<R>>, block: nat, at: Pos)
    requires block > 0
  {
    at.param <= |params| && at.row % block == 0
        && (at.row > 0 ==> at.param < |params| && at.row <= |params[at.param].rows|)
  }

  /** The bytes of all whole parameters before the `p`-th. */
  function WholeBytes<R>(f: Format, params: seq<Param<R>>, p: nat): nat
    requires FormatOk(f) && p <= |params|
  {
    if p == 0 then 0
    else
      assert InRange(params, [WholePiece(params, p - 1)]);
      WholeBytes(f, params, p - 1) + PieceBytes(f, params, WholePiece(params, p - 1))
  }

  function BytesTo<R>(f: Format, params: seq<Param<R>>, at: Pos): nat
    requires FormatOk(f) && Place(params, f.block, at)
  {
    if at.row == 0 then WholeBytes(f, params, at.param)
    else
      assert InRange(params, [Piece(at.param, 0, at.row)]);
      WholeBytes(f, params, at.param) + PieceBytes(f, params, Piece(at.param, 0, at.row))
  }

  lemma PlaceAfter<R>(params: seq<Param<R>>, block: nat, piece: Piece, at: Pos)
    requires block > 0 && StartsAt(params, block, piece, at)
    ensures Place(params, block, at) && Place(params, block, After(params, piece))
  {
    QuotientIs(0, 0, 0, block);
  }

  /** A piece's bytes lie between where it starts and where the next one does. */
  lemma BytesOver<R>(f: Format, params: seq<Param<R>>, piece: Piece, at: Pos)
    requires FormatOk(f) && StartsAt(params, f.block, piece, at)
    ensures Place(params, f.block, at) && Place(params, f.block, After(params, piece)) && InRange(params, [piece])
    ensures BytesTo(f, params, After(params, piece)) == BytesTo(f, params, at) + PieceBytes(f, params, piece)
  {
    hide PieceBytes;
    var p, s, e := piece.param, piece.start, piece.end;
    PlaceAfter(params, f.block, piece, at);
    QuotientIs(0, 0, 0, f.block);
    BytesAdd(f, params, p, 0, s, e);
    NoBytes(f, params, p, 0);
  }

  lemma {:induction false} ChainPlaces<R>(params: seq<Param<R>>, block: nat, pieces: seq<Piece>, at: Pos)
    requires block > 0 && Chained(params, block, pieces, at) && Place(params, block, at)
    ensures Place(params, block, EndOf(params, block, pieces, at))
  {
    if pieces != [] {
      PlaceAfter(params, block, pieces[0], at);
      ChainPlaces(params, block, pieces[1..], After(params, pieces[0]));
    }
  }

  /** The bytes of pieces that follow each other. */
  lemma {:induction false} ChainBytes<R>(f: Format, params: seq<Param<R>>, pieces: seq<Piece>, at: Pos)
    requires FormatOk(f) && Chained(params, f.block, pieces, at) && Place(params, f.block, at)
    ensures InRange(params, pieces) && Place(params, f.block, EndOf(params, f.block, pieces, at))
    ensures BytesTo(f, params, EndOf(params, f.block, pieces, at))
         == BytesTo(f, params, at) + RankBytes(f, params, pieces)
  {
    hide Chained, EndOf, BytesTo, Place, InRange, After, DataLen, ScaleLen, GradLen;
    ChainInRange(params, f.block, pieces, at);
    ChainPlaces(params, f.block, pieces, at);
    if pieces == [] {
      NoneChained(params, f.block, at);
    } else {
      var n := |pieces| - 1;
      UnitAt(params, f.block, pieces, n, at);
      assert pieces[..n + 1] == pieces;
      ChainBytes(f, params, pieces[..n], at);
      BytesOver(f, params, pieces[n], EndOf(params, f.block, pieces[..n], at));
    }
  }

  // ----- Units and their costs

  ghost predicate CostsOf<R>(f: Format, params: seq<Param<R>>, units: seq<Piece>, costs: seq<nat>)
    requires FormatOk(f)
  {
    && |costs| == |units|
    && forall i :: 0 <= i < |units| ==> InRange(params, [units[i]]) && costs[i] == PieceBytes(f, params, units[i])
  }

  lemma StartPlace<R>(params: seq<Param<R>>, block: nat)
    requires block > 0
    ensures Place(params, block, Pos(0, 0))
  {
    QuotientIs(0, 0, 0, block);
  }

  /** What units cost together is the bytes between where they start and end. */
  lemma {:induction false} CostIs<R>(f: Format, params: seq<Param<R>>, units: seq<Piece>,
                                     costs: seq<nat>, lo: nat, hi: nat)
    requires FormatOk(f) && Chained(params, f.block, units, Pos(0, 0)) && CostsOf(f, params, units, costs)
    requires lo <= hi <= |units|
    ensures Chained(params, f.block, units[..lo], Pos(0, 0)) && Chained(params, f.block, units[..hi], Pos(0, 0))
    ensures Place(params, f.block, EndAt(params, f.block, units, lo))
    ensures Place(params, f.block, EndAt(params, f.block, units, hi))
    ensures BytesTo(f, params, EndAt(params, f.block, units, hi))
         == BytesTo(f, params, EndAt(params, f.block, units, lo)) + Cost(costs, lo, hi)
    decreases hi
  {
    hide Chained, EndOf, BytesTo, Place, InRange, After, PieceBytes;
    StartPlace(params, f.block);
    ChainPrefix(params, f.block, units, lo, Pos(0, 0));
    ChainPlaces(params, f.block, units[..lo], Pos(0, 0));
    if lo < hi {
      CostIs(f, params, units, costs, lo, hi - 1);
      UnitAt(params, f.block, units, hi - 1, Pos(0, 0));
      BytesOver(f, params, units[hi - 1], EndAt(params, f.block, units, hi - 1));
    }
  }

  /** Places in the bucket follow each other. */
  predicate Behind(at: Pos, next: Pos) {
    at.param < next.param || (at.param == next.param && at.row < next.row)
  }

  lemma {:induction false} EndsGrow<R>(params: seq<Param<R>>, block: nat, units: seq<Piece>, lo: nat, hi: nat)
    requires block > 0 && Chained(params, block, units, Pos(0, 0)) && lo < hi <= |units|
    ensures Chained(params, block, units[..lo], Pos(0, 0)) && Chained(params, block, units[..hi], Pos(0, 0))
    ensures Behind(EndAt(params, block, units, lo), EndAt(params, block, units, hi))
    decreases hi
  {
    hide Chained, EndOf;
    UnitAt(params, block, units, hi - 1, Pos(0, 0));
    if lo < hi - 1 {
      EndsGrow(params, block, units, lo, hi - 1);
    }
  }

  // ----- Ranks cut from the units

  /** A rank's bytes are the costs of the units between its cuts. */
  lemma RankCost<R>(f: Format, params: seq<Param<R>>, units: seq<Piece>, costs: seq<nat>, cuts: seq<nat>,
                    ranks: seq<seq<Piece>>, r: nat)
    requires FormatOk(f) && CutAt(params, f.block, units, cuts, ranks) && CostsOf(f, params, units, costs)
    requires r < |ranks|
    ensures InRange(params, ranks[r]) && RankBytes(f, params, ranks[r]) == Cost(costs, cuts[r], cuts[r + 1])
    ensures cuts[r] < cuts[r + 1] ==> ranks[r] != []
  {
    hide Chained, EndOf, BytesTo, Place, InRange, RankBytes, Cost, Concat, CostsOf;
    ConcatNext(ranks, r);
    var before := Concat(ranks[..r]);
    var at := EndOf(params, f.block, before, Pos(0, 0));
    ChainSum(params, f.block, before, ranks[r], Pos(0, 0));
    StartPlace(params, f.block);
    ChainPlaces(params, f.block, before, Pos(0, 0));
    ChainBytes(f, params, ranks[r], at);
    CostIs(f, params, units, costs, cuts[r], cuts[r + 1]);
    if cuts[r] < cuts[r + 1] {
      EndsGrow(params, f.block, units, cuts[r], cuts[r + 1]);
      NoneChained(params, f.block, at);
    }
  }

  // ----- Any division can be cut from the units

  ghost predicate AreUnits<R>(params: seq<Param<R>>, block: nat, units: seq<Piece>)
    requires block > 0
  {
    && Covers(params, block, units)
    && forall u :: u in units ==> u.param < |params| && u.end == BlockEnd(u.start, block, |params[u.param].rows|)
  }

  /** A place before the end of the bucket has a unit. */
  lemma UnitsGoOn<R>(params: seq<Param<R>>, block: nat, units: seq<Piece>, i: nat)
    requires block > 0 && AreUnits(params, block, units) && i <= |units|
    ensures Chained(params, block, units[..i], Pos(0, 0))
    ensures EndAt(params, block, units, i).param < |params| ==> i < |units|
  {
    hide Chained, EndOf;
    ChainPrefix(params, block, units, i, Pos(0, 0));
    assert units[..|units|] == units;
  }

  /** Some unit ends where a piece ends. */
  lemma {:induction false} ReachPiece<R>(params: seq<Param<R>>, block: nat, units: seq<Piece>, i: nat, piece: Piece)
      returns (j: nat)
    requires block > 0 && AreUnits(params, block, units) && i <= |units|
    requires Chained(params, block, units[..i], Pos(0, 0))
    requires StartsAt(params, block, piece, EndAt(params, block, units, i))
    ensures i < j <= |units| && Chained(params, block, units[..j], Pos(0, 0))
    ensures EndAt(params, block, units, j) == After(params, piece)
    decreases piece.end - piece.start
  {
    hide Chained, EndOf;
    UnitsGoOn(params, block, units, i);
    UnitAt(params, block, units, i, Pos(0, 0));
    var unit := units[i];
    assert unit in units;
    if unit.end == piece.end {
      j := i + 1;
    } else {
      NextEdgeWithin(piece.start, piece.end, block, |params[piece.param].rows|);
      var rest := Piece(piece.param, unit.end, piece.end);
      j := ReachPiece(params, block, units, i + 1, rest);
    }
  }

  /** Between two block edges there is room for a block. */
  lemma NextEdgeWithin(start: nat, end: nat, block: nat, rows: nat)
    requires block > 0 && start < end <= rows && start % block == 0 && (end % block == 0 || end == rows)
    ensures BlockEnd(start, block, rows) <= end && start < BlockEnd(start, block, rows)
    ensures BlockEnd(start, block, rows) < end ==> BlockEnd(start, block, rows) % block == 0
  {
    NextEdge(start, block);
    if end % block == 0 && end < start + block {
      var i, j := start / block, end / block;
      assert (j - i) * block == end - start;
      SmallMultiple(j - i, block);
      assert false;
    }
  }

  lemma {:induction false} ReachAll<R>(params: seq<Param<R>>, block: nat, units: seq<Piece>, i: nat, pieces: seq<Piece>)
      returns (j: nat)
    requires block > 0 && AreUnits(params, block, units) && i <= |units|
    requires Chained(params, block, units[..i], Pos(0, 0))
    requires Chained(params, block, pieces, EndAt(params, block, units, i))
    ensures i <= j <= |units| && Chained(params, block, units[..j], Pos(0, 0))
    ensures EndAt(params, block, units, j) == EndOf(params, block, pieces, EndAt(params, block, units, i))
    decreases |pieces|
  {
    if pieces == [] {
      j := i;
    } else {
      var k := ReachPiece(params, block, units, i, pieces[0]);
      j := ReachAll(params, block, units, k, pieces[1..]);
    }
  }

  lemma {:induction false} CutsOfDivision<R>(params: seq<Param<R>>, block: nat,
                                             units: seq<Piece>, ranks: seq<seq<Piece>>)
      returns (cuts: seq<nat>)
    requires block > 0 && AreUnits(params, block, units) && Chained(params, block, Concat(ranks), Pos(0, 0))
    ensures CutAt(params, block, units, cuts, ranks) && cuts[0] == 0
  {
    hide Chained, EndOf;
    if ranks == [] {
      cuts := [0];
      NothingChained(params, block, units);
    } else {
      var n := |ranks| - 1;
      ConcatNext(ranks, n);
      assert ranks[..n + 1] == ranks;
      PrefixChained(params, block, Concat(ranks[..n]), ranks[n]);
      var before := CutsOfDivision(params, block, units, ranks[..n]);
      assert ranks[..n][..n] == ranks[..n];
      ChainSum(params, block, Concat(ranks[..n]), ranks[n], Pos(0, 0));
      var next := ReachAll(params, block, units, before[n], ranks[n]);
      cuts := before + [next];
      CutOneMore(params, block, units, before, ranks, next);
    }
  }

  lemma PrefixChained<R>(params: seq<Param<R>>, block: nat, a: seq<Piece>, b: seq<Piece>)
    requires block > 0 && Chained(params, block, a + b, Pos(0, 0))
    ensures Chained(params, block, a, Pos(0, 0))
  {
    hide Chained, EndOf;
    ChainPrefix(params, block, a + b, |a|, Pos(0, 0));
    assert (a + b)[..|a|] == a;
  }

  /** A division within some capacity divides the units within it. */
  lemma DivisionFeasible<R>(f: Format, params: seq<Param<R>>, units: seq<Piece>,
                            costs: seq<nat>, others: seq<seq<Piece>>,
                            worldSize: nat, cap: nat)
    requires FormatOk(f) && AreUnits(params, f.block, units) && CostsOf(f, params, units, costs)
    requires Division(params, f.block, others, worldSize) && RanksWithin(f, params, others, cap)
    ensures Feasible(costs, worldSize, cap)
  {
    hide Chained, EndOf, CostsOf, RankBytes, InRange, Cost;
    var cuts := CutsOfDivision(params, f.block, units, others);
    LastCut(params, f.block, units, cuts, others);
    CostsLen(f, params, units, costs);
    forall p | 0 <= p < |cuts| - 1 ensures Cost(costs, cuts[p], cuts[p + 1]) <= cap {
      RankCost(f, params, units, costs, cuts, others, p);
    }
    assert Divides(costs, cuts, worldSize, cap);
  }

  lemma CostsLen<R>(f: Format, params: seq<Param<R>>, units: seq<Piece>, costs: seq<nat>)
    requires FormatOk(f) && CostsOf(f, params, units, costs)
    ensures |costs| == |units|
  {
  }

  lemma LastCut<R>(params: seq<Param<R>>, block: nat, units: seq<Piece>, cuts: seq<nat>, ranks: seq<seq<Piece>>)
    requires block > 0 && AreUnits(params, block, units) && CutAt(params, block, units, cuts, ranks)
    requires Covers(params, block, Concat(ranks))
    ensures cuts[|ranks|] == |units|
  {
    hide Chained, EndOf, Concat;
    assert ranks[..|ranks|] == ranks && units[..|units|] == units;
    if cuts[|ranks|] < |units| {
      EndsGrow(params, block, units, cuts[|ranks|], |units|);
      assert false;
    }
  }

  // ----- The best division

  /** Cutting the units at the smallest capacity is the best division. */
  lemma CutsAreBest<R(!new)>(f: Format, params: seq<Param<R>>, units: seq<Piece>, costs: seq<nat>, cuts: seq<nat>,
                             ranks: seq<seq<Piece>>, worldSize: nat, capacity: nat)
    requires FormatOk(f) && AreUnits(params, f.block, units) && CostsOf(f, params, units, costs)
    requires Division(params, f.block, ranks, worldSize) && CutAt(params, f.block, units, cuts, ranks)
    requires Divides(costs, cuts, worldSize, capacity)
    requires forall c: nat :: c < capacity ==> !Feasible(costs, worldSize, c)
    ensures BestDivision(f, params, ranks, worldSize)
  {
    hide AreUnits, CostsOf, CutAt, Feasible, RankBytes, InRange, Covers;
    forall others: seq<seq<Piece>>, cap: nat
      | Division(params, f.block, others, worldSize) && RanksWithin(f, params, others, cap)
      ensures RanksWithin(f, params, ranks, cap)
    {
      DivisionFeasible(f, params, units, costs, others, worldSize, cap);
      assert capacity <= cap;
      CutsWithin(f, params, units, costs, cuts, ranks, worldSize, capacity, cap);
    }
  }

  lemma CutsWithin<R>(f: Format, params: seq<Param<R>>, units: seq<Piece>, costs: seq<nat>, cuts: seq<nat>,
                      ranks: seq<seq<Piece>>, worldSize: nat, capacity: nat, cap: nat)
    requires FormatOk(f) && CostsOf(f, params, units, costs) && CutAt(params, f.block, units, cuts, ranks)
    requires |ranks| == worldSize && Divides(costs, cuts, worldSize, capacity) && capacity <= cap
    ensures RanksWithin(f, params, ranks, cap)
  {
    hide CostsOf, RankBytes, InRange, Cost, Chained, EndOf;
    forall r | 0 <= r < |ranks| ensures InRange(params, ranks[r]) && RankBytes(f, params, ranks[r]) <= cap {
      RankCost(f, params, units, costs, cuts, ranks, r);
      assert Cost(costs, cuts[r], cuts[r + 1]) <= capacity;
    }
  }

  /** Every rank has something if the cuts leave no part empty. */
  lemma NoneEmpty<R>(f: Format, params: seq<Param<R>>, units: seq<Piece>, costs: seq<nat>, cuts: seq<nat>,
                     ranks: seq<seq<Piece>>)
    requires FormatOk(f) && CostsOf(f, params, units, costs) && CutAt(params, f.block, units, cuts, ranks)
    requires Nonempty(cuts)
    ensures forall r :: 0 <= r < |ranks| ==> ranks[r] != []
  {
    hide CostsOf, RankBytes, InRange, Cost, Chained, EndOf;
    forall r | 0 <= r < |ranks| ensures ranks[r] != [] {
      RankCost(f, params, units, costs, cuts, ranks, r);
    }
  }
}
