/** The whole way of a quantized bucket: units, cuts, chunks, rows, regions, and each
    parameter's data and scales in the end. */
module QuantUnshard {
  import opened Basics
  import opened QuantLayout
  import opened QuantBucket
  import opened QuantGather
  import opened QuantGradScales
  import opened UnitPartition
  import opened QuantBalance

  // ----- Splitting by parameter

  function Lengths<V>(parts: seq<seq<V>>): (lens: seq<nat>)
    ensures |lens| == |parts| && forall p :: 0 <= p < |parts| ==> lens[p] == |parts[p]|
  {
    seq(|parts|, p requires 0 <= p < |parts| => |parts[p]|)
  }

  /** Parts of the given lengths, which must add up. */
  function Split<V>(s: seq<V>, lens: seq<nat>): (parts: seq<seq<V>>)
    requires |s| == Sum(lens)
    ensures |parts| == |lens|
    decreases |lens|
  {
    if lens == [] then []
    else
      var n := |lens| - 1;
      Split(s[..|s| - lens[n]], lens[..n]) + [s[|s| - lens[n]..]]
  }

  lemma SplitLast<V>(a: seq<V>, b: seq<V>, lens: seq<nat>)
    requires lens != [] && |a| == Sum(lens[..|lens| - 1]) && |b| == lens[|lens| - 1]
    ensures |a + b| == Sum(lens) && Split(a + b, lens) == Split(a, lens[..|lens| - 1]) + [b]
  {
    assert (a + b)[..|a + b| - lens[|lens| - 1]] == a;
    assert (a + b)[|a + b| - lens[|lens| - 1]..] == b;
  }

  lemma {:induction false} SplitConcat<V>(parts: seq<seq<V>>, lens: seq<nat>)
    requires lens == Lengths(parts)
    ensures |Concat(parts)| == Sum(lens) && Split(Concat(parts), lens) == parts
  {
    hide Split, Sum;
    if parts != [] {
      var n := |parts| - 1;
      assert lens[..n] == Lengths(parts[..n]);
      SplitConcat(parts[..n], lens[..n]);
      SplitLast(Concat(parts[..n]), parts[n], lens);
    } else {
      SplitNothing<V>(lens);
    }
  }

  lemma SplitNothing<V>(lens: seq<nat>)
    requires lens == []
    ensures Sum(lens) == 0 && Split<V>([], lens) == [] && Concat<V>([]) == []
  {
  }

  /** What `g` makes of each parameter, taken whole. */
  function Each<R, V>(params: seq<Param<R>>, block: nat, g: (nat, seq<R>) -> seq<V>): (parts: seq<seq<V>>)
    requires block > 0
    ensures |parts| == |params|
    ensures forall p :: 0 <= p < |params| ==> parts[p] == Blockwise(For(g, p), params[p].rows, block)
  {
    seq(|params|, p requires 0 <= p < |params| => Blockwise(For(g, p), params[p].rows, block))
  }

  lemma {:induction false} ConcatFront<V>(first: seq<V>, rest: seq<seq<V>>)
    ensures Concat([first] + rest) == first + Concat(rest)
  {
    hide Concat;
    var all := [first] + rest;
    if rest == [] {
      assert all == [] + [first];
      NoneConcat<V>();
      LastConcat([], first);
    } else {
      var n := |rest| - 1;
      ConcatFront(first, rest[..n]);
      assert all == ([first] + rest[..n]) + [rest[n]] && rest == rest[..n] + [rest[n]];
      LastConcat([first] + rest[..n], rest[n]);
      LastConcat(rest[..n], rest[n]);
    }
  }

  lemma NoneConcat<V>()
    ensures Concat<V>([]) == []
  {
  }

  lemma LastConcat<V>(before: seq<seq<V>>, last: seq<V>)
    ensures Concat(before + [last]) == Concat(before) + last
  {
    assert (before + [last])[..|before|] == before;
  }

  lemma {:induction false} RestIsEach<R(!new), V>(params: seq<Param<R>>, block: nat,
                                        g: (nat, seq<R>) -> seq<V>, at: nat)
    requires block > 0 && Shaped(params) && at <= |params|
    ensures OfRest(params, block, g, Pos(at, 0)) == Concat(Each(params, block, g)[at..])
    decreases |params| - at
  {
    hide Blockwise, OfRest, For, Concat;
    RestStep(params, block, g, at);
    var parts := Each(params, block, g);
    if at < |params| {
      RestIsEach(params, block, g, at + 1);
      assert parts[at..] == [parts[at]] + parts[at + 1..];
      ConcatFront(parts[at], parts[at + 1..]);
    } else {
      NothingToJoin(parts[at..]);
    }
  }

  lemma NothingToJoin<V>(parts: seq<seq<V>>)
    requires parts == []
    ensures Concat(parts) == []
  {
  }

  /** The input-gradient scale of each parameter, taken whole. */
  function EachGrid<R, V>(f: Format, q: Quantizer<R, V>, params: seq<Param<R>>, n: nat): (parts: seq<seq<V>>)
    requires FormatOk(f) && n <= |params|
    ensures |parts| == n
  {
    if n == 0 then []
    else
      WholeInRange(params, n - 1);
      EachGrid(f, q, params, n - 1) + [GradGrid(f, q, params, WholePiece(params, n - 1))]
  }

  lemma {:induction false} GridsAreEach<R, V>(f: Format, q: Quantizer<R, V>, params: seq<Param<R>>, n: nat)
    requires FormatOk(f) && n <= |params|
    ensures WholeGrids(f, q, params, n) == Concat(EachGrid(f, q, params, n))
  {
    hide GradGrid;
    if n > 0 {
      GridsAreEach(f, q, params, n - 1);
      assert EachGrid(f, q, params, n)[..n - 1] == EachGrid(f, q, params, n - 1);
    }
  }

  // ----- Sizes of the whole parameters

  function WholeDataLens<R>(params: seq<Param<R>>): (lens: seq<nat>)
    ensures |lens| == |params|
    ensures forall p :: 0 <= p < |params| ==>
              InRange(params, [WholePiece(params, p)]) && lens[p] == DataLen(params, WholePiece(params, p))
  {
    assert forall p :: 0 <= p < |params| ==> InRange(params, [WholePiece(params, p)]) by {
      forall p | 0 <= p < |params| ensures InRange(params, [WholePiece(params, p)]) {
        WholeInRange(params, p);
      }
    }
    seq(|params|, p requires 0 <= p < |params| && InRange(params, [WholePiece(params, p)]) =>
        DataLen(params, WholePiece(params, p)))
  }

  function WholeScaleLens<R>(f: Format, params: seq<Param<R>>): (lens: seq<nat>)
    requires FormatOk(f)
    ensures |lens| == |params|
    ensures forall p :: 0 <= p < |params| ==>
              InRange(params, [WholePiece(params, p)]) && lens[p] == ScaleLen(f, params, WholePiece(params, p))
  {
    assert forall p :: 0 <= p < |params| ==> InRange(params, [WholePiece(params, p)]) by {
      forall p | 0 <= p < |params| ensures InRange(params, [WholePiece(params, p)]) {
        WholeInRange(params, p);
      }
    }
    seq(|params|, p requires 0 <= p < |params| && InRange(params, [WholePiece(params, p)]) =>
        ScaleLen(f, params, WholePiece(params, p)))
  }

  function WholeGradLens<R>(f: Format, params: seq<Param<R>>): (lens: seq<nat>)
    requires FormatOk(f)
    ensures |lens| == |params|
    ensures forall p :: 0 <= p < |params| ==>
              InRange(params, [WholePiece(params, p)]) && lens[p] == GradLen(f, params, WholePiece(params, p))
  {
    assert forall p :: 0 <= p < |params| ==> InRange(params, [WholePiece(params, p)]) by {
      forall p | 0 <= p < |params| ensures InRange(params, [WholePiece(params, p)]) {
        WholeInRange(params, p);
      }
    }
    seq(|params|, p requires 0 <= p < |params| && InRange(params, [WholePiece(params, p)]) =>
        GradLen(f, params, WholePiece(params, p)))
  }

  lemma WholeLens<R(!new), V(!new)>(f: Format, q: Quantizer<R, V>, params: seq<Param<R>>)
    requires FormatOk(f) && QuantizerOk(f, q)
    ensures WholeDataLens(params) == Lengths(Each(params, f.block, DataOf(q, params)))
    ensures WholeScaleLens(f, params) == Lengths(Each(params, f.block, ScaleOf(f, q, params)))
    ensures WholeGradLens(f, params) == Lengths(EachGrid(f, q, params, |params|))
  {
    hide Blockwise, GradGrid, DataLen, ScaleLen, GradLen, DataOf, ScaleOf, For;
    forall p | 0 <= p < |params|
      ensures WholeDataLens(params)[p] == |Each(params, f.block, DataOf(q, params))[p]|
      ensures WholeScaleLens(f, params)[p] == |Each(params, f.block, ScaleOf(f, q, params))[p]|
    {
      WholeInRange(params, p);
      PieceLens(f, q, params, WholePiece(params, p));
      assert params[p].rows[0..|params[p].rows|] == params[p].rows;
    }
    GridLens(f, q, params, |params|);
  }

  lemma {:induction false} GridLens<R(!new), V(!new)>(f: Format, q: Quantizer<R, V>, params: seq<Param<R>>, n: nat)
    requires FormatOk(f) && QuantizerOk(f, q) && n <= |params|
    ensures forall p :: 0 <= p < n ==> InRange(params, [WholePiece(params, p)])
                                       && |EachGrid(f, q, params, n)[p]| == GradLen(f, params, WholePiece(params, p))
  {
    hide GradGrid, GradLen;
    if n > 0 {
      GridLens(f, q, params, n - 1);
      WholeInRange(params, n - 1);
      GradGridLen(f, q, params, WholePiece(params, n - 1));
    }
  }

  // ----- The whole way

  function MaxPacked<R>(f: Format, params: seq<Param<R>>, ranks: seq<seq<Piece>>): (m: nat)
    requires FormatOk(f) && forall r :: 0 <= r < |ranks| ==> InRange(params, ranks[r])
    ensures forall r :: 0 <= r < |ranks| ==> PackedLen(f, params, ranks[r]) <= m
  {
    if ranks == [] then 0
    else
      var n := |ranks| - 1;
      var m := MaxPacked(f, params, ranks[..n]);
      assert forall r :: 0 <= r < n ==> PackedLen(f, params, ranks[..n][r]) <= m;
      if m < PackedLen(f, params, ranks[n]) then PackedLen(f, params, ranks[n]) else m
  }

  /** Unshards a bucket of `params` over `worldSize` ranks. Every parameter's data, scales and
      input-gradient scales are those of the whole matrix. */
  method Unshard<R(!new), V(!new)>(f: Format, q: Quantizer<R, V>, params: seq<Param<R>>, worldSize: nat, zero: V)
    returns (data: seq<seq<V>>, scale: seq<seq<V>>, grad: seq<seq<V>>)
    requires FormatOk(f) && QuantizerOk(f, q) && Shaped(params) && worldSize > 0
    ensures |data| == |scale| == |grad| == |params|
    ensures forall p :: 0 <= p < |params| ==> data[p] == Blockwise(For(DataOf(q, params), p), params[p].rows, f.block)
    ensures forall p :: 0 <= p < |params|
             ==> scale[p] == Blockwise(For(ScaleOf(f, q, params), p), params[p].rows, f.block)
    ensures grad == EachGrid(f, q, params, |params|)
  {
    hide Blockwise, For, DataOf, ScaleOf, RankRow, InRange, Covers, OfRest, PackedLen, Shaped, QuantizerOk,
         GradRegions, Slice, QuantGather.Fits, Lengths, DataLens, ScaleLens, GradLens;
    var ranks := PlanRanks(f, params, worldSize);
    var send := AlignUp(MaxPacked(f, params, ranks));
    var rows := Rows(f, q, params, ranks, send, zero);
    DataGathered(f, q, params, ranks, send, zero);
    ScalesGathered(f, q, params, ranks, send, zero);
    GradsGathered(f, q, params, ranks, send, zero, |params|);
    var gradRegions := BuildGradRegions(f, params, ranks);
    var scaleMerged := MergeAdjacent(rows, ScaleRegions(f, params, ranks, send));
    var gradMerged := MergeAdjacent(rows, gradRegions);
    JoinedSplits(f, q, params);
    data := Split(Gather(rows, DataRegions(f, params, ranks, send)), WholeDataLens(params));
    scale := Split(Gather(rows, scaleMerged), WholeScaleLens(f, params));
    grad := Split(Gather(rows, gradMerged), WholeGradLens(f, params));
  }

  method PlanRanks<R(!new)>(f: Format, params: seq<Param<R>>, worldSize: nat) returns (ranks: seq<seq<Piece>>)
    requires FormatOk(f) && Shaped(params) && worldSize > 0
    ensures |ranks| == worldSize && Covers(params, f.block, Concat(ranks))
    ensures forall r :: 0 <= r < |ranks| ==> InRange(params, ranks[r])
    ensures BestDivision(f, params, ranks, worldSize)
    ensures BlockRows(params, f.block, |params|) >= worldSize ==> forall r :: 0 <= r < |ranks| ==> ranks[r] != []
  {
    hide PieceBytes, Divides, Feasible, BestDivision, CutAt, Nonempty, BlockRows;
    var units := BuildUnits(params, f.block);
    ChainInRange(params, f.block, units, Pos(0, 0));
    UnitsInRange(params, units);
    var costs := seq(|units|, i requires 0 <= i < |units| && InRange(params, [units[i]]) =>
        PieceBytes(f, params, units[i]));
    var cuts, capacity := CutForRanks(costs, worldSize);
    CutsDivide(costs, cuts.value, worldSize);
    ranks := BuildChunks(params, f.block, units, cuts.value);
    ChainInRange(params, f.block, Concat(ranks), Pos(0, 0));
    RanksInRange(params, ranks);
    CutsAreBest(f, params, units, costs, cuts.value, ranks, worldSize, capacity);
    if |units| >= worldSize {
      NoneEmpty(f, params, units, costs, cuts.value, ranks);
    }
  }

  lemma UnitsInRange<R>(params: seq<Param<R>>, units: seq<Piece>)
    requires InRange(params, units)
    ensures forall i :: 0 <= i < |units| ==> InRange(params, [units[i]])
  {
  }

  lemma CutsDivide(costs: seq<nat>, cuts: seq<nat>, worldSize: nat)
    requires exists capacity :: Divides(costs, cuts, worldSize, capacity)
    ensures CutsOk(cuts, |costs|)
  {
  }

  lemma {:induction false} RanksInRange<R>(params: seq<Param<R>>, ranks: seq<seq<Piece>>)
    requires InRange(params, Concat(ranks))
    ensures forall r :: 0 <= r < |ranks| ==> InRange(params, ranks[r])
  {
    if ranks != [] {
      var n := |ranks| - 1;
      var before := Concat(ranks[..n]);
      assert Concat(ranks) == before + ranks[n];
      BothInRange(params, before, ranks[n]);
      RanksInRange(params, ranks[..n]);
    }
  }

  /** Joined parameters split into the parameters. */
  lemma JoinedSplits<R(!new), V(!new)>(f: Format, q: Quantizer<R, V>, params: seq<Param<R>>)
    requires FormatOk(f) && QuantizerOk(f, q) && Shaped(params)
    ensures |Wholes(params, f.block, DataOf(q, params))| == Sum(WholeDataLens(params))
    ensures Split(Wholes(params, f.block, DataOf(q, params)), WholeDataLens(params))
        == Each(params, f.block, DataOf(q, params))
    ensures |Wholes(params, f.block, ScaleOf(f, q, params))| == Sum(WholeScaleLens(f, params))
    ensures Split(Wholes(params, f.block, ScaleOf(f, q, params)), WholeScaleLens(f, params))
        == Each(params, f.block, ScaleOf(f, q, params))
    ensures |WholeGrids(f, q, params, |params|)| == Sum(WholeGradLens(f, params))
    ensures Split(WholeGrids(f, q, params, |params|), WholeGradLens(f, params)) == EachGrid(f, q, params, |params|)
  {
    hide OfRest, Blockwise, GradGrid, For, DataOf, ScaleOf, Split, Sum, Concat, WholeDataLens, WholeScaleLens,
         WholeGradLens, EachGrid, WholeGrids, Lengths;
    WholeLens(f, q, params);
    var data, scale := Each(params, f.block, DataOf(q, params)), Each(params, f.block, ScaleOf(f, q, params));
    RestIsEach(params, f.block, DataOf(q, params), 0);
    RestIsEach(params, f.block, ScaleOf(f, q, params), 0);
    GridsAreEach(f, q, params, |params|);
    assert data[0..] == data && scale[0..] == scale;
    SplitConcat(data, WholeDataLens(params));
    SplitConcat(scale, WholeScaleLens(f, params));
    SplitConcat(EachGrid(f, q, params, |params|), WholeGradLens(f, params));
  }
}
