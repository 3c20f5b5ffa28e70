/** Copies of segments, run as a grid of programs: how segments are split so that the grid stays
    within its limit, and what a launch copies. */
module SegmentCopy {
  import opened Arithmetic

  /** `numel` elements from `src` of a source to `dst` of the output. */
  datatype Seg = Seg(src: nat, numel: nat, dst: nat)

  datatype Result<+T> = Ok(value: T) | ValueError

  const MAX_GRID_SEGMENTS: nat := 65535

  /** The segment copies element `s` to place `d`. */
  predicate MovesOne(g: Seg, s: int, d: int) {
    g.dst <= d < g.dst + g.numel && s == g.src + (d - g.dst)
  }

  predicate Writes(g: Seg, d: int) {
    g.dst <= d < g.dst + g.numel
  }

  ghost predicate Written(segs: seq<Seg>, d: int) {
    exists i :: 0 <= i < |segs| && Writes(segs[i], d)
  }

  ghost predicate Moves(segs: seq<Seg>, s: int, d: int) {
    exists i :: 0 <= i < |segs| && MovesOne(segs[i], s, d)
  }

  /** No place is written by two segments. */
  predicate Apart(segs: seq<Seg>) {
    forall i, j :: 0 <= i < j < |segs| ==> DstApart(segs[i], segs[j])
  }

  predicate DstApart(g: Seg, h: Seg) {
    g.dst + g.numel <= h.dst || h.dst + h.numel <= g.dst || g.numel == 0 || h.numel == 0
  }

  // ----- Splitting

  function Chunks(segs: seq<Seg>, split: nat): nat
    requires split > 0
  {
    if segs == [] then 0 else Chunks(segs[..|segs| - 1], split) + CeilDiv(segs[|segs| - 1].numel, split)
  }

  lemma {:induction false} OneChunkEach(segs: seq<Seg>, split: nat)
    requires split > 0 && forall i :: 0 <= i < |segs| ==> segs[i].numel <= split
    ensures Chunks(segs, split) <= |segs|
  {
    if segs != [] {
      OneChunkEach(segs[..|segs| - 1], split);
      OneChunk(segs[|segs| - 1].numel, split);
    }
  }

  lemma OneChunk(numel: nat, split: nat)
    requires split > 0 && numel <= split
    ensures CeilDiv(numel, split) <= 1
  {
    var e := numel + split - 1;
    QuotientIs(e, if numel == 0 then 0 else 1, if numel == 0 then e else e - split, split);
  }

  function MaxNumel(segs: seq<Seg>): (m: nat)
    ensures forall i :: 0 <= i < |segs| ==> segs[i].numel <= m
  {
    if segs == [] then 0
    else
      var n := |segs| - 1;
      var m := MaxNumel(segs[..n]);
      if m < segs[n].numel then segs[n].numel else m
  }

  /** `split` is the first of `start`, `2 * start`, `4 * start`, ... that keeps the number of chunks
      within the limit. */
  ghost predicate FirstFit(segs: seq<Seg>, start: nat, split: nat)
    requires start > 0
  {
    split > 0 && Chunks(segs, split) <= MAX_GRID_SEGMENTS
    && (split == start || (split % 2 == 0 && split / 2 >= start && Chunks(segs, split / 2) > MAX_GRID_SEGMENTS))
  }

  /** Splits long segments, at multiples of a length that is doubled until the grid has room. It
      fails exactly if there are too many segments to begin with. */
  method SplitSegments(segs: seq<Seg>, blockSize: nat, maxChunks: nat) returns (r: Result<seq<Seg>>, ghost split: nat)
    requires blockSize > 0 && maxChunks > 0
    ensures r.ValueError? <==> |segs| > MAX_GRID_SEGMENTS
    ensures maxChunks * blockSize > 0
    ensures r.Ok? ==>
        FirstFit(segs, maxChunks * blockSize, split) && |r.value| == Chunks(segs, split) <= MAX_GRID_SEGMENTS
    ensures r.Ok? ==> forall i :: 0 <= i < |r.value| ==> 0 < r.value[i].numel <= split
    ensures r.Ok? ==> forall s, d :: Moves(r.value, s, d) <==> Moves(segs, s, d)
    ensures r.Ok? && Apart(segs) ==> Apart(r.value)
  {
    hide Moves, Apart, FirstFit, Chunks;
    Positive2(maxChunks, blockSize);
    if |segs| > MAX_GRID_SEGMENTS {
      return ValueError, maxChunks * blockSize;
    }
    var length := FindSplit(segs, maxChunks * blockSize);
    var cut := CutAt(segs, length);
    return Ok(cut), length;
  }

  /** Doubles the length until the grid has room for all chunks. */
  method FindSplit(segs: seq<Seg>, start: nat) returns (length: nat)
    requires start > 0 && |segs| <= MAX_GRID_SEGMENTS
    ensures FirstFit(segs, start, length) && length > 0 && Chunks(segs, length) <= MAX_GRID_SEGMENTS
  {
    hide Chunks, MaxNumel;
    length := start;
    while Chunks(segs, length) > MAX_GRID_SEGMENTS
      invariant length == start || (length % 2 == 0 && length / 2 >= start
          && Chunks(segs, length / 2) > MAX_GRID_SEGMENTS)
      invariant length > 0
      decreases MaxNumel(segs) - length
    {
      assert length < MaxNumel(segs) by {
        if length >= MaxNumel(segs) {
          OneChunkEach(segs, length);
        }
      }
      Doubled(length);
      length := 2 * length;
    }
  }

  lemma Doubled(n: nat)
    ensures 2 * n % 2 == 0 && 2 * n / 2 == n
  {
  }

  lemma Positive2(a: nat, b: nat)
    requires a > 0 && b > 0
    ensures a * b > 0
  {
  }

  ghost predicate SameMoves(a: seq<Seg>, b: seq<Seg>) {
    forall s, d :: Moves(a, s, d) <==> Moves(b, s, d)
  }

  /** Every piece writes only where some segment does. */
  ghost predicate From(pieces: seq<Seg>, segs: seq<Seg>) {
    forall k :: 0 <= k < |pieces| ==> OfSome(pieces[k], segs)
  }

  ghost predicate OfSome(p: Seg, segs: seq<Seg>) {
    exists i :: 0 <= i < |segs| && PieceOf(p, segs[i])
  }

  predicate PieceOf(p: Seg, g: Seg) {
    g.dst <= p.dst && p.dst + p.numel <= g.dst + g.numel && p.src - p.dst == g.src - g.dst && p.numel > 0
  }

  method CutAt(segs: seq<Seg>, split: nat) returns (out: seq<Seg>)
    requires split > 0
    ensures |out| == Chunks(segs, split) && forall i :: 0 <= i < |out| ==> 0 < out[i].numel <= split
    ensures forall s, d :: Moves(out, s, d) <==> Moves(segs, s, d)
    ensures Apart(segs) ==> Apart(out)
  {
    hide Moves, Apart, From;
    out := [];
    NothingMoves();
    for i := 0 to |segs|
      invariant |out| == Chunks(segs[..i], split) && forall k :: 0 <= k < |out| ==> 0 < out[k].numel <= split
      invariant SameMoves(out, segs[..i]) && From(out, segs[..i])
      invariant Apart(segs) ==> Apart(out)
    {
      var pieces := CutOne(segs[i], split);
      assert segs[..i + 1] == segs[..i] + [segs[i]];
      assert segs[..i + 1][..i] == segs[..i];
      MovesJoin(out, pieces, segs[..i], segs[i]);
      if Apart(segs) {
        ApartJoin(out, pieces, segs, i);
      }
      FromJoin(out, pieces, segs[..i], segs[i]);
      out := out + pieces;
    }
    assert segs[..|segs|] == segs;
  }

  lemma NothingMoves()
    ensures SameMoves([], []) && From([], []) && Apart([])
  {
  }

  ghost predicate CutOf(pieces: seq<Seg>, g: Seg, n: nat) {
    && (forall k :: 0 <= k < |pieces| ==> PieceOf(pieces[k], g) && pieces[k].dst + pieces[k].numel <= g.dst + n)
    && (forall j, k :: 0 <= j < k < |pieces| ==> pieces[j].dst + pieces[j].numel <= pieces[k].dst)
    && (forall d: int :: g.dst <= d < g.dst + n ==> Written(pieces, d))
  }

  /** Cuts one segment at multiples of the length. */
  method CutOne(g: Seg, split: nat) returns (pieces: seq<Seg>)
    requires split > 0
    ensures |pieces| == CeilDiv(g.numel, split) && forall k :: 0 <= k < |pieces| ==> 0 < pieces[k].numel <= split
    ensures CutOf(pieces, g, g.numel)
  {
    pieces := [];
    var start := 0;
    while start < g.numel
      invariant start == |pieces| * split && (start < g.numel || start < g.numel + split)
      invariant forall k :: 0 <= k < |pieces| ==> 0 < pieces[k].numel <= split
      invariant CutOf(pieces, g, if start < g.numel then start else g.numel)
      invariant |pieces| > 0 ==> (|pieces| - 1) * split < g.numel
      decreases g.numel - start
    {
      var piece := Seg(g.src + start, if split < g.numel - start then split else g.numel - start, g.dst + start);
      CutMore(pieces, g, start, piece);
      OneMore(|pieces|, split);
      pieces := pieces + [piece];
      start := start + split;
    }
    ChunkCount(g.numel, split, |pieces|);
  }

  lemma CutMore(pieces: seq<Seg>, g: Seg, n: nat, piece: Seg)
    requires CutOf(pieces, g, n) && n < g.numel && piece.dst == g.dst + n && PieceOf(piece, g)
    ensures CutOf(pieces + [piece], g, n + piece.numel)
  {
    var more := pieces + [piece];
    forall d: int | g.dst <= d < g.dst + n + piece.numel ensures Written(more, d) {
      if d < g.dst + n {
        assert Written(pieces, d);
        var k :| 0 <= k < |pieces| && Writes(pieces[k], d);
        assert Writes(more[k], d);
      } else {
        assert Writes(more[|pieces|], d);
      }
    }
  }

  lemma ChunkCount(numel: nat, split: nat, n: nat)
    requires split > 0 && numel <= n * split && (n > 0 ==> (n - 1) * split < numel)
    ensures CeilDiv(numel, split) == n
  {
    OneMore(n - 1, split);
    QuotientIs(numel + split - 1, n, numel + split - 1 - n * split, split);
  }

  lemma MovesJoin(out: seq<Seg>, pieces: seq<Seg>, segs: seq<Seg>, g: Seg)
    requires SameMoves(out, segs) && CutOf(pieces, g, g.numel)
    ensures SameMoves(out + pieces, segs + [g])
  {
    forall s, d ensures Moves(out + pieces, s, d) <==> Moves(segs + [g], s, d) {
      MovesSum(out, pieces, s, d);
      MovesSum(segs, [g], s, d);
      MovesCut(pieces, g, s, d);
      assert [g][0] == g;
      assert Moves(out, s, d) <==> Moves(segs, s, d);
    }
  }

  lemma MovesSum(a: seq<Seg>, b: seq<Seg>, s: int, d: int)
    ensures Moves(a + b, s, d) <==> Moves(a, s, d) || Moves(b, s, d)
  {
    var c := a + b;
    if i :| 0 <= i < |a| && MovesOne(a[i], s, d) {
      assert c[i] == a[i];
    }
    if i :| 0 <= i < |b| && MovesOne(b[i], s, d) {
      assert c[|a| + i] == b[i];
    }
  }

  lemma MovesCut(pieces: seq<Seg>, g: Seg, s: int, d: int)
    requires CutOf(pieces, g, g.numel)
    ensures Moves(pieces, s, d) <==> Moves([g], s, d)
  {
    if MovesOne(g, s, d) {
      assert Written(pieces, d);
      var k :| 0 <= k < |pieces| && Writes(pieces[k], d);
      assert PieceOf(pieces[k], g);
      assert MovesOne(pieces[k], s, d);
      assert MovesOne([g][0], s, d);
    }
    if k :| 0 <= k < |pieces| && MovesOne(pieces[k], s, d) {
      assert PieceOf(pieces[k], g);
      assert MovesOne([g][0], s, d);
    }
  }

  lemma FromJoin(out: seq<Seg>, pieces: seq<Seg>, segs: seq<Seg>, g: Seg)
    requires From(out, segs) && CutOf(pieces, g, g.numel)
    ensures From(out + pieces, segs + [g])
  {
    var more := segs + [g];
    forall k | 0 <= k < |out + pieces| ensures OfSome((out + pieces)[k], more) {
      if k < |out| {
        assert OfSome(out[k], segs);
        var i :| 0 <= i < |segs| && PieceOf(out[k], segs[i]);
        assert PieceOf(out[k], more[i]);
      } else {
        assert PieceOf(pieces[k - |out|], more[|segs|]);
      }
    }
  }

  lemma ApartJoin(out: seq<Seg>, pieces: seq<Seg>, segs: seq<Seg>, n: nat)
    requires n < |segs| && Apart(segs) && Apart(out) && From(out, segs[..n]) && CutOf(pieces, segs[n], segs[n].numel)
    ensures Apart(out + pieces)
  {
    forall j, k | 0 <= j < |out| && 0 <= k < |pieces| ensures DstApart(out[j], pieces[k]) {
      assert OfSome(out[j], segs[..n]);
      var i :| 0 <= i < n && PieceOf(out[j], segs[..n][i]);
      assert DstApart(segs[i], segs[n]);
      assert PieceOf(pieces[k], segs[n]);
    }
  }

  // ----- Launches

  /** A segment of units, in elements. */
  function Expand(g: Seg, unit: nat): Seg {
    Seg(g.src * unit, g.numel * unit, g.dst * unit)
  }

  function ExpandAll(segs: seq<Seg>, unit: nat): (all: seq<Seg>)
    ensures |all| == |segs| && forall i :: 0 <= i < |segs| ==> all[i] == Expand(segs[i], unit)
  {
    seq(|segs|, i requires 0 <= i < |segs| => Expand(segs[i], unit))
  }

  predicate Within(g: Seg, source: nat, out: nat) {
    g.src + g.numel <= source && g.dst + g.numel <= out
  }

  /** What segments make of an output: places that they write get their elements, others stay. */
  ghost predicate Copied<V>(source: seq<V>, before: seq<V>, segs: seq<Seg>, after: seq<V>) {
    && |after| == |before|
    && (forall s, d | Moves(segs, s, d) && 0 <= d < |after| && 0 <= s < |source| :: after[d] == source[s])
    && (forall d | 0 <= d < |after| && (forall s :: !Moves(segs, s, d)) :: after[d] == before[d])
  }

  lemma NoneCopied<V>(source: seq<V>, before: seq<V>)
    ensures Copied(source, before, [], before)
  {
  }

  /** One more segment, when it overlaps none of those before. */
  lemma CopiedMore<V>(source: seq<V>, before: seq<V>, segs: seq<Seg>, middle: seq<V>, g: Seg, after: seq<V>)
    requires Copied(source, before, segs, middle) && |after| == |middle| && Within(g, |source|, |middle|)
    requires forall i :: 0 <= i < |segs| ==> DstApart(segs[i], g)
    requires forall d :: 0 <= d < |after| ==> after[d] == if g.dst <= d < g.dst + g.numel then
        source[g.src + (d - g.dst)] else middle[d]
    ensures Copied(source, before, segs + [g], after)
  {
    forall s, d | Moves(segs + [g], s, d) && 0 <= d < |after| && 0 <= s < |source| ensures after[d] == source[s] {
      MovesSum(segs, [g], s, d);
      if Moves(segs, s, d) {
        var i :| 0 <= i < |segs| && MovesOne(segs[i], s, d);
        assert DstApart(segs[i], g);
      }
    }
    forall d | 0 <= d < |after| && forall s :: !Moves(segs + [g], s, d) ensures after[d] == before[d] {
      forall s ensures !Moves(segs, s, d) && !Moves([g], s, d) {
        MovesSum(segs, [g], s, d);
      }
      if g.dst <= d < g.dst + g.numel {
        assert MovesOne([g][0], g.src + (d - g.dst), d);
        assert Moves([g], g.src + (d - g.dst), d);
      }
    }
  }

  /** A launch: each segment is copied by its own programs, one per chunk of `blockSize` units, and
      a grid of as many chunks as the longest segment needs. */
  method CopySegments<V>(source: seq<V>, out: array<V>, segs: seq<Seg>, unit: nat, blockSize: nat)
    requires unit > 0 && blockSize > 0 && Apart(ExpandAll(segs, unit))
    requires forall i :: 0 <= i < |segs| ==> Within(Expand(segs[i], unit), |source|, out.Length)
    modifies out
    ensures Copied(source, old(out[..]), ExpandAll(segs, unit), out[..])
  {
    hide Copied, Expand;
    NoneCopied(source, out[..]);
    var grid := CeilDiv(MaxNumel(segs), blockSize);
    for i := 0 to |segs|
      invariant Copied(source, old(out[..]), ExpandAll(segs, unit)[..i], out[..])
    {
      ghost var middle := out[..];
      ghost var all := ExpandAll(segs, unit);
      GridCovers(segs, i, blockSize);
      CopySegment(source, out, segs[i], unit, blockSize, grid);
      assert all[..i + 1] == all[..i] + [all[i]];
      CopiedMore(source, old(out[..]), all[..i], middle, all[i], out[..]);
    }
    assert ExpandAll(segs, unit)[..|segs|] == ExpandAll(segs, unit);
  }

  lemma GridCovers(segs: seq<Seg>, i: nat, blockSize: nat)
    requires i < |segs| && blockSize > 0
    ensures segs[i].numel <= CeilDiv(MaxNumel(segs), blockSize) * blockSize
  {
    CeilDivCovers(MaxNumel(segs), blockSize);
  }

  /** The programs of one segment. Those past its end are masked. */
  method CopySegment<V>(source: seq<V>, out: array<V>, g: Seg, unit: nat, blockSize: nat, grid: nat)
    requires unit > 0 && blockSize > 0 && g.numel <= grid * blockSize && Within(Expand(g, unit), |source|, out.Length)
    modifies out
    ensures forall d :: 0 <= d < out.Length ==>
              out[d] == if Expand(g, unit).dst <= d < Expand(g, unit).dst + Expand(g, unit).numel
                        then source[Expand(g, unit).src + (d - Expand(g, unit).dst)] else old(out[d])
  {
    ghost var e := Expand(g, unit);
    var done := 0;
    for chunk := 0 to grid
      invariant done == (if chunk * blockSize < g.numel then chunk * blockSize else g.numel)
      invariant 0 <= done * unit <= e.numel
      invariant forall d :: 0 <= d < out.Length ==>
                  out[d] == if e.dst <= d < e.dst + done * unit then source[e.src + (d - e.dst)] else old(out[d])
    {
      OneMore(chunk, blockSize);
      var next := if done + blockSize < g.numel then done + blockSize else g.numel;
      Spread(done, next, g, unit);
      forall d | (g.dst + done) * unit <= d < (g.dst + next) * unit {
        out[d] := source[(g.src + done) * unit + (d - (g.dst + done) * unit)];
      }
      done := next;
    }
  }

  lemma Spread(done: nat, next: nat, g: Seg, unit: nat)
    requires done <= next <= g.numel
    ensures (g.dst + done) * unit == Expand(g, unit).dst + done * unit
    ensures (g.dst + next) * unit == Expand(g, unit).dst + next * unit
    ensures (g.src + done) * unit == Expand(g, unit).src + done * unit
    ensures 0 <= done * unit <= next * unit <= Expand(g, unit).numel
  {
    NonNegative(next - done, unit);
    NonNegative(g.numel - next, unit);
    assert next * unit == done * unit + (next - done) * unit;
    assert g.numel * unit == next * unit + (g.numel - next) * unit;
  }
}
