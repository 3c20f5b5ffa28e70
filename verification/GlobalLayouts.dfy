/** Where the chunks of a local tensor sit in a global one, and what composing two such layouts
    means. */
module GlobalLayouts {
  import opened Regions

  /** A box of the local tensor at `localAt`, which is the box of the same size at `globalAt`. */
  datatype Chunk = Chunk(globalAt: Index, localAt: Index, size: Index)

  datatype Layout = Layout(shape: seq<int>, chunks: seq<Chunk>)

  predicate ChunkOk(c: Chunk, n: nat) {
    |c.globalAt| == |c.localAt| == |c.size| == n
  }

  predicate LayoutOk(l: Layout, n: nat) {
    forall k :: 0 <= k < |l.chunks| ==> ChunkOk(l.chunks[k], n)
  }

  predicate MapsAt(c: Chunk, l: Index, g: Index, d: nat)
    requires d < |c.globalAt| && d < |c.localAt| && d < |c.size| && d < |l| && d < |g|
  {
    c.localAt[d] <= l[d] < c.localAt[d] + c.size[d] && g[d] - c.globalAt[d] == l[d] - c.localAt[d]
  }

  /** The chunk puts local index `l` at global index `g`. */
  predicate MapsOne(c: Chunk, l: Index, g: Index) {
    && ChunkOk(c, |l|) && |g| == |l|
    && forall d: nat :: d < |l| ==> MapsAt(c, l, g, d)
  }

  ghost predicate Maps(chunks: seq<Chunk>, l: Index, g: Index) {
    exists k :: 0 <= k < |chunks| && MapsOne(chunks[k], l, g)
  }

  /** No two of the chunks share a local index. */
  ghost predicate LocalsApart(chunks: seq<Chunk>) {
    forall i: nat, j: nat, l: Index, g: Index, h: Index ::
      i < |chunks| && j < |chunks| && MapsOne(chunks[i], l, g) && MapsOne(chunks[j], l, h) ==> i == j
  }

  /** No two of the chunks share a global index. */
  ghost predicate GlobalsApart(chunks: seq<Chunk>) {
    forall i: nat, j: nat, l: Index, m: Index, g: Index ::
      i < |chunks| && j < |chunks| && MapsOne(chunks[i], l, g) && MapsOne(chunks[j], m, g) ==> i == j
  }

  // ----- Composition

  /** The overlap, in the tensor between, of a chunk of the inner layout and one of the outer. */
  function Composed(o: Chunk, i: Chunk, n: nat): (c: Chunk)
    requires ChunkOk(o, n) && ChunkOk(i, n)
    ensures ChunkOk(c, n)
  {
    var start := seq(n, d requires 0 <= d < n => Max(i.globalAt[d], o.localAt[d]));
    var end := seq(n, d requires 0 <= d < n => Min(i.globalAt[d] + i.size[d], o.localAt[d] + o.size[d]));
    Chunk(seq(n, d requires 0 <= d < n => o.globalAt[d] + start[d] - o.localAt[d]),
          seq(n, d requires 0 <= d < n => i.localAt[d] + start[d] - i.globalAt[d]),
          seq(n, d requires 0 <= d < n => end[d] - start[d]))
  }

  predicate NonEmpty(c: Chunk) {
    forall d :: 0 <= d < |c.size| ==> c.size[d] > 0
  }

  /** Where the inner chunk puts a local index. */
  function Between(i: Chunk, l: Index): (t: Index)
    requires ChunkOk(i, |l|)
    ensures |t| == |l| && forall d :: 0 <= d < |l| ==> t[d] == i.globalAt[d] + l[d] - i.localAt[d]
  {
    seq(|l|, d requires 0 <= d < |l| => i.globalAt[d] + l[d] - i.localAt[d])
  }

  lemma BetweenOnly(i: Chunk, l: Index, t: Index)
    requires MapsOne(i, l, t)
    ensures t == Between(i, l)
  {
    forall d: nat | d < |l| ensures t[d] == Between(i, l)[d] {
      assert MapsAt(i, l, t, d);
    }
  }

  /** The overlap puts a local index where the two chunks put it, one after the other. */
  lemma ComposedMaps(o: Chunk, i: Chunk, n: nat, l: Index, g: Index)
    requires ChunkOk(o, n) && ChunkOk(i, n) && |l| == n
    ensures MapsOne(Composed(o, i, n), l, g) <==> MapsOne(i, l, Between(i, l)) && MapsOne(o, Between(i, l), g)
  {
    var c, t := Composed(o, i, n), Between(i, l);
    if |g| == n {
      forall d: nat | d < n ensures MapsAt(c, l, g, d) <==> MapsAt(i, l, t, d) && MapsAt(o, t, g, d) {
      }
      if MapsOne(c, l, g) {
        assert forall d: nat :: d < n ==> MapsAt(c, l, g, d);
      }
      if MapsOne(i, l, t) && MapsOne(o, t, g) {
        assert forall d: nat :: d < n ==> MapsAt(i, l, t, d) && MapsAt(o, t, g, d);
      }
    }
  }

  /** Nothing maps through an empty overlap. */
  lemma EmptyMaps(c: Chunk, l: Index, g: Index)
    requires MapsOne(c, l, g)
    ensures NonEmpty(c)
  {
    forall d: nat | d < |c.size| ensures c.size[d] > 0 {
      assert MapsAt(c, l, g, d);
    }
  }

  /** The chunks of the pairs up to one. */
  ghost predicate ThroughPairs(outer: seq<Chunk>, inner: seq<Chunk>, l: Index, g: Index, a: nat, b: nat) {
    exists j, k | 0 <= j < |outer| && 0 <= k < |inner| :: (j < a || (j == a && k < b))
        && Through(outer[j], inner[k], l, g)
  }

  predicate Through(o: Chunk, i: Chunk, l: Index, g: Index) {
    ChunkOk(i, |l|) && MapsOne(i, l, Between(i, l)) && MapsOne(o, Between(i, l), g)
  }

  /** Each chunk is the overlap of a pair, and no two of the same pair. */
  ghost predicate OfPairs(chunks: seq<Chunk>, pairs: seq<(nat, nat)>, outer: seq<Chunk>, inner: seq<Chunk>, n: nat) {
    && |pairs| == |chunks|
    && (forall x, y :: 0 <= x < y < |pairs| ==> pairs[x] != pairs[y])
    && forall x :: 0 <= x < |pairs| ==> IsPair(chunks[x], pairs[x], outer, inner, n)
  }

  ghost predicate IsPair(c: Chunk, pair: (nat, nat), outer: seq<Chunk>, inner: seq<Chunk>, n: nat) {
    && pair.0 < |outer| && pair.1 < |inner| && ChunkOk(outer[pair.0], n) && ChunkOk(inner[pair.1], n)
    && c == Composed(outer[pair.0], inner[pair.1], n)
  }

  lemma PairMore(chunks: seq<Chunk>, pairs: seq<(nat, nat)>, outer: seq<Chunk>, inner: seq<Chunk>, n: nat,
                 c: Chunk, pair: (nat, nat))
    requires OfPairs(chunks, pairs, outer, inner, n) && IsPair(c, pair, outer, inner, n) && pair !in pairs
    ensures OfPairs(chunks + [c], pairs + [pair], outer, inner, n)
  {
    hide IsPair;
  }

  /** Where a chunk of a pair maps, the pair's chunks map one after the other. */
  lemma PairMaps(c: Chunk, pair: (nat, nat), outer: seq<Chunk>, inner: seq<Chunk>, n: nat, l: Index, g: Index)
      returns (t: Index)
    requires IsPair(c, pair, outer, inner, n) && MapsOne(c, l, g)
    ensures pair.0 < |outer| && pair.1 < |inner| && |l| == n && ChunkOk(inner[pair.1], n)
    ensures t == Between(inner[pair.1], l)
    ensures MapsOne(inner[pair.1], l, t) && MapsOne(outer[pair.0], t, g)
  {
    hide MapsOne;
    RankIs(c, l, g, n);
    ComposedMaps(outer[pair.0], inner[pair.1], n, l, g);
    t := Between(inner[pair.1], l);
  }

  lemma RankIs(c: Chunk, l: Index, g: Index, n: nat)
    requires MapsOne(c, l, g) && ChunkOk(c, n)
    ensures |l| == n
  {
  }

  /** A chunk takes each global index from one local index. */
  lemma OneLocal(c: Chunk, l: Index, m: Index, g: Index)
    requires MapsOne(c, l, g) && MapsOne(c, m, g)
    ensures l == m
  {
    forall d: nat | d < |l| ensures l[d] == m[d] {
      assert MapsAt(c, l, g, d) && MapsAt(c, m, g, d);
    }
  }

  /** The overlaps of chunks that share no index share none. */
  lemma PairsApart(chunks: seq<Chunk>, pairs: seq<(nat, nat)>, outer: seq<Chunk>, inner: seq<Chunk>, n: nat)
    requires OfPairs(chunks, pairs, outer, inner, n)
    ensures LocalsApart(outer) && LocalsApart(inner) ==> LocalsApart(chunks)
    ensures GlobalsApart(outer) && GlobalsApart(inner) ==> GlobalsApart(chunks)
  {
    hide MapsOne, IsPair, Between;
    if LocalsApart(outer) && LocalsApart(inner) {
      forall i: nat, j: nat, l: Index, g: Index, h: Index
        | i < |chunks| && j < |chunks| && MapsOne(chunks[i], l, g) && MapsOne(chunks[j], l, h)
        ensures i == j
      {
        var t := PairMaps(chunks[i], pairs[i], outer, inner, n, l, g);
        var u := PairMaps(chunks[j], pairs[j], outer, inner, n, l, h);
        SamePair(pairs, i, j);
      }
    }
    if GlobalsApart(outer) && GlobalsApart(inner) {
      forall i: nat, j: nat, l: Index, m: Index, g: Index
        | i < |chunks| && j < |chunks| && MapsOne(chunks[i], l, g) && MapsOne(chunks[j], m, g)
        ensures i == j
      {
        var t := PairMaps(chunks[i], pairs[i], outer, inner, n, l, g);
        var u := PairMaps(chunks[j], pairs[j], outer, inner, n, m, g);
        OneLocal(outer[pairs[i].0], t, u, g);
        SamePair(pairs, i, j);
      }
    }
  }

  lemma SamePair(pairs: seq<(nat, nat)>, i: nat, j: nat)
    requires i < |pairs| && j < |pairs| && forall x, y :: 0 <= x < y < |pairs| ==> pairs[x] != pairs[y]
    ensures pairs[i] == pairs[j] ==> i == j
  {
  }

  /** One chunk for each pair of chunks that overlap in the tensor between. */
  method ComposeLayouts(outer: Layout, inner: Layout, n: nat) returns (layout: Layout)
    requires LayoutOk(outer, n) && LayoutOk(inner, n)
    ensures LocalsApart(outer.chunks) && LocalsApart(inner.chunks) ==> LocalsApart(layout.chunks)
    ensures GlobalsApart(outer.chunks) && GlobalsApart(inner.chunks) ==> GlobalsApart(layout.chunks)
    ensures LayoutOk(layout, n) && layout.shape == outer.shape
    ensures forall k :: 0 <= k < |layout.chunks| ==> NonEmpty(layout.chunks[k])
    ensures forall l: Index, g: Index | |l| == n ::
              Maps(layout.chunks, l, g) <==> exists t: Index :: Maps(inner.chunks, l, t) && Maps(outer.chunks, t, g)
  {
    hide Composed, MapsOne, NonEmpty, ThroughPairs, Maps, OfPairs, LocalsApart, GlobalsApart;
    var chunks := [];
    ghost var pairs: seq<(nat, nat)> := [];
    NoPairs(outer.chunks, inner.chunks, n);
    NothingThrough(outer.chunks, inner.chunks);
    for j := 0 to |outer.chunks|
      invariant LayoutOk(Layout([], chunks), n) && forall k :: 0 <= k < |chunks| ==> NonEmpty(chunks[k])
      invariant OfPairs(chunks, pairs, outer.chunks, inner.chunks, n) && forall x :: 0 <= x < |pairs| ==> pairs[x].0 < j
      invariant forall l: Index, g: Index | |l| == n :: Maps(chunks, l, g)
                 <==> ThroughPairs(outer.chunks, inner.chunks, l, g, j, 0)
    {
      for k := 0 to |inner.chunks|
        invariant LayoutOk(Layout([], chunks), n) && forall x :: 0 <= x < |chunks| ==> NonEmpty(chunks[x])
        invariant OfPairs(chunks, pairs, outer.chunks, inner.chunks, n)
        invariant forall x :: 0 <= x < |pairs| ==> pairs[x].0 < j || (pairs[x].0 == j && pairs[x].1 < k)
        invariant forall l: Index, g: Index | |l| == n :: Maps(chunks, l, g)
                   <==> ThroughPairs(outer.chunks, inner.chunks, l, g, j, k)
      {
        var c := Composed(outer.chunks[j], inner.chunks[k], n);
        forall l: Index, g: Index | |l| == n
          ensures Maps(chunks + [c], l, g) <==> ThroughPairs(outer.chunks, inner.chunks, l, g, j, k + 1)
          ensures !NonEmpty(c) ==> (Maps(chunks, l, g) <==> ThroughPairs(outer.chunks, inner.chunks, l, g, j, k + 1))
        {
          MapsMore(chunks, c, l, g);
          NextPair(outer.chunks, inner.chunks, l, g, j, k);
          ComposedMaps(outer.chunks[j], inner.chunks[k], n, l, g);
          if MapsOne(c, l, g) {
            EmptyMaps(c, l, g);
          }
        }
        if NonEmpty(c) {
          PairMore(chunks, pairs, outer.chunks, inner.chunks, n, c, (j, k));
          chunks, pairs := chunks + [c], pairs + [(j, k)];
        }
      }
      forall l: Index, g: Index | |l| == n
        ensures ThroughPairs(outer.chunks, inner.chunks, l, g, j, |inner.chunks|)
            <==> ThroughPairs(outer.chunks, inner.chunks, l, g, j + 1, 0)
      {
        NextRow(outer.chunks, inner.chunks, l, g, j);
      }
    }
    forall l: Index, g: Index | |l| == n
      ensures ThroughPairs(outer.chunks, inner.chunks, l, g, |outer.chunks|, 0) <==>
              exists t: Index :: Maps(inner.chunks, l, t) && Maps(outer.chunks, t, g)
    {
      AllPairs(outer, inner, n, l, g);
    }
    PairsApart(chunks, pairs, outer.chunks, inner.chunks, n);
    layout := Layout(outer.shape, chunks);
  }

  lemma NoPairs(outer: seq<Chunk>, inner: seq<Chunk>, n: nat)
    ensures OfPairs([], [], outer, inner, n)
  {
  }

  lemma NothingThrough(outer: seq<Chunk>, inner: seq<Chunk>)
    ensures forall l: Index, g: Index :: !ThroughPairs(outer, inner, l, g, 0, 0) && !Maps([], l, g)
  {
  }

  lemma MapsMore(chunks: seq<Chunk>, c: Chunk, l: Index, g: Index)
    ensures Maps(chunks + [c], l, g) <==> Maps(chunks, l, g) || MapsOne(c, l, g)
  {
    var more := chunks + [c];
    if k :| 0 <= k < |chunks| && MapsOne(chunks[k], l, g) {
      assert more[k] == chunks[k];
    }
    if MapsOne(c, l, g) {
      assert more[|chunks|] == c;
    }
  }

  lemma NextPair(outer: seq<Chunk>, inner: seq<Chunk>, l: Index, g: Index, a: nat, b: nat)
    requires a < |outer| && b < |inner|
    ensures ThroughPairs(outer, inner, l, g, a, b + 1) <==>
        ThroughPairs(outer, inner, l, g, a, b) || Through(outer[a], inner[b], l, g)
  {
    hide Through;
    if ThroughPairs(outer, inner, l, g, a, b + 1) {
      var j, k :| 0 <= j < |outer| && 0 <= k < |inner| && (j < a || (j == a && k < b + 1))
          && Through(outer[j], inner[k], l, g);
    }
  }

  lemma NextRow(outer: seq<Chunk>, inner: seq<Chunk>, l: Index, g: Index, a: nat)
    requires a < |outer|
    ensures ThroughPairs(outer, inner, l, g, a, |inner|) <==> ThroughPairs(outer, inner, l, g, a + 1, 0)
  {
    hide Through;
    if ThroughPairs(outer, inner, l, g, a + 1, 0) {
      var j, k :| 0 <= j < |outer| && 0 <= k < |inner| && (j < a + 1 || (j == a + 1 && k < 0))
          && Through(outer[j], inner[k], l, g);
    }
    if ThroughPairs(outer, inner, l, g, a, |inner|) {
      var j, k :| 0 <= j < |outer| && 0 <= k < |inner| && (j < a || (j == a && k < |inner|))
          && Through(outer[j], inner[k], l, g);
    }
  }

  lemma AllPairs(outer: Layout, inner: Layout, n: nat, l: Index, g: Index)
    requires LayoutOk(outer, n) && LayoutOk(inner, n) && |l| == n
    ensures ThroughPairs(outer.chunks, inner.chunks, l, g, |outer.chunks|, 0) <==>
            exists t: Index :: Maps(inner.chunks, l, t) && Maps(outer.chunks, t, g)
  {
    hide MapsOne;
    if ThroughPairs(outer.chunks, inner.chunks, l, g, |outer.chunks|, 0) {
      var j, k :| 0 <= j < |outer.chunks| && 0 <= k < |inner.chunks| && Through(outer.chunks[j], inner.chunks[k], l, g);
      assert Maps(inner.chunks, l, Between(inner.chunks[k], l)) && Maps(outer.chunks, Between(inner.chunks[k], l), g);
    }
    if t: Index :| Maps(inner.chunks, l, t) && Maps(outer.chunks, t, g) {
      var k :| 0 <= k < |inner.chunks| && MapsOne(inner.chunks[k], l, t);
      var j :| 0 <= j < |outer.chunks| && MapsOne(outer.chunks[j], t, g);
      BetweenOnly(inner.chunks[k], l, t);
      assert Through(outer.chunks[j], inner.chunks[k], l, g);
    }
  }

  /** Every global index comes from at most one local one. */
  ghost predicate OneToOne(chunks: seq<Chunk>, n: nat) {
    forall l: Index, m: Index, g: Index | |l| == |m| == n && Maps(chunks, l, g) && Maps(chunks, m, g) :: l == m
  }

  /** Composing layouts in which a global index has one local index at most gives such a layout. */
  lemma OneToOneComposes(outer: Layout, inner: Layout, layout: Layout, n: nat)
    requires LayoutOk(outer, n) && LayoutOk(inner, n) && OneToOne(outer.chunks, n) && OneToOne(inner.chunks, n)
    requires forall l: Index, g: Index | |l| == n ::
               Maps(layout.chunks, l, g) <==> exists t: Index :: Maps(inner.chunks, l, t) && Maps(outer.chunks, t, g)
    ensures OneToOne(layout.chunks, n)
  {
    forall l: Index, m: Index, g: Index | |l| == |m| == n && Maps(layout.chunks, l, g) && Maps(layout.chunks, m, g)
        ensures l == m {
      var t: Index :| Maps(inner.chunks, l, t) && Maps(outer.chunks, t, g);
      var u: Index :| Maps(inner.chunks, m, u) && Maps(outer.chunks, u, g);
      SameRank(inner.chunks, l, t);
      SameRank(inner.chunks, m, u);
      assert t == u;
    }
  }

  lemma SameRank(chunks: seq<Chunk>, l: Index, g: Index)
    requires Maps(chunks, l, g)
    ensures |g| == |l|
  {
  }

  // ----- Tiling

  /** The global index is at one local index of one rank, and at no other. */
  ghost predicate AtOnly(layouts: seq<Layout>, g: Index, rank: nat, l: Index) {
    && rank < |layouts| && Maps(layouts[rank].chunks, l, g)
    && forall r: nat, t: Index :: r < |layouts| && Maps(layouts[r].chunks, t, g) ==> r == rank && t == l
  }

  /** The ranks' layouts hold every index of the tensor once. */
  ghost predicate TileOnce(layouts: seq<Layout>, shape: seq<int>) {
    forall g: Index | Inside(Zeros(|shape|), shape, g) :: exists rank: nat, l: Index :: AtOnly(layouts, g, rank, l)
  }

  /** A tensor split by one placement, every part of which another placement splits, is tiled once
      by all the ranks of both. */
  lemma ComposedTile(outer: seq<Layout>, locals: seq<seq<int>>, inner: seq<seq<Layout>>,
                     composed: seq<seq<Layout>>, shape: seq<int>, g: Index)
    returns (q: nat, r: nat, l: Index)
    requires |outer| == |locals| == |inner| == |composed| && TileOnce(outer, shape) && Inside(Zeros(|shape|), shape, g)
    requires forall q: nat | q < |outer| :: |composed[q]| == |inner[q]| && TileOnce(inner[q], locals[q])
    requires forall q: nat, t: Index, u: Index | q < |outer| && Maps(outer[q].chunks, t, u) ::
        Inside(Zeros(|locals[q]|), locals[q], t)
    requires forall q: nat, r: nat, l: Index, g: Index | q < |outer| && r < |inner[q]| ::
               Maps(composed[q][r].chunks, l, g) <==>
               exists t: Index :: Maps(inner[q][r].chunks, l, t) && Maps(outer[q].chunks, t, g)
    ensures q < |outer| && r < |inner[q]| && Maps(composed[q][r].chunks, l, g)
    ensures forall q1: nat, r1: nat, l1: Index ::
              q1 < |outer| && r1 < |inner[q1]| && Maps(composed[q1][r1].chunks, l1, g) ==> q1 == q && r1 == r && l1 == l
  {
    hide Maps, Inside;
    var q0: nat, t: Index :| AtOnly(outer, g, q0, t);
    var r0: nat, l0: Index :| AtOnly(inner[q0], t, r0, l0);
    q, r, l := q0, r0, l0;
    forall q1: nat, r1: nat, l1: Index | q1 < |outer| && r1 < |inner[q1]| && Maps(composed[q1][r1].chunks, l1, g)
      ensures q1 == q && r1 == r && l1 == l
    {
      var u: Index :| Maps(inner[q1][r1].chunks, l1, u) && Maps(outer[q1].chunks, u, g);
    }
  }
}
