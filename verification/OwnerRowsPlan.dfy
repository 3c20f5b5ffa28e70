/** The owner-rows transport plan: rows of uneven length, laid back to back, are cut into
    equal chunks, one per rank, and every slice of a row that lies in another rank's chunk
    gets its hops: straight to a holder on the same host, or over a relay on each side of
    a host pair. */
module OwnerRowsPlan {
  import opened Basics
  import opened Arithmetic

  /** Up to a multiple of 128 elements, 256 bytes in BF16. */
  function AlignUp(numel: nat): nat {
    (numel + 127) / 128 * 128
  }

  lemma AlignUpCovers(numel: nat)
    ensures numel <= AlignUp(numel) < numel + 128
  {
  }

  /** The least multiple of 128 that is no less. */
  lemma AlignUpLeast(numel: nat, multiple: nat)
    ensures AlignUp(numel) % 128 == 0
    ensures multiple % 128 == 0 && numel <= multiple ==> AlignUp(numel) <= multiple
  {
    var q, k := (numel + 127) / 128, multiple / 128;
    assert q * 128 <= numel + 127 < q * 128 + 128;
    assert multiple == k * 128 + multiple % 128;
    QuotientIs(q * 128, q, 0, 128);
  }

  /** The least multiple of 128 that `n` times is no less than `total`. */
  predicate IsPart(part: nat, total: nat, n: nat) {
    && part % 128 == 0 && total <= n * part
    && forall other: nat :: other % 128 == 0 && total <= n * other ==> part <= other
  }

  lemma PartIs(total: nat, n: nat)
    requires n > 0
    ensures IsPart(AlignUp(CeilDiv(total, n)), total, n)
  {
    hide AlignUp, CeilDiv;
    var least := CeilDiv(total, n);
    CeilDivCovers(total, n);
    AlignUpCovers(least);
    AlignUpLeast(least, 0);
    MulMonotone(least, AlignUp(least), n);
    forall other: nat | other % 128 == 0 && total <= n * other ensures AlignUp(least) <= other {
      CeilDivLeast(total, n, other);
      AlignUpLeast(least, other);
    }
  }

  lemma CeilDivLeast(total: nat, n: nat, other: nat)
    requires n > 0 && total <= n * other
    ensures CeilDiv(total, n) <= other
  {
    CeilDivCovers(total, n);
    if CeilDiv(total, n) > other {
      MulMonotone(other + 1, CeilDiv(total, n), n);
    }
  }

  /** `numel` elements from position `start` on, from rank `src` to rank `dst`. */
  datatype Move = Move(src: nat, dst: nat, start: nat, numel: nat)

  datatype Plan = Plan(
    chunk: nat,
    gathered: nat,
    ownerMoves: seq<Move>,
    hostMoves: seq<Move>,
    relayMoves: seq<Move>,
    relayOffsets: map<(nat, nat), nat>,
    bufferNumel: nat)

  datatype Result<+T> = Ok(value: T) | HostsMismatch | NoRanks

  predicate InChunk(chunk: nat, rank: nat, p: nat) {
    rank * chunk <= p < (rank + 1) * chunk
  }

  /** Where row `o` starts in the gathered buffer; `RowStart(rows, |rows|)` is the total. */
  function RowStart(rows: seq<nat>, o: nat): nat
    requires o <= |rows|
  {
    if o == 0 then 0 else RowStart(rows, o - 1) + rows[o - 1]
  }

  function Total(rows: seq<nat>): nat {
    RowStart(rows, |rows|)
  }

  lemma {:induction false} RowStartMonotone(rows: seq<nat>, o: nat, o': nat)
    requires o <= o' <= |rows|
    ensures RowStart(rows, o) <= RowStart(rows, o')
  {
    if o < o' {
      RowStartMonotone(rows, o, o' - 1);
    }
  }

  /** The ranks of a host, in order. */
  function Members(hosts: seq<nat>, host: nat): seq<nat> {
    if hosts == [] then []
    else
      var before := Members(hosts[..|hosts| - 1], host);
      if hosts[|hosts| - 1] == host then before + [|hosts| - 1] else before
  }

  lemma {:induction false} MembersAre(hosts: seq<nat>, host: nat)
    ensures forall j :: 0 <= j < |Members(hosts, host)| ==>
              Members(hosts, host)[j] < |hosts| && hosts[Members(hosts, host)[j]] == host
    ensures forall r :: 0 <= r < |hosts| && hosts[r] == host ==> r in Members(hosts, host)
    ensures forall i, j :: 0 <= i < j < |Members(hosts, host)| ==> Members(hosts, host)[i] < Members(hosts, host)[j]
  {
    if hosts != [] {
      MembersAre(hosts[..|hosts| - 1], host);
    }
  }

  // ----- What a plan does, by position

  /** How a slice gets from its owner to the rank whose chunk holds it. */
  datatype Hops = Keep | Direct | Routed(relayOut: nat, relayIn: nat)

  datatype Slice = Slice(owner: nat, holder: nat, start: nat, numel: nat, hops: Hops)

  function OwnerMoveOf(s: Slice): Option<Move> {
    match s.hops
    case Keep => None
    case Direct => Some(Move(s.owner, s.holder, s.start, s.numel))
    case Routed(out, _) => if out == s.owner then None else Some(Move(s.owner, out, s.start, s.numel))
  }

  function HostMoveOf(s: Slice): Option<Move> {
    match s.hops
    case Routed(out, inn) => Some(Move(out, inn, s.start, s.numel))
    case _ => None
  }

  function RelayMoveOf(s: Slice): Option<Move> {
    match s.hops
    case Routed(_, inn) => if inn == s.holder then None else Some(Move(inn, s.holder, s.start, s.numel))
    case _ => None
  }

  /** A slice lies in one row and one chunk, and its hops stay inside hosts except from
      one relay to the other. */
  ghost predicate SliceOk(rows: seq<nat>, hosts: seq<nat>, chunk: nat, s: Slice) {
    && |hosts| == |rows| && s.owner < |rows| && s.holder < |rows| && s.numel > 0
    && RowStart(rows, s.owner) <= s.start && s.start + s.numel <= RowStart(rows, s.owner + 1)
    && s.holder * chunk <= s.start && s.start + s.numel <= (s.holder + 1) * chunk
    && match s.hops
       case Keep => s.owner == s.holder
       case Direct => s.owner != s.holder && hosts[s.owner] == hosts[s.holder]
       case Routed(out, inn) =>
         && hosts[s.owner] != hosts[s.holder]
         && out < |hosts| && hosts[out] == hosts[s.owner]
         && inn < |hosts| && hosts[inn] == hosts[s.holder]
  }

  /** Slices by position: each covers exactly the positions mapped to it. */
  ghost predicate Tiles(route: map<nat, Slice>) {
    forall p :: p in route ==>
      && route[p].start <= p < route[p].start + route[p].numel
      && forall q :: route[p].start <= q < route[p].start + route[p].numel ==> q in route && route[q] == route[p]
  }

  /** `moves` are exactly the moves that `of` gives the slices of `route`, each once. */
  ghost predicate MovesAre(moves: seq<Move>, route: map<nat, Slice>, of: Slice -> Option<Move>) {
    && (forall i :: 0 <= i < |moves| ==> moves[i].start in route && of(route[moves[i].start]) == Some(moves[i]))
    && (forall p :: p in route && of(route[p]).Some? ==> of(route[p]).value in moves)
    && (forall i, j :: 0 <= i < j < |moves| ==> moves[i].start != moves[j].start)
  }

  ghost predicate WholeSlices(route: map<nat, Slice>, moves: seq<Move>) {
    forall i :: 0 <= i < |moves| ==>
      moves[i].start in route && route[moves[i].start].start == moves[i].start
          && route[moves[i].start].numel == moves[i].numel
  }

  /** Relay slots of one rank lie behind its chunk, inside the buffer, and don't overlap. */
  ghost predicate SlotsOk(plan: Plan, route: map<nat, Slice>) {
    && (forall key :: key in plan.relayOffsets ==>
          && key.1 in route && route[key.1].start == key.1
          && plan.chunk <= plan.relayOffsets[key]
          && plan.relayOffsets[key] + route[key.1].numel <= plan.bufferNumel)
    && (forall key, key' | key in plan.relayOffsets && key' in plan.relayOffsets
                           && key.0 == key'.0 && key.1 != key'.1 ::
          || plan.relayOffsets[key] + route[key.1].numel <= plan.relayOffsets[key']
          || plan.relayOffsets[key'] + route[key'.1].numel <= plan.relayOffsets[key])
  }

  /** `rank` has a place for the slice that starts at `start`. */
  ghost predicate HasSlot(chunk: nat, offsets: map<(nat, nat), nat>, rank: nat, start: nat) {
    InChunk(chunk, rank, start) || (rank, start) in offsets
  }

  ghost predicate Received(chunk: nat, offsets: map<(nat, nat), nat>, moves: seq<Move>) {
    forall i :: 0 <= i < |moves| ==> HasSlot(chunk, offsets, moves[i].dst, moves[i].start)
  }

  ghost predicate Sendable(chunk: nat, offsets: map<(nat, nat), nat>, moves: seq<Move>) {
    forall i :: 0 <= i < |moves| ==> HasSlot(chunk, offsets, moves[i].src, moves[i].start)
  }

  /** `next` is the first multiple of 128 elements behind `at` that leaves room for `numel`. */
  predicate NextSlot(at: nat, numel: nat, next: nat) {
    at + numel <= next < at + numel + 128 && (next - at) % 128 == 0
  }

  /** Each rank's slots follow each other right behind its chunk, and the buffers end with the last
      slot of some rank. */
  ghost predicate SlotsTight(plan: Plan, route: map<nat, Slice>)
    requires SlotsOk(plan, route)
  {
    && (forall key :: key in plan.relayOffsets ==> plan.relayOffsets[key] == plan.chunk || HasBefore(plan, route, key))
    && (plan.bufferNumel == plan.chunk
        || exists key :: key in plan.relayOffsets
                         && NextSlot(plan.relayOffsets[key], route[key.1].numel, plan.bufferNumel))
  }

  ghost predicate HasBefore(plan: Plan, route: map<nat, Slice>, key: (nat, nat))
    requires SlotsOk(plan, route) && key in plan.relayOffsets
  {
    exists other :: other in plan.relayOffsets && other.0 == key.0
                    && NextSlot(plan.relayOffsets[other], route[other.1].numel, plan.relayOffsets[key])
  }

  /** Some of the moves takes the slice at `key.1` from rank `key.0` or to it. */
  ghost predicate NeededBy(moves: seq<Move>, atSrc: bool, atDst: bool, key: (nat, nat)) {
    exists m :: m in moves && m.start == key.1 && ((atSrc && m.src == key.0) || (atDst && m.dst == key.0))
  }

  /** Only slices that pass through a rank, and lie outside its chunk, have a slot there. */
  ghost predicate SlotsNeeded(plan: Plan) {
    forall key :: key in plan.relayOffsets ==>
      && !InChunk(plan.chunk, key.0, key.1)
      && (NeededBy(plan.ownerMoves, false, true, key) || NeededBy(plan.hostMoves, true, true, key)
          || NeededBy(plan.relayMoves, true, false, key))
  }

  ghost predicate Implements(plan: Plan, rows: seq<nat>, hosts: seq<nat>, route: map<nat, Slice>) {
    && |rows| > 0 && |hosts| == |rows|
    && plan.gathered == |rows| * plan.chunk
    && Total(rows) <= plan.gathered
    && plan.chunk <= plan.bufferNumel
    && (forall p: nat :: p in route <==> p < Total(rows))
    && Tiles(route)
    && (forall p :: p in route ==> SliceOk(rows, hosts, plan.chunk, route[p]))
    && MovesAre(plan.ownerMoves, route, OwnerMoveOf) && WholeSlices(route, plan.ownerMoves)
    && MovesAre(plan.hostMoves, route, HostMoveOf) && WholeSlices(route, plan.hostMoves)
    && MovesAre(plan.relayMoves, route, RelayMoveOf) && WholeSlices(route, plan.relayMoves)
    && SlotsOk(plan, route)
    && Received(plan.chunk, plan.relayOffsets, plan.ownerMoves)
    && Sendable(plan.chunk, plan.relayOffsets, plan.hostMoves)
        && Received(plan.chunk, plan.relayOffsets, plan.hostMoves)
    && Sendable(plan.chunk, plan.relayOffsets, plan.relayMoves)
  }

  // ----- Planning: cutting the rows

  ghost predicate PieceOk(rows: seq<nat>, chunk: nat, m: Move) {
    && m.src < |rows| && m.dst < |rows| && m.numel > 0
    && RowStart(rows, m.src) <= m.start && m.start + m.numel <= RowStart(rows, m.src + 1)
    && m.dst * chunk <= m.start && m.start + m.numel <= (m.dst + 1) * chunk
  }

  /** Pieces of rows in chunks, from owner to holder, that follow each other from
      position 0 to `bound`. */
  ghost predicate Pieces(rows: seq<nat>, chunk: nat, pieces: seq<Move>, bound: nat) {
    && (forall i :: 0 <= i < |pieces| ==> PieceOk(rows, chunk, pieces[i]))
    && (forall i :: 0 <= i < |pieces| - 1 ==> pieces[i].start + pieces[i].numel == pieces[i + 1].start)
    && if pieces == [] then bound == 0
       else pieces[0].start == 0 && bound == pieces[|pieces| - 1].start + pieces[|pieces| - 1].numel
  }

  predicate StaysOnHost(hosts: seq<nat>, m: Move) {
    m.src < |hosts| && m.dst < |hosts| && hosts[m.src] == hosts[m.dst]
  }

  predicate LeavesFor(hosts: seq<nat>, key: (nat, nat), m: Move) {
    m.src < |hosts| && m.dst < |hosts| && key == (hosts[m.src], hosts[m.dst]) && key.0 != key.1
  }

  /** The pieces for another rank of the same host, in order. */
  function DirectOf(hosts: seq<nat>, pieces: seq<Move>): seq<Move> {
    if pieces == [] then []
    else
      var m := pieces[|pieces| - 1];
      DirectOf(hosts, pieces[..|pieces| - 1]) + if StaysOnHost(hosts, m) && m.src != m.dst then [m] else []
  }

  /** The pieces from the first host of `key` for the second, in order. */
  function LeavingOf(hosts: seq<nat>, key: (nat, nat), pieces: seq<Move>): seq<Move> {
    if pieces == [] then []
    else
      var m := pieces[|pieces| - 1];
      LeavingOf(hosts, key, pieces[..|pieces| - 1]) + if LeavesFor(hosts, key, m) then [m] else []
  }

  ghost predicate LeavingListed(hosts: seq<nat>, pieces: seq<Move>, keys: seq<(nat, nat)>,
                                leaving: map<(nat, nat), seq<Move>>) {
    && (forall i, j :: 0 <= i < j < |keys| ==> keys[i] != keys[j])
    && (forall key :: key in keys <==> key in leaving)
    && (forall key :: key in leaving ==> leaving[key] == LeavingOf(hosts, key, pieces) && leaving[key] != [])
    && (forall key :: key !in leaving ==> LeavingOf(hosts, key, pieces) == [])
  }

  /** A position below `n` chunks lies in a chunk of a rank below `n`. */
  lemma HolderOf(p: nat, chunk: nat, n: nat)
    requires p < n * chunk
    ensures chunk > 0
    ensures 0 <= p / chunk < n && (p / chunk) * chunk <= p < (p / chunk + 1) * chunk
  {
    var q := p / chunk;
    assert p == chunk * q + p % chunk;
    if q >= n {
      assert q * chunk >= n * chunk by { MulMonotone(n, q, chunk); }
    }
  }

  lemma MulMonotone(a: nat, b: nat, c: nat)
    requires a <= b
    ensures a * c <= b * c
  {
  }

  /** The next piece of a row: up to the end of the row or of the chunk. */
  lemma NextPiece(rows: seq<nat>, chunk: nat, owner: nat, position: nat)
    requires owner < |rows| && Total(rows) <= |rows| * chunk
    requires RowStart(rows, owner) <= position < RowStart(rows, owner + 1)
    ensures chunk > 0 && 0 <= position / chunk < |rows|
    ensures position < (position / chunk + 1) * chunk
    ensures var end, top := RowStart(rows, owner + 1), (position / chunk + 1) * chunk;
            PieceOk(rows, chunk, Move(owner, position / chunk, position, (if end < top then end else top) - position))
  {
    RowStartMonotone(rows, owner + 1, |rows|);
    HolderOf(position, chunk, |rows|);
  }

  lemma PiecesGrow(rows: seq<nat>, chunk: nat, pieces: seq<Move>, m: Move)
    requires Pieces(rows, chunk, pieces, m.start) && PieceOk(rows, chunk, m)
    ensures Pieces(rows, chunk, pieces + [m], m.start + m.numel)
  {
  }

  lemma DirectGrows(hosts: seq<nat>, pieces: seq<Move>, m: Move)
    ensures DirectOf(hosts, pieces + [m]) ==
            DirectOf(hosts, pieces) + if StaysOnHost(hosts, m) && m.src != m.dst then [m] else []
  {
    assert (pieces + [m])[..|pieces + [m]| - 1] == pieces;
  }

  lemma LeavingGrows(hosts: seq<nat>, key: (nat, nat), pieces: seq<Move>, m: Move)
    ensures LeavingOf(hosts, key, pieces + [m]) == LeavingOf(hosts, key, pieces) + if LeavesFor(hosts, key, m) then [m]
        else []
  {
    assert (pieces + [m])[..|pieces + [m]| - 1] == pieces;
  }

  lemma ListedGrows(hosts: seq<nat>, pieces: seq<Move>, keys: seq<(nat, nat)>,
                    leaving: map<(nat, nat), seq<Move>>, m: Move,
                    keys': seq<(nat, nat)>, leaving': map<(nat, nat), seq<Move>>)
    requires LeavingListed(hosts, pieces, keys, leaving) && m.src < |hosts| && m.dst < |hosts|
    requires var key := (hosts[m.src], hosts[m.dst]);
             if key.0 == key.1 then keys' == keys && leaving' == leaving
             else if key in leaving then keys' == keys && leaving' == leaving[key := leaving[key] + [m]]
             else keys' == keys + [key] && leaving' == leaving[key := [m]]
    ensures LeavingListed(hosts, pieces + [m], keys', leaving')
  {
    forall key
      ensures LeavingOf(hosts, key, pieces + [m]) == LeavingOf(hosts, key, pieces) + if LeavesFor(hosts, key, m) then
          [m] else []
    {
      LeavingGrows(hosts, key, pieces, m);
    }
  }

  lemma NothingCut(rows: seq<nat>, hosts: seq<nat>, chunk: nat)
    ensures Pieces(rows, chunk, [], 0) && DirectOf(hosts, []) == [] && LeavingListed(hosts, [], [], map[])
  {
  }

  method CutRows(rows: seq<nat>, hosts: seq<nat>, chunk: nat)
    returns (ownerMoves: seq<Move>, keys: seq<(nat, nat)>, leaving: map<(nat, nat), seq<Move>>, ghost pieces: seq<Move>)
    requires |hosts| == |rows| > 0
    requires Total(rows) <= |rows| * chunk
    ensures Pieces(rows, chunk, pieces, Total(rows))
    ensures ownerMoves == DirectOf(hosts, pieces)
    ensures LeavingListed(hosts, pieces, keys, leaving)
  {
    hide Pieces, PieceOk, DirectOf, LeavingOf, LeavingListed;
    ownerMoves, keys, leaving, pieces := [], [], map[], [];
    NothingCut(rows, hosts, chunk);
    var rowStart := 0;
    for owner := 0 to |rows|
      invariant rowStart == RowStart(rows, owner)
      invariant Pieces(rows, chunk, pieces, rowStart)
      invariant ownerMoves == DirectOf(hosts, pieces)
      invariant LeavingListed(hosts, pieces, keys, leaving)
    {
      var position, end := rowStart, rowStart + rows[owner];
      while position < end
        invariant rowStart <= position <= end
        invariant Pieces(rows, chunk, pieces, position)
        invariant ownerMoves == DirectOf(hosts, pieces)
        invariant LeavingListed(hosts, pieces, keys, leaving)
      {
        NextPiece(rows, chunk, owner, position);
        var holder := position / chunk;
        var stop := if end < (holder + 1) * chunk then end else (holder + 1) * chunk;
        var move := Move(owner, holder, position, stop - position);
        PiecesGrow(rows, chunk, pieces, move);
        DirectGrows(hosts, pieces, move);
        ghost var keys0, leaving0 := keys, leaving;
        if holder != owner {
          if hosts[owner] == hosts[holder] {
            ownerMoves := ownerMoves + [move];
          } else {
            var key := (hosts[owner], hosts[holder]);
            if key !in leaving {
              keys := keys + [key];
              leaving := leaving[key := [move]];
            } else {
              leaving := leaving[key := leaving[key] + [move]];
            }
          }
        }
        ListedGrows(hosts, pieces, keys0, leaving0, move, keys, leaving);
        pieces := pieces + [move];
        position := stop;
      }
      rowStart := end;
    }
  }

  // ----- Planning: relaying what leaves a host

  function Sent(moves: seq<Move>): nat {
    if moves == [] then 0 else Sent(moves[..|moves| - 1]) + moves[|moves| - 1].numel
  }

  /** The slices of one piece that leaves its host after `sent` elements of its host pair:
      rail j carries the elements from `j * part` on. */
  function Split(m: Move, outs: seq<nat>, ins: seq<nat>, part: nat, sent: nat): seq<Slice>
    requires part > 0 && sent + m.numel <= |outs| * part && sent + m.numel <= |ins| * part
    decreases m.numel
  {
    if m.numel == 0 then []
    else
      RailOf(sent, part, |outs|);
      RailOf(sent, part, |ins|);
      var rail := sent / part;
      var room := (rail + 1) * part - sent;
      var take := if m.numel < room then m.numel else room;
      [Slice(m.src, m.dst, m.start, take, Routed(outs[rail], ins[rail]))]
      + Split(Move(m.src, m.dst, m.start + take, m.numel - take), outs, ins, part, sent + take)
  }

  lemma RailOf(sent: nat, part: nat, rails: nat)
    requires part > 0 && sent < rails * part
    ensures 0 <= sent / part < rails && (sent / part) * part <= sent < (sent / part + 1) * part
  {
    HolderOf(sent, part, rails);
  }

  /** The slices of all pieces of one host pair. */
  function SplitAll(moves: seq<Move>, outs: seq<nat>, ins: seq<nat>, part: nat): seq<Slice>
    requires part > 0 && Sent(moves) <= |outs| * part && Sent(moves) <= |ins| * part
  {
    if moves == [] then []
    else
      var before := moves[..|moves| - 1];
      SplitAll(before, outs, ins, part) + Split(moves[|moves| - 1], outs, ins, part, Sent(before))
  }

  function Min(a: nat, b: nat): nat {
    if a < b then a else b
  }

  /** How much of `total` one of `rails` rails carries at most. */
  function PartOf(total: nat, rails: nat): (part: nat)
    requires rails > 0
    ensures total <= rails * part
    ensures total > 0 ==> part > 0
  {
    PartIs(total, rails);
    AlignUp(CeilDiv(total, rails))
  }

  function Rails(hosts: seq<nat>, key: (nat, nat)): nat {
    Min(|Members(hosts, key.0)|, |Members(hosts, key.1)|)
  }

  /** Both hosts of the pieces of a pair have ranks. */
  lemma PairHasRails(hosts: seq<nat>, key: (nat, nat), m: Move)
    requires LeavesFor(hosts, key, m)
    ensures Rails(hosts, key) > 0
  {
    MembersAre(hosts, key.0);
    MembersAre(hosts, key.1);
  }

  /** The slices from one host for another. */
  function RoutedFor(hosts: seq<nat>, key: (nat, nat), moves: seq<Move>): seq<Slice>
  {
    var rails := Rails(hosts, key);
    if rails == 0 || Sent(moves) == 0 then []
    else
      var part := PartOf(Sent(moves), rails);
      SplitAll(moves, Members(hosts, key.0)[..rails], Members(hosts, key.1)[..rails], part)
  }

  function RoutedForAll(hosts: seq<nat>, keys: seq<(nat, nat)>, pieces: seq<Move>): seq<Slice> {
    if keys == [] then []
    else
      var key := keys[|keys| - 1];
      RoutedForAll(hosts, keys[..|keys| - 1], pieces) + RoutedFor(hosts, key, LeavingOf(hosts, key, pieces))
  }

  /** The moves that `of` gives the slices, in order. */
  function MovesOf(slices: seq<Slice>, of: Slice -> Option<Move>): seq<Move> {
    if slices == [] then []
    else
      var m := of(slices[|slices| - 1]);
      MovesOf(slices[..|slices| - 1], of) + if m.Some? then [m.value] else []
  }

  lemma {:induction false} MovesOfAppend(a: seq<Slice>, b: seq<Slice>, of: Slice -> Option<Move>)
    ensures MovesOf(a + b, of) == MovesOf(a, of) + MovesOf(b, of)
  {
    if b == [] {
      assert a + b == a;
    } else {
      assert (a + b)[..|a + b| - 1] == a + b[..|b| - 1];
      MovesOfAppend(a, b[..|b| - 1], of);
    }
  }

  lemma MovesOfOne(a: seq<Slice>, s: Slice, of: Slice -> Option<Move>)
    ensures MovesOf(a + [s], of) == MovesOf(a, of) + if of(s).Some? then [of(s).value] else []
  {
    assert (a + [s])[..|a + [s]| - 1] == a;
  }

  lemma {:induction false} SentMonotone(moves: seq<Move>, i: nat)
    requires i <= |moves|
    ensures Sent(moves[..i]) <= Sent(moves)
  {
    if i < |moves| {
      assert moves[..|moves| - 1][..i] == moves[..i];
      SentMonotone(moves[..|moves| - 1], i);
    } else {
      assert moves[..i] == moves;
    }
  }

  /** The three lists of moves of the same slices. */
  datatype Moves = Moves(owner: seq<Move>, host: seq<Move>, relay: seq<Move>)

  function AllMovesOf(slices: seq<Slice>): Moves {
    Moves(MovesOf(slices, OwnerMoveOf), MovesOf(slices, HostMoveOf), MovesOf(slices, RelayMoveOf))
  }

  lemma AllMovesOne(slices: seq<Slice>, s: Slice)
    requires s.hops.Routed?
    ensures AllMovesOf(slices + [s]) == Moves(
              AllMovesOf(slices).owner
              + (if s.hops.relayOut != s.owner then [Move(s.owner, s.hops.relayOut, s.start, s.numel)] else []),
              AllMovesOf(slices).host + [Move(s.hops.relayOut, s.hops.relayIn, s.start, s.numel)],
              AllMovesOf(slices).relay
              + (if s.hops.relayIn != s.holder then [Move(s.hops.relayIn, s.holder, s.start, s.numel)] else []))
  {
    MovesOfOne(slices, s, OwnerMoveOf);
    MovesOfOne(slices, s, HostMoveOf);
    MovesOfOne(slices, s, RelayMoveOf);
  }

  lemma AllMovesAppend(a: seq<Slice>, b: seq<Slice>)
    ensures AllMovesOf(a + b) == Moves(
              AllMovesOf(a).owner + AllMovesOf(b).owner,
              AllMovesOf(a).host + AllMovesOf(b).host,
              AllMovesOf(a).relay + AllMovesOf(b).relay)
  {
    MovesOfAppend(a, b, OwnerMoveOf);
    MovesOfAppend(a, b, HostMoveOf);
    MovesOfAppend(a, b, RelayMoveOf);
  }

  lemma SplitFirst(m: Move, outs: seq<nat>, ins: seq<nat>, part: nat, sent: nat, first: Slice, take: nat)
    requires part > 0 && sent + m.numel <= |outs| * part && sent + m.numel <= |ins| * part && m.numel > 0
    requires 0 <= sent / part < |outs| && sent / part < |ins|
    requires var room := (sent / part + 1) * part - sent; take == if m.numel < room then m.numel else room
    requires first == Slice(m.src, m.dst, m.start, take, Routed(outs[sent / part], ins[sent / part]))
    ensures Split(m, outs, ins, part, sent)
         == [first] + Split(Move(m.src, m.dst, m.start + take, m.numel - take), outs, ins, part, sent + take)
  {
  }

  lemma SplitNothing(m: Move, outs: seq<nat>, ins: seq<nat>, part: nat, sent: nat)
    requires part > 0 && sent <= |outs| * part && sent <= |ins| * part && m.numel == 0
    ensures Split(m, outs, ins, part, sent) == []
  {
  }

  /** Cuts one piece at the rails' boundaries, after `sent` elements of its host pair. */
  method RoutePiece(m: Move, outs: seq<nat>, ins: seq<nat>, part: nat, sentBefore: nat,
                    moves: Moves, ghost slices: seq<Slice>)
    returns (moves': Moves, ghost slices': seq<Slice>)
    requires part > 0 && sentBefore + m.numel <= |outs| * part && sentBefore + m.numel <= |ins| * part
    requires moves == AllMovesOf(slices)
    ensures slices' == slices + Split(m, outs, ins, part, sentBefore)
    ensures moves' == AllMovesOf(slices')
  {
    hide Split, AllMovesOf;
    moves', slices' := moves, slices;
    var start: nat, numel: nat, sent: nat := m.start, m.numel, sentBefore;
    while numel > 0
      invariant sent + numel == sentBefore + m.numel
      invariant slices' + Split(Move(m.src, m.dst, start, numel), outs, ins, part, sent)
             == slices + Split(m, outs, ins, part, sentBefore)
      invariant moves' == AllMovesOf(slices')
    {
      RailOf(sent, part, |outs|);
      RailOf(sent, part, |ins|);
      var rail := sent / part;
      var room := (rail + 1) * part - sent;
      var take := if numel < room then numel else room;
      var relayOut, relayIn := outs[rail], ins[rail];
      ghost var slice := Slice(m.src, m.dst, start, take, Routed(relayOut, relayIn));
      ghost var rest := Split(Move(m.src, m.dst, start + take, numel - take), outs, ins, part, sent + take);
      SplitFirst(Move(m.src, m.dst, start, numel), outs, ins, part, sent, slice, take);
      AllMovesOne(slices', slice);
      if relayOut != m.src {
        moves' := moves'.(owner := moves'.owner + [Move(m.src, relayOut, start, take)]);
      }
      moves' := moves'.(host := moves'.host + [Move(relayOut, relayIn, start, take)]);
      if relayIn != m.dst {
        moves' := moves'.(relay := moves'.relay + [Move(relayIn, m.dst, start, take)]);
      }
      assert slices' + ([slice] + rest) == (slices' + [slice]) + rest;
      slices' := slices' + [slice];
      start, numel, sent := start + take, numel - take, sent + take;
    }
    SplitNothing(Move(m.src, m.dst, start, numel), outs, ins, part, sent);
  }

  /** Routes the pieces of one host pair over its rails. */
  method RoutePair(pair: seq<Move>, outs: seq<nat>, ins: seq<nat>, part: nat, moves: Moves, ghost slices: seq<Slice>)
    returns (moves': Moves, ghost slices': seq<Slice>)
    requires part > 0 && Sent(pair) <= |outs| * part && Sent(pair) <= |ins| * part
    requires moves == AllMovesOf(slices)
    ensures slices' == slices + SplitAll(pair, outs, ins, part)
    ensures moves' == AllMovesOf(slices')
  {
    hide AllMovesOf, Split;
    moves', slices' := moves, slices;
    var sent := 0;
    for i := 0 to |pair|
      invariant sent == Sent(pair[..i]) <= Sent(pair)
      invariant slices' == slices + SplitAll(pair[..i], outs, ins, part)
      invariant moves' == AllMovesOf(slices')
    {
      assert pair[..i + 1][..i] == pair[..i];
      SentMonotone(pair, i + 1);
      moves', slices' := RoutePiece(pair[i], outs, ins, part, sent, moves', slices');
      sent := sent + pair[i].numel;
    }
    assert pair[..|pair|] == pair;
  }

  method MembersByHost(hosts: seq<nat>) returns (members: map<nat, seq<nat>>)
    ensures forall h :: h in members ==> members[h] == Members(hosts, h)
    ensures forall h :: h !in members ==> Members(hosts, h) == []
  {
    members := map[];
    for rank := 0 to |hosts|
      invariant forall h :: h in members ==> members[h] == Members(hosts[..rank], h)
      invariant forall h :: h !in members ==> Members(hosts[..rank], h) == []
    {
      var host := hosts[rank];
      assert hosts[..rank + 1][..rank] == hosts[..rank];
      members := members[host := (if host in members then members[host] else []) + [rank]];
    }
    assert hosts[..|hosts|] == hosts;
  }

  lemma LeavingHaveRails(hosts: seq<nat>, key: (nat, nat), pieces: seq<Move>)
    requires forall i :: 0 <= i < |pieces| ==> pieces[i].numel > 0
    ensures forall i :: 0 <= i < |LeavingOf(hosts, key, pieces)| ==>
              LeavesFor(hosts, key, LeavingOf(hosts, key, pieces)[i]) && LeavingOf(hosts, key, pieces)[i].numel > 0
    ensures LeavingOf(hosts, key, pieces) != [] ==> Rails(hosts, key) > 0 && Sent(LeavingOf(hosts, key, pieces)) > 0
  {
    if pieces != [] {
      LeavingHaveRails(hosts, key, pieces[..|pieces| - 1]);
      if LeavesFor(hosts, key, pieces[|pieces| - 1]) {
        PairHasRails(hosts, key, pieces[|pieces| - 1]);
      }
    }
  }

  lemma RoutedForNext(hosts: seq<nat>, keys: seq<(nat, nat)>, i: nat, pieces: seq<Move>)
    requires i < |keys| && forall j :: 0 <= j < |pieces| ==> pieces[j].numel > 0
    requires LeavingOf(hosts, keys[i], pieces) != []
    ensures var pair, rails := LeavingOf(hosts, keys[i], pieces), Rails(hosts, keys[i]);
            && rails > 0 && Sent(pair) > 0
            && RoutedForAll(hosts, keys[..i + 1], pieces) ==
               RoutedForAll(hosts, keys[..i], pieces)
               + SplitAll(pair, Members(hosts, keys[i].0)[..rails],
                   Members(hosts, keys[i].1)[..rails], PartOf(Sent(pair), rails))
  {
    assert keys[..i + 1][..i] == keys[..i];
    LeavingHaveRails(hosts, keys[i], pieces);
  }

  method RouteLeaving(hosts: seq<nat>, keys: seq<(nat, nat)>,
                      leaving: map<(nat, nat), seq<Move>>, ghost pieces: seq<Move>)
    returns (moves: Moves, ghost slices: seq<Slice>)
    requires LeavingListed(hosts, pieces, keys, leaving)
    requires forall i :: 0 <= i < |pieces| ==> pieces[i].numel > 0
    ensures slices == RoutedForAll(hosts, keys, pieces)
    ensures moves == AllMovesOf(slices)
  {
    moves, slices := Moves([], [], []), [];
    var members := MembersByHost(hosts);
    for i := 0 to |keys|
      invariant slices == RoutedForAll(hosts, keys[..i], pieces)
      invariant moves == AllMovesOf(slices)
    {
      var key := keys[i];
      assert key in leaving;
      var pair := leaving[key];
      RoutedForNext(hosts, keys, i, pieces);
      var outs, ins := members[key.0], members[key.1];
      var rails := Min(|outs|, |ins|);
      moves, slices := RoutePair(pair, outs[..rails], ins[..rails], PartOf(Sent(pair), rails), moves, slices);
    }
    assert keys[..|keys|] == keys;
  }

  // ----- The slices of a plan tile the rows

  /** The pieces that stay on their host, as slices. */
  function StayOf(hosts: seq<nat>, pieces: seq<Move>): seq<Slice> {
    if pieces == [] then []
    else
      var m := pieces[|pieces| - 1];
      StayOf(hosts, pieces[..|pieces| - 1])
      + if StaysOnHost(hosts, m) then [Slice(m.src, m.dst, m.start, m.numel, if m.src == m.dst then Keep else Direct)]
          else []
  }

  lemma {:induction false} StayMoves(hosts: seq<nat>, pieces: seq<Move>)
    ensures AllMovesOf(StayOf(hosts, pieces)) == Moves(DirectOf(hosts, pieces), [], [])
  {
    if pieces != [] {
      var before, m := pieces[..|pieces| - 1], pieces[|pieces| - 1];
      StayMoves(hosts, before);
      if StaysOnHost(hosts, m) {
        var s := Slice(m.src, m.dst, m.start, m.numel, if m.src == m.dst then Keep else Direct);
        MovesOfOne(StayOf(hosts, before), s, OwnerMoveOf);
        MovesOfOne(StayOf(hosts, before), s, HostMoveOf);
        MovesOfOne(StayOf(hosts, before), s, RelayMoveOf);
        assert StayOf(hosts, pieces) == StayOf(hosts, before) + [s];
      } else {
        assert StayOf(hosts, pieces) == StayOf(hosts, before);
      }
    }
  }

  predicate Apart(s: Slice, t: Slice) {
    s.start + s.numel <= t.start || t.start + t.numel <= s.start
  }

  ghost predicate Disjoint(slices: seq<Slice>) {
    forall i, j :: 0 <= i < j < |slices| ==> Apart(slices[i], slices[j])
  }

  /** Some slice holds position `p`. */
  ghost predicate Reaches(slices: seq<Slice>, p: nat) {
    exists i :: 0 <= i < |slices| && slices[i].start <= p < slices[i].start + slices[i].numel
  }

  lemma ReachesEither(a: seq<Slice>, b: seq<Slice>, p: nat)
    ensures Reaches(a + b, p) <==> Reaches(a, p) || Reaches(b, p)
  {
    if i :| 0 <= i < |a| && a[i].start <= p < a[i].start + a[i].numel {
      assert (a + b)[i] == a[i];
    } else if i :| 0 <= i < |b| && b[i].start <= p < b[i].start + b[i].numel {
      assert (a + b)[|a| + i] == b[i];
    }
  }

  /** What holds of each slice of one piece. */
  ghost predicate Of(rows: seq<nat>, hosts: seq<nat>, chunk: nat, m: Move, s: Slice) {
    SliceOk(rows, hosts, chunk, s) && s.owner == m.src && s.holder == m.dst
    && m.start <= s.start && s.start + s.numel <= m.start + m.numel
  }

  ghost predicate RelaysOk(hosts: seq<nat>, key: (nat, nat), outs: seq<nat>, ins: seq<nat>) {
    && (forall j :: 0 <= j < |outs| ==> outs[j] < |hosts| && hosts[outs[j]] == key.0)
    && (forall j :: 0 <= j < |ins| ==> ins[j] < |hosts| && hosts[ins[j]] == key.1)
  }

  /** A piece's slices hold all its positions. */
  lemma {:induction false} SplitReaches(m: Move, outs: seq<nat>, ins: seq<nat>, part: nat, sent: nat, p: nat)
    requires part > 0 && sent + m.numel <= |outs| * part && sent + m.numel <= |ins| * part
    requires m.start <= p < m.start + m.numel
    ensures Reaches(Split(m, outs, ins, part, sent), p)
    decreases m.numel
  {
    hide Split;
    RailOf(sent, part, |outs|);
    RailOf(sent, part, |ins|);
    var rail := sent / part;
    var room := (rail + 1) * part - sent;
    var take := if m.numel < room then m.numel else room;
    var first := Slice(m.src, m.dst, m.start, take, Routed(outs[rail], ins[rail]));
    var rest := Move(m.src, m.dst, m.start + take, m.numel - take);
    SplitFirst(m, outs, ins, part, sent, first, take);
    ReachesEither([first], Split(rest, outs, ins, part, sent + take), p);
    if p < m.start + take {
      assert [first][0].start <= p < [first][0].start + [first][0].numel;
    } else {
      SplitReaches(rest, outs, ins, part, sent + take, p);
    }
  }

  /** The slices of a piece are cut from it and tile it. */
  lemma {:induction false} SplitTiles(rows: seq<nat>, hosts: seq<nat>, chunk: nat, key: (nat, nat), m: Move,
                                      outs: seq<nat>, ins: seq<nat>, part: nat, sent: nat)
    requires part > 0 && sent + m.numel <= |outs| * part && sent + m.numel <= |ins| * part
    requires |hosts| == |rows| && (m.numel > 0 ==> PieceOk(rows, chunk, m)) && LeavesFor(hosts, key, m)
    requires RelaysOk(hosts, key, outs, ins)
    ensures forall i :: 0 <= i < |Split(m, outs, ins, part, sent)| ==>
              Of(rows, hosts, chunk, m, Split(m, outs, ins, part, sent)[i])
    ensures Disjoint(Split(m, outs, ins, part, sent))
    ensures forall p :: m.start <= p < m.start + m.numel ==> Reaches(Split(m, outs, ins, part, sent), p)
    decreases m.numel
  {
    hide Reaches;
    forall p | m.start <= p < m.start + m.numel ensures Reaches(Split(m, outs, ins, part, sent), p) {
      SplitReaches(m, outs, ins, part, sent, p);
    }
    if m.numel > 0 {
      RailOf(sent, part, |outs|);
      RailOf(sent, part, |ins|);
      var rail := sent / part;
      var room := (rail + 1) * part - sent;
      var take := if m.numel < room then m.numel else room;
      var first := Slice(m.src, m.dst, m.start, take, Routed(outs[rail], ins[rail]));
      var rest := Move(m.src, m.dst, m.start + take, m.numel - take);
      var tail := Split(rest, outs, ins, part, sent + take);
      SplitTiles(rows, hosts, chunk, key, rest, outs, ins, part, sent + take);
      assert Split(m, outs, ins, part, sent) == [first] + tail;
      assert Of(rows, hosts, chunk, m, first);
    }
  }

  ghost predicate AscendingPieces(pieces: seq<Move>) {
    forall i, j :: 0 <= i < j < |pieces| ==> pieces[i].start + pieces[i].numel <= pieces[j].start
  }

  /** Slices that are each cut from one of the pieces. */
  ghost predicate FromPieces(rows: seq<nat>, hosts: seq<nat>, chunk: nat, pieces: seq<Move>, slices: seq<Slice>) {
    forall i :: 0 <= i < |slices| ==> exists j :: 0 <= j < |pieces| && Of(rows, hosts, chunk, pieces[j], slices[i])
  }

  lemma DisjointAppend(rows: seq<nat>, hosts: seq<nat>, chunk: nat, pieces: seq<Move>, m: Move,
                       a: seq<Slice>, b: seq<Slice>)
    requires AscendingPieces(pieces + [m]) && FromPieces(rows, hosts, chunk, pieces, a) && Disjoint(a)
    requires FromPieces(rows, hosts, chunk, [m], b) && Disjoint(b)
    ensures FromPieces(rows, hosts, chunk, pieces + [m], a + b) && Disjoint(a + b)
  {
    var all := pieces + [m];
    forall i | 0 <= i < |a + b| ensures exists j :: 0 <= j < |all| && Of(rows, hosts, chunk, all[j], (a + b)[i]) {
      if i < |a| {
        var j :| 0 <= j < |pieces| && Of(rows, hosts, chunk, pieces[j], a[i]);
        assert all[j] == pieces[j];
      } else {
        var j :| 0 <= j < |[m]| && Of(rows, hosts, chunk, [m][j], b[i - |a|]);
        assert all[|pieces|] == m;
      }
    }
    forall i, j | 0 <= i < |a| && 0 <= j < |b| ensures Apart(a[i], b[j]) {
      var k :| 0 <= k < |pieces| && Of(rows, hosts, chunk, pieces[k], a[i]);
      var l :| 0 <= l < |[m]| && Of(rows, hosts, chunk, [m][l], b[j]);
      assert all[k] == pieces[k] && all[|pieces|] == m;
    }
  }

  ghost predicate PairOk(rows: seq<nat>, hosts: seq<nat>, chunk: nat, key: (nat, nat), moves: seq<Move>) {
    && |hosts| == |rows| && AscendingPieces(moves)
    && forall i :: 0 <= i < |moves| ==> PieceOk(rows, chunk, moves[i]) && LeavesFor(hosts, key, moves[i])
  }

  lemma {:induction false} SplitAllTiles(rows: seq<nat>, hosts: seq<nat>, chunk: nat, key: (nat, nat), moves: seq<Move>,
                                         outs: seq<nat>, ins: seq<nat>, part: nat)
    requires part > 0 && Sent(moves) <= |outs| * part && Sent(moves) <= |ins| * part
    requires RelaysOk(hosts, key, outs, ins) && PairOk(rows, hosts, chunk, key, moves)
    ensures FromPieces(rows, hosts, chunk, moves, SplitAll(moves, outs, ins, part))
    ensures Disjoint(SplitAll(moves, outs, ins, part))
  {
    if moves != [] {
      var before, m := moves[..|moves| - 1], moves[|moves| - 1];
      assert before + [m] == moves;
      SplitAllTiles(rows, hosts, chunk, key, before, outs, ins, part);
      SplitTiles(rows, hosts, chunk, key, m, outs, ins, part, Sent(before));
      var a, b := SplitAll(before, outs, ins, part), Split(m, outs, ins, part, Sent(before));
      assert FromPieces(rows, hosts, chunk, [m], b) by {
        assert [m][0] == m;
      }
      DisjointAppend(rows, hosts, chunk, before, m, a, b);
    }
  }

  lemma {:induction false} SplitAllReaches(moves: seq<Move>, outs: seq<nat>, ins: seq<nat>, part: nat, i: nat, p: nat)
    requires part > 0 && Sent(moves) <= |outs| * part && Sent(moves) <= |ins| * part
    requires i < |moves| && moves[i].start <= p < moves[i].start + moves[i].numel
    ensures Reaches(SplitAll(moves, outs, ins, part), p)
  {
    hide Reaches, Split;
    var before, m := moves[..|moves| - 1], moves[|moves| - 1];
    ReachesEither(SplitAll(before, outs, ins, part), Split(m, outs, ins, part, Sent(before)), p);
    if i < |before| {
      SplitAllReaches(before, outs, ins, part, i, p);
    } else {
      SplitReaches(m, outs, ins, part, Sent(before), p);
    }
  }

  /** The pieces of one host pair are among all pieces, in order. */
  lemma {:induction false} LeavingArePieces(rows: seq<nat>, hosts: seq<nat>, chunk: nat,
                                            key: (nat, nat), pieces: seq<Move>)
    requires AscendingPieces(pieces) && forall i :: 0 <= i < |pieces| ==> PieceOk(rows, chunk, pieces[i])
    ensures AscendingPieces(LeavingOf(hosts, key, pieces))
    ensures forall m :: m in LeavingOf(hosts, key, pieces) ==> m in pieces && LeavesFor(hosts, key, m)
    ensures forall i :: 0 <= i < |pieces| && LeavesFor(hosts, key, pieces[i])
             ==> pieces[i] in LeavingOf(hosts, key, pieces)
  {
    if pieces != [] {
      var before, m := pieces[..|pieces| - 1], pieces[|pieces| - 1];
      LeavingArePieces(rows, hosts, chunk, key, before);
      var listed := LeavingOf(hosts, key, before);
      assert LeavingOf(hosts, key, pieces) == listed + if LeavesFor(hosts, key, m) then [m] else [];
      forall i | 0 <= i < |listed| ensures listed[i].start + listed[i].numel <= m.start {
        assert listed[i] in before;
      }
    }
  }

  /** The pieces of a pair and its relays are what `SplitAll` needs. */
  lemma PairReady(rows: seq<nat>, hosts: seq<nat>, chunk: nat, key: (nat, nat), pieces: seq<Move>)
    requires |hosts| == |rows| && AscendingPieces(pieces)
    requires forall i :: 0 <= i < |pieces| ==> PieceOk(rows, chunk, pieces[i])
    requires LeavingOf(hosts, key, pieces) != []
    ensures var rails := Rails(hosts, key);
            && rails > 0 && Sent(LeavingOf(hosts, key, pieces)) > 0
            && RelaysOk(hosts, key, Members(hosts, key.0)[..rails], Members(hosts, key.1)[..rails])
    ensures PairOk(rows, hosts, chunk, key, LeavingOf(hosts, key, pieces))
  {
    var moves := LeavingOf(hosts, key, pieces);
    LeavingArePieces(rows, hosts, chunk, key, pieces);
    LeavingHaveRails(hosts, key, pieces);
    MembersAre(hosts, key.0);
    MembersAre(hosts, key.1);
    assert forall i :: 0 <= i < |moves| ==> moves[i] in moves;
  }

  lemma RoutedForTiles(rows: seq<nat>, hosts: seq<nat>, chunk: nat, key: (nat, nat), pieces: seq<Move>)
    requires |hosts| == |rows| && AscendingPieces(pieces)
    requires forall i :: 0 <= i < |pieces| ==> PieceOk(rows, chunk, pieces[i])
    ensures var moves := LeavingOf(hosts, key, pieces);
            && FromPieces(rows, hosts, chunk, moves, RoutedFor(hosts, key, moves))
            && Disjoint(RoutedFor(hosts, key, moves))
            && forall i, p :: 0 <= i < |moves| && moves[i].start <= p < moves[i].start + moves[i].numel ==>
                 Reaches(RoutedFor(hosts, key, moves), p)
  {
    var moves := LeavingOf(hosts, key, pieces);
    if moves != [] {
      PairReady(rows, hosts, chunk, key, pieces);
      hide PairOk, RelaysOk, PieceOk, AscendingPieces;
      var rails := Rails(hosts, key);
      var outs, ins := Members(hosts, key.0)[..rails], Members(hosts, key.1)[..rails];
      var part := PartOf(Sent(moves), rails);
      SplitAllTiles(rows, hosts, chunk, key, moves, outs, ins, part);
      forall i, p | 0 <= i < |moves| && moves[i].start <= p < moves[i].start + moves[i].numel
        ensures Reaches(RoutedFor(hosts, key, moves), p)
      {
        SplitAllReaches(moves, outs, ins, part, i, p);
      }
    }
  }

  /** Two slices that overlap lie in the same row and the same chunk. */
  lemma OverlapsInOnePlace(rows: seq<nat>, hosts: seq<nat>, chunk: nat, s: Slice, t: Slice)
    requires SliceOk(rows, hosts, chunk, s) && SliceOk(rows, hosts, chunk, t) && !Apart(s, t)
    ensures s.owner == t.owner && s.holder == t.holder
  {
    if s.owner < t.owner {
      RowStartMonotone(rows, s.owner + 1, t.owner);
    } else if t.owner < s.owner {
      RowStartMonotone(rows, t.owner + 1, s.owner);
    }
    if s.holder < t.holder {
      MulMonotone(s.holder + 1, t.holder, chunk);
    } else if t.holder < s.holder {
      MulMonotone(t.holder + 1, s.holder, chunk);
    }
  }

  /** All slices of a list are fine and connect the hosts of one of `keys`. */
  ghost predicate Keyed(rows: seq<nat>, hosts: seq<nat>, chunk: nat, keys: seq<(nat, nat)>, slices: seq<Slice>) {
    forall i :: 0 <= i < |slices| ==>
      SliceOk(rows, hosts, chunk, slices[i]) && (hosts[slices[i].owner], hosts[slices[i].holder]) in keys
  }

  lemma KeyedDisjoint(rows: seq<nat>, hosts: seq<nat>, chunk: nat,
                      keys: seq<(nat, nat)>, a: seq<Slice>, keys': seq<(nat, nat)>, b: seq<Slice>)
    requires Keyed(rows, hosts, chunk, keys, a) && Keyed(rows, hosts, chunk, keys', b)
    requires Disjoint(a) && Disjoint(b) && forall k :: k in keys ==> k !in keys'
    ensures Disjoint(a + b)
  {
    forall i, j | 0 <= i < |a| && 0 <= j < |b| ensures Apart(a[i], b[j]) {
      if !Apart(a[i], b[j]) {
        OverlapsInOnePlace(rows, hosts, chunk, a[i], b[j]);
      }
    }
  }

  lemma RoutedForKeyed(rows: seq<nat>, hosts: seq<nat>, chunk: nat, key: (nat, nat), pieces: seq<Move>)
    requires |hosts| == |rows| && AscendingPieces(pieces)
    requires forall i :: 0 <= i < |pieces| ==> PieceOk(rows, chunk, pieces[i])
    ensures Keyed(rows, hosts, chunk, [key], RoutedFor(hosts, key, LeavingOf(hosts, key, pieces)))
    ensures Disjoint(RoutedFor(hosts, key, LeavingOf(hosts, key, pieces)))
    ensures forall i :: 0 <= i < |RoutedFor(hosts, key, LeavingOf(hosts, key, pieces))| ==>
              var s := RoutedFor(hosts, key, LeavingOf(hosts, key, pieces))[i]; hosts[s.owner] != hosts[s.holder]
  {
    RoutedForTiles(rows, hosts, chunk, key, pieces);
    LeavingArePieces(rows, hosts, chunk, key, pieces);
    var moves := LeavingOf(hosts, key, pieces);
    var slices := RoutedFor(hosts, key, moves);
    forall i | 0 <= i < |slices|
      ensures SliceOk(rows, hosts, chunk, slices[i]) && (hosts[slices[i].owner], hosts[slices[i].holder]) == key
      ensures hosts[slices[i].owner] != hosts[slices[i].holder]
    {
      var j :| 0 <= j < |moves| && Of(rows, hosts, chunk, moves[j], slices[i]);
      assert moves[j] in moves;
    }
  }

  lemma {:induction false} RoutedForAllTiles(rows: seq<nat>, hosts: seq<nat>, chunk: nat,
                                             keys: seq<(nat, nat)>, pieces: seq<Move>)
    requires |hosts| == |rows| && AscendingPieces(pieces)
    requires forall i :: 0 <= i < |pieces| ==> PieceOk(rows, chunk, pieces[i])
    requires forall i, j :: 0 <= i < j < |keys| ==> keys[i] != keys[j]
    ensures Keyed(rows, hosts, chunk, keys, RoutedForAll(hosts, keys, pieces))
    ensures Disjoint(RoutedForAll(hosts, keys, pieces))
    ensures forall i :: 0 <= i < |RoutedForAll(hosts, keys, pieces)| ==>
              hosts[RoutedForAll(hosts, keys, pieces)[i].owner] != hosts[RoutedForAll(hosts, keys, pieces)[i].holder]
  {
    if keys != [] {
      var before, key := keys[..|keys| - 1], keys[|keys| - 1];
      RoutedForAllTiles(rows, hosts, chunk, before, pieces);
      RoutedForKeyed(rows, hosts, chunk, key, pieces);
      var a, b := RoutedForAll(hosts, before, pieces), RoutedFor(hosts, key, LeavingOf(hosts, key, pieces));
      KeyedDisjoint(rows, hosts, chunk, before, a, [key], b);
      forall i | 0 <= i < |a + b|
        ensures SliceOk(rows, hosts, chunk, (a + b)[i])
        ensures (hosts[(a + b)[i].owner], hosts[(a + b)[i].holder]) in keys
        ensures hosts[(a + b)[i].owner] != hosts[(a + b)[i].holder]
      {
        if i < |a| {
          assert (a + b)[i] == a[i];
        } else {
          assert (a + b)[i] == b[i - |a|];
        }
      }
    }
  }

  lemma {:induction false} RoutedForAllReaches(hosts: seq<nat>, keys: seq<(nat, nat)>,
                                               pieces: seq<Move>, key: (nat, nat), p: nat)
    requires key in keys && Reaches(RoutedFor(hosts, key, LeavingOf(hosts, key, pieces)), p)
    ensures Reaches(RoutedForAll(hosts, keys, pieces), p)
  {
    var before, last := keys[..|keys| - 1], keys[|keys| - 1];
    ReachesEither(RoutedForAll(hosts, before, pieces), RoutedFor(hosts, last, LeavingOf(hosts, last, pieces)), p);
    if key != last {
      assert key in before;
      RoutedForAllReaches(hosts, before, pieces, key, p);
    }
  }

  lemma {:induction false} StayTiles(rows: seq<nat>, hosts: seq<nat>, chunk: nat, pieces: seq<Move>)
    requires |hosts| == |rows| && AscendingPieces(pieces)
    requires forall i :: 0 <= i < |pieces| ==> PieceOk(rows, chunk, pieces[i])
    ensures FromPieces(rows, hosts, chunk, pieces, StayOf(hosts, pieces))
    ensures Disjoint(StayOf(hosts, pieces))
    ensures forall i :: 0 <= i < |StayOf(hosts, pieces)| ==>
              var s := StayOf(hosts, pieces)[i];
              SliceOk(rows, hosts, chunk, s) && hosts[s.owner] == hosts[s.holder]
  {
    if pieces != [] {
      var before, m := pieces[..|pieces| - 1], pieces[|pieces| - 1];
      assert before + [m] == pieces;
      StayTiles(rows, hosts, chunk, before);
      var a := StayOf(hosts, before);
      if StaysOnHost(hosts, m) {
        var s := Slice(m.src, m.dst, m.start, m.numel, if m.src == m.dst then Keep else Direct);
        assert Of(rows, hosts, chunk, m, s);
        assert FromPieces(rows, hosts, chunk, [m], [s]) by {
          assert [m][0] == m;
        }
        DisjointAppend(rows, hosts, chunk, before, m, a, [s]);
      } else {
        assert FromPieces(rows, hosts, chunk, [m], []);
        DisjointAppend(rows, hosts, chunk, before, m, a, []);
      }
    }
  }

  lemma {:induction false} StayReaches(hosts: seq<nat>, pieces: seq<Move>, i: nat, p: nat)
    requires i < |pieces| && StaysOnHost(hosts, pieces[i])
    requires pieces[i].start <= p < pieces[i].start + pieces[i].numel
    ensures Reaches(StayOf(hosts, pieces), p)
  {
    var before, m := pieces[..|pieces| - 1], pieces[|pieces| - 1];
    var a := StayOf(hosts, before);
    if i < |before| {
      StayReaches(hosts, before, i, p);
      ReachesEither(a, if StaysOnHost(hosts, m) then
          [Slice(m.src, m.dst, m.start, m.numel, if m.src == m.dst then Keep else Direct)] else [], p);
    } else {
      assert StayOf(hosts, pieces)[|a|].start == m.start;
    }
  }

  lemma {:induction false} PiecesAscend(rows: seq<nat>, chunk: nat, pieces: seq<Move>, bound: nat)
    requires Pieces(rows, chunk, pieces, bound)
    ensures AscendingPieces(pieces)
    ensures forall i :: 0 <= i < |pieces| ==> pieces[i].start + pieces[i].numel <= bound
  {
    if pieces != [] {
      PiecesAscend(rows, chunk, pieces[..|pieces| - 1], pieces[|pieces| - 1].start);
    }
  }

  lemma {:induction false} PieceAt(rows: seq<nat>, chunk: nat, pieces: seq<Move>, bound: nat, p: nat) returns (i: nat)
    requires Pieces(rows, chunk, pieces, bound) && p < bound
    ensures i < |pieces| && pieces[i].start <= p < pieces[i].start + pieces[i].numel
  {
    i := |pieces| - 1;
    if p < pieces[i].start {
      i := PieceAt(rows, chunk, pieces[..|pieces| - 1], pieces[i].start, p);
    }
  }

  /** The slices of a plan are fine, don't overlap, and hold every position of the rows. */
  ghost predicate SlicesTile(rows: seq<nat>, hosts: seq<nat>, chunk: nat, slices: seq<Slice>) {
    && (forall i :: 0 <= i < |slices| ==> SliceOk(rows, hosts, chunk, slices[i]))
    && Disjoint(slices)
    && forall p: nat :: p < Total(rows) ==> Reaches(slices, p)
  }

  lemma PlanSlicesTile(rows: seq<nat>, hosts: seq<nat>, chunk: nat, pieces: seq<Move>,
                       keys: seq<(nat, nat)>, leaving: map<(nat, nat), seq<Move>>)
    requires |hosts| == |rows| && Pieces(rows, chunk, pieces, Total(rows))
    requires LeavingListed(hosts, pieces, keys, leaving)
    ensures SlicesTile(rows, hosts, chunk, StayOf(hosts, pieces) + RoutedForAll(hosts, keys, pieces))
  {
    var a, b := StayOf(hosts, pieces), RoutedForAll(hosts, keys, pieces);
    PiecesAscend(rows, chunk, pieces, Total(rows));
    StayTiles(rows, hosts, chunk, pieces);
    RoutedForAllTiles(rows, hosts, chunk, keys, pieces);
    forall i, j | 0 <= i < |a| && 0 <= j < |b| ensures Apart(a[i], b[j]) {
      if !Apart(a[i], b[j]) {
        OverlapsInOnePlace(rows, hosts, chunk, a[i], b[j]);
      }
    }
    forall p: nat | p < Total(rows) ensures Reaches(a + b, p) {
      var i := PieceAt(rows, chunk, pieces, Total(rows), p);
      PieceReached(rows, hosts, chunk, pieces, keys, leaving, i, p);
      ReachesEither(a, b, p);
    }
  }

  lemma PieceReached(rows: seq<nat>, hosts: seq<nat>, chunk: nat, pieces: seq<Move>,
                     keys: seq<(nat, nat)>, leaving: map<(nat, nat), seq<Move>>, i: nat, p: nat)
    requires |hosts| == |rows| && Pieces(rows, chunk, pieces, Total(rows))
    requires LeavingListed(hosts, pieces, keys, leaving)
    requires i < |pieces| && pieces[i].start <= p < pieces[i].start + pieces[i].numel
    ensures Reaches(StayOf(hosts, pieces), p) || Reaches(RoutedForAll(hosts, keys, pieces), p)
  {
    PiecesAscend(rows, chunk, pieces, Total(rows));
    var m := pieces[i];
    assert PieceOk(rows, chunk, m);
    if StaysOnHost(hosts, m) {
      StayReaches(hosts, pieces, i, p);
    } else {
      var key := (hosts[m.src], hosts[m.dst]);
      LeavingArePieces(rows, hosts, chunk, key, pieces);
      var moves := LeavingOf(hosts, key, pieces);
      assert m in moves;
      var j :| 0 <= j < |moves| && moves[j] == m;
      assert key in keys;
      RoutedForTiles(rows, hosts, chunk, key, pieces);
      RoutedForAllReaches(hosts, keys, pieces, key, p);
    }
  }

  // ----- From a list of slices to slices by position

  ghost function SliceAt(slices: seq<Slice>, p: nat): (s: Slice)
    requires Reaches(slices, p)
    ensures s in slices && s.start <= p < s.start + s.numel
  {
    var i :| 0 <= i < |slices| && slices[i].start <= p < slices[i].start + slices[i].numel;
    slices[i]
  }

  ghost function Route(slices: seq<Slice>, total: nat): map<nat, Slice>
    requires forall p: nat :: p < total ==> Reaches(slices, p)
  {
    map p: nat | p < total :: SliceAt(slices, p)
  }

  lemma OnlySliceAt(slices: seq<Slice>, i: nat, p: nat)
    requires Disjoint(slices) && i < |slices| && slices[i].start <= p < slices[i].start + slices[i].numel
    ensures Reaches(slices, p) && SliceAt(slices, p) == slices[i]
  {
    var s := SliceAt(slices, p);
    var j :| 0 <= j < |slices| && slices[j] == s;
  }

  lemma RouteTiles(rows: seq<nat>, hosts: seq<nat>, chunk: nat, slices: seq<Slice>)
    requires SlicesTile(rows, hosts, chunk, slices)
    ensures Tiles(Route(slices, Total(rows)))
    ensures forall i :: 0 <= i < |slices| ==>
              slices[i].start in Route(slices, Total(rows)) && Route(slices, Total(rows))[slices[i].start] == slices[i]
  {
    hide SliceOk, Reaches, Route, Disjoint;
    var route := Route(slices, Total(rows));
    forall i | 0 <= i < |slices| ensures Everywhere(route, slices[i]) && slices[i].numel > 0 {
      RoutedWhole(rows, hosts, chunk, slices, i);
    }
    forall p | p in route ensures route[p].start <= p < route[p].start + route[p].numel && Everywhere(route, route[p]) {
      RoutedSlice(slices, Total(rows), p);
    }
  }

  /** Every position of the slice is routed by it. */
  ghost predicate Everywhere(route: map<nat, Slice>, s: Slice) {
    forall q: nat :: s.start <= q < s.start + s.numel ==> q in route && route[q] == s
  }

  lemma RoutedSlice(slices: seq<Slice>, total: nat, p: nat)
    requires forall q: nat :: q < total ==> Reaches(slices, q)
    requires p in Route(slices, total)
    ensures var s := Route(slices, total)[p]; s in slices && s.start <= p < s.start + s.numel
  {
    hide Reaches;
  }

  lemma RoutedWhole(rows: seq<nat>, hosts: seq<nat>, chunk: nat, slices: seq<Slice>, i: nat)
    requires SlicesTile(rows, hosts, chunk, slices) && i < |slices|
    ensures Everywhere(Route(slices, Total(rows)), slices[i]) && slices[i].numel > 0
  {
    hide Reaches, Disjoint;
    assert SliceOk(rows, hosts, chunk, slices[i]);
    RowStartMonotone(rows, slices[i].owner + 1, |rows|);
    forall q: nat | slices[i].start <= q < slices[i].start + slices[i].numel
      ensures q in Route(slices, Total(rows)) && Route(slices, Total(rows))[q] == slices[i]
    {
      OnlySliceAt(slices, i, q);
    }
  }

  ghost predicate GivenBySome(slices: seq<Slice>, of: Slice -> Option<Move>, m: Move) {
    exists i :: 0 <= i < |slices| && of(slices[i]) == Some(m)
  }

  lemma {:induction false} MovesOfSlices(slices: seq<Slice>, of: Slice -> Option<Move>)
    requires forall s :: of(s).Some? ==> of(s).value.start == s.start
    requires Disjoint(slices) && forall i :: 0 <= i < |slices| ==> slices[i].numel > 0
    ensures forall m :: m in MovesOf(slices, of) ==> GivenBySome(slices, of, m)
    ensures forall i :: 0 <= i < |slices| && of(slices[i]).Some? ==> of(slices[i]).value in MovesOf(slices, of)
    ensures forall i, j :: 0 <= i < j < |MovesOf(slices, of)|
             ==> MovesOf(slices, of)[i].start != MovesOf(slices, of)[j].start
  {
    if slices != [] {
      var before, s := slices[..|slices| - 1], slices[|slices| - 1];
      MovesOfSlices(before, of);
      var a := MovesOf(before, of);
      assert MovesOf(slices, of) == a + if of(s).Some? then [of(s).value] else [];
      forall m | m in a ensures GivenBySome(slices, of, m) && m.start != s.start {
        assert GivenBySome(before, of, m);
        var i :| 0 <= i < |before| && of(before[i]) == Some(m);
        assert slices[i] == before[i];
        assert Apart(slices[i], slices[|slices| - 1]);
      }
      assert of(s).Some? ==> GivenBySome(slices, of, of(s).value) by {
        assert slices[|slices| - 1] == s;
      }
      forall i | 0 <= i < |slices| && of(slices[i]).Some? ensures of(slices[i]).value in MovesOf(slices, of) {
        if i < |before| {
          assert before[i] == slices[i];
        }
      }
    }
  }

  lemma MovesMatchRoute(rows: seq<nat>, hosts: seq<nat>, chunk: nat, slices: seq<Slice>, of: Slice -> Option<Move>)
    requires SlicesTile(rows, hosts, chunk, slices)
    requires forall s :: of(s).Some? ==> of(s).value.start == s.start && of(s).value.numel == s.numel
    ensures MovesAre(MovesOf(slices, of), Route(slices, Total(rows)), of)
    ensures WholeSlices(Route(slices, Total(rows)), MovesOf(slices, of))
  {
    hide SliceOk, Reaches, Route, Disjoint, Tiles, MovesOf, GivenBySome;
    RouteTiles(rows, hosts, chunk, slices);
    forall i | 0 <= i < |slices| ensures slices[i].numel > 0 {
      RoutedWhole(rows, hosts, chunk, slices, i);
    }
    MovesOfSlices(slices, of);
    var route, moves := Route(slices, Total(rows)), MovesOf(slices, of);
    forall j | 0 <= j < |moves|
      ensures && moves[j].start in route && of(route[moves[j].start]) == Some(moves[j])
              && route[moves[j].start].start == moves[j].start && route[moves[j].start].numel == moves[j].numel
    {
      MoveOfSlice(slices, route, of, moves[j]);
    }
    forall p | p in route && of(route[p]).Some? ensures of(route[p]).value in moves {
      RoutedSlice(slices, Total(rows), p);
      var i :| 0 <= i < |slices| && slices[i] == route[p];
    }
  }

  lemma MoveOfSlice(slices: seq<Slice>, route: map<nat, Slice>, of: Slice -> Option<Move>, m: Move)
    requires forall i :: 0 <= i < |slices| ==> slices[i].start in route && route[slices[i].start] == slices[i]
    requires GivenBySome(slices, of, m)
    requires forall s :: of(s).Some? ==> of(s).value.start == s.start && of(s).value.numel == s.numel
    ensures m.start in route && of(route[m.start]) == Some(m)
    ensures route[m.start].start == m.start && route[m.start].numel == m.numel
  {
    var i :| 0 <= i < |slices| && of(slices[i]) == Some(m);
    assert route[slices[i].start] == slices[i];
  }

  // ----- The rails of a host pair share its elements evenly

  /** How many elements the slices send over a relay. */
  function Carried(slices: seq<Slice>, relay: nat): nat {
    if slices == [] then 0
    else
      var s := slices[0];
      (if s.hops.Routed? && s.hops.relayOut == relay then s.numel else 0) + Carried(slices[1..], relay)
  }

  lemma {:induction false} CarriedAppend(a: seq<Slice>, b: seq<Slice>, relay: nat)
    ensures Carried(a + b, relay) == Carried(a, relay) + Carried(b, relay)
  {
    if a == [] {
      assert a + b == b;
    } else {
      assert (a + b)[1..] == a[1..] + b;
      CarriedAppend(a[1..], b, relay);
    }
  }

  /** What rail `j` carries of the first `sent` elements when each takes `part` in turn. */
  function Share(sent: nat, part: nat, j: nat): nat {
    if sent <= j * part then 0 else Min(sent - j * part, part)
  }

  lemma ShareGrows(sent: nat, take: nat, part: nat, rail: nat, j: nat)
    requires part > 0 && rail * part <= sent && sent + take <= (rail + 1) * part
    ensures Share(sent + take, part, j) == Share(sent, part, j) + if j == rail then take else 0
  {
    assert (j + 1) * part == j * part + part && (rail + 1) * part == rail * part + part;
    if j < rail {
      MulMonotone(j + 1, rail, part);
      assert Share(sent, part, j) == part == Share(sent + take, part, j);
    } else if rail < j {
      MulMonotone(rail + 1, j, part);
      assert Share(sent, part, j) == 0 == Share(sent + take, part, j);
    }
  }

  lemma {:induction false} SplitShares(m: Move, outs: seq<nat>, ins: seq<nat>, part: nat, sent: nat, j: nat)
    requires part > 0 && sent + m.numel <= |outs| * part && sent + m.numel <= |ins| * part
    requires j < |outs| && forall i, k :: 0 <= i < k < |outs| ==> outs[i] != outs[k]
    ensures Share(sent + m.numel, part, j) == Share(sent, part, j) + Carried(Split(m, outs, ins, part, sent), outs[j])
    decreases m.numel
  {
    hide Share, Carried;
    if m.numel > 0 {
      RailOf(sent, part, |outs|);
      RailOf(sent, part, |ins|);
      var rail := sent / part;
      var room := (rail + 1) * part - sent;
      var take := if m.numel < room then m.numel else room;
      var rest := Move(m.src, m.dst, m.start + take, m.numel - take);
      ShareGrows(sent, take, part, rail, j);
      SplitShares(rest, outs, ins, part, sent + take, j);
      var first := Slice(m.src, m.dst, m.start, take, Routed(outs[rail], ins[rail]));
      var tail := Split(rest, outs, ins, part, sent + take);
      assert Split(m, outs, ins, part, sent) == [first] + tail;
      CarriedFirst(first, tail, outs[j]);
      assert outs[rail] == outs[j] <==> rail == j;
    } else {
      NothingCarried(outs[j]);
    }
  }

  lemma CarriedFirst(first: Slice, tail: seq<Slice>, relay: nat)
    requires first.hops.Routed?
    ensures Carried([first] + tail, relay) == (if first.hops.relayOut == relay then first.numel
        else 0) + Carried(tail, relay)
  {
    assert ([first] + tail)[1..] == tail;
  }

  lemma NothingCarried(relay: nat)
    ensures Carried([], relay) == 0
  {
  }

  /** Of the elements from one host for another, each rail carries its part, the last used
      one what is left, and no rail more than `part`. */
  lemma {:induction false} RailsShareEvenly(moves: seq<Move>, outs: seq<nat>, ins: seq<nat>, part: nat, j: nat)
    requires part > 0 && Sent(moves) <= |outs| * part && Sent(moves) <= |ins| * part
    requires j < |outs| && forall i, k :: 0 <= i < k < |outs| ==> outs[i] != outs[k]
    ensures Carried(SplitAll(moves, outs, ins, part), outs[j]) == Share(Sent(moves), part, j) <= part
  {
    if moves != [] {
      var before, m := moves[..|moves| - 1], moves[|moves| - 1];
      RailsShareEvenly(before, outs, ins, part, j);
      SplitShares(m, outs, ins, part, Sent(before), j);
      CarriedAppend(SplitAll(before, outs, ins, part), Split(m, outs, ins, part, Sent(before)), outs[j]);
    }
  }

  /** How many ranks a host has. */
  function RanksOn(hosts: seq<nat>, host: nat): nat {
    if hosts == [] then 0
    else RanksOn(hosts[..|hosts| - 1], host) + if hosts[|hosts| - 1] == host then 1 else 0
  }

  /** How many elements some of the moves carry. */
  function Picked(moves: seq<Move>, pick: Move -> bool): nat {
    if moves == [] then 0
    else Picked(moves[..|moves| - 1], pick) + if pick(moves[|moves| - 1]) then moves[|moves| - 1].numel else 0
  }

  function BetweenHosts(hosts: seq<nat>, from: nat, to: nat): Move -> bool {
    (m: Move) => m.src < |hosts| && m.dst < |hosts| && hosts[m.src] == from && hosts[m.dst] == to
  }

  function FromRank(hosts: seq<nat>, rank: nat, to: nat): Move -> bool {
    (m: Move) => m.src == rank && m.dst < |hosts| && hosts[m.dst] == to
  }

  function ToRank(hosts: seq<nat>, from: nat, rank: nat): Move -> bool {
    (m: Move) => m.dst == rank && m.src < |hosts| && hosts[m.src] == from
  }

  /** A multiple of 128 elements that suffices for each of the pairs of ranks that two hosts
      have, if they share what moves between the hosts. */
  predicate Suffices(hosts: seq<nat>, moves: seq<Move>, from: nat, to: nat, part: nat) {
    && part % 128 == 0
    && Picked(moves, BetweenHosts(hosts, from, to)) <= Min(RanksOn(hosts, from), RanksOn(hosts, to)) * part
  }

  /** No rank sends another host, or receives from it, more than the least multiple that suffices. */
  ghost predicate RailsEven(hosts: seq<nat>, moves: seq<Move>) {
    && (forall rank: nat, to: nat, part: nat | rank < |hosts| && Suffices(hosts, moves, hosts[rank], to, part) ::
          Picked(moves, FromRank(hosts, rank, to)) <= part)
    && (forall rank: nat, from: nat, part: nat | rank < |hosts| && Suffices(hosts, moves, from, hosts[rank], part) ::
          Picked(moves, ToRank(hosts, from, rank)) <= part)
  }

  lemma {:induction false} PickedAppend(a: seq<Move>, b: seq<Move>, pick: Move -> bool)
    ensures Picked(a + b, pick) == Picked(a, pick) + Picked(b, pick)
  {
    if b == [] {
      assert a + b == a;
    } else {
      assert (a + b)[..|a + b| - 1] == a + b[..|b| - 1];
      PickedAppend(a, b[..|b| - 1], pick);
    }
  }

  lemma {:induction false} NonePicked(moves: seq<Move>, pick: Move -> bool)
    requires forall m :: m in moves ==> !pick(m)
    ensures Picked(moves, pick) == 0
  {
    if moves != [] {
      NonePicked(moves[..|moves| - 1], pick);
    }
  }

  lemma {:induction false} MembersCounted(hosts: seq<nat>, host: nat)
    ensures |Members(hosts, host)| == RanksOn(hosts, host)
  {
    if hosts != [] {
      MembersCounted(hosts[..|hosts| - 1], host);
    }
  }

  /** The slices' moves between hosts. */
  function HostMovesOf(slices: seq<Slice>): seq<Move> {
    MovesOf(slices, HostMoveOf)
  }

  /** The slice crosses between hosts on one of the rails. */
  ghost predicate OnRail(s: Slice, outs: seq<nat>, ins: seq<nat>) {
    exists j :: 0 <= j < |outs| && j < |ins| && s.hops == Routed(outs[j], ins[j])
  }

  lemma {:induction false} SplitOnRails(m: Move, outs: seq<nat>, ins: seq<nat>, part: nat, sent: nat)
    requires part > 0 && sent + m.numel <= |outs| * part && sent + m.numel <= |ins| * part
    ensures forall s :: s in Split(m, outs, ins, part, sent) ==> OnRail(s, outs, ins)
    decreases m.numel
  {
    hide Split;
    if m.numel == 0 {
      SplitNothing(m, outs, ins, part, sent);
    } else {
      RailOf(sent, part, |outs|);
      RailOf(sent, part, |ins|);
      var rail := sent / part;
      var room := (rail + 1) * part - sent;
      var take := if m.numel < room then m.numel else room;
      var first := Slice(m.src, m.dst, m.start, take, Routed(outs[rail], ins[rail]));
      SplitFirst(m, outs, ins, part, sent, first, take);
      SplitOnRails(Move(m.src, m.dst, m.start + take, m.numel - take), outs, ins, part, sent + take);
      assert OnRail(first, outs, ins);
    }
  }

  lemma {:induction false} SplitAllOnRails(moves: seq<Move>, outs: seq<nat>, ins: seq<nat>, part: nat)
    requires part > 0 && Sent(moves) <= |outs| * part && Sent(moves) <= |ins| * part
    ensures forall s :: s in SplitAll(moves, outs, ins, part) ==> OnRail(s, outs, ins)
  {
    hide Split, OnRail;
    if moves != [] {
      var before := moves[..|moves| - 1];
      SplitAllOnRails(before, outs, ins, part);
      SplitOnRails(moves[|moves| - 1], outs, ins, part, Sent(before));
    }
  }

  /** A move that slices give is that of one of them. */
  lemma {:induction false} MoveGiven(slices: seq<Slice>, m: Move) returns (s: Slice)
    requires m in HostMovesOf(slices)
    ensures s in slices && HostMoveOf(s) == Some(m)
  {
    s := slices[|slices| - 1];
    if HostMoveOf(s) != Some(m) {
      s := MoveGiven(slices[..|slices| - 1], m);
    }
  }

  lemma MoveOnRail(slices: seq<Slice>, outs: seq<nat>, ins: seq<nat>, m: Move) returns (j: nat)
    requires m in HostMovesOf(slices) && forall s :: s in slices ==> OnRail(s, outs, ins)
    ensures j < |outs| && j < |ins| && m.src == outs[j] && m.dst == ins[j]
  {
    var s := MoveGiven(slices, m);
    j :| 0 <= j < |outs| && j < |ins| && s.hops == Routed(outs[j], ins[j]);
  }

  /** Slices that all cross, by moves that are all picked, are picked whole. */
  lemma {:induction false} SplitPicked(m: Move, outs: seq<nat>, ins: seq<nat>, part: nat, sent: nat, pick: Move -> bool)
    requires part > 0 && sent + m.numel <= |outs| * part && sent + m.numel <= |ins| * part
    requires forall h: Move :: h.src in outs && h.dst in ins ==> pick(h)
    ensures Picked(HostMovesOf(Split(m, outs, ins, part, sent)), pick) == m.numel
    decreases m.numel
  {
    hide Split;
    if m.numel == 0 {
      SplitNothing(m, outs, ins, part, sent);
    } else {
      RailOf(sent, part, |outs|);
      RailOf(sent, part, |ins|);
      var rail := sent / part;
      var room := (rail + 1) * part - sent;
      var take := if m.numel < room then m.numel else room;
      var first := Slice(m.src, m.dst, m.start, take, Routed(outs[rail], ins[rail]));
      var rest := Move(m.src, m.dst, m.start + take, m.numel - take);
      SplitFirst(m, outs, ins, part, sent, first, take);
      SplitPicked(rest, outs, ins, part, sent + take, pick);
      FirstPicked(first, Split(rest, outs, ins, part, sent + take), pick);
      assert pick(Move(outs[rail], ins[rail], m.start, take));
    }
  }

  lemma FirstPicked(first: Slice, tail: seq<Slice>, pick: Move -> bool)
    requires first.hops.Routed?
    ensures var m := HostMoveOf(first).value;
            Picked(HostMovesOf([first] + tail), pick)
            == (if pick(m) then m.numel else 0) + Picked(HostMovesOf(tail), pick)
  {
    MovesOfAppend([first], tail, HostMoveOf);
    OneMoveOf(first);
    PickedAppend(HostMovesOf([first]), HostMovesOf(tail), pick);
  }

  lemma OneMoveOf(s: Slice)
    requires s.hops.Routed?
    ensures HostMovesOf([s]) == [HostMoveOf(s).value]
  {
    assert [s] == [] + [s];
    assert MovesOf([s], HostMoveOf) == MovesOf([s][..0], HostMoveOf) + [HostMoveOf(s).value];
  }

  lemma {:induction false} SplitAllPicked(moves: seq<Move>, outs: seq<nat>, ins: seq<nat>,
                                          part: nat, pick: Move -> bool)
    requires part > 0 && Sent(moves) <= |outs| * part && Sent(moves) <= |ins| * part
    requires forall h: Move :: h.src in outs && h.dst in ins ==> pick(h)
    ensures Picked(HostMovesOf(SplitAll(moves, outs, ins, part)), pick) == Sent(moves)
  {
    hide Split;
    if moves != [] {
      var before, m := moves[..|moves| - 1], moves[|moves| - 1];
      var a, b := SplitAll(before, outs, ins, part), Split(m, outs, ins, part, Sent(before));
      SplitAllPicked(before, outs, ins, part, pick);
      SplitPicked(m, outs, ins, part, Sent(before), pick);
      MovesOfAppend(a, b, HostMoveOf);
      PickedAppend(HostMovesOf(a), HostMovesOf(b), pick);
    }
  }

  /** Moves that all leave one relay are among what it carries. */
  lemma {:induction false} PickedCarried(slices: seq<Slice>, pick: Move -> bool, relay: nat)
    requires forall s :: s in slices ==> s.hops.Routed?
    requires forall s :: s in slices && pick(HostMoveOf(s).value) ==> s.hops.relayOut == relay
    ensures Picked(HostMovesOf(slices), pick) <= Carried(slices, relay)
  {
    if slices != [] {
      PickedCarried(slices[1..], pick, relay);
      assert slices == [slices[0]] + slices[1..];
      FirstPicked(slices[0], slices[1..], pick);
      CarriedFirst(slices[0], slices[1..], relay);
    }
  }

  /** No rank of either host has more than its part of a pair's moves. */
  lemma PairEven(moves: seq<Move>, outs: seq<nat>, ins: seq<nat>, part: nat, pick: Move -> bool, rank: nat, out: bool)
    requires part > 0 && Sent(moves) <= |outs| * part && Sent(moves) <= |ins| * part && |outs| == |ins|
    requires forall i, k :: 0 <= i < k < |outs| ==> outs[i] != outs[k] && ins[i] != ins[k]
    requires forall m: Move :: pick(m) ==> (if out then m.src else m.dst) == rank
    ensures Picked(HostMovesOf(SplitAll(moves, outs, ins, part)), pick) <= part
  {
    hide SplitAll, Split, Sent, Carried, Share;
    var slices := SplitAll(moves, outs, ins, part);
    SplitAllOnRails(moves, outs, ins, part);
    var side := if out then outs else ins;
    if rank in side {
      var j :| 0 <= j < |side| && side[j] == rank;
      forall s | s in slices && pick(HostMoveOf(s).value) ensures s.hops.relayOut == outs[j] {
        var k :| 0 <= k < |outs| && k < |ins| && s.hops == Routed(outs[k], ins[k]);
      }
      PickedCarried(slices, pick, outs[j]);
      RailsShareEvenly(moves, outs, ins, part, j);
    } else {
      forall m | m in HostMovesOf(slices) ensures !pick(m) {
        var j := MoveOnRail(slices, outs, ins, m);
      }
      NonePicked(HostMovesOf(slices), pick);
    }
  }

  /** What the pieces' host pairs other than `key` move isn't between its hosts. */
  lemma {:induction false} PairPicked(hosts: seq<nat>, keys: seq<(nat, nat)>, pieces: seq<Move>, key: (nat, nat),
                                      pick: Move -> bool)
    requires forall i, j :: 0 <= i < j < |keys| ==> keys[i] != keys[j]
    requires forall m :: pick(m) ==> BetweenHosts(hosts, key.0, key.1)(m)
    ensures Picked(HostMovesOf(RoutedForAll(hosts, keys, pieces)), pick)
         == if key in keys then Picked(HostMovesOf(RoutedFor(hosts, key, LeavingOf(hosts, key, pieces))), pick) else 0
  {
    hide RoutedFor, LeavingOf;
    if keys != [] {
      var n := |keys| - 1;
      PairPicked(hosts, keys[..n], pieces, key, pick);
      assert keys == keys[..n] + [keys[n]];
      var last := RoutedFor(hosts, keys[n], LeavingOf(hosts, keys[n], pieces));
      MovesOfAppend(RoutedForAll(hosts, keys[..n], pieces), last, HostMoveOf);
      PickedAppend(HostMovesOf(RoutedForAll(hosts, keys[..n], pieces)), HostMovesOf(last), pick);
      if keys[n] != key {
        forall m | m in HostMovesOf(last) ensures !pick(m) {
          RoutedBetween(hosts, keys[n], LeavingOf(hosts, keys[n], pieces), m);
        }
        NonePicked(HostMovesOf(last), pick);
      }
    }
  }

  lemma RoutedBetween(hosts: seq<nat>, key: (nat, nat), moves: seq<Move>, m: Move)
    requires m in HostMovesOf(RoutedFor(hosts, key, moves))
    ensures BetweenHosts(hosts, key.0, key.1)(m)
  {
    var rails := Rails(hosts, key);
    var outs, ins := Members(hosts, key.0)[..rails], Members(hosts, key.1)[..rails];
    var part := PartOf(Sent(moves), rails);
    SplitAllOnRails(moves, outs, ins, part);
    var j := MoveOnRail(SplitAll(moves, outs, ins, part), outs, ins, m);
    MembersAre(hosts, key.0);
    MembersAre(hosts, key.1);
    assert outs[j] == Members(hosts, key.0)[j] && ins[j] == Members(hosts, key.1)[j];
  }

  /** Moves of one rank, out of its host or into it, are no more than a part that suffices for
      all that moves between the two hosts. */
  lemma RankEven(hosts: seq<nat>, keys: seq<(nat, nat)>, pieces: seq<Move>, key: (nat, nat),
                 pick: Move -> bool, rank: nat,
                 out: bool, part: nat)
    requires forall i, j :: 0 <= i < j < |keys| ==> keys[i] != keys[j]
    requires forall m :: pick(m) ==> BetweenHosts(hosts, key.0, key.1)(m) && (if out then m.src else m.dst) == rank
    requires Suffices(hosts, HostMovesOf(RoutedForAll(hosts, keys, pieces)), key.0, key.1, part)
    ensures Picked(HostMovesOf(RoutedForAll(hosts, keys, pieces)), pick) <= part
  {
    hide HostMovesOf, RoutedForAll, LeavingOf, Picked, RanksOn, Members, BetweenHosts, PartOf, SplitAll, Sent;
    var between := BetweenHosts(hosts, key.0, key.1);
    PairPicked(hosts, keys, pieces, key, pick);
    PairPicked(hosts, keys, pieces, key, between);
    var moves, rails := LeavingOf(hosts, key, pieces), Rails(hosts, key);
    MembersCounted(hosts, key.0);
    MembersCounted(hosts, key.1);
    if key in keys && rails > 0 && Sent(moves) > 0 {
      var outs, ins, least := Members(hosts, key.0)[..rails], Members(hosts, key.1)[..rails],
          PartOf(Sent(moves), rails);
      RailsApart(hosts, key, rails);
      SplitAllPicked(moves, outs, ins, least, between);
      PairEven(moves, outs, ins, least, pick, rank, out);
      assert RoutedFor(hosts, key, moves) == SplitAll(moves, outs, ins, least);
      assert Picked(HostMovesOf(RoutedForAll(hosts, keys, pieces)), between) == Sent(moves);
      PartLeast(Sent(moves), rails, part);
    } else {
      NoMoves(pick);
    }
  }

  lemma NoMoves(pick: Move -> bool)
    ensures Picked(HostMovesOf([]), pick) == 0
  {
  }

  lemma PartLeast(total: nat, rails: nat, part: nat)
    requires rails > 0 && part % 128 == 0 && total <= rails * part
    ensures PartOf(total, rails) <= part
  {
    hide AlignUp, CeilDiv;
    PartIs(total, rails);
  }

  lemma RailsApart(hosts: seq<nat>, key: (nat, nat), rails: nat)
    requires rails == Rails(hosts, key)
    ensures rails <= |Members(hosts, key.0)| && rails <= |Members(hosts, key.1)|
    ensures var outs, ins := Members(hosts, key.0)[..rails], Members(hosts, key.1)[..rails];
            && (forall i, k :: 0 <= i < k < |outs| ==> outs[i] != outs[k] && ins[i] != ins[k])
            && (forall m: Move :: m.src in outs && m.dst in ins ==> BetweenHosts(hosts, key.0, key.1)(m))
  {
    hide Members;
    MembersAre(hosts, key.0);
    MembersAre(hosts, key.1);
  }

  lemma RoutesEven(hosts: seq<nat>, keys: seq<(nat, nat)>, pieces: seq<Move>)
    requires forall i, j :: 0 <= i < j < |keys| ==> keys[i] != keys[j]
    ensures RailsEven(hosts, HostMovesOf(RoutedForAll(hosts, keys, pieces)))
  {
    hide Suffices, HostMovesOf, RoutedForAll, Picked;
    var moves := HostMovesOf(RoutedForAll(hosts, keys, pieces));
    forall rank: nat, to: nat, part: nat | rank < |hosts| && Suffices(hosts, moves, hosts[rank], to, part)
      ensures Picked(moves, FromRank(hosts, rank, to)) <= part
    {
      RankEven(hosts, keys, pieces, (hosts[rank], to), FromRank(hosts, rank, to), rank, true, part);
    }
    forall rank: nat, from: nat, part: nat | rank < |hosts| && Suffices(hosts, moves, from, hosts[rank], part)
      ensures Picked(moves, ToRank(hosts, from, rank)) <= part
    {
      RankEven(hosts, keys, pieces, (from, hosts[rank]), ToRank(hosts, from, rank), rank, false, part);
    }
  }

  // ----- Planning: slots for what passes through a rank

  /** The relay slots of all ranks' buffers: where each starts, how much of each rank's
      buffer behind its chunk is used, and how long each is. */
  datatype Space = Space(offsets: map<(nat, nat), nat>, numels: map<nat, nat>, sizes: map<(nat, nat), nat>)

  /** Slots lie behind the chunk, below what their rank has used, and don't overlap. */
  ghost predicate SpaceOk(chunk: nat, sp: Space) {
    && sp.sizes.Keys == sp.offsets.Keys
    && (forall key :: key in sp.offsets ==>
          key.0 in sp.numels && chunk <= sp.offsets[key] && sp.offsets[key] + sp.sizes[key] <= chunk + sp.numels[key.0])
    && (forall key, key' :: key in sp.offsets && key' in sp.offsets && key.0 == key'.0 && key.1 != key'.1 ==>
          || sp.offsets[key] + sp.sizes[key] <= sp.offsets[key']
          || sp.offsets[key'] + sp.sizes[key'] <= sp.offsets[key])
  }

  function Used(numels: map<nat, nat>, rank: nat): nat {
    if rank in numels then numels[rank] else 0
  }

  /** The space after a rank holds the slice at `start`, unless it already has a place. */
  function Held(chunk: nat, sp: Space, rank: nat, start: nat, numel: nat): Space {
    if InChunk(chunk, rank, start) || (rank, start) in sp.offsets then sp
    else Space(sp.offsets[(rank, start) := chunk + Used(sp.numels, rank)],
               sp.numels[rank := Used(sp.numels, rank) + AlignUp(numel)],
               sp.sizes[(rank, start) := numel])
  }

  ghost predicate NewSlot(chunk: nat, sp: Space, rank: nat, start: nat, numel: nat, room: nat, sp': Space) {
    && SpaceOk(chunk, sp) && (rank, start) !in sp.offsets && numel <= room
    && sp' == Space(sp.offsets[(rank, start) := chunk + Used(sp.numels, rank)],
                    sp.numels[rank := Used(sp.numels, rank) + room],
                    sp.sizes[(rank, start) := numel])
  }

  lemma NewSlotApart(chunk: nat, sp: Space, rank: nat, start: nat, numel: nat, room: nat, sp': Space,
                     key: (nat, nat), key': (nat, nat))
    requires NewSlot(chunk, sp, rank, start, numel, room, sp')
    requires key in sp'.offsets && key' in sp'.offsets && key.0 == key'.0 && key.1 != key'.1
    requires key in sp'.sizes && key' in sp'.sizes
    ensures || sp'.offsets[key] + sp'.sizes[key] <= sp'.offsets[key']
            || sp'.offsets[key'] + sp'.sizes[key'] <= sp'.offsets[key]
  {
    if key == (rank, start) {
      assert key' in sp.offsets;
    } else if key' == (rank, start) {
      assert key in sp.offsets;
    }
  }

  lemma NewSlotOk(chunk: nat, sp: Space, rank: nat, start: nat, numel: nat, room: nat, sp': Space)
    requires NewSlot(chunk, sp, rank, start, numel, room, sp')
    ensures SpaceOk(chunk, sp')
  {
    NewSlotIn(chunk, sp, rank, start, numel, room, sp');
    forall key, key' | key in sp'.offsets && key' in sp'.offsets && key.0 == key'.0 && key.1 != key'.1
      ensures || sp'.offsets[key] + sp'.sizes[key] <= sp'.offsets[key']
              || sp'.offsets[key'] + sp'.sizes[key'] <= sp'.offsets[key]
    {
      NewSlotApart(chunk, sp, rank, start, numel, room, sp', key, key');
    }
    hide NewSlot;
  }

  lemma NewSlotIn(chunk: nat, sp: Space, rank: nat, start: nat, numel: nat, room: nat, sp': Space)
    requires NewSlot(chunk, sp, rank, start, numel, room, sp')
    ensures sp'.sizes.Keys == sp'.offsets.Keys
    ensures forall key :: key in sp'.offsets ==>
              && key.0 in sp'.numels && chunk <= sp'.offsets[key]
              && sp'.offsets[key] + sp'.sizes[key] <= chunk + sp'.numels[key.0]
  {
    assert sp'.sizes.Keys == sp.sizes.Keys + {(rank, start)} == sp'.offsets.Keys;
    forall key | key in sp'.offsets
      ensures key.0 in sp'.numels && chunk <= sp'.offsets[key]
      ensures sp'.offsets[key] + sp'.sizes[key] <= chunk + sp'.numels[key.0]
    {
      if key != (rank, start) {
        assert key in sp.offsets;
      }
    }
  }

  lemma HeldOk(chunk: nat, sp: Space, rank: nat, start: nat, numel: nat)
    requires SpaceOk(chunk, sp)
    ensures SpaceOk(chunk, Held(chunk, sp, rank, start, numel))
  {
    hide SpaceOk, AlignUp, InChunk;
    if !(InChunk(chunk, rank, start) || (rank, start) in sp.offsets) {
      AlignUpCovers(numel);
      NewSlotOk(chunk, sp, rank, start, numel, AlignUp(numel), Held(chunk, sp, rank, start, numel));
    }
  }

  /** The relay slots as planning fills them in, one behind the other. */
  class RelaySpace {
    const chunk: nat
    var offsets: map<(nat, nat), nat>
    var numels: map<nat, nat>
    ghost var sizes: map<(nat, nat), nat>

    constructor (chunk: nat)
      ensures Contents() == Space(map[], map[], map[]) && this.chunk == chunk
    {
      this.chunk := chunk;
      offsets, numels, sizes := map[], map[], map[];
    }

    ghost function Contents(): Space
      reads this
    {
      Space(offsets, numels, sizes)
    }

    method Hold(rank: nat, start: nat, numel: nat)
      modifies this
      ensures Contents() == Held(chunk, old(Contents()), rank, start, numel)
    {
      if InChunk(chunk, rank, start) || (rank, start) in offsets {
        return;
      }
      offsets := offsets[(rank, start) := chunk + Used(numels, rank)];
      numels := numels[rank := Used(numels, rank) + AlignUp(numel)];
      sizes := sizes[(rank, start) := numel];
    }

    method Longest() returns (m: nat)
      ensures forall r :: r in numels ==> numels[r] <= m
      ensures m == 0 || exists r :: r in numels && numels[r] == m
    {
      m := 0;
      var ranks := numels.Keys;
      while ranks != {}
        invariant ranks <= numels.Keys
        invariant forall r :: r in numels.Keys - ranks ==> numels[r] <= m
        invariant m == 0 || exists r :: r in numels && numels[r] == m
        decreases |ranks|
      {
        var r :| r in ranks;
        m := if m < numels[r] then numels[r] else m;
        ranks := ranks - {r};
      }
    }
  }

  /** All slots allocated so far are for whole slices of the route. */
  ghost predicate SlotsFor(route: map<nat, Slice>, sizes: map<(nat, nat), nat>) {
    forall key :: key in sizes ==> key.1 in route && route[key.1].start == key.1 && route[key.1].numel == sizes[key]
  }

  /** The space after holding the slices of moves, each at its source, its destination, or
      first one and then the other. */
  function HeldAll(chunk: nat, sp: Space, moves: seq<Move>, atSrc: bool, atDst: bool): Space {
    if moves == [] then sp
    else
      var m := moves[|moves| - 1];
      var before := HeldAll(chunk, sp, moves[..|moves| - 1], atSrc, atDst);
      var mid := if atSrc then Held(chunk, before, m.src, m.start, m.numel) else before;
      if atDst then Held(chunk, mid, m.dst, m.start, m.numel) else mid
  }

  ghost predicate SpaceFor(chunk: nat, route: map<nat, Slice>, sp: Space) {
    SpaceOk(chunk, sp) && SlotsFor(route, sp.sizes)
  }

  lemma HeldFor(chunk: nat, route: map<nat, Slice>, sp: Space, rank: nat, start: nat, numel: nat)
    requires SpaceFor(chunk, route, sp)
    requires start in route && route[start].start == start && route[start].numel == numel
    ensures var sp' := Held(chunk, sp, rank, start, numel);
            SpaceFor(chunk, route, sp') && sp.offsets.Keys <= sp'.offsets.Keys
                && HasSlot(chunk, sp'.offsets, rank, start)
  {
    HeldOk(chunk, sp, rank, start, numel);
  }

  lemma HeldMoveFor(chunk: nat, route: map<nat, Slice>, sp: Space, m: Move, atSrc: bool, atDst: bool)
      returns (sp': Space)
    requires SpaceFor(chunk, route, sp)
    requires m.start in route && route[m.start].start == m.start && route[m.start].numel == m.numel
    ensures var mid := if atSrc then Held(chunk, sp, m.src, m.start, m.numel) else sp;
            sp' == if atDst then Held(chunk, mid, m.dst, m.start, m.numel) else mid
    ensures SpaceFor(chunk, route, sp') && sp.offsets.Keys <= sp'.offsets.Keys
    ensures (atSrc ==> HasSlot(chunk, sp'.offsets, m.src, m.start))
    ensures (atDst ==> HasSlot(chunk, sp'.offsets, m.dst, m.start))
  {
    var mid := if atSrc then Held(chunk, sp, m.src, m.start, m.numel) else sp;
    sp' := if atDst then Held(chunk, mid, m.dst, m.start, m.numel) else mid;
    HeldFor(chunk, route, sp, m.src, m.start, m.numel);
    HeldFor(chunk, route, mid, m.dst, m.start, m.numel);
  }

  lemma SlotsOfLast(chunk: nat, offsets: map<(nat, nat), nat>, moves: seq<Move>, m: Move)
    ensures Sendable(chunk, offsets, moves + [m]) <==>
        Sendable(chunk, offsets, moves) && HasSlot(chunk, offsets, m.src, m.start)
    ensures Received(chunk, offsets, moves + [m]) <==>
        Received(chunk, offsets, moves) && HasSlot(chunk, offsets, m.dst, m.start)
  {
    var all := moves + [m];
    assert all[|moves|] == m;
    assert forall i :: 0 <= i < |moves| ==> all[i] == moves[i];
  }

  lemma {:induction false} HeldAllFor(chunk: nat, route: map<nat, Slice>, sp: Space,
                                      moves: seq<Move>, atSrc: bool, atDst: bool)
    requires SpaceFor(chunk, route, sp) && WholeSlices(route, moves)
    ensures var sp' := HeldAll(chunk, sp, moves, atSrc, atDst);
            && SpaceFor(chunk, route, sp') && sp.offsets.Keys <= sp'.offsets.Keys
            && (atSrc ==> Sendable(chunk, sp'.offsets, moves)) && (atDst ==> Received(chunk, sp'.offsets, moves))
  {
    if moves != [] {
      var m, rest := moves[|moves| - 1], moves[..|moves| - 1];
      HeldAllFor(chunk, route, sp, rest, atSrc, atDst);
      var before := HeldAll(chunk, sp, rest, atSrc, atDst);
      var sp' := HeldMoveFor(chunk, route, before, m, atSrc, atDst);
      SlotsStay(chunk, before.offsets, sp'.offsets, rest);
      assert sp' == HeldAll(chunk, sp, moves, atSrc, atDst);
      SlotsOfLast(chunk, sp'.offsets, rest, m);
      assert moves == rest + [m];
    }
  }

  /** All slots of a plan. */
  function SpaceOf(chunk: nat, moves: Moves): Space {
    var owned := HeldAll(chunk, Space(map[], map[], map[]), moves.owner, false, true);
    var crossed := HeldAll(chunk, owned, moves.host, true, true);
    HeldAll(chunk, crossed, moves.relay, true, false)
  }

  lemma SpaceOfFor(chunk: nat, route: map<nat, Slice>, moves: Moves)
    requires WholeSlices(route, moves.owner) && WholeSlices(route, moves.host) && WholeSlices(route, moves.relay)
    ensures var sp := SpaceOf(chunk, moves);
            && SpaceFor(chunk, route, sp)
            && Received(chunk, sp.offsets, moves.owner)
            && Sendable(chunk, sp.offsets, moves.host) && Received(chunk, sp.offsets, moves.host)
            && Sendable(chunk, sp.offsets, moves.relay)
  {
    var empty := Space(map[], map[], map[]);
    var owned := HeldAll(chunk, empty, moves.owner, false, true);
    var crossed := HeldAll(chunk, owned, moves.host, true, true);
    HeldAllFor(chunk, route, empty, moves.owner, false, true);
    HeldAllFor(chunk, route, owned, moves.host, true, true);
    HeldAllFor(chunk, route, crossed, moves.relay, true, false);
    SlotsStay(chunk, owned.offsets, SpaceOf(chunk, moves).offsets, moves.owner);
    SlotsStay(chunk, crossed.offsets, SpaceOf(chunk, moves).offsets, moves.host);
  }

  // ----- No slot too many

  /** Slots follow each other, and each rank has used what its last slot reaches to. */
  ghost predicate SpaceTight(chunk: nat, sp: Space) {
    && sp.sizes.Keys == sp.offsets.Keys
    && (forall key :: key in sp.offsets ==> sp.offsets[key] == chunk || SlotBefore(sp, key.0, sp.offsets[key]))
    && (forall rank :: rank in sp.numels ==> SlotBefore(sp, rank, chunk + sp.numels[rank]))
  }

  /** A slot of the rank ends, aligned, at `next`. */
  ghost predicate SlotBefore(sp: Space, rank: nat, next: nat)
    requires sp.sizes.Keys == sp.offsets.Keys
  {
    exists start :: (rank, start) in sp.offsets && NextSlot(sp.offsets[(rank, start)], sp.sizes[(rank, start)], next)
  }

  lemma HeldTight(chunk: nat, sp: Space, rank: nat, start: nat, numel: nat)
    requires SpaceTight(chunk, sp)
    ensures SpaceTight(chunk, Held(chunk, sp, rank, start, numel))
  {
    hide AlignUp, InChunk, SlotBefore;
    if !(InChunk(chunk, rank, start) || (rank, start) in sp.offsets) {
      var next := Held(chunk, sp, rank, start, numel);
      assert next.sizes.Keys == sp.sizes.Keys + {(rank, start)} == next.offsets.Keys;
      NewIsBefore(next, rank, start, chunk + Used(sp.numels, rank), numel);
      forall r: nat, end: nat | SlotBefore(sp, r, end) ensures SlotBefore(next, r, end) {
        BeforeStays(sp, next, r, end);
      }
    }
  }

  lemma NewIsBefore(sp: Space, rank: nat, start: nat, at: nat, numel: nat)
    requires sp.sizes.Keys == sp.offsets.Keys && (rank, start) in sp.offsets
    requires sp.offsets[(rank, start)] == at && sp.sizes[(rank, start)] == numel
    ensures SlotBefore(sp, rank, at + AlignUp(numel))
  {
    hide AlignUp, NextSlot;
    NextSlotIs(at, numel);
  }

  lemma BeforeStays(sp: Space, next: Space, rank: nat, end: nat)
    requires sp.sizes.Keys == sp.offsets.Keys && next.sizes.Keys == next.offsets.Keys && SlotBefore(sp, rank, end)
    requires forall key :: key in sp.offsets ==>
               key in next.offsets && next.offsets[key] == sp.offsets[key] && next.sizes[key] == sp.sizes[key]
    ensures SlotBefore(next, rank, end)
  {
    hide NextSlot;
    var start :| (rank, start) in sp.offsets && NextSlot(sp.offsets[(rank, start)], sp.sizes[(rank, start)], end);
    assert next.offsets[(rank, start)] == sp.offsets[(rank, start)];
  }

  lemma NextSlotIs(at: nat, numel: nat)
    ensures NextSlot(at, numel, at + AlignUp(numel))
  {
    AlignUpLeast(numel, 0);
    AlignUpCovers(numel);
  }

  lemma {:induction false} HeldAllTight(chunk: nat, sp: Space, moves: seq<Move>, atSrc: bool, atDst: bool)
    requires SpaceTight(chunk, sp)
    ensures SpaceTight(chunk, HeldAll(chunk, sp, moves, atSrc, atDst))
  {
    hide SpaceTight, Held;
    if moves != [] {
      var m := moves[|moves| - 1];
      HeldAllTight(chunk, sp, moves[..|moves| - 1], atSrc, atDst);
      var before := HeldAll(chunk, sp, moves[..|moves| - 1], atSrc, atDst);
      HeldTight(chunk, before, m.src, m.start, m.numel);
      var mid := if atSrc then Held(chunk, before, m.src, m.start, m.numel) else before;
      HeldTight(chunk, mid, m.dst, m.start, m.numel);
    }
  }

  lemma {:induction false} HeldAllNeeded(chunk: nat, sp: Space, moves: seq<Move>, atSrc: bool,
                                         atDst: bool, key: (nat, nat))
    requires key in HeldAll(chunk, sp, moves, atSrc, atDst).offsets
    ensures key in sp.offsets || (!InChunk(chunk, key.0, key.1) && NeededBy(moves, atSrc, atDst, key))
  {
    hide InChunk;
    if moves != [] {
      var m, rest := moves[|moves| - 1], moves[..|moves| - 1];
      var before := HeldAll(chunk, sp, rest, atSrc, atDst);
      assert m in moves;
      if key in before.offsets {
        HeldAllNeeded(chunk, sp, rest, atSrc, atDst, key);
      }
    }
  }

  lemma SpaceOfTight(chunk: nat, moves: Moves)
    ensures SpaceTight(chunk, SpaceOf(chunk, moves))
  {
    var empty := Space(map[], map[], map[]);
    var owned := HeldAll(chunk, empty, moves.owner, false, true);
    var crossed := HeldAll(chunk, owned, moves.host, true, true);
    HeldAllTight(chunk, empty, moves.owner, false, true);
    HeldAllTight(chunk, owned, moves.host, true, true);
    HeldAllTight(chunk, crossed, moves.relay, true, false);
  }

  lemma SpaceOfNeeded(chunk: nat, moves: Moves, key: (nat, nat))
    requires key in SpaceOf(chunk, moves).offsets
    ensures !InChunk(chunk, key.0, key.1)
    ensures NeededBy(moves.owner, false, true, key) || NeededBy(moves.host, true, true, key)
            || NeededBy(moves.relay, true, false, key)
  {
    hide InChunk, NeededBy;
    var empty := Space(map[], map[], map[]);
    var owned := HeldAll(chunk, empty, moves.owner, false, true);
    var crossed := HeldAll(chunk, owned, moves.host, true, true);
    HeldAllNeeded(chunk, crossed, moves.relay, true, false, key);
    if key in crossed.offsets {
      HeldAllNeeded(chunk, owned, moves.host, true, true, key);
      if key in owned.offsets {
        HeldAllNeeded(chunk, empty, moves.owner, false, true, key);
      }
    }
  }

  /** A plan's slots are those that its moves need, without gaps. */
  lemma PlanTight(plan: Plan, rows: seq<nat>, hosts: seq<nat>, route: map<nat, Slice>, sp: Space)
    requires Implements(plan, rows, hosts, route)
    requires sp == SpaceOf(plan.chunk, Moves(plan.ownerMoves, plan.hostMoves, plan.relayMoves))
    requires plan.relayOffsets == sp.offsets
    requires plan.bufferNumel == plan.chunk || exists r :: r in sp.numels
                                                && plan.chunk + sp.numels[r] == plan.bufferNumel
    ensures SlotsTight(plan, route) && SlotsNeeded(plan)
  {
    var moves := Moves(plan.ownerMoves, plan.hostMoves, plan.relayMoves);
    ImplementsParts(plan, rows, hosts, route);
    hide Implements, WholeSlices, SpaceOf, SlotsOk, SlotsTight, SpaceTight, SlotsNeeded;
    SpaceOfTight(plan.chunk, moves);
    SpaceOfSizes(plan.chunk, route, moves);
    TightInPlan(plan, route, sp);
    NeededInPlan(plan);
  }

  lemma NeededInPlan(plan: Plan)
    requires plan.relayOffsets == SpaceOf(plan.chunk, Moves(plan.ownerMoves, plan.hostMoves, plan.relayMoves)).offsets
    ensures SlotsNeeded(plan)
  {
    hide SpaceOf, NeededBy, InChunk;
    var moves := Moves(plan.ownerMoves, plan.hostMoves, plan.relayMoves);
    forall key | key in plan.relayOffsets
      ensures !InChunk(plan.chunk, key.0, key.1)
      ensures NeededBy(moves.owner, false, true, key) || NeededBy(moves.host, true, true, key)
              || NeededBy(moves.relay, true, false, key)
    {
      SpaceOfNeeded(plan.chunk, moves, key);
    }
  }

  lemma ImplementsParts(plan: Plan, rows: seq<nat>, hosts: seq<nat>, route: map<nat, Slice>)
    requires Implements(plan, rows, hosts, route)
    ensures SlotsOk(plan, route) && WholeSlices(route, plan.ownerMoves) && WholeSlices(route, plan.hostMoves)
    ensures WholeSlices(route, plan.relayMoves)
  {
    hide SlotsOk, WholeSlices, Tiles, MovesAre, SliceOk, Received, Sendable;
  }

  lemma TightInPlan(plan: Plan, route: map<nat, Slice>, sp: Space)
    requires SlotsOk(plan, route) && SpaceTight(plan.chunk, sp) && plan.relayOffsets == sp.offsets
    requires forall key :: key in sp.sizes ==> key.1 in route && route[key.1].numel == sp.sizes[key]
    requires plan.bufferNumel == plan.chunk || exists r :: r in sp.numels
                                                && plan.chunk + sp.numels[r] == plan.bufferNumel
    ensures SlotsTight(plan, route)
  {
    hide SlotsOk, NextSlot, SlotBefore, HasBefore;
    forall key | key in sp.offsets && sp.offsets[key] != plan.chunk ensures HasBefore(plan, route, key) {
      var other := SlotInPlan(plan, route, sp, key.0, sp.offsets[key]);
      SlotIsBefore(plan, route, key, other);
    }
    if plan.bufferNumel != plan.chunk {
      var r :| r in sp.numels && plan.chunk + sp.numels[r] == plan.bufferNumel;
      var other := SlotInPlan(plan, route, sp, r, plan.bufferNumel);
    }
  }

  lemma SlotInPlan(plan: Plan, route: map<nat, Slice>, sp: Space, rank: nat, next: nat) returns (other: (nat, nat))
    requires sp.sizes.Keys == sp.offsets.Keys && SlotBefore(sp, rank, next) && plan.relayOffsets == sp.offsets
    requires forall key :: key in sp.sizes ==> key.1 in route && route[key.1].numel == sp.sizes[key]
    ensures other in plan.relayOffsets && other.0 == rank && other.1 in route
    ensures NextSlot(plan.relayOffsets[other], route[other.1].numel, next)
  {
    hide NextSlot;
    var start :| (rank, start) in sp.offsets && NextSlot(sp.offsets[(rank, start)], sp.sizes[(rank, start)], next);
    other := (rank, start);
    assert other in sp.sizes;
  }

  lemma SlotIsBefore(plan: Plan, route: map<nat, Slice>, key: (nat, nat), other: (nat, nat))
    requires SlotsOk(plan, route) && key in plan.relayOffsets && other in plan.relayOffsets && other.0 == key.0
    requires NextSlot(plan.relayOffsets[other], route[other.1].numel, plan.relayOffsets[key])
    ensures HasBefore(plan, route, key)
  {
    hide NextSlot;
  }

  lemma SpaceOfSizes(chunk: nat, route: map<nat, Slice>, moves: Moves)
    requires WholeSlices(route, moves.owner) && WholeSlices(route, moves.host) && WholeSlices(route, moves.relay)
    ensures var sp := SpaceOf(chunk, moves);
            && sp.sizes.Keys == sp.offsets.Keys
            && forall key :: key in sp.sizes ==> key.1 in route && route[key.1].numel == sp.sizes[key]
  {
    SpaceOfFor(chunk, route, moves);
  }

  method AllocateRelays(moves: Moves, chunk: nat) returns (space: RelaySpace)
    ensures fresh(space) && space.chunk == chunk && space.Contents() == SpaceOf(chunk, moves)
  {
    space := new RelaySpace(chunk);
    ghost var empty := space.Contents();
    for i := 0 to |moves.owner|
      invariant space.Contents() == HeldAll(chunk, empty, moves.owner[..i], false, true)
    {
      assert moves.owner[..i + 1][..i] == moves.owner[..i];
      space.Hold(moves.owner[i].dst, moves.owner[i].start, moves.owner[i].numel);
    }
    ghost var owned := space.Contents();
    for i := 0 to |moves.host|
      invariant space.Contents() == HeldAll(chunk, owned, moves.host[..i], true, true)
    {
      assert moves.host[..i + 1][..i] == moves.host[..i];
      space.Hold(moves.host[i].src, moves.host[i].start, moves.host[i].numel);
      space.Hold(moves.host[i].dst, moves.host[i].start, moves.host[i].numel);
    }
    ghost var crossed := space.Contents();
    for i := 0 to |moves.relay|
      invariant space.Contents() == HeldAll(chunk, crossed, moves.relay[..i], true, false)
    {
      assert moves.relay[..i + 1][..i] == moves.relay[..i];
      space.Hold(moves.relay[i].src, moves.relay[i].start, moves.relay[i].numel);
    }
    assert moves.owner[..|moves.owner|] == moves.owner && moves.host[..|moves.host|] == moves.host;
    assert moves.relay[..|moves.relay|] == moves.relay;
  }

  lemma SlotsStay(chunk: nat, offsets: map<(nat, nat), nat>, offsets': map<(nat, nat), nat>, moves: seq<Move>)
    requires offsets.Keys <= offsets'.Keys
    ensures Received(chunk, offsets, moves) ==> Received(chunk, offsets', moves)
    ensures Sendable(chunk, offsets, moves) ==> Sendable(chunk, offsets', moves)
  {
    forall i | 0 <= i < |moves|
      ensures HasSlot(chunk, offsets, moves[i].dst, moves[i].start)
          ==> HasSlot(chunk, offsets', moves[i].dst, moves[i].start)
      ensures HasSlot(chunk, offsets, moves[i].src, moves[i].start)
          ==> HasSlot(chunk, offsets', moves[i].src, moves[i].start)
    {
    }
  }

  // ----- The planner

  lemma ChunksCover(rows: seq<nat>)
    requires |rows| > 0
    ensures Total(rows) <= |rows| * AlignUp(CeilDiv(Total(rows), |rows|))
  {
    CeilDivCovers(Total(rows), |rows|);
    AlignUpCovers(CeilDiv(Total(rows), |rows|));
    MulMonotone(CeilDiv(Total(rows), |rows|), AlignUp(CeilDiv(Total(rows), |rows|)), |rows|);
  }

  /** For any row lengths and any assignment of ranks to hosts, the plan's moves carry
      every position from its owner to the rank whose chunk holds it, over slots that
      don't overlap. */
  method PlanOwnerRowsTransport(rows: seq<nat>, hosts: seq<nat>) returns (r: Result<Plan>, ghost route: map<nat, Slice>)
    ensures r.HostsMismatch? <==> |hosts| != |rows|
    ensures r.NoRanks? <==> |hosts| == |rows| == 0
    ensures r.Ok? ==> Implements(r.value, rows, hosts, route)
    ensures r.Ok? ==> r.value.chunk == AlignUp(CeilDiv(Total(rows), |rows|))
    ensures r.Ok? ==> IsPart(r.value.chunk, Total(rows), |rows|)
    ensures r.Ok? ==> RailsEven(hosts, r.value.hostMoves)
    ensures r.Ok? ==> SlotsTight(r.value, route) && SlotsNeeded(r.value)
  {
    hide SlicesTile, Implements, RailsEven, IsPart, SlotsTight, SlotsNeeded, Pieces, LeavingListed, DirectOf,
         RoutedForAll, AllMovesOf, StayOf, SpaceOf, Route, Total;
    route := map[];
    if |hosts| != |rows| {
      return HostsMismatch, route;
    }
    if |rows| == 0 {
      return NoRanks, route;
    }
    var chunk := AlignUp(CeilDiv(Total(rows), |rows|));
    ChunksCover(rows);
    var direct, keys, leaving;
    ghost var pieces;
    direct, keys, leaving, pieces := CutRows(rows, hosts, chunk);
    SomeInPieces(rows, chunk, pieces);
    var routed;
    ghost var across;
    routed, across := RouteLeaving(hosts, keys, leaving, pieces);
    var moves := Moves(direct + routed.owner, routed.host, routed.relay);
    var space := AllocateRelays(moves, chunk);
    var longest := space.Longest();
    var plan := Plan(chunk, |rows| * chunk, moves.owner, moves.host, moves.relay, space.offsets, chunk + longest);
    route := PlanImplements(rows, hosts, plan, pieces, keys, leaving, space.Contents());
    PlanTight(plan, rows, hosts, route, space.Contents());
    KeysOnce(hosts, pieces, keys, leaving);
    RoutesEven(hosts, keys, pieces);
    HostMovesAre(across);
    PartIs(Total(rows), |rows|);
    r := Ok(plan);
  }

  lemma KeysOnce(hosts: seq<nat>, pieces: seq<Move>, keys: seq<(nat, nat)>, leaving: map<(nat, nat), seq<Move>>)
    requires LeavingListed(hosts, pieces, keys, leaving)
    ensures forall i, j :: 0 <= i < j < |keys| ==> keys[i] != keys[j]
  {
  }

  lemma HostMovesAre(slices: seq<Slice>)
    ensures HostMovesOf(slices) == AllMovesOf(slices).host
  {
  }

  lemma PlanMoves(hosts: seq<nat>, pieces: seq<Move>, across: seq<Slice>)
    ensures var routed := AllMovesOf(across);
            AllMovesOf(StayOf(hosts, pieces) + across)
            == Moves(DirectOf(hosts, pieces) + routed.owner, routed.host, routed.relay)
  {
    StayMoves(hosts, pieces);
    AllMovesAppend(StayOf(hosts, pieces), across);
    var routed := AllMovesOf(across);
    assert [] + routed.host == routed.host && [] + routed.relay == routed.relay;
  }

  lemma SlotsFit(plan: Plan, moves: Moves, route: map<nat, Slice>, sp: Space)
    requires WholeSlices(route, moves.owner) && WholeSlices(route, moves.host) && WholeSlices(route, moves.relay)
    requires sp == SpaceOf(plan.chunk, moves) && plan.relayOffsets == sp.offsets
    requires forall r :: r in sp.numels ==> plan.chunk + sp.numels[r] <= plan.bufferNumel
    ensures SlotsOk(plan, route)
    ensures Received(plan.chunk, plan.relayOffsets, moves.owner)
    ensures Sendable(plan.chunk, plan.relayOffsets, moves.host) && Received(plan.chunk, plan.relayOffsets, moves.host)
    ensures Sendable(plan.chunk, plan.relayOffsets, moves.relay)
  {
    SpaceOfFor(plan.chunk, route, moves);
    forall key | key in plan.relayOffsets
      ensures && key.1 in route && route[key.1].start == key.1
              && plan.chunk <= plan.relayOffsets[key]
              && plan.relayOffsets[key] + route[key.1].numel <= plan.bufferNumel
    {
      assert key in sp.sizes;
    }
  }

  lemma RouteImplements(rows: seq<nat>, hosts: seq<nat>, chunk: nat, slices: seq<Slice>)
    requires SlicesTile(rows, hosts, chunk, slices)
    ensures var route := Route(slices, Total(rows));
            && Tiles(route)
            && (forall p :: p in route ==> SliceOk(rows, hosts, chunk, route[p]))
            && MovesAre(AllMovesOf(slices).owner, route, OwnerMoveOf)
            && MovesAre(AllMovesOf(slices).host, route, HostMoveOf)
            && MovesAre(AllMovesOf(slices).relay, route, RelayMoveOf)
            && WholeSlices(route, AllMovesOf(slices).owner)
            && WholeSlices(route, AllMovesOf(slices).host)
            && WholeSlices(route, AllMovesOf(slices).relay)
  {
    RouteTiles(rows, hosts, chunk, slices);
    MovesMatchRoute(rows, hosts, chunk, slices, OwnerMoveOf);
    MovesMatchRoute(rows, hosts, chunk, slices, HostMoveOf);
    MovesMatchRoute(rows, hosts, chunk, slices, RelayMoveOf);
  }

  lemma SomeInPieces(rows: seq<nat>, chunk: nat, pieces: seq<Move>)
    requires Pieces(rows, chunk, pieces, Total(rows))
    ensures forall i :: 0 <= i < |pieces| ==> pieces[i].numel > 0
  {
  }

  /** The plan that sends these pieces implements a route. */
  lemma PlanImplements(rows: seq<nat>, hosts: seq<nat>, plan: Plan, pieces: seq<Move>, keys: seq<(nat, nat)>,
                       leaving: map<(nat, nat), seq<Move>>, sp: Space) returns (route: map<nat, Slice>)
    requires |hosts| == |rows| > 0 && plan.gathered == |rows| * plan.chunk && Total(rows) <= plan.gathered
    requires Pieces(rows, plan.chunk, pieces, Total(rows)) && LeavingListed(hosts, pieces, keys, leaving)
    requires var across := AllMovesOf(RoutedForAll(hosts, keys, pieces));
             && plan.ownerMoves == DirectOf(hosts, pieces) + across.owner
             && plan.hostMoves == across.host && plan.relayMoves == across.relay
    requires sp == SpaceOf(plan.chunk, Moves(plan.ownerMoves, plan.hostMoves, plan.relayMoves))
    requires plan.relayOffsets == sp.offsets && plan.chunk <= plan.bufferNumel
    requires forall r :: r in sp.numels ==> plan.chunk + sp.numels[r] <= plan.bufferNumel
    ensures Implements(plan, rows, hosts, route)
  {
    hide Pieces, LeavingListed, DirectOf, RoutedForAll, AllMovesOf, StayOf, SpaceOf, MovesAre, WholeSlices, SlotsOk,
         Received, Sendable, Tiles, SliceOk, Total;
    var slices := StayOf(hosts, pieces) + RoutedForAll(hosts, keys, pieces);
    PlanSlicesTile(rows, hosts, plan.chunk, pieces, keys, leaving);
    PlanMoves(hosts, pieces, RoutedForAll(hosts, keys, pieces));
    route := Route(slices, Total(rows));
    RouteImplements(rows, hosts, plan.chunk, slices);
    SlotsFit(plan, Moves(plan.ownerMoves, plan.hostMoves, plan.relayMoves), route, sp);
  }
}
