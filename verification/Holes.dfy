/** Intervals with holes cut out of them. */
module Holes {

  datatype Hole = Hole(start: nat, numel: nat)

  predicate Covers(start: nat, numel: nat, p: nat) {
    start <= p < start + numel
  }

  predicate HoleLe(a: Hole, b: Hole) {
    a.start < b.start || (a.start == b.start && a.numel <= b.numel)
  }

  predicate SortedHoles(holes: seq<Hole>) {
    forall i, j :: 0 <= i < j < |holes| ==> HoleLe(holes[i], holes[j])
  }

  function InsertHole(h: Hole, holes: seq<Hole>): seq<Hole> {
    if holes == [] || HoleLe(h, holes[0]) then [h] + holes else [holes[0]] + InsertHole(h, holes[1..])
  }

  /** The holes in order of their starts, then of their lengths. */
  function SortHoles(holes: seq<Hole>): seq<Hole> {
    if holes == [] then [] else InsertHole(holes[0], SortHoles(holes[1..]))
  }

  lemma {:induction false} InsertHoleSorts(h: Hole, holes: seq<Hole>)
    requires SortedHoles(holes)
    ensures SortedHoles(InsertHole(h, holes)) && multiset(InsertHole(h, holes)) == multiset(holes) + multiset{h}
  {
    InsertHoleAdds(h, holes);
    if holes != [] && !HoleLe(h, holes[0]) {
      InsertHoleSorts(h, holes[1..]);
      InsertHoleAdds(h, holes[1..]);
      var rest := InsertHole(h, holes[1..]);
      forall j | 0 <= j < |rest| ensures HoleLe(holes[0], rest[j]) {
        assert rest[j] in multiset(rest);
        if rest[j] != h {
          assert rest[j] in holes[1..];
        }
      }
    }
  }

  lemma {:induction false} InsertHoleAdds(h: Hole, holes: seq<Hole>)
    ensures multiset(InsertHole(h, holes)) == multiset(holes) + multiset{h}
  {
    if holes != [] && !HoleLe(h, holes[0]) {
      InsertHoleAdds(h, holes[1..]);
      assert holes == [holes[0]] + holes[1..];
    }
  }

  lemma {:induction false} SortHolesSorts(holes: seq<Hole>)
    ensures SortedHoles(SortHoles(holes)) && multiset(SortHoles(holes)) == multiset(holes)
  {
    if holes != [] {
      SortHolesSorts(holes[1..]);
      InsertHoleSorts(holes[0], SortHoles(holes[1..]));
      assert holes == [holes[0]] + holes[1..];
    }
  }

  ghost predicate InHole(holes: seq<Hole>, p: nat) {
    exists i :: 0 <= i < |holes| && Covers(holes[i].start, holes[i].numel, p)
  }

  ghost predicate HolesWithin(start: nat, numel: nat, holes: seq<Hole>) {
    forall i :: 0 <= i < |holes| ==> start <= holes[i].start && holes[i].start + holes[i].numel <= start + numel
  }

  lemma InHoleAppend(holes: seq<Hole>, h: Hole, p: nat)
    ensures InHole(holes + [h], p) <==> InHole(holes, p) || Covers(h.start, h.numel, p)
  {
    var all := holes + [h];
    if i :| 0 <= i < |holes| && Covers(holes[i].start, holes[i].numel, p) {
      assert all[i] == holes[i];
    } else if Covers(h.start, h.numel, p) {
      assert all[|holes|] == h;
    }
  }

  /** `left` is what `start..position` is without the holes, which end by `position`. */
  ghost predicate LeftSoFar(start: nat, position: nat, holes: seq<Hole>, left: seq<Hole>) {
    && start <= position && (position == start || EndsAt(holes, position))
    && (forall i :: 0 <= i < |holes| ==> holes[i].start + holes[i].numel <= position)
    && (forall p: nat :: InHole(left, p) <==> start <= p < position && !InHole(holes, p))
    && (forall i :: 0 <= i < |left| ==> left[i].numel > 0 && left[i].start + left[i].numel <= position)
    && (forall i, j :: 0 <= i < j < |left| ==> left[i].start + left[i].numel <= left[j].start)
  }

  predicate EndsAt(holes: seq<Hole>, position: nat) {
    exists i :: 0 <= i < |holes| && holes[i].start + holes[i].numel == position
  }

  lemma NextHole(start: nat, position: nat, holes: seq<Hole>, left: seq<Hole>, hole: Hole,
                 left': seq<Hole>, position': nat)
    requires LeftSoFar(start, position, holes, left)
    requires forall i :: 0 <= i < |left| ==> left[i].start + left[i].numel <= hole.start
    requires left' == left + if hole.start > position then [Hole(position, hole.start - position)] else []
    requires position' == if position < hole.start + hole.numel then hole.start + hole.numel else position
    ensures LeftSoFar(start, position', holes + [hole], left')
  {
    hide InHole;
    forall p: nat
      ensures InHole(left', p) <==> start <= p < position' && !InHole(holes + [hole], p)
    {
      InHoleAppend(holes, hole, p);
      PastHoles(holes, position, p);
      BeforeHole(left, hole.start, p);
      if hole.start > position {
        InHoleAppend(left, Hole(position, hole.start - position), p);
        assert left' == left + [Hole(position, hole.start - position)];
      } else {
        assert left' == left;
      }
    }
    if position' != start {
      EndsAtMore(holes, hole, position, position');
    }
  }

  lemma PastHoles(holes: seq<Hole>, position: nat, p: nat)
    requires forall i :: 0 <= i < |holes| ==> holes[i].start + holes[i].numel <= position
    ensures p >= position ==> !InHole(holes, p)
  {
  }

  lemma BeforeHole(left: seq<Hole>, end: nat, p: nat)
    requires forall i :: 0 <= i < |left| ==> left[i].start + left[i].numel <= end
    ensures InHole(left, p) ==> p < end
  {
  }

  lemma EndsAtMore(holes: seq<Hole>, hole: Hole, position: nat, position': nat)
    requires (position' == position && EndsAt(holes, position)) || position' == hole.start + hole.numel
    ensures EndsAt(holes + [hole], position')
  {
    var all := holes + [hole];
    if position' == hole.start + hole.numel {
      assert all[|holes|] == hole;
    } else {
      var i :| 0 <= i < |holes| && holes[i].start + holes[i].numel == position;
      assert all[i] == holes[i];
    }
  }

  /** Some hole starts behind the position. */
  ghost predicate HoleBehind(holes: seq<Hole>, p: nat) {
    exists i :: 0 <= i < |holes| && holes[i].start > p
  }

  /** What `left` must be: it reaches as far as the interval or the last hole. */
  ghost predicate IsLeft(start: nat, numel: nat, holes: seq<Hole>, left: seq<Hole>) {
    forall p: nat :: InHole(left, p) <==> start <= p && (p < start + numel || HoleBehind(holes, p)) && !InHole(holes, p)
  }

  lemma AllLeft(start: nat, position: nat, numel: nat, holes: seq<Hole>, left: seq<Hole>, end: nat)
    requires LeftSoFar(start, position, holes, left)
    requires end == if position < start + numel then start + numel else position
    ensures forall p: nat :: start <= p < end && !InHole(holes, p) <==>
                             start <= p && (p < start + numel || HoleBehind(holes, p)) && !InHole(holes, p)
  {
    forall p: nat | start + numel <= p && !InHole(holes, p) ensures p < end <==> HoleBehind(holes, p) {
      if p < end {
        var i :| 0 <= i < |holes| && holes[i].start + holes[i].numel == position;
        assert !Covers(holes[i].start, holes[i].numel, p);
      }
    }
  }

  lemma LastLeft(start: nat, position: nat, numel: nat, holes: seq<Hole>, left: seq<Hole>)
    requires LeftSoFar(start, position, holes, left) && position < start + numel
    ensures var all := left + [Hole(position, start + numel - position)];
            && IsLeft(start, numel, holes, all)
            && (forall i :: 0 <= i < |all| ==> all[i].numel > 0)
            && forall i, j :: 0 <= i < j < |all| ==> all[i].start + all[i].numel <= all[j].start
  {
    hide InHole, HoleBehind;
    AllLeft(start, position, numel, holes, left, start + numel);
    var last := Hole(position, start + numel - position);
    forall p: nat
      ensures InHole(left + [last], p) <==> start <= p < start + numel && !InHole(holes, p)
    {
      InHoleAppend(left, last, p);
      PastHoles(holes, position, p);
    }
  }

  lemma NothingLeft(start: nat)
    ensures LeftSoFar(start, start, [], [])
  {
  }

  /** Holes inside the interval take just their positions out of it. */
  lemma LeftOfInside(start: nat, numel: nat, holes: seq<Hole>, left: seq<Hole>)
    requires IsLeft(start, numel, holes, left) && HolesWithin(start, numel, holes)
    ensures forall p: nat :: InHole(left, p) <==> Covers(start, numel, p) && !InHole(holes, p)
  {
    hide InHole;
    forall p: nat ensures HoleBehind(holes, p) ==> p < start + numel {
    }
  }

  /** What is left of an interval without some holes. A hole behind the end leaves what comes before
      it, too. */
  method Subtract(start: nat, numel: nat, holes: seq<Hole>) returns (left: seq<Hole>)
    ensures IsLeft(start, numel, holes, left)
    ensures HolesWithin(start, numel, holes) ==>
              forall p: nat :: InHole(left, p) <==> Covers(start, numel, p) && !InHole(holes, p)
    ensures forall i :: 0 <= i < |left| ==> left[i].numel > 0
    ensures forall i, j :: 0 <= i < j < |left| ==> left[i].start + left[i].numel <= left[j].start
  {
    hide InHole, SortHoles, LeftSoFar, IsLeft, HolesWithin;
    var sorted := SortHoles(holes);
    SortHolesSorts(holes);
    NothingLeft(start);
    var position: nat := start;
    left := [];
    for k := 0 to |sorted|
      invariant LeftSoFar(start, position, sorted[..k], left)
      invariant forall i, j :: 0 <= i < |left| && k <= j < |sorted| ==> left[i].start + left[i].numel <= sorted[j].start
    {
      var hole := sorted[k];
      ghost var before, position0 := left, position;
      if hole.start > position {
        left := left + [Hole(position, hole.start - position)];
      }
      position := if position < hole.start + hole.numel then hole.start + hole.numel else position;
      NextHole(start, position0, sorted[..k], before, hole, left, position);
      assert sorted[..k + 1] == sorted[..k] + [hole];
    }
    assert sorted[..|sorted|] == sorted;
    if position < start + numel {
      LastLeft(start, position, numel, sorted, left);
      left := left + [Hole(position, start + numel - position)];
    } else {
      NoneLast(start, position, numel, sorted, left);
    }
    LeftOfSame(start, numel, sorted, holes, left);
    if HolesWithin(start, numel, holes) {
      LeftOfInside(start, numel, holes, left);
    }
  }

  lemma NoneLast(start: nat, position: nat, numel: nat, holes: seq<Hole>, left: seq<Hole>)
    requires LeftSoFar(start, position, holes, left) && position >= start + numel
    ensures IsLeft(start, numel, holes, left)
    ensures forall i :: 0 <= i < |left| ==> left[i].numel > 0
    ensures forall i, j :: 0 <= i < j < |left| ==> left[i].start + left[i].numel <= left[j].start
  {
    hide InHole, HoleBehind;
    AllLeft(start, position, numel, holes, left, position);
  }

  /** The order of the holes doesn't matter. */
  lemma LeftOfSame(start: nat, numel: nat, a: seq<Hole>, b: seq<Hole>, left: seq<Hole>)
    requires IsLeft(start, numel, a, left) && multiset(a) == multiset(b)
    ensures IsLeft(start, numel, b, left)
  {
    hide InHole, HoleBehind;
    forall p: nat ensures (InHole(a, p) <==> InHole(b, p)) && (HoleBehind(a, p) <==> HoleBehind(b, p)) {
      SameHoles(a, b, p);
      SameHoles(b, a, p);
    }
  }

  lemma SameHoles(a: seq<Hole>, b: seq<Hole>, p: nat)
    requires multiset(a) == multiset(b)
    ensures (InHole(a, p) ==> InHole(b, p)) && (HoleBehind(a, p) ==> HoleBehind(b, p))
  {
    if i :| 0 <= i < |a| && Covers(a[i].start, a[i].numel, p) {
      assert a[i] in multiset(a);
      assert a[i] in b;
    }
    if i :| 0 <= i < |a| && a[i].start > p {
      assert a[i] in multiset(a);
      assert a[i] in b;
    }
  }
}
