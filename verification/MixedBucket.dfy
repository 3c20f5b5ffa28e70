/** A bucket of several placement groups in one row per rank. Groups that one rank owns share a
    region at the start of the row, each rank's groups overlaying the others'; the rest of the row
    has the groups of all ranks. */
module MixedBucket {
  import opened Multiples

  datatype Owner = Shared | Exclusive(rank: nat)

  datatype Group = Group(owner: Owner, numel: nat, alignment: nat)

  /** Where each group starts, how long rows are, and where the shared region ends that owners
      overlay. */
  datatype Plan = Plan(offsets: seq<nat>, rowNumel: nat, exclusive: nat)

  predicate GroupsOk(groups: seq<Group>, worldSize: nat) {
    forall i :: 0 <= i < |groups| ==>
        groups[i].alignment > 0 && (groups[i].owner.Exclusive? ==> groups[i].owner.rank < worldSize)
  }

  function End(groups: seq<Group>, offsets: seq<nat>, i: nat): nat
    requires i < |offsets| && i < |groups|
  {
    offsets[i] + groups[i].numel
  }

  /** Groups of one owner, and shared groups, don't overlap; those of an owner lie before the end of
      the exclusive region, shared ones behind it. */
  predicate Fits(groups: seq<Group>, plan: Plan) {
    && |plan.offsets| == |groups|
    && plan.exclusive <= plan.rowNumel
    && (forall i :: 0 <= i < |groups| && groups[i].owner.Exclusive? ==> End(groups, plan.offsets, i) <= plan.exclusive)
    && (forall i :: 0 <= i < |groups| && groups[i].owner.Shared? ==>
          plan.exclusive <= plan.offsets[i] && End(groups, plan.offsets, i) <= plan.rowNumel)
    && (forall i, j :: 0 <= i < j < |groups| && groups[i].owner == groups[j].owner
         ==> End(groups, plan.offsets, i) <= plan.offsets[j])
  }

  predicate AllUnaligned(groups: seq<Group>) {
    forall i :: 0 <= i < |groups| ==> groups[i].alignment == 1
  }

  ghost predicate InShared(groups: seq<Group>, offsets: seq<nat>, p: int)
    requires |offsets| == |groups|
  {
    exists i :: 0 <= i < |groups| && groups[i].owner.Shared? && offsets[i] <= p < End(groups, offsets, i)
  }

  function MaxShared(groups: seq<Group>): (m: nat)
    ensures forall i :: 0 <= i < |groups| && groups[i].owner.Shared? ==> groups[i].alignment <= m
    ensures m == 1 || exists i :: 0 <= i < |groups| && groups[i].owner.Shared? && groups[i].alignment == m
  {
    if groups == [] then 1
    else
      var n := |groups| - 1;
      var m := MaxShared(groups[..n]);
      if groups[n].owner.Shared? && m < groups[n].alignment then groups[n].alignment else m
  }

  /** Where the groups of an owner start in the row. */
  function Base(plan: Plan, owner: Owner): nat {
    if owner.Shared? then plan.exclusive else 0
  }

  /** Of the first `n` groups, `end` is where one of this owner ends, or `start` if it has none. */
  predicate EndsAt(groups: seq<Group>, n: nat, offsets: seq<nat>, owner: Owner, start: nat, end: nat)
    requires n <= |groups| && n <= |offsets|
  {
    if exists j :: 0 <= j < n && groups[j].owner == owner
    then exists j :: 0 <= j < n && groups[j].owner == owner && End(groups, offsets, j) == end
    else end == start
  }

  /** A group starts less than its alignment behind a group of its owner before it, or where its
      owner's groups start. */
  predicate Close(groups: seq<Group>, offsets: seq<nat>, i: nat, start: nat)
    requires i < |groups| && i < |offsets|
  {
    exists end: nat :: EndsAt(groups, i, offsets, groups[i].owner, start, end)
                       && end <= offsets[i] < end + groups[i].alignment
  }

  /** The row has no more room than its groups need: exclusive groups of different owners overlay each
      other, every group is as close as its alignment allows to the one before of its owner, and the
      shared region begins and the row ends within an alignment of the last group's end. */
  ghost predicate Tight(groups: seq<Group>, plan: Plan, rowAlignment: nat) {
    && |plan.offsets| == |groups|
    && (forall i :: 0 <= i < |groups| ==> Close(groups, plan.offsets, i, Base(plan, groups[i].owner)))
    && (exists owner: Owner, end: nat :: owner.Exclusive? && EndsAt(groups, |groups|, plan.offsets, owner, 0, end)
                                         && plan.exclusive < end + MaxShared(groups))
    && (exists end: nat :: EndsAt(groups, |groups|, plan.offsets, Shared, plan.exclusive, end)
                           && plan.rowNumel < end + rowAlignment)
  }

  /** The state after the first groups: how much each rank owns, and how much is shared. */
  ghost predicate Placed(groups: seq<Group>, n: nat, offsets: seq<nat>, owned: seq<nat>, shared: nat)
    requires n <= |groups| && GroupsOk(groups, |owned|)
  {
    && |offsets| == n
    && (forall i :: 0 <= i < n ==> Multiple(offsets[i], groups[i].alignment))
    && (forall i :: 0 <= i < n && groups[i].owner.Shared? ==> End(groups, offsets, i) <= shared)
    && (forall i :: 0 <= i < n && groups[i].owner.Exclusive? ==> End(groups, offsets, i) <= owned[groups[i].owner.rank])
    && (forall i, j :: 0 <= i < j < n && groups[i].owner == groups[j].owner ==> End(groups, offsets, i) <= offsets[j])
    && (AllUnaligned(groups) ==> forall p: int :: 0 <= p < shared ==> InShared(groups[..n], offsets, p))
  }

  lemma NonePlaced(groups: seq<Group>, owned: seq<nat>)
    requires GroupsOk(groups, |owned|)
    ensures Placed(groups, 0, [], owned, 0)
  {
  }

  lemma PlaceShared(groups: seq<Group>, n: nat, offsets: seq<nat>, owned: seq<nat>, shared: nat)
    requires n < |groups| && GroupsOk(groups, |owned|) && groups[n].owner.Shared?
    requires Placed(groups, n, offsets, owned, shared)
    ensures var at := AlignUp(shared, groups[n].alignment);
            Placed(groups, n + 1, offsets + [at], owned, at + groups[n].numel)
  {
    var at := AlignUp(shared, groups[n].alignment);
    AlignUpIs(shared, groups[n].alignment);
    hide AlignUp, Multiple;
    var more := offsets + [at];
    if AllUnaligned(groups) {
      forall p: int {:trigger InShared(groups[..n + 1], more, p)} | 0 <= p < at + groups[n].numel
          ensures InShared(groups[..n + 1], more, p) {
        if p < shared {
          assert InShared(groups[..n], offsets, p);
          var i :| 0 <= i < n && groups[..n][i].owner.Shared? && offsets[i] <= p < End(groups[..n], offsets, i);
          assert groups[..n + 1][i] == groups[..n][i] && more[i] == offsets[i];
        } else {
          assert groups[..n + 1][n] == groups[n] && more[n] == at;
        }
      }
    }
  }

  lemma PlaceOwned(groups: seq<Group>, n: nat, offsets: seq<nat>, owned: seq<nat>, shared: nat)
    requires n < |groups| && GroupsOk(groups, |owned|) && groups[n].owner.Exclusive?
    requires Placed(groups, n, offsets, owned, shared)
    ensures var o := groups[n].owner.rank;
            var at := AlignUp(owned[o], groups[n].alignment);
            Placed(groups, n + 1, offsets + [at], owned[o := at + groups[n].numel], shared)
  {
    var o := groups[n].owner.rank;
    var at := AlignUp(owned[o], groups[n].alignment);
    AlignUpIs(owned[o], groups[n].alignment);
    hide AlignUp, Multiple;
    var more := offsets + [at];
    if AllUnaligned(groups) {
      forall p: int {:trigger InShared(groups[..n + 1], more, p)} | 0 <= p < shared
          ensures InShared(groups[..n + 1], more, p) {
        assert InShared(groups[..n], offsets, p);
        var i :| 0 <= i < n && groups[..n][i].owner.Shared? && offsets[i] <= p < End(groups[..n], offsets, i);
        assert groups[..n + 1][i] == groups[..n][i] && more[i] == offsets[i];
      }
    }
  }

  /** The same after the first groups, before the shared ones are moved behind the owned ones. */
  ghost predicate Snug(groups: seq<Group>, n: nat, offsets: seq<nat>, owned: seq<nat>, shared: nat)
    requires n <= |groups|
  {
    && |offsets| == n
    && (forall i :: 0 <= i < n ==> Close(groups, offsets, i, 0))
    && (forall r: nat :: r < |owned| ==> EndsAt(groups, n, offsets, Exclusive(r), 0, owned[r]))
    && EndsAt(groups, n, offsets, Shared, 0, shared)
  }

  lemma SnugAtFirst(groups: seq<Group>, owned: seq<nat>)
    requires forall r :: 0 <= r < |owned| ==> owned[r] == 0
    ensures Snug(groups, 0, [], owned, 0)
  {
  }

  lemma EndsAgree(groups: seq<Group>, n: nat, offsets: seq<nat>, more: seq<nat>, owner: Owner, end: nat)
    requires n <= |groups| && n <= |offsets| <= |more| && EndsAt(groups, n, offsets, owner, 0, end)
    requires forall i :: 0 <= i < n ==> more[i] == offsets[i]
    ensures EndsAt(groups, n, more, owner, 0, end)
  {
    if j :| 0 <= j < n && groups[j].owner == owner && End(groups, offsets, j) == end {
      assert End(groups, more, j) == end;
    }
  }

  lemma CloseAgrees(groups: seq<Group>, offsets: seq<nat>, more: seq<nat>, i: nat)
    requires i < |groups| && i < |offsets| <= |more| && Close(groups, offsets, i, 0)
    requires forall j :: 0 <= j < |offsets| ==> more[j] == offsets[j]
    ensures Close(groups, more, i, 0)
  {
    hide EndsAt;
    var end: nat :| EndsAt(groups, i, offsets, groups[i].owner, 0, end)
                    && end <= offsets[i] < end + groups[i].alignment;
    EndsAgree(groups, i, offsets, more, groups[i].owner, end);
  }

  lemma EndsKeep(groups: seq<Group>, n: nat, offsets: seq<nat>, owner: Owner, end: nat)
    requires n < |groups| && n < |offsets| && EndsAt(groups, n, offsets, owner, 0, end) && groups[n].owner != owner
    ensures EndsAt(groups, n + 1, offsets, owner, 0, end)
  {
    if j :| 0 <= j < n && groups[j].owner == owner && End(groups, offsets, j) == end {
      assert End(groups, offsets, j) == end;
    }
  }

  lemma EndsMove(groups: seq<Group>, n: nat, offsets: seq<nat>)
    requires n < |groups| && n < |offsets|
    ensures EndsAt(groups, n + 1, offsets, groups[n].owner, 0, End(groups, offsets, n))
  {
  }

  /** One more group, at the first aligned place behind the last of its owner. */
  lemma SnugNext(groups: seq<Group>, n: nat, offsets: seq<nat>, owned: seq<nat>, shared: nat, end: nat)
    requires n < |groups| && GroupsOk(groups, |owned|) && Snug(groups, n, offsets, owned, shared)
    requires end == if groups[n].owner.Shared? then shared else owned[groups[n].owner.rank]
    ensures var g := groups[n];
            var at := AlignUp(end, g.alignment);
            Snug(groups, n + 1, offsets + [at],
                 if g.owner.Shared? then owned else owned[g.owner.rank := at + g.numel],
                 if g.owner.Shared? then at + g.numel else shared)
  {
    var g := groups[n];
    var at := AlignUp(end, g.alignment);
    AlignUpIs(end, g.alignment);
    hide AlignUp, EndsAt, Close;
    var more := offsets + [at];
    CloseNext(groups, n, offsets, more, end);
    EndsMove(groups, n, more);
    forall r: nat | r < |owned| && g.owner != Exclusive(r)
      ensures EndsAt(groups, n + 1, more, Exclusive(r), 0, owned[r])
    {
      EndsLater(groups, n, offsets, more, Exclusive(r), owned[r]);
    }
    if !g.owner.Shared? {
      EndsLater(groups, n, offsets, more, Shared, shared);
    }
  }

  lemma EndsLater(groups: seq<Group>, n: nat, offsets: seq<nat>, more: seq<nat>, owner: Owner, end: nat)
    requires n < |groups| && n == |offsets| < |more| && EndsAt(groups, n, offsets, owner, 0, end)
    requires groups[n].owner != owner && forall i :: 0 <= i < n ==> more[i] == offsets[i]
    ensures EndsAt(groups, n + 1, more, owner, 0, end)
  {
    hide EndsAt;
    EndsAgree(groups, n, offsets, more, owner, end);
    EndsKeep(groups, n, more, owner, end);
  }

  lemma CloseNext(groups: seq<Group>, n: nat, offsets: seq<nat>, more: seq<nat>, end: nat)
    requires n < |groups| && |offsets| == n && |more| == n + 1
    requires forall i :: 0 <= i < n ==> Close(groups, offsets, i, 0) && more[i] == offsets[i]
    requires EndsAt(groups, n, offsets, groups[n].owner, 0, end) && end <= more[n] < end + groups[n].alignment
    ensures forall i :: 0 <= i < n + 1 ==> Close(groups, more, i, 0)
  {
    hide EndsAt, Close;
    EndsAgree(groups, n, offsets, more, groups[n].owner, end);
    CloseIs(groups, more, n, end);
    forall i: nat | i < n ensures Close(groups, more, i, 0) {
      CloseAgrees(groups, offsets, more, i);
    }
  }

  lemma CloseIs(groups: seq<Group>, offsets: seq<nat>, i: nat, end: nat)
    requires i < |groups| && i < |offsets| && EndsAt(groups, i, offsets, groups[i].owner, 0, end)
    requires end <= offsets[i] < end + groups[i].alignment
    ensures Close(groups, offsets, i, 0)
  {
  }

  lemma EndsShift(groups: seq<Group>, n: nat, offsets: seq<nat>, shifted: seq<nat>, owner: Owner, end: nat, base: nat)
    requires n <= |groups| == |offsets| && shifted == Shifted(groups, offsets, base)
    requires EndsAt(groups, n, offsets, owner, 0, end)
    ensures var start := if owner.Shared? then base else 0;
            EndsAt(groups, n, shifted, owner, start, end + start)
  {
    if j :| 0 <= j < n && groups[j].owner == owner && End(groups, offsets, j) == end {
      assert End(groups, shifted, j) == end + if owner.Shared? then base else 0;
    }
  }

  /** Moving the shared groups behind the owned ones keeps the row tight. */
  lemma PlanTight(groups: seq<Group>, offsets: seq<nat>, owned: seq<nat>, shared: nat, plan: Plan, rowAlignment: nat)
    requires |offsets| == |groups| && Snug(groups, |groups|, offsets, owned, shared) && GroupsOk(groups, |owned|)
    requires plan.offsets == Shifted(groups, offsets, plan.exclusive)
    requires plan.exclusive < MaxOf(owned) + MaxShared(groups)
    requires plan.rowNumel < plan.exclusive + shared + rowAlignment
    ensures Tight(groups, plan, rowAlignment)
  {
    hide EndsAt, MaxOf, MaxShared, Shifted, Close;
    forall i: nat | i < |groups| ensures Close(groups, plan.offsets, i, Base(plan, groups[i].owner)) {
      CloseShift(groups, offsets, plan, i);
    }
    EndsShift(groups, |groups|, offsets, plan.offsets, Shared, shared, plan.exclusive);
    LargestOwner(groups, offsets, owned, plan);
  }

  lemma CloseShift(groups: seq<Group>, offsets: seq<nat>, plan: Plan, i: nat)
    requires |offsets| == |groups| && plan.offsets == Shifted(groups, offsets, plan.exclusive) && i < |groups|
    requires Close(groups, offsets, i, 0)
    ensures Close(groups, plan.offsets, i, Base(plan, groups[i].owner))
  {
    hide EndsAt;
    var owner := groups[i].owner;
    var end: nat :| EndsAt(groups, i, offsets, owner, 0, end) && end <= offsets[i] < end + groups[i].alignment;
    EndsShift(groups, i, offsets, plan.offsets, owner, end, plan.exclusive);
    assert EndsAt(groups, i, plan.offsets, owner, Base(plan, owner), end + Base(plan, owner));
  }

  lemma LargestOwner(groups: seq<Group>, offsets: seq<nat>, owned: seq<nat>, plan: Plan)
    requires |offsets| == |groups| && plan.offsets == Shifted(groups, offsets, plan.exclusive)
    requires forall r: nat :: r < |owned| ==> EndsAt(groups, |groups|, offsets, Exclusive(r), 0, owned[r])
    requires plan.exclusive < MaxOf(owned) + MaxShared(groups)
    requires GroupsOk(groups, |owned|)
    ensures exists owner: Owner, end: nat :: owner.Exclusive? && EndsAt(groups, |groups|, plan.offsets, owner, 0, end)
                                             && plan.exclusive < end + MaxShared(groups)
  {
    hide EndsAt, MaxOf, MaxShared, Shifted;
    if r :| 0 <= r < |owned| && owned[r] == MaxOf(owned) {
      EndsShift(groups, |groups|, offsets, plan.offsets, Exclusive(r), owned[r], plan.exclusive);
    } else {
      NoneOwned(groups, plan.offsets, |owned|);
    }
  }

  /** A rank that isn't there owns nothing. */
  lemma NoneOwned(groups: seq<Group>, offsets: seq<nat>, worldSize: nat)
    requires GroupsOk(groups, worldSize) && |offsets| == |groups|
    ensures EndsAt(groups, |groups|, offsets, Exclusive(worldSize), 0, 0)
  {
  }

  function MaxOf(s: seq<nat>): (m: nat)
    ensures forall i :: 0 <= i < |s| ==> s[i] <= m
    ensures m == 0 || m in s
  {
    if s == [] then 0
    else
      var n := |s| - 1;
      var m := MaxOf(s[..n]);
      if m < s[n] then s[n] else m
  }

  function Shifted(groups: seq<Group>, offsets: seq<nat>, base: nat): (shifted: seq<nat>)
    requires |offsets| == |groups|
    ensures |shifted| == |offsets|
    ensures forall i :: 0 <= i < |offsets| ==> shifted[i] == if groups[i].owner.Shared? then
        offsets[i] + base else offsets[i]
  {
    seq(|offsets|, i requires 0 <= i < |offsets| => if groups[i].owner.Shared? then offsets[i] + base else offsets[i])
  }

  /** Places groups that a rank owns behind that rank's others, and shared groups behind each other
      and behind all owned ones. */
  method PlanGroupOffsets(groups: seq<Group>, worldSize: nat, rowAlignment: nat) returns (plan: Plan)
    requires GroupsOk(groups, worldSize) && rowAlignment > 0
    ensures Fits(groups, plan) && Tight(groups, plan, rowAlignment) && Multiple(plan.rowNumel, rowAlignment)
    ensures forall i :: 0 <= i < |groups| && groups[i].owner.Exclusive?
             ==> Multiple(plan.offsets[i], groups[i].alignment)
    ensures forall i :: 0 <= i < |groups| && groups[i].owner.Shared?
             ==> Multiple(plan.offsets[i] - plan.exclusive, groups[i].alignment)
    ensures MaxShared(groups) > 0 && Multiple(plan.exclusive, MaxShared(groups))
    ensures AllUnaligned(groups) && rowAlignment == 1 ==>
              forall p :: plan.exclusive <= p < plan.rowNumel ==> InShared(groups, plan.offsets, p)
  {
    hide AlignUp, Multiple, Placed, MaxShared, MaxOf, Shifted, Fits, AllUnaligned, InShared, Snug, Tight;
    var owned: seq<nat> := seq(worldSize, _ => 0);
    var offsets: seq<nat>, shared: nat, alignment: nat := [], 0, 1;
    NonePlaced(groups, owned);
    SnugAtFirst(groups, owned);
    assert MaxShared(groups[..0]) == 1 by { NoneShared(groups); }
    for n := 0 to |groups|
      invariant |owned| == worldSize && |offsets| == n && Placed(groups, n, offsets, owned, shared)
      invariant Snug(groups, n, offsets, owned, shared)
      invariant alignment == MaxShared(groups[..n]) && alignment > 0
    {
      MaxSharedNext(groups, n);
      var g := groups[n];
      match g.owner
      case Shared =>
        PlaceShared(groups, n, offsets, owned, shared);
        SnugNext(groups, n, offsets, owned, shared, shared);
        shared := AlignUp(shared, g.alignment);
        offsets := offsets + [shared];
        shared := shared + g.numel;
        alignment := if alignment < g.alignment then g.alignment else alignment;
      case Exclusive(o) =>
        PlaceOwned(groups, n, offsets, owned, shared);
        SnugNext(groups, n, offsets, owned, shared, owned[o]);
        var at := AlignUp(owned[o], g.alignment);
        offsets := offsets + [at];
        owned := owned[o := at + g.numel];
    }
    assert groups[..|groups|] == groups;
    var base := AlignUp(MaxOf(owned), alignment);
    AlignUpIs(MaxOf(owned), alignment);
    var end := AlignUp(base + shared, rowAlignment);
    AlignUpIs(base + shared, rowAlignment);
    plan := Plan(Shifted(groups, offsets, base), end, base);
    PlanFits(groups, offsets, owned, shared, plan);
    PlanTight(groups, offsets, owned, shared, plan, rowAlignment);
    PlanAligned(groups, offsets, owned, shared, plan);
    if rowAlignment == 1 {
      SharedTiles(groups, offsets, owned, shared, plan);
    }
  }

  lemma PlanFits(groups: seq<Group>, offsets: seq<nat>, owned: seq<nat>, shared: nat, plan: Plan)
    requires GroupsOk(groups, |owned|) && Placed(groups, |groups|, offsets, owned, shared) && |offsets| == |groups|
    requires plan.offsets == Shifted(groups, offsets, plan.exclusive) && MaxOf(owned) <= plan.exclusive
    requires plan.exclusive + shared <= plan.rowNumel
    ensures Fits(groups, plan)
  {
    hide Multiple, InShared, AllUnaligned, MaxOf;
    forall i: nat, j: nat | i < j < |groups| && groups[i].owner == groups[j].owner
        ensures End(groups, plan.offsets, i) <= plan.offsets[j] {
      assert End(groups, offsets, i) <= offsets[j];
    }
    forall i: nat | i < |groups| && groups[i].owner.Exclusive? ensures End(groups, plan.offsets, i) <= plan.exclusive {
      assert owned[groups[i].owner.rank] <= MaxOf(owned);
    }
  }

  lemma PlanAligned(groups: seq<Group>, offsets: seq<nat>, owned: seq<nat>, shared: nat, plan: Plan)
    requires GroupsOk(groups, |owned|) && Placed(groups, |groups|, offsets, owned, shared) && |offsets| == |groups|
    requires plan.offsets == Shifted(groups, offsets, plan.exclusive)
    ensures forall i :: 0 <= i < |groups| && groups[i].owner.Exclusive?
             ==> Multiple(plan.offsets[i], groups[i].alignment)
    ensures forall i :: 0 <= i < |groups| && groups[i].owner.Shared?
             ==> Multiple(plan.offsets[i] - plan.exclusive, groups[i].alignment)
  {
    hide Multiple, InShared, AllUnaligned, End;
    forall i: nat | i < |groups|
      ensures groups[i].owner.Exclusive? ==> Multiple(plan.offsets[i], groups[i].alignment)
      ensures groups[i].owner.Shared? ==> Multiple(plan.offsets[i] - plan.exclusive, groups[i].alignment)
    {
      assert Multiple(offsets[i], groups[i].alignment);
    }
  }

  lemma NoneShared(groups: seq<Group>)
    ensures MaxShared(groups[..0]) == 1
  {
  }

  lemma MaxSharedNext(groups: seq<Group>, n: nat)
    requires n < |groups|
    ensures var m := MaxShared(groups[..n]);
            MaxShared(groups[..n + 1]) == if groups[n].owner.Shared? && m < groups[n].alignment then groups[n].alignment
                else m
  {
    assert groups[..n + 1][..n] == groups[..n];
  }

  lemma SharedTiles(groups: seq<Group>, offsets: seq<nat>, owned: seq<nat>, shared: nat, plan: Plan)
    requires GroupsOk(groups, |owned|) && Placed(groups, |groups|, offsets, owned, shared) && |offsets| == |groups|
    requires plan.offsets == Shifted(groups, offsets, plan.exclusive)
    requires plan.rowNumel == AlignUp(plan.exclusive + shared, 1)
    ensures AllUnaligned(groups) ==> forall p :: plan.exclusive <= p < plan.rowNumel
                                      ==> InShared(groups, plan.offsets, p)
  {
    if AllUnaligned(groups) {
      forall p | plan.exclusive <= p < plan.rowNumel ensures InShared(groups, plan.offsets, p) {
        assert groups[..|groups|] == groups;
        assert InShared(groups, offsets, p - plan.exclusive);
        var i :| 0 <= i < |groups| && groups[i].owner.Shared?
            && offsets[i] <= p - plan.exclusive < End(groups, offsets, i);
        assert plan.offsets[i] <= p < End(groups, plan.offsets, i);
      }
    }
  }

  /** When every alignment divides the largest, as when there are only one and 1, shared groups are
      aligned too. */
  lemma SharedAligned(groups: seq<Group>, plan: Plan, i: nat)
    requires i < |groups| == |plan.offsets| && groups[i].owner.Shared? && groups[i].alignment > 0
    requires MaxShared(groups) > 0
    requires Multiple(plan.offsets[i] - plan.exclusive, groups[i].alignment)
    requires Multiple(plan.exclusive, MaxShared(groups))
    requires Multiple(MaxShared(groups), groups[i].alignment)
    ensures Multiple(plan.offsets[i], groups[i].alignment)
  {
    MultipleTrans(plan.exclusive, MaxShared(groups), groups[i].alignment);
    MultipleSum(plan.offsets[i] - plan.exclusive, plan.exclusive, groups[i].alignment);
  }
}
