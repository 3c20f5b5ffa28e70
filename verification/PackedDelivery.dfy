/** Packing, exchanging and unpacking buffers: every element of every transfer arrives, and a
    bucket that goes to compute and back brings the results to all storage holders. */
module PackedDelivery {
  import opened Regions
  import opened RedistributionPlan
  import opened PackedSchedule
  import opened PackedExchange

  /** A participant's tensor for one parameter. */
  type Tensor<V> = map<Index, V>

  /** Element `e` of a region, in the order in which regions are flattened. */
  function Element(r: Region, e: nat): Index
    requires Proper(r) && e < Numel(r)
  {
    CellAt(r.offsets, r.shape, e)
  }

  lemma ElementInside(r: Region, e: nat)
    requires Proper(r) && e < Numel(r)
    ensures Element(r, e) in Cells(r)
  {
    CellInside(r.offsets, r.shape, e);
    InBox(r.offsets, r.shape, Element(r, e));
  }

  lemma ElementsDiffer(r: Region, e: nat, e': nat)
    requires Proper(r) && e < Numel(r) && e' < Numel(r) && e != e'
    ensures Element(r, e) != Element(r, e')
  {
    NumberOfCell(r.offsets, r.shape, e);
    NumberOfCell(r.offsets, r.shape, e');
  }

  lemma ElementOf(r: Region, ix: Index) returns (e: nat)
    requires Proper(r) && ix in Cells(r)
    ensures e < Numel(r) && Element(r, e) == ix
  {
    InBox(r.offsets, r.shape, ix);
    Numbered(r.offsets, r.shape, ix);
    e := NumberOf(r.offsets, r.shape, ix);
  }

  // ----- Packing and unpacking

  predicate GoodSpan(s: Span, size: nat) {
    Proper(s.region) && 0 <= s.offset && s.offset + Numel(s.region) <= size
  }

  /** The buffer has the elements of a region of the tensor at the span's place. */
  ghost predicate Holds<V>(s: Span, tensor: Tensor<V>, buffer: seq<V>) {
    && GoodSpan(s, |buffer|)
    && forall e: nat :: e < Numel(s.region) ==>
         Element(s.region, e) in tensor && buffer[s.offset + e] == tensor[Element(s.region, e)]
  }

  ghost predicate AllHold<V>(spans: seq<seq<Span>>, tensors: seq<Tensor<V>>, buffer: seq<V>) {
    |tensors| == |spans| && forall k, s :: 0 <= k < |spans| && s in spans[k] ==> Holds(s, tensors[k], buffer)
  }

  /** The tensor has all of the span's region. */
  ghost predicate Has<V>(s: Span, tensor: Tensor<V>) {
    Proper(s.region) && forall e: nat :: e < Numel(s.region) ==> Element(s.region, e) in tensor
  }

  /** Two spans use different parts of the buffer. */
  predicate Separate(a: Span, b: Span) {
    a.offset + Numel(a.region) <= b.offset || b.offset + Numel(b.region) <= a.offset
  }

  ghost predicate AllSeparate(spans: seq<seq<Span>>) {
    forall k, l, s, t | 0 <= k < |spans| && 0 <= l < |spans| && s in spans[k] && t in spans[l] && (k != l || s != t) ::
      Separate(s, t)
  }

  lemma SpanRange(s: Span, size: nat) returns (start: nat, n: nat)
    requires GoodSpan(s, size)
    ensures start == s.offset && n == Numel(s.region) && start + n <= size
  {
    NumelIsSize(s.region);
    start, n := s.offset, Numel(s.region);
  }

  /** Copies one region of a tensor into the buffer. */
  method PackSpan<V>(s: Span, tensor: Tensor<V>, buffer: array<V>)
    requires GoodSpan(s, buffer.Length) && Has(s, tensor)
    modifies buffer
    ensures Holds(s, tensor, buffer[..])
    ensures forall x :: 0 <= x < buffer.Length && !(s.offset <= x < s.offset + Numel(s.region))
             ==> buffer[x] == old(buffer[x])
  {
    hide Numel, CellAt, Proper;
    ghost var start, n := SpanRange(s, buffer.Length);
    var e: nat := 0;
    while e < Numel(s.region)
      invariant e <= n
      invariant forall f: nat :: f < e ==> buffer[start + f] == tensor[Element(s.region, f)]
      invariant forall x :: 0 <= x < buffer.Length && !(start <= x < start + n) ==> buffer[x] == old(buffer[x])
    {
      buffer[s.offset + e] := tensor[Element(s.region, e)];
      e := e + 1;
    }
  }

  lemma StillHolds<V>(s: Span, t: Span, tensor: Tensor<V>, before: seq<V>, after: seq<V>)
    requires Holds(s, tensor, before) && |before| == |after| && Separate(s, t)
    requires forall x :: 0 <= x < |before| && !(t.offset <= x < t.offset + Numel(t.region)) ==> after[x] == before[x]
    ensures Holds(s, tensor, after)
  {
    hide CellAt;
  }

  /** Packs the regions of all parameters. */
  method PackBuffer<V>(spans: seq<seq<Span>>, tensors: seq<Tensor<V>>, buffer: array<V>)
    requires |tensors| == |spans| && AllSeparate(spans)
    requires forall k, s :: 0 <= k < |spans| && s in spans[k] ==> GoodSpan(s, buffer.Length) && Has(s, tensors[k])
    modifies buffer
    ensures AllHold(spans, tensors, buffer[..])
  {
    hide Holds, Has, GoodSpan, Separate;
    for k := 0 to |spans|
      invariant forall l, s :: 0 <= l < k && s in spans[l] ==> Holds(s, tensors[l], buffer[..])
    {
      for i := 0 to |spans[k]|
        invariant forall l, s :: 0 <= l < k && s in spans[l] ==> Holds(s, tensors[l], buffer[..])
        invariant forall s :: s in spans[k][..i] ==> Holds(s, tensors[k], buffer[..])
      {
        ghost var before := buffer[..];
        var span := spans[k][i];
        assert span in spans[k];
        PackSpan(span, tensors[k], buffer);
        forall l, s | 0 <= l <= k && s in spans[l] && (l != k || s != span) && Holds(s, tensors[l], before)
          ensures Holds(s, tensors[l], buffer[..])
        {
          StillHolds(s, span, tensors[l], before, buffer[..]);
        }
        forall s | s in spans[k][..i + 1] ensures Holds(s, tensors[k], buffer[..]) {
          if s != span {
            assert s in spans[k][..i];
          }
        }
      }
      assert spans[k][..|spans[k]|] == spans[k];
    }
  }

  /** Copies one part of the buffer into a region of a tensor. */
  method UnpackSpan<V>(s: Span, buffer: seq<V>, tensor: Tensor<V>) returns (t: Tensor<V>)
    requires GoodSpan(s, |buffer|)
    ensures Holds(s, t, buffer)
    ensures forall ix :: ix in tensor ==> ix in t && (ix !in Cells(s.region) ==> t[ix] == tensor[ix])
  {
    hide Numel, CellAt, Proper, Cells;
    t := tensor;
    ghost var start, n := SpanRange(s, |buffer|);
    var e: nat := 0;
    while e < Numel(s.region)
      invariant e <= n
      invariant forall f: nat :: f < e ==> Element(s.region, f) in t && buffer[start + f] == t[Element(s.region, f)]
      invariant forall ix :: ix in tensor ==> ix in t && (ix !in Cells(s.region) ==> t[ix] == tensor[ix])
    {
      ElementInside(s.region, e);
      forall f: nat | f < e ensures Element(s.region, f) != Element(s.region, e) {
        ElementsDiffer(s.region, f, e);
      }
      t := t[Element(s.region, e) := buffer[s.offset + e]];
      e := e + 1;
    }
  }

  /** Spans of one parameter fill different parts of its tensor. */
  ghost predicate FillApart(spans: seq<Span>) {
    forall s, t :: s in spans && t in spans && s != t ==> Cells(s.region) * Cells(t.region) == {}
  }

  lemma StillFilled<V>(s: Span, t: Span, buffer: seq<V>, before: Tensor<V>, after: Tensor<V>)
    requires Holds(s, before, buffer) && Cells(s.region) * Cells(t.region) == {}
    requires forall ix :: ix in before ==> ix in after && (ix !in Cells(t.region) ==> after[ix] == before[ix])
    ensures Holds(s, after, buffer)
  {
    hide CellAt, Cells, Numel, Proper;
    forall e: nat | e < Numel(s.region)
      ensures Element(s.region, e) in after && buffer[s.offset + e] == after[Element(s.region, e)]
    {
      ElementInside(s.region, e);
      assert Element(s.region, e) !in Cells(s.region) * Cells(t.region);
    }
  }

  method UnpackParameter<V>(spans: seq<Span>, buffer: seq<V>, scratch: Tensor<V>) returns (t: Tensor<V>)
    requires FillApart(spans) && forall s :: s in spans ==> GoodSpan(s, |buffer|)
    ensures forall s :: s in spans ==> Holds(s, t, buffer)
  {
    hide Holds, GoodSpan, Cells;
    t := scratch;
    for i := 0 to |spans|
      invariant forall s :: s in spans[..i] ==> Holds(s, t, buffer)
    {
      ghost var before := t;
      var span := spans[i];
      assert span in spans;
      t := UnpackSpan(span, buffer, t);
      forall s | s in spans[..i + 1] ensures Holds(s, t, buffer) {
        if s != span {
          assert s in spans[..i];
          StillFilled(s, span, buffer, before, t);
        }
      }
    }
    assert spans[..|spans|] == spans;
  }

  /** Unpacks the regions of all parameters. */
  method UnpackBuffer<V>(spans: seq<seq<Span>>, buffer: seq<V>, scratch: seq<Tensor<V>>)
      returns (tensors: seq<Tensor<V>>)
    requires |scratch| == |spans| && forall k :: 0 <= k < |spans| ==> FillApart(spans[k])
    requires forall k, s :: 0 <= k < |spans| && s in spans[k] ==> GoodSpan(s, |buffer|)
    ensures AllHold(spans, tensors, buffer)
  {
    hide Holds, GoodSpan, FillApart;
    tensors := [];
    for k := 0 to |spans|
      invariant |tensors| == k && forall l, s :: 0 <= l < k && s in spans[l] ==> Holds(s, tensors[l], buffer)
    {
      var tensor := UnpackParameter(spans[k], buffer, scratch[k]);
      tensors := tensors + [tensor];
    }
  }

  // ----- The exchange

  /** The all-to-all: what each participant put at the place for another is at that one's place
      for it. */
  ghost predicate Exchanged<V>(schedules: seq<Schedule>, inputs: seq<seq<V>>, outputs: seq<seq<V>>) {
    && |inputs| == |outputs| == |schedules|
    && (forall i :: 0 <= i < |schedules| ==> |schedules[i].inputSplits| == |schedules[i].outputSplits| == |schedules|)
    && (forall s, d :: 0 <= s < |schedules| && 0 <= d < |schedules| ==> Arrives(schedules, inputs[s], outputs[d], s, d))
  }

  ghost predicate Arrives<V>(schedules: seq<Schedule>, input: seq<V>, output: seq<V>, s: nat, d: nat)
    requires s < |schedules| && d < |schedules| && d < |schedules[s].inputSplits| && s < |schedules[d].outputSplits|
  {
    var i, o, n := Sum(schedules[s].inputSplits[..d]), Sum(schedules[d].outputSplits[..s]), schedules[s].inputSplits[d];
    && 0 <= i <= i + n <= |input| && 0 <= o <= o + n <= |output|
    && output[o..o + n] == input[i..i + n]
  }

  /** What runs instead if nothing leaves its participant: each copies its own buffer. */
  ghost predicate Copied<V>(schedules: seq<Schedule>, inputs: seq<seq<V>>, outputs: seq<seq<V>>) {
    && |inputs| == |outputs| == |schedules|
    && (forall i :: 0 <= i < |schedules| ==>
          && 0 <= Sum(schedules[i].inputSplits) <= |inputs[i]| && Sum(schedules[i].inputSplits) <= |outputs[i]|
          && outputs[i][..Sum(schedules[i].inputSplits)] == inputs[i][..Sum(schedules[i].inputSplits)])
  }

  ghost predicate Ran<V>(schedules: seq<Schedule>, inputs: seq<seq<V>>, outputs: seq<seq<V>>) {
    if forall i :: 0 <= i < |schedules| ==> !schedules[i].remote then Copied(schedules, inputs, outputs)
    else Exchanged(schedules, inputs, outputs)
  }

  function Schedules(all: seq<seq<Transfer>>, participants: seq<int>): (schedules: seq<Schedule>)
    ensures |schedules| == |participants|
    ensures forall i :: 0 <= i < |schedules| ==> schedules[i] == ScheduleFor(all, participants, participants[i])
  {
    seq(|participants|, i requires 0 <= i < |participants| => ScheduleFor(all, participants, participants[i]))
  }

  lemma {:induction false} NoneRemote(all: seq<seq<Transfer>>, participants: seq<int>)
    requires participants != []
    ensures (forall i :: 0 <= i < |participants| ==> !Schedules(all, participants)[i].remote) <==> !AnyRemote(all)
  {
    hide AnyRemote, Splits, Laid, ByParameter, WithPeers;
    assert Schedules(all, participants)[0].remote == AnyRemote(all);
  }

  lemma SplitsSame(all: seq<seq<Transfer>>, participants: seq<int>, a: nat)
    requires Even(all) && Distinct(participants) && a < |participants| && !AnyRemote(all)
    ensures ScheduleFor(all, participants, participants[a]).inputSplits
        == ScheduleFor(all, participants, participants[a]).outputSplits
    ensures forall d :: 0 <= d < |participants| && d != a
             ==> ScheduleFor(all, participants, participants[a]).inputSplits[d] == 0
  {
    hide Between, Laid, ByParameter, Even, EvenItems, WithPeers, AnyRemote;
    var local := participants[a];
    forall i | 0 <= i < |participants|
      ensures Size(Between(all, local, participants[i]), Sending)
          == Size(Between(all, participants[i], local), Receiving)
      ensures i != a ==> Size(Between(all, local, participants[i]), Sending) == 0
    {
      if i == a {
        BetweenEven(all, local, local);
        SidesAgree(Between(all, local, local));
      } else {
        NothingBetween(all, local, participants[i]);
        NothingBetween(all, participants[i], local);
      }
    }
  }

  lemma {:induction false} SumSplit(s: seq<int>, i: nat)
    requires i < |s| && forall j :: 0 <= j < |s| ==> s[j] >= 0
    ensures 0 <= Sum(s[..i]) && Sum(s[..i]) + s[i] <= Sum(s)
    decreases |s|
  {
    var n: nat := |s| - 1;
    if i < n {
      SumSplit(s[..n], i);
      assert s[..n][..i] == s[..i];
    } else {
      SumNonNegative(s[..n]);
    }
  }

  lemma {:induction false} SumNonNegative(s: seq<int>)
    requires forall j :: 0 <= j < |s| ==> s[j] >= 0
    ensures Sum(s) >= 0
  {
    if s != [] {
      SumNonNegative(s[..|s| - 1]);
    }
  }

  /** Without remote transfers the local copies do what the all-to-all would do. */
  lemma CopyIsExchange<V>(all: seq<seq<Transfer>>, participants: seq<int>, inputs: seq<seq<V>>, outputs: seq<seq<V>>)
    requires Even(all) && Distinct(participants) && !AnyRemote(all)
    requires Copied(Schedules(all, participants), inputs, outputs)
    ensures Exchanged(Schedules(all, participants), inputs, outputs)
  {
    hide AnyRemote, Even, Laid, ByParameter, WithPeers, WithPeer, Sum;
    var schedules := Schedules(all, participants);
    forall s, d | 0 <= s < |schedules| && 0 <= d < |schedules| ensures Arrives(schedules, inputs[s], outputs[d], s, d) {
      SplitsSame(all, participants, s);
      SplitsSame(all, participants, d);
      SplitsNonNegative(all, participants, s);
      SplitsNonNegative(all, participants, d);
      SumSplit(schedules[s].inputSplits, d);
      SumSplit(schedules[d].outputSplits, s);
      if s == d {
        var o, n := Sum(schedules[s].inputSplits[..s]), schedules[s].inputSplits[s];
        SliceOfPrefix(inputs[s], outputs[s], Sum(schedules[s].inputSplits), o, o + n);
      }
    }
  }

  lemma SliceOfPrefix<V>(a: seq<V>, b: seq<V>, n: nat, lo: nat, hi: nat)
    requires n <= |a| && n <= |b| && a[..n] == b[..n] && lo <= hi <= n
    ensures a[lo..hi] == b[lo..hi]
  {
    forall i | 0 <= i < hi - lo ensures a[lo..hi][i] == b[lo..hi][i] {
      assert a[..n][lo + i] == b[..n][lo + i];
    }
  }

  lemma SplitsNonNegative(all: seq<seq<Transfer>>, participants: seq<int>, a: nat)
    requires Even(all) && a < |participants|
    ensures forall d :: 0 <= d < |participants| ==>
              ScheduleFor(all, participants, participants[a]).inputSplits[d] >= 0
              && ScheduleFor(all, participants, participants[a]).outputSplits[d] >= 0
  {
    hide AnyRemote, Even, Laid, ByParameter, WithPeers, Splits;
    forall d | 0 <= d < |participants|
      ensures ScheduleFor(all, participants, participants[a]).inputSplits[d] >= 0
      ensures ScheduleFor(all, participants, participants[a]).outputSplits[d] >= 0
    {
      SplitsAgree(all, participants, a, d);
      SplitsAgree(all, participants, d, a);
    }
  }

  // ----- Delivery

  /** Every element of every transfer arrives at its destination. */
  lemma TransferArrives<V>(all: seq<seq<Transfer>>, participants: seq<int>, k: nat, t: Transfer, s: nat, d: nat, e: nat,
                           sent: seq<Tensor<V>>, received: seq<Tensor<V>>, inputs: seq<seq<V>>, outputs: seq<seq<V>>)
    requires Even(all) && s < |participants| && d < |participants|
    requires k < |all| && t in all[k] && t.source == participants[s] && t.destination == participants[d]
    requires Proper(t.from) && Proper(t.to) && Numel(t.from) == Numel(t.to) && e < Numel(t.from)
    requires Exchanged(Schedules(all, participants), inputs, outputs)
    requires AllHold(Schedules(all, participants)[s].inputSpans, sent, inputs[s])
    requires AllHold(Schedules(all, participants)[d].outputSpans, received, outputs[d])
    ensures k < |sent| && k < |received| && Element(t.from, e) in sent[k] && Element(t.to, e) in received[k]
    ensures received[k][Element(t.to, e)] == sent[k][Element(t.from, e)]
  {
    hide Even, Laid, ByParameter, WithPeers, WithPeer, Sum, Numel, Proper, CellAt, AnyRemote, Splits;
    var schedules := Schedules(all, participants);
    var o, from, to := TransferPlaced(all, participants, k, t, s, d);
    assert schedules[s] == ScheduleFor(all, participants, participants[s]);
    assert schedules[d] == ScheduleFor(all, participants, participants[d]);
    hide ScheduleFor, Schedules;
    assert Holds(from, sent[k], inputs[s]) && Holds(to, received[k], outputs[d]);
    assert Arrives(schedules, inputs[s], outputs[d], s, d);
    var i, j, n := Sum(schedules[s].inputSplits[..d]), Sum(schedules[d].outputSplits[..s]), schedules[s].inputSplits[d];
    assert outputs[d][j..j + n][o + e] == inputs[s][i..i + n][o + e];
  }
}
