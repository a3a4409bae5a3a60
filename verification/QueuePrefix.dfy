/**
  When is what a client can read a prefix of what was offered to the queue? Exactly when no call
  delivers bytes after a call that was cut short.
 */
module QueuePrefix {
  import opened Bytes
  import opened Budget
  import opened BudgetQueue
  import opened Tenancy

  // ---- Gaps --------------------------------------------------------------------------------------

  predicate TakenWithin(calls: seq<Call>) {
    forall k | 0 <= k < |calls| :: calls[k].taken <= |calls[k].bytes|
  }

  predicate CutShort(call: Call) {
    call.taken < |call.bytes|
  }

  /** Nothing was accepted after a call that was cut short. */
  predicate GapFree(calls: seq<Call>) {
    forall k, l | 0 <= k < l < |calls| :: CutShort(calls[k]) ==> calls[l].taken == 0
  }

  lemma {:induction false} AllWholeAccepted(calls: seq<Call>)
    requires forall k | 0 <= k < |calls| :: !CutShort(calls[k])
    ensures Accepted(calls) == Offered(calls)
  {
    if calls != [] {
      assert !CutShort(Last(calls));
      AllWholeAccepted(calls[..|calls| - 1]);
    }
  }

  lemma {:induction false} GapFreeIsPrefix(calls: seq<Call>)
    requires TakenWithin(calls) && GapFree(calls)
    ensures Accepted(calls) <= Offered(calls)
  {
    if calls != [] {
      var init := calls[..|calls| - 1];
      if k :| 0 <= k < |init| && CutShort(init[k]) {
        assert CutShort(calls[k]) && Last(calls).taken == 0;
        GapFreeIsPrefix(init);
        assert Accepted(calls) == Accepted(init);
      } else {
        AllWholeAccepted(init);
      }
    }
  }

  /** The same calls with other contents. */
  predicate SameShape(x: seq<Call>, y: seq<Call>) {
    |x| == |y| && forall k | 0 <= k < |x| ::
      |y[k].bytes| == |x[k].bytes| && y[k].taken == x[k].taken && y[k].status == x[k].status
  }

  function Filled(n: nat, b: Byte): ByteString {
    seq(n, _ => b)
  }

  /** Zeros in the calls up to `cut`, ones in the later calls. */
  function Painted(calls: seq<Call>, cut: nat): (r: seq<Call>)
    ensures SameShape(calls, r)
    ensures forall k | 0 <= k < |calls| :: r[k].bytes == Filled(|calls[k].bytes|, if k <= cut then 0 else 1)
  {
    seq(|calls|, k requires 0 <= k < |calls| =>
      Call(Filled(|calls[k].bytes|, if k <= cut then 0 else 1), calls[k].taken, calls[k].status))
  }

  predicate TwoTone(s: ByteString, n: nat) {
    n <= |s| && forall i | 0 <= i < |s| :: s[i] == if i < n then 0 else 1
  }

  lemma {:induction false} ZerosUpTo(calls: seq<Call>, cut: nat, m: nat)
    requires m <= |calls| && m <= cut + 1 && TakenWithin(calls)
    ensures var p := Painted(calls, cut)[..m];
            && TwoTone(Accepted(p), |Accepted(p)|) && TwoTone(Offered(p), |Offered(p)|)
            && |Accepted(p)| <= |Offered(p)|
            && (m == cut + 1 && CutShort(calls[cut]) ==> |Accepted(p)| < |Offered(p)|)
  {
    if m > 0 {
      var p := Painted(calls, cut)[..m];
      assert p[..m - 1] == Painted(calls, cut)[..m - 1];
      ZerosUpTo(calls, cut, m - 1);
    }
  }

  lemma {:induction false} AcceptedOnesAfter(calls: seq<Call>, cut: nat, m: nat)
    requires cut < m <= |calls| && TakenWithin(calls)
    ensures var p := Painted(calls, cut);
            && TwoTone(Accepted(p[..m]), |Accepted(p[..cut + 1])|)
            && (m > cut + 1 && calls[m - 1].taken > 0 ==> |Accepted(p[..m])| > |Accepted(p[..cut + 1])|)
  {
    if m == cut + 1 {
      ZerosUpTo(calls, cut, m);
    } else {
      var p := Painted(calls, cut);
      assert p[..m][..m - 1] == p[..m - 1];
      AcceptedOnesAfter(calls, cut, m - 1);
    }
  }

  lemma {:induction false} OfferedOnesAfter(calls: seq<Call>, cut: nat, m: nat)
    requires cut < m <= |calls| && TakenWithin(calls)
    ensures var p := Painted(calls, cut);
            TwoTone(Offered(p[..m]), |Offered(p[..cut + 1])|)
  {
    if m == cut + 1 {
      ZerosUpTo(calls, cut, m);
    } else {
      var p := Painted(calls, cut);
      assert p[..m][..m - 1] == p[..m - 1];
      OfferedOnesAfter(calls, cut, m - 1);
    }
  }

  lemma {:induction false} AcceptedGrows(calls: seq<Call>, m: nat)
    requires m <= |calls|
    ensures |Accepted(calls[..m])| <= |Accepted(calls)|
    decreases |calls|
  {
    if m < |calls| {
      assert calls[..|calls| - 1][..m] == calls[..m];
      AcceptedGrows(calls[..|calls| - 1], m);
    } else {
      assert calls[..m] == calls;
    }
  }

  /** Ones that begin while the other string still has zeros. */
  lemma TonesDiffer(x: ByteString, y: ByteString, m: nat, n: nat)
    requires TwoTone(x, m) && TwoTone(y, n) && m < n && m < |x|
    ensures !(x <= y)
  {
    assert x[m] == 1 && y[m] == 0;
  }

  lemma AcceptedPast(calls: seq<Call>, k: nat, l: nat)
    requires TakenWithin(calls) && k < l < |calls| && calls[l].taken > 0
    ensures var p := Painted(calls, k);
            |Accepted(p[..k + 1])| < |Accepted(p)|
  {
    AcceptedOnesAfter(calls, k, l + 1);
    AcceptedGrows(Painted(calls, k), l + 1);
  }

  /** A gap shows: some contents of the same shape come out as something other than a prefix. */
  lemma GapShows(calls: seq<Call>, k: nat, l: nat)
    requires TakenWithin(calls) && k < l < |calls| && CutShort(calls[k]) && calls[l].taken > 0
    ensures !(Accepted(Painted(calls, k)) <= Offered(Painted(calls, k)))
  {
    var p, n := Painted(calls, k), |calls|;
    assert p[..n] == p;
    assert TwoTone(Accepted(p), |Accepted(p[..k + 1])|) by { AcceptedOnesAfter(calls, k, n); }
    assert TwoTone(Offered(p), |Offered(p[..k + 1])|) by { OfferedOnesAfter(calls, k, n); }
    assert |Accepted(p[..k + 1])| < |Offered(p[..k + 1])| by { ZerosUpTo(calls, k, k + 1); }
    AcceptedPast(calls, k, l);
    TonesDiffer(Accepted(p), Offered(p), |Accepted(p[..k + 1])|, |Offered(p[..k + 1])|);
  }

  /** Whatever the contents, the accepted bytes are a prefix of the offered ones iff there is no gap. */
  lemma PrefixIffGapFree(calls: seq<Call>)
    requires TakenWithin(calls)
    ensures GapFree(calls) <==>
            forall other: seq<Call> | SameShape(calls, other) :: Accepted(other) <= Offered(other)
  {
    if GapFree(calls) {
      forall other: seq<Call> | SameShape(calls, other) ensures Accepted(other) <= Offered(other) {
        ShapeKeepsGaps(calls, other);
        GapFreeIsPrefix(other);
      }
    } else {
      var k, l :| 0 <= k < l < |calls| && CutShort(calls[k]) && calls[l].taken != 0;
      GapShows(calls, k, l);
      assert SameShape(calls, Painted(calls, k));
    }
  }

  lemma ShapeKeepsGaps(calls: seq<Call>, other: seq<Call>)
    requires TakenWithin(calls) && GapFree(calls) && SameShape(calls, other)
    ensures TakenWithin(other) && GapFree(other)
  {
    forall k, l | 0 <= k < l < |other| && CutShort(other[k]) ensures other[l].taken == 0 {
      assert CutShort(calls[k]);
    }
  }

  /** What a client has read, and could still read, is a prefix of what was passed to `enqueue`, gaps aside. */
  lemma ClientReadsPrefix(budget: nat, actions: seq<Action>, w: World, c: nat)
    requires Reaches(Initial(budget), actions, w) && c < |w.channels| && GapFree(w.channels[c].calls)
    ensures w.channels[c].delivered + QueueBytes(w.segs, w.channels[c].queue) <= Offered(w.channels[c].calls)
  {
    InitialOrdered(budget);
    RunOrdered(Initial(budget), actions, w);
    var ch := w.channels[c];
    assert ChannelOk(ch, c, w.segs);
    forall k | 0 <= k < |ch.calls| ensures ch.calls[k].taken <= |ch.calls[k].bytes| {
      assert CallOk(ch.calls[k], k == |ch.calls| - 1);
    }
    GapFreeIsPrefix(ch.calls);
  }

  /** A caller that stops at its first failed call leaves no gap. */
  lemma StoppingLeavesNoGap(budget: nat, actions: seq<Action>, w: World, c: nat)
    requires Reaches(Initial(budget), actions, w) && c < |w.channels|
    requires forall k | 0 <= k < |w.channels[c].calls| - 1 :: w.channels[c].calls[k].status.Done?
    ensures GapFree(w.channels[c].calls)
  {
    InitialOrdered(budget);
    RunOrdered(Initial(budget), actions, w);
    var calls := w.channels[c].calls;
    assert ChannelOk(w.channels[c], c, w.segs);
    forall k | 0 <= k < |calls| - 1 ensures !CutShort(calls[k]) {
      assert CallOk(calls[k], k == |calls| - 1);
    }
  }

  // ---- A gap that can be reached ---------------------------------------------------------------

  /** Two bytes are refused for want of global permits, then one byte goes through. */
  function GapRun(t: Tenant): seq<Action> {
    [Open(t, 2), BeginCall(0, [1, 2])] + [ReserveLocal(0), ReserveGlobal(0)]
    + ([BeginCall(0, [3])] + ([ReserveLocal(0), ReserveGlobal(0), Count(0)] + [Send(0)]))
  }

  function RefusedCall(): Call {
    Call([1, 2], 0, Failed(OverBudget(GlobalLimitExceeded)))
  }

  /** The one stream of the run between its steps, nothing queued yet. */
  function GapChannel(call: Call, sender: Sender): Channel {
    Channel(0, 2, [call], sender, [], None, [], true, true, false)
  }

  lemma GapBegins(t: Tenant) returns (w: World)
    ensures Reaches(Initial(1), [Open(t, 2), BeginCall(0, [1, 2])], w)
    ensures w.local == [TENANT_MEMORY_BUDGET] && w.global == 1 && w.segs == []
    ensures w.channels == [GapChannel(Call([1, 2], 0, Running), Slicing)]
  {
    var w1 := Apply(Initial(1), Open(t, 2));
    w := Apply(w1, BeginCall(0, [1, 2]));
    ReachesOne(Initial(1), Open(t, 2));
    ReachesNext(Initial(1), [Open(t, 2)], w1, BeginCall(0, [1, 2]));
    assert [Open(t, 2)] + [BeginCall(0, [1, 2])] == [Open(t, 2), BeginCall(0, [1, 2])];
    assert w.channels[0].calls == [Call([1, 2], 0, Running)];
    assert |w.channels| == 1 && w.channels[0] == GapChannel(Call([1, 2], 0, Running), Slicing);
  }

  lemma FirstCallRefused(w: World) returns (v: World)
    requires w.local == [TENANT_MEMORY_BUDGET] && w.global == 1 && w.segs == []
    requires w.channels == [GapChannel(Call([1, 2], 0, Running), Slicing)]
    ensures Reaches(w, [ReserveLocal(0), ReserveGlobal(0)], v)
    ensures v.local == [TENANT_MEMORY_BUDGET - 2] && v.global == 1
    ensures v.channels == [GapChannel(RefusedCall(), Idle)]
  {
    assert NextSlice(w.channels[0]) == [1, 2];
    var w1 := Apply(w, ReserveLocal(0));
    v := Apply(w1, ReserveGlobal(0));
    ReachesOne(w, ReserveLocal(0));
    ReachesNext(w, [ReserveLocal(0)], w1, ReserveGlobal(0));
    assert [ReserveLocal(0)] + [ReserveGlobal(0)] == [ReserveLocal(0), ReserveGlobal(0)];
    assert v.channels[0].calls == [RefusedCall()];
    assert |v.channels| == 1 && v.channels[0] == GapChannel(RefusedCall(), Idle);
  }

  lemma SecondCallBegins(w: World) returns (v: World)
    requires w.local == [TENANT_MEMORY_BUDGET - 2] && w.global == 1 && w.channels == [GapChannel(RefusedCall(), Idle)]
    ensures Reaches(w, [BeginCall(0, [3])], v)
    ensures v.local == w.local && v.global == 1 && |v.channels| == 1
    ensures v.channels[0] == GapChannel(RefusedCall(), Slicing).(calls := [RefusedCall(), Call([3], 0, Running)])
  {
    v := Apply(w, BeginCall(0, [3]));
    ReachesOne(w, BeginCall(0, [3]));
    assert v.channels[0].calls == [RefusedCall(), Call([3], 0, Running)];
  }

  lemma SecondCallAccepted(w: World) returns (v: World)
    requires w.local == [TENANT_MEMORY_BUDGET - 2] && w.global == 1 && |w.channels| == 1
    requires w.channels[0] == GapChannel(RefusedCall(), Slicing).(calls := [RefusedCall(), Call([3], 0, Running)])
    ensures Reaches(w, [ReserveLocal(0), ReserveGlobal(0), Count(0)] + [Send(0)], v)
    ensures |v.channels| == 1 && v.channels[0].calls == [RefusedCall(), Call([3], 1, Done)]
  {
    assert NextSlice(w.channels[0]) == [3];
    var w1 := Charged(w, 0, [3]);
    v := Apply(w1, Send(0));
    ReachesNext(w, [ReserveLocal(0), ReserveGlobal(0), Count(0)], w1, Send(0));
    assert v.channels[0].calls == [RefusedCall(), Call([3], 1, Done)];
  }

  lemma GapRunReaches(t: Tenant) returns (w: World)
    ensures Reaches(Initial(1), GapRun(t), w) && |w.channels| == 1
    ensures w.channels[0].calls == [RefusedCall(), Call([3], 1, Done)]
  {
    var w1 := GapBegins(t);
    var w2 := FirstCallRefused(w1);
    var w3 := SecondCallBegins(w2);
    w := SecondCallAccepted(w3);
    var first, second, third := [Open(t, 2), BeginCall(0, [1, 2])], [ReserveLocal(0), ReserveGlobal(0)], [BeginCall(0, [3])];
    var fourth := [ReserveLocal(0), ReserveGlobal(0), Count(0)] + [Send(0)];
    ReachesThrough(w2, third, w3, fourth, w);
    ReachesThrough(Initial(1), first, w1, second, w2);
    ReachesThrough(Initial(1), first + second, w2, third + fourth, w);
  }

  /** A world the system reaches in which what was accepted is not a prefix of what was offered. */
  lemma GapIsReachable(t: Tenant) returns (w: World)
    ensures Reaches(Initial(1), GapRun(t), w) && |w.channels| == 1
    ensures var calls := w.channels[0].calls;
            !GapFree(calls) && !(Accepted(calls) <= Offered(calls))
  {
    w := GapRunReaches(t);
    GapBytes();
    assert Accepted(w.channels[0].calls)[0] == 3 && Offered(w.channels[0].calls)[0] == 1;
  }

  lemma GapBytes()
    ensures var calls := [RefusedCall(), Call([3], 1, Done)];
            !GapFree(calls) && Accepted(calls) == [3] && Offered(calls) == [1, 2, 3]
  {
    var calls := [RefusedCall(), Call([3], 1, Done)];
    var init := [RefusedCall()];
    assert CutShort(calls[0]) && calls[1].taken == 1;
    assert calls[..1] == init && init[..0] == [];
    assert Accepted(init) == [] && Offered(init) == [1, 2];
  }
}
