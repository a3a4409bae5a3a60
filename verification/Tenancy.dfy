/**
  Which semaphore a tenant's streams share. Streams of one tenant share one allowance of 16 MiB until
  the tenant map is cleared; a stream opened after that gets a second allowance.
 */
module Tenancy {
  import opened Bytes
  import opened Budget

  predicate TenantsKnown(w: World) {
    forall t | t in w.tenants :: w.tenants[t] < |w.local|
  }

  lemma StepKeepsTenants(w: World, a: Action)
    requires TenantsKnown(w) && Enabled(w, a)
    ensures TenantsKnown(Apply(w, a))
    ensures a != ClearTenants ==>
              forall t | t in w.tenants :: t in Apply(w, a).tenants && Apply(w, a).tenants[t] == w.tenants[t]
  {
  }

  /** Until the map is cleared, a tenant keeps its semaphore. */
  lemma {:induction false} RunKeepsTenants(start: World, actions: seq<Action>, w: World)
    requires TenantsKnown(start) && Reaches(start, actions, w)
    ensures TenantsKnown(w)
    ensures ClearTenants !in actions ==>
              forall t | t in start.tenants :: t in w.tenants && w.tenants[t] == start.tenants[t]
    decreases |actions|
  {
    if actions != [] {
      StepKeepsTenants(start, actions[0]);
      RunKeepsTenants(Apply(start, actions[0]), actions[1..], w);
    }
  }

  lemma StepKeepsSemaphore(w: World, a: Action, c: nat)
    requires Enabled(w, a) && c < |w.channels|
    ensures c < |Apply(w, a).channels| && Apply(w, a).channels[c].sem == w.channels[c].sem
  {
    if Target(a) != Some(c) {
      OtherChannelsUntouched(w, a, c);
    }
  }

  /** No stream ever changes its semaphore. */
  lemma {:induction false} RunKeepsSemaphore(start: World, actions: seq<Action>, w: World, c: nat)
    requires Reaches(start, actions, w) && c < |start.channels|
    ensures c < |w.channels| && w.channels[c].sem == start.channels[c].sem
    decreases |actions|
  {
    if actions != [] {
      StepKeepsSemaphore(start, actions[0], c);
      RunKeepsSemaphore(Apply(start, actions[0]), actions[1..], w, c);
    }
  }

  /** Every stream's semaphore exists. */
  predicate SemaphoresExist(w: World) {
    forall c | 0 <= c < |w.channels| :: w.channels[c].sem < |w.local|
  }

  lemma StepKeepsSemaphores(w: World, a: Action)
    requires TenantsKnown(w) && SemaphoresExist(w) && Enabled(w, a)
    ensures SemaphoresExist(Apply(w, a))
  {
    var w' := Apply(w, a);
    forall c: nat | c < |w'.channels| ensures w'.channels[c].sem < |w'.local| {
      if c < |w.channels| {
        StepKeepsSemaphore(w, a, c);
      }
    }
  }

  lemma {:induction false} RunKeepsSemaphores(start: World, actions: seq<Action>, w: World)
    requires TenantsKnown(start) && SemaphoresExist(start) && Reaches(start, actions, w)
    ensures SemaphoresExist(w)
    decreases |actions|
  {
    if actions != [] {
      StepKeepsTenants(start, actions[0]);
      StepKeepsSemaphores(start, actions[0]);
      RunKeepsSemaphores(Apply(start, actions[0]), actions[1..], w);
    }
  }

  /** No tenant is mapped to one of the first `base` semaphores. */
  predicate FreshFrom(w: World, base: nat) {
    base <= |w.local| && forall t | t in w.tenants :: base <= w.tenants[t]
  }

  lemma StepStaysFresh(w: World, a: Action, base: nat)
    requires base <= |w.local| && Enabled(w, a)
    ensures base <= |Apply(w, a).local|
    ensures FreshFrom(w, base) || a == ClearTenants ==> FreshFrom(Apply(w, a), base)
  {
  }

  /** After a clear, every tenant that appears again is mapped to a semaphore made since. */
  lemma {:induction false} RunStaysFresh(start: World, actions: seq<Action>, w: World, base: nat)
    requires base <= |start.local| && Reaches(start, actions, w)
    ensures base <= |w.local|
    ensures FreshFrom(start, base) || ClearTenants in actions ==> FreshFrom(w, base)
    decreases |actions|
  {
    if actions != [] {
      StepStaysFresh(start, actions[0], base);
      RunStaysFresh(Apply(start, actions[0]), actions[1..], w, base);
    }
  }

  lemma SharedWithoutClear(w: World, t: Tenant, m: nat, between: seq<Action>, v: World, n: nat)
    requires TenantsKnown(w) && m > 0 && n > 0
    requires Reaches(Apply(w, Open(t, m)), between, v) && ClearTenants !in between
    ensures |w.channels| < |v.channels| && Apply(v, Open(t, n)).local == v.local
    ensures v.channels[|w.channels|].sem == Newest(Apply(v, Open(t, n))).sem
  {
    var after := Apply(w, Open(t, m));
    RunKeepsTenants(after, between, v);
    RunKeepsSemaphore(after, between, v, |w.channels|);
    assert v.tenants[t] == after.tenants[t] == after.channels[|w.channels|].sem;
  }

  lemma SeparateAfterClear(w: World, t: Tenant, m: nat, between: seq<Action>, v: World, n: nat)
    requires TenantsKnown(w) && m > 0 && n > 0
    requires Reaches(Apply(w, Open(t, m)), between, v) && ClearTenants in between
    ensures |w.channels| < |v.channels|
    ensures v.channels[|w.channels|].sem != Newest(Apply(v, Open(t, n))).sem
  {
    var after := Apply(w, Open(t, m));
    RunStaysFresh(after, between, v, |after.local|);
    RunKeepsSemaphore(after, between, v, |w.channels|);
  }

  /** The stream opened last. */
  function Newest(w: World): Channel
    requires w.channels != []
  {
    w.channels[|w.channels| - 1]
  }

  /**
    Two streams of one tenant, with anything in between: they draw on the same semaphore if and only if
    the tenant map was not cleared between their openings.
   */
  lemma OneAllowanceBetweenClears(
      budget: nat, before: seq<Action>, w: World, t: Tenant, m: nat, between: seq<Action>, v: World, n: nat)
    requires Reaches(Initial(budget), before, w) && m > 0 && n > 0
    requires Reaches(Apply(w, Open(t, m)), between, v)
    ensures var last := Apply(v, Open(t, n));
            |w.channels| < |v.channels| < |last.channels|
            && (last.channels[|w.channels|].sem == last.channels[|v.channels|].sem <==> ClearTenants !in between)
            && (ClearTenants !in between ==> last.local == v.local)
  {
    RunKeepsTenants(Initial(budget), before, w);
    if ClearTenants in between {
      SeparateAfterClear(w, t, m, between, v, n);
    } else {
      SharedWithoutClear(w, t, m, between, v, n);
    }
  }

  // ---- A clear renews the allowance ---------------------------------------------------------------

  function Zeros(n: nat): ByteString {
    seq(n, _ => 0)
  }

  /** Open a stream and push one full allowance into its queue, on channel `c`. */
  function Fill(t: Tenant, c: nat): seq<Action> {
    [Open(t, TENANT_MEMORY_BUDGET), BeginCall(c, Zeros(TENANT_MEMORY_BUDGET))]
    + ([ReserveLocal(c), ReserveGlobal(c), Count(c)] + [Send(c)])
  }

  function Filler(c: nat, sem: nat): Segment {
    Segment(c, sem, Zeros(TENANT_MEMORY_BUDGET), Counted, InQueue)
  }

  lemma {:induction false} ReachesThrough(start: World, first: seq<Action>, mid: World, more: seq<Action>, w: World)
    requires Reaches(start, first, mid) && Reaches(mid, more, w)
    ensures Reaches(start, first + more, w)
    decreases |first|
  {
    if first == [] {
      assert first + more == more;
    } else {
      assert (first + more)[1..] == first[1..] + more;
      ReachesThrough(Apply(start, first[0]), first[1..], mid, more, w);
    }
  }

  lemma ReachesNext(start: World, actions: seq<Action>, w: World, a: Action)
    requires Reaches(start, actions, w) && Enabled(w, a)
    ensures Reaches(start, actions + [a], Apply(w, a))
  {
    assert [a][1..] == [];
    ReachesThrough(start, actions, w, [a], Apply(w, a));
  }

  lemma ReachesOne(w: World, a: Action)
    requires Enabled(w, a)
    ensures Reaches(w, [a], Apply(w, a))
  {
    assert [a][1..] == [];
  }

  function FillingChannel(sem: nat): Channel {
    Channel(sem, TENANT_MEMORY_BUDGET, [Call(Zeros(TENANT_MEMORY_BUDGET), 0, Running)], Slicing,
            [], None, [], true, true, false)
  }

  lemma Opened(w: World, t: Tenant) returns (v: World)
    requires t !in w.tenants
    ensures Reaches(w, [Open(t, TENANT_MEMORY_BUDGET), BeginCall(|w.channels|, Zeros(TENANT_MEMORY_BUDGET))], v)
    ensures v.local == w.local + [TENANT_MEMORY_BUDGET] && v.global == w.global && v.segs == w.segs
    ensures v.channels == w.channels + [FillingChannel(|w.local|)]
  {
    var c := |w.channels|;
    var open := Open(t, TENANT_MEMORY_BUDGET);
    var w1 := Apply(w, open);
    var begin := BeginCall(c, Zeros(TENANT_MEMORY_BUDGET));
    v := Apply(w1, begin);
    ReachesOne(w, open);
    ReachesNext(w, [open], w1, begin);
    assert [open] + [begin] == [open, begin];
    assert Zeros(TENANT_MEMORY_BUDGET) != [];
    assert Began(w1.channels[c], Zeros(TENANT_MEMORY_BUDGET)) == FillingChannel(|w.local|);
  }

  lemma Charged(w: World, c: nat, slice: ByteString) returns (v: World)
    requires Enabled(w, ReserveLocal(c)) && NextSlice(w.channels[c]) == slice
    requires 0 < |slice| <= MAX_PERMITS && |slice| <= w.local[w.channels[c].sem] && |slice| <= w.global
    ensures Reaches(w, [ReserveLocal(c), ReserveGlobal(c), Count(c)], v)
    ensures |v.local| == |w.local| && v.global == w.global - |slice|
    ensures v.segs == w.segs + [Segment(c, w.channels[c].sem, slice, Counted, WithSender)]
    ensures v.channels == w.channels[c := w.channels[c].(sender := Holding(|w.segs|))]
  {
    var w1 := Apply(w, ReserveLocal(c));
    var w2 := Apply(w1, ReserveGlobal(c));
    v := Apply(w2, Count(c));
    ReachesOne(w, ReserveLocal(c));
    ReachesNext(w, [ReserveLocal(c)], w1, ReserveGlobal(c));
    ReachesNext(w, [ReserveLocal(c)] + [ReserveGlobal(c)], w2, Count(c));
    assert [ReserveLocal(c)] + [ReserveGlobal(c)] + [Count(c)] == [ReserveLocal(c), ReserveGlobal(c), Count(c)];
  }

  lemma Filled(w: World, t: Tenant) returns (v: World)
    requires t !in w.tenants && TENANT_MEMORY_BUDGET <= w.global
    ensures Reaches(w, Fill(t, |w.channels|), v)
    ensures |v.channels| == |w.channels| + 1 && v.global == w.global - TENANT_MEMORY_BUDGET
    ensures v.segs == w.segs + [Filler(|w.channels|, |w.local|)] && |v.local| == |w.local| + 1
  {
    var c := |w.channels|;
    var w0 := Opened(w, t);
    assert NextSlice(FillingChannel(|w.local|)) == Zeros(TENANT_MEMORY_BUDGET);
    var w1 := Charged(w0, c, Zeros(TENANT_MEMORY_BUDGET));
    v := Apply(w1, Send(c));
    ReachesNext(w0, [ReserveLocal(c), ReserveGlobal(c), Count(c)], w1, Send(c));
    ReachesThrough(w, [Open(t, TENANT_MEMORY_BUDGET), BeginCall(c, Zeros(TENANT_MEMORY_BUDGET))], w0,
                   [ReserveLocal(c), ReserveGlobal(c), Count(c)] + [Send(c)], v);
  }

  /** Every stream in the run is one of tenant `t`. */
  predicate Only(actions: seq<Action>, t: Tenant) {
    forall k | 0 <= k < |actions| :: actions[k].Open? ==> actions[k].tenant == t
  }

  lemma FillOpensOne(t: Tenant, c: nat)
    ensures Only(Fill(t, c), t)
  {
  }

  lemma TwoFillers()
    ensures Total([Filler(0, 0)] + [Filler(1, 1)], AnyWaiting) == 2 * TENANT_MEMORY_BUDGET
  {
    TotalAppend([Filler(0, 0)], Filler(1, 1), AnyWaiting);
    assert [Filler(0, 0)][1..] == [];
  }

  /** The bound is per semaphore, not per tenant: with one clear, one tenant can have 32 MiB queued. */
  lemma ClearRenewsAllowance(t: Tenant) returns (actions: seq<Action>, w: World)
    ensures Reaches(Initial(4 * TENANT_MEMORY_BUDGET), actions, w) && Only(actions, t)
    ensures Total(w.segs, AnyWaiting) == 2 * TENANT_MEMORY_BUDGET
  {
    var start := Initial(4 * TENANT_MEMORY_BUDGET);
    var first, second := Fill(t, 0), Fill(t, 1);
    FillOpensOne(t, 0);
    FillOpensOne(t, 1);
    var w1 := Filled(start, t);
    var w2 := Apply(w1, ClearTenants);
    w := Filled(w2, t);
    ReachesNext(start, first, w1, ClearTenants);
    actions := first + [ClearTenants] + second;
    ReachesThrough(start, first + [ClearTenants], w2, second, w);
    assert w.segs == [Filler(0, 0)] + [Filler(1, 1)];
    TwoFillers();
  }
}
