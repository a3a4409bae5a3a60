/**
  The queue's own operations as they run: `enqueue` with its slicing loop and `poll_frame`, on shared
  state that other tasks change between any two atomic steps. What the others do is a parameter.
  Each operation takes enabled steps of the system only, so every result about runs holds of the
  state it leaves.
 */
module BudgetHost {
  import opened Bytes
  import opened Budget
  import opened Conservation
  import opened BudgetQueue
  import opened Tenancy

  // ---- What other tasks cannot touch -----------------------------------------------------------

  /** Whose turn it is: the sending task of a stream, its body, or its body while it drops a segment. */
  datatype Role = SenderOf(c: nat) | BodyOf(c: nat) | Dropping(c: nat, seg: nat)

  predicate Sends(a: Action, c: nat) {
    || a == ReserveLocal(c) || a == ReserveGlobal(c) || a == Count(c) || a == Send(c)
    || a == SendToClosed(c) || a == Cancel(c) || a == CloseSender(c) || (a.BeginCall? && a.channel == c)
  }

  predicate Reads(a: Action, c: nat) {
    a == PollDrop(c) || a == PollReceive(c) || a == PollEnd(c) || a == DropBody(c)
  }

  predicate Frees(a: Action, i: nat) {
    a == ReleaseCounter(i) || a == ReleaseGlobal(i) || a == ReleaseLocal(i)
  }

  predicate Belongs(a: Action, role: Role) {
    match role
    case SenderOf(c) => Sends(a, c)
    case BodyOf(c) => Reads(a, c)
    case Dropping(c, i) => Reads(a, c) || Frees(a, i)
  }

  predicate SameSender(x: Channel, y: Channel) {
    y.calls == x.calls && y.sender == x.sender && y.senderAlive == x.senderAlive && y.capacity == x.capacity
    && y.sem == x.sem
  }

  /** What no `enqueue` call changes about its own stream. */
  predicate SameEnds(x: Channel, y: Channel) {
    y.capacity == x.capacity && y.sem == x.sem && y.senderAlive == x.senderAlive
  }

  /** Segments may be added, but none ever changes its bytes. */
  predicate SameBytes(segs: seq<Segment>, segs': seq<Segment>) {
    |segs| <= |segs'| && forall i | 0 <= i < |segs| :: segs'[i].bytes == segs[i].bytes
  }

  lemma StepKeepsBytes(w: World, a: Action)
    requires Enabled(w, a)
    ensures SameBytes(w.segs, Apply(w, a).segs)
  {
  }

  predicate SameBody(x: Channel, y: Channel) {
    y.delivered == x.delivered && y.inFlight == x.inFlight && y.ended == x.ended && y.bodyAlive == x.bodyAlive
    && x.queue <= y.queue && (!x.senderAlive ==> !y.senderAlive)
  }

  /** What the steps of others leave alone. */
  predicate Kept(w: World, w': World, role: Role) {
    && role.c < |w.channels| && role.c < |w'.channels|
    && var (x, y) := (w.channels[role.c], w'.channels[role.c]);
       match role
       case SenderOf(_) => SameSender(x, y) && (x.sender.Holding? ==> SameSegment(w, w', x.sender.seg))
       case BodyOf(_) => SameBody(x, y)
       case Dropping(_, i) => SameBody(x, y) && SameSegment(w, w', i)
  }

  predicate Applicable(w: World, role: Role) {
    && role.c < |w.channels|
    && (role.SenderOf? && w.channels[role.c].sender.Holding? ==> w.channels[role.c].sender.seg < |w.segs|)
    && (role.Dropping? ==> role.seg < |w.segs| && w.segs[role.seg].place.Dropped?)
  }

  lemma ForeignKeepsSender(w: World, a: Action, c: nat)
    requires Enabled(w, a) && c < |w.channels| && !Sends(a, c)
    ensures c < |Apply(w, a).channels| && SameSender(w.channels[c], Apply(w, a).channels[c])
  {
    if Target(a) != Some(c) {
      OtherChannelsUntouched(w, a, c);
    }
  }

  lemma ForeignKeepsBody(w: World, a: Action, c: nat)
    requires Enabled(w, a) && c < |w.channels| && !Reads(a, c)
    ensures c < |Apply(w, a).channels| && SameBody(w.channels[c], Apply(w, a).channels[c])
  {
    if Target(a) != Some(c) {
      OtherChannelsUntouched(w, a, c);
    }
  }

  lemma ForeignKeepsHeld(w: World, a: Action, c: nat)
    requires Ordered(w) && Enabled(w, a) && c < |w.channels| && !Sends(a, c) && w.channels[c].sender.Holding?
    ensures SameSegment(w, Apply(w, a), w.channels[c].sender.seg)
  {
    assert ChannelOk(w.channels[c], c, w.segs);
    var i := w.channels[c].sender.seg;
    if i in Touched(w, a) {
      TouchedPlace(w, a, i);
    }
    OtherSegmentsUntouched(w, a, i);
  }

  lemma ForeignKeepsDropped(w: World, a: Action, i: nat)
    requires Ordered(w) && Enabled(w, a) && i < |w.segs| && w.segs[i].place.Dropped? && !Frees(a, i)
    ensures SameSegment(w, Apply(w, a), i)
  {
    if i in Touched(w, a) {
      TouchedPlace(w, a, i);
    }
    OtherSegmentsUntouched(w, a, i);
  }

  lemma ForeignKeeps(w: World, a: Action, role: Role)
    requires Ordered(w) && Enabled(w, a) && Applicable(w, role) && !Belongs(a, role)
    ensures Kept(w, Apply(w, a), role)
  {
    match role
    case SenderOf(c) =>
      ForeignKeepsSender(w, a, c);
      if w.channels[c].sender.Holding? {
        ForeignKeepsHeld(w, a, c);
      }
    case BodyOf(c) => ForeignKeepsBody(w, a, c);
    case Dropping(c, i) =>
      ForeignKeepsBody(w, a, c);
      ForeignKeepsDropped(w, a, i);
  }

  lemma KeptTwice(w: World, v: World, u: World, role: Role)
    requires Kept(w, v, role) && Kept(v, u, role)
    ensures Kept(w, u, role)
  {
  }

  // ---- The shared state ------------------------------------------------------------------------

  /** The system gets from `w` to `v`. */
  ghost predicate Leads(w: World, v: World) {
    exists actions :: Reaches(w, actions, v)
  }

  /** Step by step, what a drop gives back, by the size of its segment. */
  predicate LeavesCounter(w: World, i: nat) {
    Enabled(w, ReleaseCounter(i)) && Apply(w, ReleaseCounter(i)).counter + |w.segs[i].bytes| == w.counter
  }

  predicate ReturnsGlobal(w: World, i: nat) {
    Enabled(w, ReleaseGlobal(i)) && Apply(w, ReleaseGlobal(i)).global == w.global + |w.segs[i].bytes|
  }

  predicate ReturnsLocal(w: World, i: nat) {
    && Enabled(w, ReleaseLocal(i))
    && Apply(w, ReleaseLocal(i)).local[w.segs[i].sem] == w.local[w.segs[i].sem] + |w.segs[i].bytes|
  }

  /** What `tenant_permit` answers for `size` bytes when `permits` are left. */
  function LocalRefusal(size: nat, permits: nat): Option<BudgetError> {
    if size == 0 || size > MAX_PERMITS then Some(Capacity)
    else if size > permits then Some(TenantLimitExceeded)
    else None
  }

  lemma CapacityPositive(budget: nat, actions: seq<Action>, w: World, c: nat)
    requires Reaches(Initial(budget), actions, w) && c < |w.channels|
    ensures w.channels[c].capacity > 0
  {
    InitialOrdered(budget);
    RunOrdered(Initial(budget), actions, w);
    assert ChannelOk(w.channels[c], c, w.segs);
  }

  /** What a body can count on about its frame in flight, the head of its queue and its end. */
  lemma BodyOwns(budget: nat, actions: seq<Action>, w: World, c: nat)
    requires Reaches(Initial(budget), actions, w) && c < |w.channels|
    ensures var ch := w.channels[c];
            && (ch.inFlight.Some? ==> ch.inFlight.value < |w.segs| && w.segs[ch.inFlight.value].phase.Counted?)
            && (ch.queue != [] ==> ch.queue[0] < |w.segs|)
            && (ch.ended ==> ch.queue == [] && ch.inFlight.None? && !ch.senderAlive)
  {
    InitialOrdered(budget);
    RunOrdered(Initial(budget), actions, w);
    var ch := w.channels[c];
    assert ChannelOk(ch, c, w.segs);
    assert ch.queue != [] ==> Mine(w.segs, c, ch.queue[0], InQueue);
    if ch.inFlight.Some? {
      assert SegmentOk(w, ch.inFlight.value);
    }
  }

  /** The length of `n` full slices. */
  function WholeSlices(n: nat, capacity: nat): nat {
    if n == 0 then 0 else WholeSlices(n - 1, capacity) + capacity
  }

  datatype Poll = Ready(frame: ByteString) | Finished | Pending

  class Host {
    const budget: nat
    var local: seq<nat>
    var global: nat
    var counter: nat
    var holds: seq<nat>
    var tenants: map<Tenant, nat>
    var segs: seq<Segment>
    var channels: seq<Channel>
    ghost var history: seq<Action>

    function Now(): World
      reads this
    {
      World(budget, local, global, counter, holds, tenants, segs, channels)
    }

    /** The present state is one the system reaches. (The quantifier keeps proofs from unfolding the run.) */
    ghost predicate Valid()
      reads this
    {
      forall start | start == Initial(budget) :: Reaches(start, history, Now())
    }

    /** One atomic step was taken. */
    twostate predicate Took(a: Action)
      reads this
    {
      Valid() && history == old(history) + [a] && Enabled(old(Now()), a) && Now() == Apply(old(Now()), a)
    }

    constructor (budget: nat)
      ensures Valid() && Now() == Initial(budget) && history == []
    {
      this.budget := budget;
      local, global, counter, holds, tenants, segs, channels := [], budget, 0, [], map[], [], [];
      history := [];
    }

    /** `with_tenant` and `channel`: a new stream on the tenant's semaphore, which is made if there is none. */
    method WithTenant(tenant: Tenant, capacity: nat) returns (c: nat)
      requires Valid() && capacity > 0
      modifies this
      ensures Took(Open(tenant, capacity)) && c == old(|channels|) && |channels| == c + 1
      ensures tenant in tenants
              && channels[c] == Channel(tenants[tenant], capacity, [], Idle, [], None, [], true, true, false)
    {
      ReachesNext(Initial(budget), history, Now(), Open(tenant, capacity));
      assert tenant in tenants ==> tenants[tenant := tenants[tenant]] == tenants;
      if !(tenant in tenants && tenants[tenant] < |local|) {
        tenants := tenants[tenant := |local|];
        local := local + [TENANT_MEMORY_BUDGET];
      }
      c := |channels|;
      channels := channels + [Channel(tenants[tenant], capacity, [], Idle, [], None, [], true, true, false)];
      history := history + [Open(tenant, capacity)];
    }

    /** `tenant_permit`: local permits for the next slice, or the reason there are none. */
    method TenantPermit(c: nat) returns (error: Option<BudgetError>)
      requires Valid() && Enabled(Now(), ReserveLocal(c))
      modifies this
      ensures Took(ReserveLocal(c))
      ensures channels[c] == if error.None? then old(channels[c]).(sender := Holding(old(|segs|)))
                             else FailCall(old(channels[c]), OverBudget(error.value))
      ensures error.None? ==> segs == old(segs) + [Segment(c, old(channels[c].sem), NextSlice(old(channels[c])), LocalHeld, WithSender)]
      ensures error == LocalRefusal(|NextSlice(old(channels[c]))|, old(local[channels[c].sem]))
    {
      ghost var w := Now();
      var ch := channels[c];
      var slice := NextSlice(ch);
      if |slice| == 0 || |slice| > MAX_PERMITS {
        error := Some(Capacity);
        channels := channels[c := FailCall(ch, OverBudget(Capacity))];
      } else if local[ch.sem] < |slice| {
        error := Some(TenantLimitExceeded);
        channels := channels[c := FailCall(ch, OverBudget(TenantLimitExceeded))];
      } else {
        error := None;
        local := local[ch.sem := local[ch.sem] - |slice|];
        channels := channels[c := ch.(sender := Holding(|segs|))];
        segs := segs + [Segment(c, ch.sem, slice, LocalHeld, WithSender)];
      }
      ReachesNext(Initial(budget), history, w, ReserveLocal(c));
      history := history + [ReserveLocal(c)];
    }

    /** Global permits for the held segment; without them its local permits are on their way back. */
    method GlobalPermit(c: nat) returns (ok: bool)
      requires Valid() && Enabled(Now(), ReserveGlobal(c))
      modifies this
      ensures Took(ReserveGlobal(c))
      ensures !ok ==> channels[c] == FailCall(old(channels[c]), OverBudget(GlobalLimitExceeded))
      ensures ok ==> var i := old(channels[c].sender.seg);
                     channels == old(channels) && i < |segs| && segs[i] == old(segs[i]).(phase := GlobalHeld)
      ensures ok <==> |old(segs[channels[c].sender.seg]).bytes| <= old(global)
    {
      ghost var w := Now();
      var ch := channels[c];
      var s := segs[ch.sender.seg];
      ok := |s.bytes| <= global;
      if ok {
        global := global - |s.bytes|;
        segs := segs[ch.sender.seg := s.(phase := GlobalHeld)];
      } else {
        segs := segs[ch.sender.seg := s.(phase := GlobalReleased, place := Dropped)];
        channels := channels[c := FailCall(ch, OverBudget(GlobalLimitExceeded))];
      }
      ReachesNext(Initial(budget), history, w, ReserveGlobal(c));
      history := history + [ReserveGlobal(c)];
    }

    /** Any single step, of whichever task. */
    method Step(a: Action)
      requires Valid() && Enabled(Now(), a)
      modifies this
      ensures Took(a)
    {
      var w := Apply(Now(), a);
      ReachesNext(Initial(budget), history, Now(), a);
      StepKeepsBudget(Now(), a);
      assert w == World(budget, w.local, w.global, w.counter, w.holds, w.tenants, w.segs, w.channels);
      local, global, counter, holds := w.local, w.global, w.counter, w.holds;
      tenants, segs, channels := w.tenants, w.segs, w.channels;
      history := history + [a];
    }

    /** A step of another task. */
    method Other(role: Role, a: Action)
      requires Valid() && Applicable(Now(), role) && Enabled(Now(), a) && !Belongs(a, role)
      modifies this
      ensures Took(a) && Kept(old(Now()), Now(), role) && SameBytes(old(segs), segs)
    {
      InitialOrdered(budget);
      RunOrdered(Initial(budget), history, Now());
      ForeignKeeps(Now(), a, role);
      StepKeepsBytes(Now(), a);
      Step(a);
    }

    /** Other tasks run: of what they attempt, whatever is enabled and not this task's own to do. */
    method Others(role: Role, attempts: seq<Action>)
      requires Valid() && Applicable(Now(), role)
      modifies this
      ensures Valid() && old(history) <= history && Kept(old(Now()), Now(), role) && SameBytes(old(segs), segs)
      ensures Reaches(old(Now()), history[|old(history)|..], Now())
    {
      assert history[|history|..] == [];
      for k := 0 to |attempts|
        invariant Valid() && old(history) <= history && Kept(old(Now()), Now(), role) && SameBytes(old(segs), segs)
        invariant Reaches(old(Now()), history[|old(history)|..], Now())
      {
        if Enabled(Now(), attempts[k]) && !Belongs(attempts[k], role) {
          ghost var (w, ran) := (Now(), history[|old(history)|..]);
          ReachesNext(old(Now()), ran, w, attempts[k]);
          Other(role, attempts[k]);
          assert history[|old(history)|..] == ran + [attempts[k]];
          KeptTwice(old(Now()), w, Now(), role);
        }
      }
    }

    /** `record_budget_in_use` on the way in: the held segment is counted. */
    method RecordInUse(c: nat)
      requires Valid() && Enabled(Now(), Count(c))
      modifies this
      ensures Took(Count(c)) && channels == old(channels)
      ensures segs == old(segs)[channels[c].sender.seg := old(segs[channels[c].sender.seg]).(phase := Counted)]
    {
      ghost var w := Now();
      var i := channels[c].sender.seg;
      counter := counter + |segs[i].bytes|;
      segs := segs[i := segs[i].(phase := Counted)];
      ReachesNext(Initial(budget), history, w, Count(c));
      history := history + [Count(c)];
    }

    /** The second half of `reserve`: global permits, then the counter. */
    method ChargeHeld(c: nat, others: nat -> seq<Action>, n: nat) returns (ok: bool)
      requires Valid() && HoldsSegment(Now(), c, LocalHeld)
      modifies this
      ensures Valid() && old(history) <= history && c < |channels|
      ensures ok ==> HoldsSegment(Now(), c, Counted) && SameSender(old(channels[c]), channels[c])
                     && segs[channels[c].sender.seg].bytes == old(segs[channels[c].sender.seg]).bytes
      ensures !ok ==> channels[c] == FailCall(old(channels[c]), OverBudget(GlobalLimitExceeded))
      ensures ok <==> |old(segs[channels[c].sender.seg]).bytes| <= old(global)
    {
      ok := GlobalPermit(c);
      if ok {
        Others(SenderOf(c), others(n));
        RecordInUse(c);
      }
    }

    /**
      `BudgetedSegment::reserve` for the next slice, the others running between its three atomic steps.
      On success the sender holds the slice, charged at every level; on failure the call has ended. The
      tenant limit is what the first step finds, the global limit what the second finds in `second`.
     */
    method Reserve(c: nat, others: nat -> seq<Action>, n: nat) returns (error: Option<BudgetError>, ghost second: World)
      requires Valid() && Enabled(Now(), ReserveLocal(c))
      modifies this
      ensures Valid() && old(history) <= history && c < |channels|
      ensures error.None? ==>
                && HoldsSegment(Now(), c, Counted)
                && SameSender(old(channels[c]).(sender := channels[c].sender), channels[c])
                && segs[channels[c].sender.seg].bytes == NextSlice(old(channels[c]))
      ensures error.Some? ==> SameSender(FailCall(old(channels[c]), OverBudget(error.value)), channels[c])
      ensures var size := |NextSlice(old(channels[c]))|;
              var first := LocalRefusal(size, old(local[channels[c].sem]));
              && Leads(Apply(old(Now()), ReserveLocal(c)), second)
              && error == if first.Some? then first else if size > second.global then Some(GlobalLimitExceeded) else None
    {
      error := TenantPermit(c);
      second := Now();
      assert Reaches(Now(), [], Now());
      if error.None? {
        ghost var (w, h) := (Now(), history);
        Others(SenderOf(c), others(n));
        assert Reaches(w, history[|h|..], Now());
        second := Now();
        var ok := ChargeHeld(c, others, n + 1);
        error := if ok then None else Some(GlobalLimitExceeded);
      }
    }

    /** `sender.send`: into the queue if there is room in time, otherwise the reserved segment is dropped. */
    method SendHeld(c: nat, patient: bool) returns (error: Option<EnqueueError>)
      requires Valid() && HoldsSegment(Now(), c, Counted)
      modifies this
      ensures Valid() && old(history) <= history && c < |channels|
      ensures error.None? ==> channels[c] == SendOn(old(channels[c]), old(channels[c].sender.seg),
                                                    |old(segs[channels[c].sender.seg]).bytes|)
      ensures error.Some? ==> channels[c] == FailCall(old(channels[c]), error.value)
      ensures error == if !old(channels[c].bodyAlive) then Some(Closed)
                       else if !patient || |old(channels[c].queue)| >= QUEUE_ITEMS then Some(TimedOut)
                       else None
    {
      ghost var w := Now();
      var ch := channels[c];
      var i := ch.sender.seg;
      if ch.bodyAlive && patient && |ch.queue| < QUEUE_ITEMS {
        error := None;
        channels := channels[c := SendOn(ch, i, |segs[i].bytes|)];
        segs := segs[i := segs[i].(place := InQueue)];
        ReachesNext(Initial(budget), history, w, Send(c));
        history := history + [Send(c)];
      } else if !ch.bodyAlive {
        error := Some(Closed);
        Step(SendToClosed(c));
      } else {
        error := Some(TimedOut);
        Step(Cancel(c));
      }
    }

    /** A new call starts slicing its bytes; without bytes it has already ended well. */
    method Begin(c: nat, bytes: ByteString)
      requires Valid() && Enabled(Now(), BeginCall(c, bytes))
      modifies this
      ensures Took(BeginCall(c, bytes)) && |channels| == |old(channels)|
      ensures channels[c] == Began(old(channels[c]), bytes)
    {
      ReachesNext(Initial(budget), history, Now(), BeginCall(c, bytes));
      channels := channels[c := Began(channels[c], bytes)];
      history := history + [BeginCall(c, bytes)];
    }

    /** Reserve the next slice, wait for the others, send it. */
    method PassSlice(c: nat, others: nat -> seq<Action>, n: nat, patient: bool) returns (error: Option<EnqueueError>)
      requires Valid() && c < |channels| && channels[c].sender.Slicing?
      requires channels[c].calls != [] && Last(channels[c].calls).taken < |Last(channels[c].calls).bytes|
      modifies this
      ensures Valid() && old(history) <= history && c < |channels| && SameEnds(old(channels[c]), channels[c])
      ensures error.None? ==>
                var call := AfterSend(Last(old(channels[c]).calls), |NextSlice(old(channels[c]))|);
                channels[c].calls == WithLast(old(channels[c].calls), call)
                && channels[c].sender == if call.status.Done? then Idle else Slicing
      ensures error.Some? ==> SameSender(FailCall(old(channels[c]), error.value), channels[c])
    {
      RunKeepsSemaphores(Initial(budget), history, Now());
      var refused, _ := Reserve(c, others, n);
      if refused.Some? {
        error := Some(OverBudget(refused.value));
      } else {
        Others(SenderOf(c), others(n + 2));
        error := SendHeld(c, patient);
      }
    }

    /** One round of the loop: the call in progress gets one slice further or ends. */
    method Round(c: nat, others: nat -> seq<Action>, n: nat, patient: bool) returns (call: Call)
      requires Valid() && c < |channels| && channels[c].sender.Slicing? && channels[c].capacity > 0
      requires channels[c].calls != [] && Last(channels[c].calls).taken < |Last(channels[c].calls).bytes|
      modifies this
      ensures Valid() && old(history) <= history && c < |channels| && SameEnds(old(channels[c]), channels[c])
      ensures channels[c].calls == WithLast(old(channels[c].calls), call)
      ensures channels[c].sender == if call.status.Running? then Slicing else Idle
      ensures call.bytes == Last(old(channels[c].calls)).bytes && CallOk(call, true)
      ensures call.status.Failed? ==> call.taken == Last(old(channels[c].calls)).taken
      ensures call.status.Running? ==> call.taken == Last(old(channels[c].calls)).taken + channels[c].capacity
    {
      Others(SenderOf(c), others(n));
      call := Last(channels[c].calls);
      var size := |NextSlice(channels[c])|;
      var error := PassSlice(c, others, n + 1, patient);
      call := if error.Some? then call.(status := Failed(error.value)) else AfterSend(call, size);
    }

    /**
      `enqueue`, under whatever the others do: the call is recorded with exactly the bytes that reached
      the queue, and it ends well if and only if they all did. A call that fails has passed on a whole
      number of slices.
     */
    method Enqueue(c: nat, bytes: ByteString, others: nat -> seq<Action>, patient: nat -> bool)
        returns (status: Status, taken: nat, slices: nat)
      requires Valid() && Enabled(Now(), BeginCall(c, bytes))
      modifies this
      ensures Valid() && old(history) <= history
      ensures c < |channels| && channels[c].sender.Idle? && SameEnds(old(channels[c]), channels[c])
      ensures channels[c].calls == old(channels[c].calls) + [Call(bytes, taken, status)]
      ensures taken <= |bytes| && (if taken == |bytes| then status.Done? else status.Failed?)
      ensures status.Failed? ==> taken == WholeSlices(slices, old(channels[c].capacity))
    {
      ghost var before := channels[c].calls;
      CapacityPositive(budget, history, Now(), c);
      Begin(c, bytes);
      var call := Last(channels[c].calls);
      var n := 0;
      var capacity := channels[c].capacity;
      slices := 0;
      while call.status.Running?
        invariant Valid() && old(history) <= history && c < |channels| && channels[c].capacity == capacity > 0
        invariant SameEnds(old(channels[c]), channels[c])
        invariant !call.status.Done? ==> call.taken == WholeSlices(slices, capacity)
        invariant channels[c].calls == before + [call] && call.bytes == bytes && CallOk(call, true)
        invariant call.status.Failed? ==> call.taken < |bytes|
        invariant channels[c].sender == if call.status.Running? then Slicing else Idle
        decreases call.status.Running?, |bytes| - call.taken
      {
        call := Round(c, others, n, patient(n));
        n := n + 4;
        if call.status.Running? {
          slices := slices + 1;
        }
      }
      status, taken := call.status, call.taken;
    }

    /**
      Dropping a segment, the others running in between: out of the counter, then the global permits
      back, then the local ones, each the size of the segment.
     */
    method DropSegment(c: nat, i: nat, others: nat -> seq<Action>) returns (ghost mid: World, ghost late: World)
      requires Valid() && c < |channels| && i < |segs| && segs[i].place.Dropped? && segs[i].phase.Counted?
      modifies this
      ensures Valid() && old(history) <= history && Kept(old(Now()), Now(), BodyOf(c)) && SameBytes(old(segs), segs)
      ensures i < |segs| && segs[i] == old(segs[i]).(phase := Gone)
      ensures LeavesCounter(old(Now()), i) && ReturnsGlobal(mid, i) && ReturnsLocal(late, i) && Now() == Apply(late, ReleaseLocal(i))
      ensures mid.segs[i].bytes == late.segs[i].bytes == old(segs[i]).bytes
      ensures Leads(Apply(old(Now()), ReleaseCounter(i)), mid) && Leads(Apply(mid, ReleaseGlobal(i)), late)
    {
      mid := Uncharge(c, i, others(0));
      ghost var (w, h) := (Now(), history);
      Others(Dropping(c, i), others(1));
      assert Reaches(w, history[|h|..], Now());
      late := Now();
      ReturnLocal(i);
    }

    /** The first two steps of a drop. */
    method Uncharge(c: nat, i: nat, others: seq<Action>) returns (ghost mid: World)
      requires Valid() && c < |channels| && i < |segs| && segs[i].place.Dropped? && segs[i].phase.Counted?
      modifies this
      ensures Valid() && old(history) <= history && Kept(old(Now()), Now(), BodyOf(c)) && SameBytes(old(segs), segs)
      ensures i < |segs| && segs[i] == old(segs[i]).(phase := GlobalReleased)
      ensures LeavesCounter(old(Now()), i) && ReturnsGlobal(mid, i) && Now() == Apply(mid, ReleaseGlobal(i))
      ensures mid.segs[i].bytes == old(segs[i]).bytes && Leads(Apply(old(Now()), ReleaseCounter(i)), mid)
    {
      RecordReleased(i);
      ghost var (w, h) := (Now(), history);
      Others(Dropping(c, i), others);
      assert Reaches(w, history[|h|..], Now());
      mid := Now();
      ReturnGlobal(i);
    }

    /** `record_budget_in_use` on the way out; the counter covers what it loses. */
    method RecordReleased(i: nat)
      requires Valid() && Enabled(Now(), ReleaseCounter(i))
      modifies this
      ensures Took(ReleaseCounter(i)) && channels == old(channels)
      ensures segs == old(segs)[i := old(segs[i]).(phase := Uncounted)]
      ensures counter == old(counter) - |old(segs[i]).bytes| && LeavesCounter(old(Now()), i)
    {
      CounterNeverUnderflows(budget, history, Now(), i);
      ReachesNext(Initial(budget), history, Now(), ReleaseCounter(i));
      counter := counter - |segs[i].bytes|;
      segs := segs[i := segs[i].(phase := Uncounted)];
      history := history + [ReleaseCounter(i)];
    }

    method ReturnGlobal(i: nat)
      requires Valid() && Enabled(Now(), ReleaseGlobal(i))
      modifies this
      ensures Took(ReleaseGlobal(i)) && channels == old(channels)
      ensures segs == old(segs)[i := old(segs[i]).(phase := GlobalReleased)]
      ensures global == old(global) + |old(segs[i]).bytes|
    {
      ReachesNext(Initial(budget), history, Now(), ReleaseGlobal(i));
      global := global + |segs[i].bytes|;
      segs := segs[i := segs[i].(phase := GlobalReleased)];
      history := history + [ReleaseGlobal(i)];
    }

    method ReturnLocal(i: nat)
      requires Valid() && Releases(Now(), i, GlobalReleased)
      modifies this
      ensures Took(ReleaseLocal(i)) && channels == old(channels)
      ensures segs == old(segs)[i := old(segs[i]).(phase := Gone)]
      ensures ReturnsLocal(old(Now()), i)
    {
      InitialConserved(budget);
      RunConserves(Initial(budget), history, Now());
      ReachesNext(Initial(budget), history, Now(), ReleaseLocal(i));
      var s := segs[i];
      local := local[s.sem := local[s.sem] + |s.bytes|];
      segs := segs[i := s.(phase := Gone)];
      history := history + [ReleaseLocal(i)];
    }

    /** `poll_frame`: the frame handed out before is dropped first, then the queue is asked for the next one. */
    method PollFrame(c: nat, others: nat -> seq<Action>) returns (r: Poll)
      requires Valid() && c < |channels| && channels[c].bodyAlive
      modifies this
      ensures Valid() && old(history) <= history && c < |channels|
      ensures channels[c].delivered == old(channels[c].delivered) + (if r.Ready? then r.frame else [])
      ensures if r.Ready? then channels[c].inFlight.Some? && BytesOf(segs, channels[c].inFlight.value) == r.frame
              else channels[c].inFlight.None?
      ensures !old(channels[c].ended) && old(channels[c].queue) != [] ==>
                r.Ready? && r.frame == BytesOf(old(segs), old(channels[c].queue[0]))
      ensures r.Finished? <==> channels[c].ended
      ensures r.Finished? ==> channels[c].queue == [] && !channels[c].senderAlive
    {
      BodyOwns(budget, history, Now(), c);
      if channels[c].ended {
        return Finished;
      }
      if channels[c].inFlight.Some? {
        ReleaseInFlight(c, others);
      }
      r := Receive(c);
    }

    /** `self.in_flight = None`, with the drop it causes. */
    method ReleaseInFlight(c: nat, others: nat -> seq<Action>)
      requires Valid() && Polls(Now(), c) && channels[c].inFlight.Some?
      modifies this
      ensures Valid() && old(history) <= history && c < |channels| && SameBytes(old(segs), segs)
      ensures SameBody(old(channels[c]).(inFlight := None), channels[c])
    {
      var i := channels[c].inFlight.value;
      BodyOwns(budget, history, Now(), c);
      channels, segs := channels[c := channels[c].(inFlight := None)], segs[i := segs[i].(place := Dropped)];
      ReachesNext(Initial(budget), history, old(Now()), PollDrop(c));
      history := history + [PollDrop(c)];
      ghost var mid, late := DropSegment(c, i, others);
    }

    /** `poll_recv` on the queue, with what `poll_frame` makes of it. */
    method Receive(c: nat) returns (r: Poll)
      requires Valid() && Polls(Now(), c) && channels[c].inFlight.None?
      modifies this
      ensures Valid() && old(history) <= history && c < |channels|
      ensures channels[c].delivered == old(channels[c].delivered) + (if r.Ready? then r.frame else [])
      ensures if r.Ready? then channels[c].inFlight.Some? && BytesOf(segs, channels[c].inFlight.value) == r.frame
              else channels[c].inFlight.None?
      ensures r.Ready? <==> old(channels[c].queue) != []
      ensures r.Ready? ==> r.frame == BytesOf(old(segs), old(channels[c].queue[0]))
      ensures r.Finished? <==> channels[c].ended
      ensures r.Finished? <==> old(channels[c].queue) == [] && !old(channels[c].senderAlive)
      ensures r.Finished? ==> channels[c].queue == [] && !channels[c].senderAlive
    {
      var ch := channels[c];
      BodyOwns(budget, history, Now(), c);
      if ch.queue != [] {
        r := Ready(segs[ch.queue[0]].bytes);
        channels := channels[c := Received(ch, segs)];
        segs := segs[ch.queue[0] := segs[ch.queue[0]].(place := InFlight)];
        ReachesNext(Initial(budget), history, old(Now()), PollReceive(c));
        history := history + [PollReceive(c)];
      } else if !ch.senderAlive {
        r := Finished;
        channels := channels[c := ch.(ended := true)];
        ReachesNext(Initial(budget), history, old(Now()), PollEnd(c));
        history := history + [PollEnd(c)];
      } else {
        r := Pending;
      }
    }
  }
}
