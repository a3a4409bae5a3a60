/**
  The byte-budget queue as a system of atomic steps: any number of streams and tenants, two levels of
  permits per segment, one counter of bytes in use, a bounded queue per stream.
  A segment takes local permits, then global permits, then is counted; when it is dropped it leaves
  the counter, then returns its global permits, then its local ones.
 */
module Budget {
  import opened Bytes

  const GLOBAL_MEMORY_CHUNK: nat := 64 * 1024
  const TENANT_MEMORY_BUDGET: nat := 16 * 1024 * 1024
  const QUEUE_ITEMS: nat := 32
  const MAX_PERMITS: nat := 0xFFFF_FFFF

  type Tenant = ByteString

  // ---- Segments ------------------------------------------------------------------------------

  datatype Phase = LocalHeld | GlobalHeld | Counted | Uncounted | GlobalReleased | Gone

  datatype Place = WithSender | InQueue | InFlight | Dropped

  datatype Segment = Segment(channel: nat, sem: nat, bytes: ByteString, phase: Phase, place: Place)

  /** The accounts a segment can be charged to. */
  datatype Account = Local(sem: nat) | AnyLocal | Global | Counter | Waiting(sem: nat) | AnyWaiting

  predicate Charges(s: Segment, a: Account) {
    match a
    case Local(sem) => s.sem == sem && !s.phase.Gone?
    case AnyLocal => !s.phase.Gone?
    case Global => s.phase.GlobalHeld? || s.phase.Counted? || s.phase.Uncounted?
    case Counter => s.phase.Counted?
    case Waiting(sem) => s.sem == sem && (s.place.InQueue? || s.place.InFlight?)
    case AnyWaiting => s.place.InQueue? || s.place.InFlight?
  }

  function Weight(s: Segment, a: Account): nat {
    if Charges(s, a) then |s.bytes| else 0
  }

  function Total(segs: seq<Segment>, a: Account): nat {
    if segs == [] then 0 else Weight(segs[0], a) + Total(segs[1..], a)
  }

  lemma {:induction false} TotalUpdate(segs: seq<Segment>, i: nat, s: Segment, a: Account)
    requires i < |segs|
    ensures Total(segs[i := s], a) + Weight(segs[i], a) == Total(segs, a) + Weight(s, a)
  {
    if i == 0 {
      assert segs[i := s][1..] == segs[1..];
    } else {
      assert segs[i := s][1..] == segs[1..][i - 1 := s];
      TotalUpdate(segs[1..], i - 1, s, a);
    }
  }

  lemma {:induction false} TotalAppend(segs: seq<Segment>, s: Segment, a: Account)
    ensures Total(segs + [s], a) == Total(segs, a) + Weight(s, a)
  {
    if segs == [] {
      assert segs + [s] == [s] && [s][1..] == [];
    } else {
      assert (segs + [s])[1..] == segs[1..] + [s];
      TotalAppend(segs[1..], s, a);
    }
  }

  lemma {:induction false} TotalSameWeights(x: seq<Segment>, y: seq<Segment>, a: Account)
    requires |x| == |y| && forall i | 0 <= i < |x| :: Weight(x[i], a) == Weight(y[i], a)
    ensures Total(x, a) == Total(y, a)
  {
    if x != [] {
      TotalSameWeights(x[1..], y[1..], a);
    }
  }

  lemma {:induction false} TotalAtLeast(segs: seq<Segment>, i: nat, a: Account)
    requires i < |segs|
    ensures Weight(segs[i], a) <= Total(segs, a)
  {
    if i > 0 {
      TotalAtLeast(segs[1..], i - 1, a);
    }
  }

  /** Counted segments hold global permits, and whoever holds global permits holds local ones. */
  lemma {:induction false} TotalsChain(segs: seq<Segment>)
    ensures Total(segs, Counter) <= Total(segs, Global) <= Total(segs, AnyLocal)
  {
    if segs != [] {
      TotalsChain(segs[1..]);
    }
  }

  function Sum(ns: seq<nat>): nat {
    if ns == [] then 0 else ns[0] + Sum(ns[1..])
  }

  lemma {:induction false} SumUpdate(ns: seq<nat>, i: nat, n: nat)
    requires i < |ns|
    ensures Sum(ns[i := n]) + ns[i] == Sum(ns) + n
  {
    if i == 0 {
      assert ns[i := n][1..] == ns[1..];
    } else {
      assert ns[i := n][1..] == ns[1..][i - 1 := n];
      SumUpdate(ns[1..], i - 1, n);
    }
  }

  lemma {:induction false} SumAppend(ns: seq<nat>, n: nat)
    ensures Sum(ns + [n]) == Sum(ns) + n
  {
    if ns == [] {
      assert ns + [n] == [n] && [n][1..] == [];
    } else {
      assert (ns + [n])[1..] == ns[1..] + [n];
      SumAppend(ns[1..], n);
    }
  }

  // ---- Channels ------------------------------------------------------------------------------

  datatype BudgetError = Capacity | TenantLimitExceeded | GlobalLimitExceeded

  /** Why an `enqueue` call stopped early; `TimedOut` is the caller giving up on a full queue. */
  datatype EnqueueError = OverBudget(error: BudgetError) | Closed | TimedOut

  datatype Status = Running | Done | Failed(error: EnqueueError)

  /** One `enqueue` call: its bytes, how many of them reached the queue, and how it ended. */
  datatype Call = Call(bytes: ByteString, taken: nat, status: Status)

  datatype Sender = Idle | Slicing | Holding(seg: nat)

  datatype Channel = Channel(
    sem: nat, capacity: nat, calls: seq<Call>, sender: Sender, queue: seq<nat>, inFlight: Option<nat>,
    delivered: ByteString, bodyAlive: bool, senderAlive: bool, ended: bool)

  datatype World = World(
    budget: nat, local: seq<nat>, global: nat, counter: nat, holds: seq<nat>, tenants: map<Tenant, nat>,
    segs: seq<Segment>, channels: seq<Channel>)

  function Initial(budget: nat): World {
    World(budget, [], budget, 0, [], map[], [], [])
  }

  // ---- Steps ---------------------------------------------------------------------------------

  datatype Action =
    | NewHold | HoldTake(hold: nat, permits: nat) | HoldRelease(hold: nat)
    | ClearTenants
    | Open(tenant: Tenant, capacity: nat)
    | BeginCall(channel: nat, bytes: ByteString)
    | ReserveLocal(channel: nat) | ReserveGlobal(channel: nat) | Count(channel: nat)
    | Send(channel: nat) | SendToClosed(channel: nat) | Cancel(channel: nat)
    | CloseSender(channel: nat)
    | PollDrop(channel: nat) | PollReceive(channel: nat) | PollEnd(channel: nat)
    | DropBody(channel: nat)
    | ReleaseCounter(seg: nat) | ReleaseGlobal(seg: nat) | ReleaseLocal(seg: nat)

  function Last(calls: seq<Call>): Call
    requires calls != []
  {
    calls[|calls| - 1]
  }

  function WithLast(calls: seq<Call>, c: Call): seq<Call>
    requires calls != []
  {
    calls[..|calls| - 1] + [c]
  }

  function FailCall(ch: Channel, error: EnqueueError): Channel
    requires ch.calls != []
  {
    ch.(calls := WithLast(ch.calls, Last(ch.calls).(status := Failed(error))), sender := Idle)
  }

  /** The slice an active call sends next. */
  function NextSlice(ch: Channel): ByteString
    requires ch.calls != [] && Last(ch.calls).taken <= |Last(ch.calls).bytes|
  {
    var call := Last(ch.calls);
    call.bytes[call.taken..Min(call.taken + ch.capacity, |call.bytes|)]
  }

  function AfterSend(call: Call, size: nat): Call {
    var taken := call.taken + size;
    Call(call.bytes, taken, if taken >= |call.bytes| then Done else Running)
  }

  function SendOn(ch: Channel, seg: nat, size: nat): Channel
    requires ch.calls != []
  {
    var call := AfterSend(Last(ch.calls), size);
    ch.(queue := ch.queue + [seg],
        calls := WithLast(ch.calls, call),
        sender := if call.status.Done? then Idle else Slicing)
  }

  function Received(ch: Channel, segs: seq<Segment>): Channel
    requires ch.queue != [] && ch.queue[0] < |segs|
  {
    ch.(queue := ch.queue[1..], inFlight := Some(ch.queue[0]), delivered := ch.delivered + segs[ch.queue[0]].bytes)
  }

  function DropAll(segs: seq<Segment>, ids: seq<nat>): (r: seq<Segment>)
    ensures |r| == |segs|
    ensures forall i | 0 <= i < |segs| :: r[i] == if i in ids then segs[i].(place := Dropped) else segs[i]
  {
    seq(|segs|, i requires 0 <= i < |segs| => if i in ids then segs[i].(place := Dropped) else segs[i])
  }

  function Owned(ch: Channel): seq<nat> {
    ch.queue + (if ch.inFlight.Some? then [ch.inFlight.value] else [])
  }

  predicate HoldsSegment(w: World, c: nat, phase: Phase) {
    c < |w.channels| && w.channels[c].sender.Holding? && w.channels[c].sender.seg < |w.segs|
    && w.segs[w.channels[c].sender.seg].phase == phase && w.channels[c].calls != []
  }

  predicate Polls(w: World, c: nat) {
    c < |w.channels| && w.channels[c].bodyAlive && !w.channels[c].ended
  }

  predicate Releases(w: World, i: nat, phase: Phase) {
    i < |w.segs| && w.segs[i].place.Dropped? && w.segs[i].phase == phase
  }

  predicate Enabled(w: World, a: Action) {
    match a
    case NewHold => true
    case HoldTake(h, n) => h < |w.holds| && n <= w.global && w.holds[h] + n <= GLOBAL_MEMORY_CHUNK
    case HoldRelease(h) => h < |w.holds|
    case ClearTenants => true
    case Open(tenant, capacity) => capacity > 0
    case BeginCall(c, bytes) => c < |w.channels| && w.channels[c].sender.Idle? && w.channels[c].senderAlive
    case ReserveLocal(c) =>
      c < |w.channels| && w.channels[c].sender.Slicing? && w.channels[c].calls != []
      && Last(w.channels[c].calls).taken <= |Last(w.channels[c].calls).bytes| && w.channels[c].sem < |w.local|
    case ReserveGlobal(c) => HoldsSegment(w, c, LocalHeld)
    case Count(c) => HoldsSegment(w, c, GlobalHeld)
    case Send(c) => HoldsSegment(w, c, Counted) && w.channels[c].bodyAlive && |w.channels[c].queue| < QUEUE_ITEMS
    case SendToClosed(c) => HoldsSegment(w, c, Counted) && !w.channels[c].bodyAlive
    case Cancel(c) => HoldsSegment(w, c, Counted)
    case CloseSender(c) => c < |w.channels| && w.channels[c].sender.Idle?
    case PollDrop(c) => Polls(w, c) && w.channels[c].inFlight.Some? && w.channels[c].inFlight.value < |w.segs|
    case PollReceive(c) =>
      Polls(w, c) && w.channels[c].inFlight.None? && w.channels[c].queue != [] && w.channels[c].queue[0] < |w.segs|
    case PollEnd(c) => Polls(w, c) && w.channels[c].inFlight.None? && w.channels[c].queue == [] && !w.channels[c].senderAlive
    case DropBody(c) => c < |w.channels| && w.channels[c].bodyAlive
    case ReleaseCounter(i) => Releases(w, i, Counted)
    case ReleaseGlobal(i) => Releases(w, i, Uncounted)
    case ReleaseLocal(i) => Releases(w, i, GlobalReleased) && w.segs[i].sem < |w.local|
  }

  function SetChannel(w: World, c: nat, ch: Channel): World
    requires c < |w.channels|
  {
    w.(channels := w.channels[c := ch])
  }

  function SetSegment(w: World, i: nat, s: Segment): World
    requires i < |w.segs|
  {
    w.(segs := w.segs[i := s])
  }

  /** Subtraction that cannot go below zero: `Conserved` shows that it never has to stop there. */
  function Minus(a: nat, b: nat): nat {
    if a >= b then a - b else 0
  }

  function OpenChannel(w: World, tenant: Tenant, capacity: nat): World {
    var known := tenant in w.tenants && w.tenants[tenant] < |w.local|;
    var sem := if known then w.tenants[tenant] else |w.local|;
    var local := if known then w.local else w.local + [TENANT_MEMORY_BUDGET];
    w.(local := local, tenants := w.tenants[tenant := sem],
       channels := w.channels + [Channel(sem, capacity, [], Idle, [], None, [], true, true, false)])
  }

  function Began(ch: Channel, bytes: ByteString): Channel {
    ch.(calls := ch.calls + [Call(bytes, 0, if bytes == [] then Done else Running)],
        sender := if bytes == [] then Idle else Slicing)
  }

  function Apply(w: World, a: Action): World
    requires Enabled(w, a)
  {
    match a
    case NewHold => w.(holds := w.holds + [0])
    case HoldTake(h, n) => w.(global := w.global - n, holds := w.holds[h := w.holds[h] + n])
    case HoldRelease(h) => w.(global := w.global + w.holds[h], holds := w.holds[h := 0])
    case ClearTenants => w.(tenants := map[])
    case Open(tenant, capacity) => OpenChannel(w, tenant, capacity)
    case BeginCall(c, bytes) => SetChannel(w, c, Began(w.channels[c], bytes))
    case ReserveLocal(c) => DoReserveLocal(w, c)
    case ReserveGlobal(c) => DoReserveGlobal(w, c)
    case Count(c) =>
      var i := w.channels[c].sender.seg;
      SetSegment(w, i, w.segs[i].(phase := Counted)).(counter := w.counter + |w.segs[i].bytes|)
    case Send(c) =>
      var i := w.channels[c].sender.seg;
      SetChannel(SetSegment(w, i, w.segs[i].(place := InQueue)), c, SendOn(w.channels[c], i, |w.segs[i].bytes|))
    case SendToClosed(c) => DropHeld(w, c, Closed)
    case Cancel(c) => DropHeld(w, c, TimedOut)
    case CloseSender(c) => SetChannel(w, c, w.channels[c].(senderAlive := false))
    case PollDrop(c) =>
      var i := w.channels[c].inFlight.value;
      SetChannel(SetSegment(w, i, w.segs[i].(place := Dropped)), c, w.channels[c].(inFlight := None))
    case PollReceive(c) =>
      var i := w.channels[c].queue[0];
      SetChannel(SetSegment(w, i, w.segs[i].(place := InFlight)), c, Received(w.channels[c], w.segs))
    case PollEnd(c) => SetChannel(w, c, w.channels[c].(ended := true))
    case DropBody(c) =>
      SetChannel(w.(segs := DropAll(w.segs, Owned(w.channels[c]))), c,
                 w.channels[c].(queue := [], inFlight := None, bodyAlive := false))
    case ReleaseCounter(i) =>
      SetSegment(w, i, w.segs[i].(phase := Uncounted)).(counter := Minus(w.counter, |w.segs[i].bytes|))
    case ReleaseGlobal(i) =>
      SetSegment(w, i, w.segs[i].(phase := GlobalReleased)).(global := w.global + |w.segs[i].bytes|)
    case ReleaseLocal(i) =>
      var s := w.segs[i];
      SetSegment(w, i, s.(phase := Gone)).(local := w.local[s.sem := w.local[s.sem] + |s.bytes|])
  }

  function DoReserveLocal(w: World, c: nat): World
    requires Enabled(w, ReserveLocal(c))
  {
    var ch := w.channels[c];
    var slice := NextSlice(ch);
    if |slice| == 0 || |slice| > MAX_PERMITS then SetChannel(w, c, FailCall(ch, OverBudget(Capacity)))
    else if |slice| > w.local[ch.sem] then SetChannel(w, c, FailCall(ch, OverBudget(TenantLimitExceeded)))
    else
      SetChannel(w.(local := w.local[ch.sem := w.local[ch.sem] - |slice|],
                    segs := w.segs + [Segment(c, ch.sem, slice, LocalHeld, WithSender)]),
                 c, ch.(sender := Holding(|w.segs|)))
  }

  function DoReserveGlobal(w: World, c: nat): World
    requires Enabled(w, ReserveGlobal(c))
  {
    var ch := w.channels[c];
    var i := ch.sender.seg;
    var s := w.segs[i];
    if |s.bytes| > w.global then
      SetChannel(SetSegment(w, i, s.(phase := GlobalReleased, place := Dropped)), c, FailCall(ch, OverBudget(GlobalLimitExceeded)))
    else
      SetSegment(w, i, s.(phase := GlobalHeld)).(global := w.global - |s.bytes|)
  }

  /** The reserved segment never reaches the queue: the receiver is gone or the send was cancelled. */
  function DropHeld(w: World, c: nat, error: EnqueueError): World
    requires HoldsSegment(w, c, Counted)
  {
    var i := w.channels[c].sender.seg;
    SetChannel(SetSegment(w, i, w.segs[i].(place := Dropped)), c, FailCall(w.channels[c], error))
  }

  // ---- What a step can touch -------------------------------------------------------------------

  /** The stream whose record a step may change. */
  function Target(a: Action): Option<nat> {
    match a
    case BeginCall(c, _) => Some(c)
    case ReserveLocal(c) => Some(c)
    case ReserveGlobal(c) => Some(c)
    case Send(c) => Some(c)
    case SendToClosed(c) => Some(c)
    case Cancel(c) => Some(c)
    case CloseSender(c) => Some(c)
    case PollDrop(c) => Some(c)
    case PollReceive(c) => Some(c)
    case PollEnd(c) => Some(c)
    case DropBody(c) => Some(c)
    case _ => None
  }

  lemma OtherChannelsUntouched(w: World, a: Action, d: nat)
    requires Enabled(w, a) && d < |w.channels| && Target(a) != Some(d)
    ensures d < |Apply(w, a).channels| && Apply(w, a).channels[d] == w.channels[d]
  {
  }

  /** The segments a step may change. */
  function Touched(w: World, a: Action): seq<nat>
    requires Enabled(w, a)
  {
    match a
    case ReserveGlobal(c) => [w.channels[c].sender.seg]
    case Count(c) => [w.channels[c].sender.seg]
    case Send(c) => [w.channels[c].sender.seg]
    case SendToClosed(c) => [w.channels[c].sender.seg]
    case Cancel(c) => [w.channels[c].sender.seg]
    case PollDrop(c) => [w.channels[c].inFlight.value]
    case PollReceive(c) => [w.channels[c].queue[0]]
    case DropBody(c) => Owned(w.channels[c])
    case ReleaseCounter(i) => [i]
    case ReleaseGlobal(i) => [i]
    case ReleaseLocal(i) => [i]
    case _ => []
  }

  predicate SameSegment(w: World, w': World, i: nat) {
    i < |w.segs| && i < |w'.segs| && w'.segs[i] == w.segs[i]
  }

  lemma OtherSegmentsUntouched(w: World, a: Action, i: nat)
    requires Enabled(w, a) && i < |w.segs| && i !in Touched(w, a)
    ensures SameSegment(w, Apply(w, a), i)
  {
  }

  lemma StepKeepsBudget(w: World, a: Action)
    requires Enabled(w, a)
    ensures Apply(w, a).budget == w.budget
  {
  }

  // ---- Runs ----------------------------------------------------------------------------------

  /** `w` is reached from `start` by enabled steps. */
  predicate Reaches(start: World, actions: seq<Action>, w: World)
    decreases |actions|
  {
    if actions == [] then start == w
    else Enabled(start, actions[0]) && Reaches(Apply(start, actions[0]), actions[1..], w)
  }
}
