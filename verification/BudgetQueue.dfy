/**
  What the queue of every stream keeps, whatever the other streams do: which segments it owns, that
  they stay charged, and that the bytes come out in the order they went in.
 */
module BudgetQueue {
  import opened Bytes
  import opened Budget
  import opened Conservation

  // ---- Bytes accepted and bytes queued ---------------------------------------------------------

  function Taken(call: Call): ByteString {
    call.bytes[..Min(call.taken, |call.bytes|)]
  }

  /** The bytes that reached the queue, call by call. */
  function Accepted(calls: seq<Call>): ByteString {
    if calls == [] then [] else Accepted(calls[..|calls| - 1]) + Taken(Last(calls))
  }

  /** All bytes passed to `enqueue`, call by call. */
  function Offered(calls: seq<Call>): ByteString {
    if calls == [] then [] else Offered(calls[..|calls| - 1]) + Last(calls).bytes
  }

  function BytesOf(segs: seq<Segment>, id: nat): ByteString {
    if id < |segs| then segs[id].bytes else []
  }

  function QueueBytes(segs: seq<Segment>, queue: seq<nat>): ByteString {
    if queue == [] then [] else BytesOf(segs, queue[0]) + QueueBytes(segs, queue[1..])
  }

  lemma {:induction false} QueueBytesSnoc(segs: seq<Segment>, queue: seq<nat>, id: nat)
    ensures QueueBytes(segs, queue + [id]) == QueueBytes(segs, queue) + BytesOf(segs, id)
  {
    if queue == [] {
      assert queue + [id] == [id] && [id][1..] == [];
    } else {
      assert (queue + [id])[1..] == queue[1..] + [id];
      QueueBytesSnoc(segs, queue[1..], id);
      Reassociate(BytesOf(segs, queue[0]), QueueBytes(segs, queue[1..]), BytesOf(segs, id));
    }
  }

  lemma {:induction false} QueueBytesFrame(segs: seq<Segment>, segs': seq<Segment>, queue: seq<nat>)
    requires forall k | 0 <= k < |queue| :: BytesOf(segs, queue[k]) == BytesOf(segs', queue[k])
    ensures QueueBytes(segs, queue) == QueueBytes(segs', queue)
  {
    if queue != [] {
      assert BytesOf(segs, queue[0]) == BytesOf(segs', queue[0]);
      forall k | 0 <= k < |queue[1..]| ensures BytesOf(segs, queue[1..][k]) == BytesOf(segs', queue[1..][k]) {
        assert queue[1..][k] == queue[k + 1];
      }
      QueueBytesFrame(segs, segs', queue[1..]);
    }
  }

  // ---- The invariant ---------------------------------------------------------------------------

  predicate CallOk(call: Call, last: bool) {
    && call.taken <= |call.bytes|
    && (call.status.Done? ==> call.taken == |call.bytes|)
    && (call.status.Running? ==> last && call.taken < |call.bytes|)
  }

  predicate CallsOk(ch: Channel) {
    && ch.capacity > 0
    && (forall k | 0 <= k < |ch.calls| :: CallOk(ch.calls[k], k == |ch.calls| - 1))
    && (ch.sender.Idle? <==> (ch.calls == [] || !Last(ch.calls).status.Running?))
    && (!ch.senderAlive ==> ch.sender.Idle?)
  }

  predicate Mine(segs: seq<Segment>, c: nat, id: nat, place: Place) {
    id < |segs| && segs[id].channel == c && segs[id].place == place
  }

  predicate SenderOk(ch: Channel, c: nat, segs: seq<Segment>)
    requires CallsOk(ch)
  {
    ch.sender.Holding? ==> Mine(segs, c, ch.sender.seg, WithSender) && segs[ch.sender.seg].bytes == NextSlice(ch)
  }

  predicate QueueOk(ch: Channel, c: nat, segs: seq<Segment>) {
    && |ch.queue| <= QUEUE_ITEMS
    && (forall k | 0 <= k < |ch.queue| :: Mine(segs, c, ch.queue[k], InQueue))
    && (forall k, l | 0 <= k < l < |ch.queue| :: ch.queue[k] != ch.queue[l])
    && (ch.inFlight.Some? ==> Mine(segs, c, ch.inFlight.value, InFlight))
  }

  predicate EndOk(ch: Channel) {
    && (ch.ended ==> ch.queue == [] && ch.inFlight.None? && !ch.senderAlive)
    && (!ch.bodyAlive ==> ch.queue == [] && ch.inFlight.None?)
  }

  /** Frames handed out plus segments queued are exactly the bytes accepted, in order. */
  predicate InOrder(ch: Channel, segs: seq<Segment>) {
    if ch.bodyAlive then ch.delivered + QueueBytes(segs, ch.queue) == Accepted(ch.calls)
    else ch.delivered <= Accepted(ch.calls)
  }

  predicate InFlightOk(ch: Channel, segs: seq<Segment>) {
    ch.inFlight.Some? ==> EndsWith(ch.delivered, BytesOf(segs, ch.inFlight.value))
  }

  predicate ChannelOk(ch: Channel, c: nat, segs: seq<Segment>) {
    CallsOk(ch) && SenderOk(ch, c, segs) && QueueOk(ch, c, segs) && EndOk(ch) && InOrder(ch, segs)
    && InFlightOk(ch, segs)
  }

  /** A segment somebody can still read is fully charged; a segment being released belongs to nobody. */
  predicate PhaseOk(s: Segment) {
    match s.phase
    case LocalHeld => s.place.WithSender?
    case GlobalHeld => s.place.WithSender?
    case Counted => true
    case _ => s.place.Dropped?
  }

  predicate OwnerOk(s: Segment, id: nat, ch: Channel) {
    && s.sem == ch.sem && 1 <= |s.bytes| <= ch.capacity
    && (s.place.WithSender? ==> ch.sender == Holding(id))
    && (s.place.InQueue? ==> id in ch.queue)
    && (s.place.InFlight? ==> ch.inFlight == Some(id))
  }

  predicate SegmentOk(w: World, i: nat)
    requires i < |w.segs|
  {
    && PhaseOk(w.segs[i])
    && w.segs[i].channel < |w.channels|
    && OwnerOk(w.segs[i], i, w.channels[w.segs[i].channel])
  }

  predicate Ordered(w: World) {
    && (forall c: nat | c < |w.channels| :: ChannelOk(w.channels[c], c, w.segs))
    && (forall i: nat | i < |w.segs| :: SegmentOk(w, i))
  }

  // ---- Framing ---------------------------------------------------------------------------------

  /** Nothing that channel `d` can see differs between the two segment lists. */
  predicate SameFor(segs: seq<Segment>, segs': seq<Segment>, d: nat) {
    && |segs| <= |segs'|
    && forall i | 0 <= i < |segs| && segs[i].channel == d && !segs[i].place.Dropped? ::
         segs'[i].channel == d && segs'[i].place == segs[i].place && segs'[i].bytes == segs[i].bytes
  }

  lemma ChannelFrame(ch: Channel, d: nat, segs: seq<Segment>, segs': seq<Segment>)
    requires ChannelOk(ch, d, segs) && SameFor(segs, segs', d)
    ensures ChannelOk(ch, d, segs')
  {
    forall k | 0 <= k < |ch.queue|
      ensures Mine(segs', d, ch.queue[k], InQueue) && BytesOf(segs, ch.queue[k]) == BytesOf(segs', ch.queue[k])
    {
      assert Mine(segs, d, ch.queue[k], InQueue);
    }
    QueueBytesFrame(segs, segs', ch.queue);
  }

  /** A step on channel `c` that rewrites at most segment `i`, one of its own. */
  lemma LocalStep(w: World, w': World, c: nat, i: nat)
    requires Ordered(w) && c < |w.channels| && i < |w.segs| && w.segs[i].channel == c
    requires |w'.segs| == |w.segs| && w'.segs == w.segs[i := w'.segs[i]] && w'.segs[i].channel == c
    requires |w'.channels| == |w.channels| && w'.channels == w.channels[c := w'.channels[c]]
    requires ChannelOk(w'.channels[c], c, w'.segs)
    requires SegmentOk(w', i)
    requires forall j: nat | j < |w.segs| && j != i && w.segs[j].channel == c :: OwnerOk(w.segs[j], j, w'.channels[c])
    ensures Ordered(w')
  {
    forall d: nat | d < |w'.channels| ensures ChannelOk(w'.channels[d], d, w'.segs) {
      if d != c {
        assert w'.channels[d] == w.channels[d];
        ChannelFrame(w.channels[d], d, w.segs, w'.segs);
      }
    }
    forall j: nat | j < |w'.segs| ensures SegmentOk(w', j) {
      if j != i {
        assert SegmentOk(w, j);
      }
    }
  }

  // ---- Steps -----------------------------------------------------------------------------------

  lemma QuietStepOrdered(w: World, w': World)
    requires Ordered(w) && w'.segs == w.segs && w'.channels == w.channels
    ensures Ordered(w')
  {
    forall j: nat | j < |w'.segs| ensures SegmentOk(w', j) {
      assert SegmentOk(w, j);
    }
  }

  /** A step on one channel that rewrites no segment. */
  lemma ChannelStep(w: World, w': World, c: nat)
    requires Ordered(w) && c < |w.channels| && w'.segs == w.segs
    requires |w'.channels| == |w.channels| && w'.channels == w.channels[c := w'.channels[c]]
    requires ChannelOk(w'.channels[c], c, w.segs)
    requires var (a, b) := (w.channels[c], w'.channels[c]);
             && b.sem == a.sem && b.capacity == a.capacity && b.queue == a.queue && b.inFlight == a.inFlight
             && (a.sender.Holding? ==> b.sender == a.sender)
    ensures Ordered(w')
  {
    forall d: nat | d < |w'.channels| ensures ChannelOk(w'.channels[d], d, w'.segs) {
      if d != c {
        assert w'.channels[d] == w.channels[d];
      }
    }
    forall j: nat | j < |w'.segs| ensures SegmentOk(w', j) {
      assert SegmentOk(w, j);
    }
  }

  lemma OpenOrdered(w: World, tenant: Tenant, capacity: nat)
    requires Ordered(w) && capacity > 0
    ensures Ordered(OpenChannel(w, tenant, capacity))
  {
    var w' := OpenChannel(w, tenant, capacity);
    forall j: nat | j < |w'.segs| ensures SegmentOk(w', j) {
      assert SegmentOk(w, j);
    }
  }

  lemma AcceptedSnoc(calls: seq<Call>, call: Call)
    ensures Accepted(calls + [call]) == Accepted(calls) + Taken(call)
  {
    assert (calls + [call])[..|calls|] == calls;
  }

  lemma AcceptedWithLast(calls: seq<Call>, call: Call)
    requires calls != []
    ensures Accepted(WithLast(calls, call)) == Accepted(calls[..|calls| - 1]) + Taken(call)
  {
    AcceptedSnoc(calls[..|calls| - 1], call);
  }

  lemma BeganCalls(ch: Channel, bytes: ByteString)
    requires CallsOk(ch) && ch.sender.Idle? && ch.senderAlive
    ensures CallsOk(Began(ch, bytes))
  {
    var ch' := Began(ch, bytes);
    forall k | 0 <= k < |ch'.calls| ensures CallOk(ch'.calls[k], k == |ch'.calls| - 1) {
      if k < |ch.calls| {
        assert ch'.calls[k] == ch.calls[k];
        assert CallOk(ch.calls[k], k == |ch.calls| - 1);
      }
    }
  }

  lemma BeganAccepts(ch: Channel, bytes: ByteString)
    ensures Accepted(Began(ch, bytes).calls) == Accepted(ch.calls)
  {
    AcceptedSnoc(ch.calls, Last(Began(ch, bytes).calls));
  }

  lemma BeganOk(ch: Channel, c: nat, segs: seq<Segment>, bytes: ByteString)
    requires ChannelOk(ch, c, segs) && ch.sender.Idle? && ch.senderAlive
    ensures ChannelOk(Began(ch, bytes), c, segs)
  {
    BeganCalls(ch, bytes);
    BeganAccepts(ch, bytes);
    assert InOrder(Began(ch, bytes), segs);
  }

  lemma BeginOrdered(w: World, c: nat, bytes: ByteString)
    requires Ordered(w) && Enabled(w, BeginCall(c, bytes))
    ensures Ordered(Apply(w, BeginCall(c, bytes)))
  {
    var w' := Apply(w, BeginCall(c, bytes));
    BeganOk(w.channels[c], c, w.segs, bytes);
    assert w'.channels[c] == Began(w.channels[c], bytes);
    ChannelStep(w, w', c);
  }

  /** Failing a call forgets its reservation and nothing else. */
  lemma FailCallOk(ch: Channel, c: nat, segs: seq<Segment>, error: EnqueueError)
    requires ChannelOk(ch, c, segs) && ch.calls != []
    ensures ChannelOk(FailCall(ch, error), c, segs)
  {
    var ch' := FailCall(ch, error);
    assert CallsOk(ch') by {
      assert CallOk(Last(ch.calls), true);
      forall k | 0 <= k < |ch'.calls| ensures CallOk(ch'.calls[k], k == |ch'.calls| - 1) {
        assert CallOk(ch.calls[k], k == |ch.calls| - 1);
      }
    }
    assert Accepted(ch'.calls) == Accepted(ch.calls) by {
      AcceptedWithLast(ch.calls, Last(ch'.calls));
    }
  }

  lemma ReserveLocalOrdered(w: World, c: nat)
    requires Ordered(w) && Enabled(w, ReserveLocal(c))
    ensures Ordered(DoReserveLocal(w, c))
  {
    var ch := w.channels[c];
    var w' := DoReserveLocal(w, c);
    if w'.segs == w.segs {
      FailCallOk(ch, c, w.segs, Last(w'.channels[c].calls).status.error);
      ChannelStep(w, w', c);
    } else {
      ReserveLocalAdds(w, c);
    }
  }

  lemma ReserveLocalAdds(w: World, c: nat)
    requires Ordered(w) && Enabled(w, ReserveLocal(c))
    requires DoReserveLocal(w, c).segs != w.segs
    ensures Ordered(DoReserveLocal(w, c))
  {
    var w' := DoReserveLocal(w, c);
    forall d: nat | d < |w'.channels| ensures ChannelOk(w'.channels[d], d, w'.segs) {
      ChannelFrame(w.channels[d], d, w.segs, w'.segs);
      if d == c {
        HoldingOk(w.channels[c], c, |w.segs|, w'.segs);
      } else {
        assert w'.channels[d] == w.channels[d];
      }
    }
    forall j: nat | j < |w'.segs| ensures SegmentOk(w', j) {
      if j < |w.segs| {
        assert SegmentOk(w, j);
      } else {
        assert CallOk(Last(w.channels[c].calls), true);
      }
    }
  }

  lemma HoldingOk(ch: Channel, c: nat, i: nat, segs: seq<Segment>)
    requires ChannelOk(ch, c, segs) && ch.sender.Slicing?
    requires Mine(segs, c, i, WithSender) && segs[i].bytes == NextSlice(ch)
    ensures ChannelOk(ch.(sender := Holding(i)), c, segs)
  {
  }

  /** Only the phase of the segment the sender holds changes. */
  lemma HeldPhaseOrdered(w: World, w': World, c: nat, phase: Phase)
    requires Ordered(w) && c < |w.channels| && w.channels[c].sender.Holding? && w'.channels == w.channels
    requires phase.GlobalHeld? || phase.Counted?
    requires var i := w.channels[c].sender.seg;
             i < |w.segs| && w'.segs == w.segs[i := w.segs[i].(phase := phase)]
    ensures Ordered(w')
  {
    var i := w.channels[c].sender.seg;
    ChannelFrame(w.channels[c], c, w.segs, w'.segs);
    assert SegmentOk(w, i);
    assert w'.channels == w.channels[c := w'.channels[c]];
    forall j: nat | j < |w.segs| && w.segs[j].channel == c ensures OwnerOk(w.segs[j], j, w'.channels[c]) {
      assert SegmentOk(w, j);
    }
    LocalStep(w, w', c, i);
  }

  /** The held segment is dropped and its call fails. */
  lemma DropHeldOrdered(w: World, w': World, c: nat, phase: Phase, error: EnqueueError)
    requires Ordered(w) && c < |w.channels| && w.channels[c].sender.Holding? && w.channels[c].calls != []
    requires phase.GlobalReleased? || phase.Counted?
    requires w'.channels == w.channels[c := FailCall(w.channels[c], error)]
    requires var i := w.channels[c].sender.seg;
             i < |w.segs| && w'.segs == w.segs[i := w.segs[i].(phase := phase, place := Dropped)]
    ensures Ordered(w')
  {
    var ch := w.channels[c];
    var i := ch.sender.seg;
    FailCallOk(ch, c, w.segs, error);
    var ch' := FailCall(ch, error);
    assert Mine(w.segs, c, i, WithSender);
    SettledFrame(ch', c, i, w.segs, w'.segs);
    assert SegmentOk(w, i);
    forall j: nat | j < |w.segs| && j != i && w.segs[j].channel == c ensures OwnerOk(w.segs[j], j, ch') {
      assert SegmentOk(w, j);
    }
    LocalStep(w, w', c, i);
  }

  /** A channel does not notice a change to a segment that neither its queue, its sender nor its body has. */
  lemma SettledFrame(ch: Channel, c: nat, i: nat, segs: seq<Segment>, segs': seq<Segment>)
    requires ChannelOk(ch, c, segs) && i < |segs| && |segs'| == |segs|
    requires forall j | 0 <= j < |segs| && j != i :: segs'[j] == segs[j]
    requires i !in ch.queue && ch.inFlight != Some(i) && ch.sender != Holding(i)
    ensures ChannelOk(ch, c, segs')
  {
    forall k | 0 <= k < |ch.queue|
      ensures Mine(segs', c, ch.queue[k], InQueue) && BytesOf(segs, ch.queue[k]) == BytesOf(segs', ch.queue[k])
    {
      assert Mine(segs, c, ch.queue[k], InQueue);
    }
    QueueBytesFrame(segs, segs', ch.queue);
  }

  lemma ReserveGlobalOrdered(w: World, c: nat)
    requires Ordered(w) && Enabled(w, ReserveGlobal(c))
    ensures Ordered(DoReserveGlobal(w, c))
  {
    var i := w.channels[c].sender.seg;
    if |w.segs[i].bytes| > w.global {
      DropHeldOrdered(w, DoReserveGlobal(w, c), c, GlobalReleased, OverBudget(GlobalLimitExceeded));
    } else {
      HeldPhaseOrdered(w, DoReserveGlobal(w, c), c, GlobalHeld);
    }
  }

  lemma SendOnCalls(ch: Channel, i: nat, slice: ByteString)
    requires CallsOk(ch) && ch.sender.Holding? && slice == NextSlice(ch)
    ensures CallsOk(SendOn(ch, i, |slice|))
    ensures Accepted(SendOn(ch, i, |slice|).calls) == Accepted(ch.calls) + slice
  {
    var call := Last(ch.calls);
    var ch' := SendOn(ch, i, |slice|);
    var call' := Last(ch'.calls);
    assert forall k | 0 <= k < |ch.calls| - 1 :: ch'.calls[k] == ch.calls[k] && CallOk(ch.calls[k], false);
    assert CallOk(call, true);
    AcceptedWithLast(ch.calls, call');
    assert Taken(call') == Taken(call) + slice;
    Reassociate(Accepted(ch.calls[..|ch.calls| - 1]), Taken(call), slice);
  }

  lemma SendOrdered(w: World, c: nat)
    requires Ordered(w) && Enabled(w, Send(c))
    ensures Ordered(Apply(w, Send(c)))
  {
    var ch := w.channels[c];
    var i := ch.sender.seg;
    var w' := Apply(w, Send(c));
    SentOk(ch, c, w.segs, w'.segs);
    assert SegmentOk(w, i);
    assert w'.channels[c].queue[|ch.queue|] == i;
    forall j: nat | j < |w.segs| && j != i && w.segs[j].channel == c ensures OwnerOk(w.segs[j], j, w'.channels[c]) {
      assert SegmentOk(w, j);
    }
    LocalStep(w, w', c, i);
  }

  lemma SentOk(ch: Channel, c: nat, segs: seq<Segment>, segs': seq<Segment>)
    requires ChannelOk(ch, c, segs) && ch.bodyAlive && |ch.queue| < QUEUE_ITEMS && ch.sender.Holding?
    requires var i := ch.sender.seg;
             i < |segs| && segs' == segs[i := segs[i].(place := InQueue)]
    ensures ChannelOk(SendOn(ch, ch.sender.seg, |segs[ch.sender.seg].bytes|), c, segs')
  {
    var i := ch.sender.seg;
    var ch' := SendOn(ch, i, |segs[i].bytes|);
    SendOnCalls(ch, i, segs[i].bytes);
    assert Mine(segs, c, i, WithSender);
    forall k | 0 <= k < |ch.queue|
      ensures Mine(segs', c, ch.queue[k], InQueue) && BytesOf(segs, ch.queue[k]) == BytesOf(segs', ch.queue[k])
      ensures ch.queue[k] != i
    {
      assert Mine(segs, c, ch.queue[k], InQueue);
    }
    assert QueueOk(ch', c, segs');
    assert InOrder(ch', segs') by {
      QueueBytesFrame(segs, segs', ch.queue);
      QueueBytesSnoc(segs', ch.queue, i);
      Reassociate(ch.delivered, QueueBytes(segs', ch.queue), segs'[i].bytes);
    }
  }

  lemma PollDropOrdered(w: World, c: nat)
    requires Ordered(w) && Enabled(w, PollDrop(c))
    ensures Ordered(Apply(w, PollDrop(c)))
  {
    var ch := w.channels[c];
    var i := ch.inFlight.value;
    var w' := Apply(w, PollDrop(c));
    var ch' := ch.(inFlight := None);
    assert ChannelOk(ch', c, w.segs);
    assert i !in ch.queue by {
      forall k | 0 <= k < |ch.queue| ensures ch.queue[k] != i {
        assert Mine(w.segs, c, ch.queue[k], InQueue);
      }
    }
    SettledFrame(ch', c, i, w.segs, w'.segs);
    assert SegmentOk(w, i);
    forall j: nat | j < |w.segs| && j != i && w.segs[j].channel == c ensures OwnerOk(w.segs[j], j, ch') {
      assert SegmentOk(w, j);
    }
    LocalStep(w, w', c, i);
  }

  lemma PollReceiveOrdered(w: World, c: nat)
    requires Ordered(w) && Enabled(w, PollReceive(c))
    ensures Ordered(Apply(w, PollReceive(c)))
  {
    var ch := w.channels[c];
    var i := ch.queue[0];
    var w' := Apply(w, PollReceive(c));
    PollReceivedOk(ch, c, w.segs, w'.segs);
    assert SegmentOk(w, i);
    forall j: nat | j < |w.segs| && j != i && w.segs[j].channel == c ensures OwnerOk(w.segs[j], j, w'.channels[c]) {
      assert SegmentOk(w, j);
      assert ch.queue == [i] + ch.queue[1..];
    }
    LocalStep(w, w', c, i);
  }

  lemma PollReceivedOk(ch: Channel, c: nat, segs: seq<Segment>, segs': seq<Segment>)
    requires ChannelOk(ch, c, segs) && ch.bodyAlive && ch.inFlight.None? && ch.queue != [] && ch.queue[0] < |segs|
    requires segs' == segs[ch.queue[0] := segs[ch.queue[0]].(place := InFlight)]
    ensures ChannelOk(Received(ch, segs), c, segs')
  {
    var i := ch.queue[0];
    var rest := ch.queue[1..];
    var ch' := Received(ch, segs);
    assert Mine(segs, c, i, InQueue);
    RestIsMine(ch, c, segs, segs');
    assert InOrder(ch', segs') by {
      Reassociate(ch.delivered, BytesOf(segs, i), QueueBytes(segs, rest));
    }
    assert QueueOk(ch', c, segs');
  }

  lemma RestIsMine(ch: Channel, c: nat, segs: seq<Segment>, segs': seq<Segment>)
    requires QueueOk(ch, c, segs) && ch.queue != [] && |segs'| == |segs|
    requires forall j | 0 <= j < |segs| && j != ch.queue[0] :: segs'[j] == segs[j]
    ensures forall k | 0 <= k < |ch.queue[1..]| :: Mine(segs', c, ch.queue[1..][k], InQueue)
    ensures QueueBytes(segs, ch.queue[1..]) == QueueBytes(segs', ch.queue[1..])
  {
    var rest := ch.queue[1..];
    forall k | 0 <= k < |rest|
      ensures Mine(segs', c, rest[k], InQueue) && BytesOf(segs, rest[k]) == BytesOf(segs', rest[k])
    {
      assert rest[k] == ch.queue[k + 1];
      assert Mine(segs, c, ch.queue[k + 1], InQueue);
    }
    QueueBytesFrame(segs, segs', rest);
  }

  lemma DropBodyOrdered(w: World, c: nat)
    requires Ordered(w) && Enabled(w, DropBody(c))
    ensures Ordered(Apply(w, DropBody(c)))
  {
    var ch := w.channels[c];
    var w' := Apply(w, DropBody(c));
    OwnedAreMine(w, c);
    forall d: nat | d < |w'.channels| ensures ChannelOk(w'.channels[d], d, w'.segs) {
      if d != c {
        assert w'.channels[d] == w.channels[d];
        ChannelFrame(w.channels[d], d, w.segs, w'.segs);
      } else {
        ClosedOk(ch, c, w.segs, w'.segs);
      }
    }
    forall j: nat | j < |w'.segs| ensures SegmentOk(w', j) {
      assert SegmentOk(w, j);
    }
  }

  lemma ClosedOk(ch: Channel, c: nat, segs: seq<Segment>, segs': seq<Segment>)
    requires ChannelOk(ch, c, segs) && |segs'| == |segs|
    requires forall i | 0 <= i < |segs| && segs[i].place.WithSender? :: segs'[i] == segs[i]
    ensures ChannelOk(ch.(queue := [], inFlight := None, bodyAlive := false), c, segs')
  {
    assert ch.sender.Holding? ==> Mine(segs, c, ch.sender.seg, WithSender);
  }

  lemma OwnedAreMine(w: World, c: nat)
    requires Ordered(w) && c < |w.channels|
    ensures forall i: nat | i in Owned(w.channels[c]) ::
              i < |w.segs| && w.segs[i].channel == c && (w.segs[i].place.InQueue? || w.segs[i].place.InFlight?)
              && w.segs[i].phase.Counted?
  {
    var ch := w.channels[c];
    forall i: nat | i in Owned(ch)
      ensures i < |w.segs| && w.segs[i].channel == c && (w.segs[i].place.InQueue? || w.segs[i].place.InFlight?)
              && w.segs[i].phase.Counted?
    {
      assert Mine(w.segs, c, i, InQueue) || Mine(w.segs, c, i, InFlight) by {
        if i in ch.queue {
          var k :| 0 <= k < |ch.queue| && ch.queue[k] == i;
          assert Mine(w.segs, c, ch.queue[k], InQueue);
        }
      }
      assert SegmentOk(w, i);
    }
  }

  /** Releasing permits of a dropped segment is invisible to every channel. */
  lemma ReleaseOrdered(w: World, w': World, i: nat, phase: Phase)
    requires Ordered(w) && i < |w.segs| && w.segs[i].place.Dropped? && w'.channels == w.channels
    requires phase.Uncounted? || phase.GlobalReleased? || phase.Gone?
    requires w'.segs == w.segs[i := w.segs[i].(phase := phase)]
    ensures Ordered(w')
  {
    forall d: nat | d < |w'.channels| ensures ChannelOk(w'.channels[d], d, w'.segs) {
      ChannelFrame(w.channels[d], d, w.segs, w'.segs);
    }
    forall j: nat | j < |w'.segs| ensures SegmentOk(w', j) {
      assert SegmentOk(w, j);
      assert SegmentOk(w, i);
    }
  }

  lemma StepOrdered(w: World, a: Action)
    requires Ordered(w) && Enabled(w, a)
    ensures Ordered(Apply(w, a))
  {
    var w' := Apply(w, a);
    match a
    case NewHold => QuietStepOrdered(w, w');
    case HoldTake(_, _) => QuietStepOrdered(w, w');
    case HoldRelease(_) => QuietStepOrdered(w, w');
    case ClearTenants => QuietStepOrdered(w, w');
    case Open(tenant, capacity) => OpenOrdered(w, tenant, capacity);
    case BeginCall(c, bytes) => BeginOrdered(w, c, bytes);
    case ReserveLocal(c) => ReserveLocalOrdered(w, c);
    case ReserveGlobal(c) => ReserveGlobalOrdered(w, c);
    case Count(c) => HeldPhaseOrdered(w, w', c, Counted);
    case Send(c) => SendOrdered(w, c);
    case SendToClosed(c) => DropHeldOrdered(w, w', c, Counted, Closed);
    case Cancel(c) => DropHeldOrdered(w, w', c, Counted, TimedOut);
    case CloseSender(c) => CloseSenderOrdered(w, c);
    case PollDrop(c) => PollDropOrdered(w, c);
    case PollReceive(c) => PollReceiveOrdered(w, c);
    case PollEnd(c) => PollEndOrdered(w, c);
    case DropBody(c) => DropBodyOrdered(w, c);
    case ReleaseCounter(i) => ReleaseOrdered(w, w', i, Uncounted);
    case ReleaseGlobal(i) => ReleaseOrdered(w, w', i, GlobalReleased);
    case ReleaseLocal(i) => ReleaseOrdered(w, w', i, Gone);
  }

  lemma CloseSenderOrdered(w: World, c: nat)
    requires Ordered(w) && Enabled(w, CloseSender(c))
    ensures Ordered(Apply(w, CloseSender(c)))
  {
    assert ChannelOk(w.channels[c], c, w.segs);
    ChannelStep(w, Apply(w, CloseSender(c)), c);
  }

  lemma PollEndOrdered(w: World, c: nat)
    requires Ordered(w) && Enabled(w, PollEnd(c))
    ensures Ordered(Apply(w, PollEnd(c)))
  {
    assert ChannelOk(w.channels[c], c, w.segs);
    ChannelStep(w, Apply(w, PollEnd(c)), c);
  }

  lemma {:induction false} RunOrdered(start: World, actions: seq<Action>, w: World)
    requires Ordered(start) && Reaches(start, actions, w)
    ensures Ordered(w)
    decreases |actions|
  {
    if actions != [] {
      StepOrdered(start, actions[0]);
      RunOrdered(Apply(start, actions[0]), actions[1..], w);
    }
  }

  lemma InitialOrdered(budget: nat)
    ensures Ordered(Initial(budget))
  {
  }

  predicate SenderStep(a: Action) {
    a.ReserveGlobal? || a.Count? || a.Send? || a.SendToClosed? || a.Cancel?
  }

  predicate BodyStep(a: Action) {
    a.PollDrop? || a.PollReceive? || a.DropBody?
  }

  lemma TouchedByBody(w: World, a: Action, i: nat)
    requires Ordered(w) && Enabled(w, a) && BodyStep(a) && i in Touched(w, a)
    ensures i < |w.segs| && w.segs[i].channel == a.channel
    ensures w.segs[i].place.InQueue? || w.segs[i].place.InFlight?
    ensures a.PollReceive? ==> w.segs[i].place.InQueue?
  {
    OwnedAreMine(w, a.channel);
    assert a.PollReceive? ==> Mine(w.segs, a.channel, w.channels[a.channel].queue[0], InQueue);
  }

  /** Senders touch only the segment they hold, bodies only what they own, releases only what was dropped. */
  lemma TouchedPlace(w: World, a: Action, i: nat)
    requires Ordered(w) && Enabled(w, a) && i in Touched(w, a)
    ensures i < |w.segs|
    ensures SenderStep(a) ==> w.segs[i].place.WithSender? && w.segs[i].channel == a.channel
    ensures BodyStep(a) ==> (w.segs[i].place.InQueue? || w.segs[i].place.InFlight?) && w.segs[i].channel == a.channel
    ensures a.PollReceive? ==> w.segs[i].place.InQueue?
    ensures !SenderStep(a) && !BodyStep(a) ==> w.segs[i].place.Dropped?
  {
    if SenderStep(a) {
      assert ChannelOk(w.channels[a.channel], a.channel, w.segs);
    } else if BodyStep(a) {
      TouchedByBody(w, a, i);
    }
  }

  // ---- Main results ------------------------------------------------------------------------------

  /**
    Queue byte fidelity, at every point of every run, for every stream: frames handed out plus queued
    segments are exactly the bytes accepted, in order; a call that ended well had every byte accepted;
    every segment has 1..capacity bytes; everything queued or in flight is still charged at all levels.
   */
  lemma QueueFidelity(budget: nat, actions: seq<Action>, w: World, c: nat)
    requires Reaches(Initial(budget), actions, w) && c < |w.channels|
    ensures var ch := w.channels[c];
            && (ch.bodyAlive ==> ch.delivered + QueueBytes(w.segs, ch.queue) == Accepted(ch.calls))
            && ch.delivered <= Accepted(ch.calls)
            && |ch.queue| <= QUEUE_ITEMS
            && (forall k | 0 <= k < |ch.calls| ::
                  ch.calls[k].status.Done? ==> Taken(ch.calls[k]) == ch.calls[k].bytes)
            && (forall i: nat | i in Owned(ch) ::
                  i < |w.segs| && w.segs[i].phase.Counted? && w.segs[i].sem == ch.sem
                  && 1 <= |w.segs[i].bytes| <= ch.capacity)
  {
    InitialOrdered(budget);
    RunOrdered(Initial(budget), actions, w);
    var ch := w.channels[c];
    assert ChannelOk(ch, c, w.segs);
    forall k | 0 <= k < |ch.calls| && ch.calls[k].status.Done? ensures Taken(ch.calls[k]) == ch.calls[k].bytes {
      assert CallOk(ch.calls[k], k == |ch.calls| - 1);
    }
    OwnedAreMine(w, c);
    forall i: nat | i in Owned(ch) ensures w.segs[i].sem == ch.sem && 1 <= |w.segs[i].bytes| <= ch.capacity {
      assert SegmentOk(w, i);
    }
  }

  /**
    The frame handed out last stays with the body, fully charged and unchanged, over every run of the
    system up to the body's next poll or drop.
   */
  lemma {:induction false} InFlightStaysCharged(budget: nat, actions: seq<Action>, w: World, c: nat, later: seq<Action>, v: World)
    requires Reaches(Initial(budget), actions, w) && c < |w.channels| && w.channels[c].inFlight.Some?
    requires Reaches(w, later, v) && PollDrop(c) !in later && DropBody(c) !in later
    ensures var i := w.channels[c].inFlight.value;
            && i < |w.segs| && i < |v.segs| && c < |v.channels|
            && w.segs[i].phase.Counted? && EndsWith(w.channels[c].delivered, w.segs[i].bytes)
            && v.segs[i] == w.segs[i] && v.channels[c].inFlight == Some(i)
            && v.channels[c].delivered == w.channels[c].delivered
  {
    InitialOrdered(budget);
    RunOrdered(Initial(budget), actions, w);
    InFlightKept(w, c, w.channels[c].inFlight.value, later, v);
  }

  lemma {:induction false} InFlightKept(w: World, c: nat, i: nat, later: seq<Action>, v: World)
    requires Ordered(w) && c < |w.channels| && w.channels[c].inFlight == Some(i)
    requires Reaches(w, later, v) && PollDrop(c) !in later && DropBody(c) !in later
    ensures i < |w.segs| && w.segs[i].phase.Counted? && EndsWith(w.channels[c].delivered, w.segs[i].bytes)
    ensures i < |v.segs| && c < |v.channels| && v.segs[i] == w.segs[i] && v.channels[c].inFlight == Some(i)
    ensures v.channels[c].delivered == w.channels[c].delivered
    decreases |later|
  {
    if later == [] {
      assert ChannelOk(w.channels[c], c, w.segs);
      assert SegmentOk(w, i);
    } else {
      OnlyPollOrDropReleases(w, c, i, later[0]);
      StepOrdered(w, later[0]);
      InFlightKept(Apply(w, later[0]), c, i, later[1..], v);
    }
  }

  /** Segment `i`, which the body of channel `c` has handed out, is as it was after step `a`. */
  predicate Spares(w: World, c: nat, i: nat, a: Action)
    requires Enabled(w, a) && c < |w.channels| && i < |w.segs|
  {
    var w' := Apply(w, a);
    && c < |w'.channels| && i < |w'.segs| && w'.segs[i] == w.segs[i]
    && w'.channels[c].inFlight == w.channels[c].inFlight && w'.channels[c].delivered == w.channels[c].delivered
  }

  lemma OnlyPollOrDropReleases(w: World, c: nat, i: nat, a: Action)
    requires Ordered(w) && c < |w.channels| && w.channels[c].inFlight == Some(i)
    requires Enabled(w, a) && a != PollDrop(c) && a != DropBody(c)
    ensures i < |w.segs| && w.segs[i].phase.Counted? && EndsWith(w.channels[c].delivered, w.segs[i].bytes)
    ensures Spares(w, c, i, a)
  {
    assert ChannelOk(w.channels[c], c, w.segs);
    assert SegmentOk(w, i);
    if i in Touched(w, a) {
      TouchedPlace(w, a, i);
    }
    OtherSegmentsUntouched(w, a, i);
    if Target(a) != Some(c) {
      OtherChannelsUntouched(w, a, c);
    }
  }

  lemma {:induction false} WaitingIsCharged(segs: seq<Segment>, j: nat)
    requires forall i | 0 <= i < |segs| :: PhaseOk(segs[i])
    ensures Total(segs, Waiting(j)) <= Total(segs, Local(j))
    ensures Total(segs, AnyWaiting) <= Total(segs, Counter)
  {
    if segs != [] {
      assert PhaseOk(segs[0]);
      WaitingIsCharged(segs[1..], j);
    }
  }

  /** Queued plus in-flight bytes: within 16 MiB on each tenant semaphore, within the global budget next to the holds. */
  lemma MemoryBound(budget: nat, actions: seq<Action>, w: World)
    requires Reaches(Initial(budget), actions, w)
    ensures forall j | 0 <= j < |w.local| :: Total(w.segs, Waiting(j)) <= TENANT_MEMORY_BUDGET
    ensures Total(w.segs, AnyWaiting) <= w.counter
    ensures Total(w.segs, AnyWaiting) + Sum(w.holds) <= budget
  {
    InitialOrdered(budget);
    RunOrdered(Initial(budget), actions, w);
    PermitConservation(budget, actions, w);
    OrderedReleaseChain(budget, actions, w);
    forall i | 0 <= i < |w.segs| ensures PhaseOk(w.segs[i]) {
      assert SegmentOk(w, i);
    }
    forall j: nat | j < |w.local| ensures Total(w.segs, Waiting(j)) <= TENANT_MEMORY_BUDGET {
      WaitingIsCharged(w.segs, j);
      assert w.local[j] + Total(w.segs, Local(j)) == TENANT_MEMORY_BUDGET;
    }
    WaitingIsCharged(w.segs, 0);
  }

  /** No stream has anything left and no release is under way. */
  predicate Quiet(w: World) {
    && (forall c | 0 <= c < |w.channels| ::
          w.channels[c].queue == [] && w.channels[c].inFlight.None? && !w.channels[c].sender.Holding?)
    && (forall i: nat | i < |w.segs| ::
          !Enabled(w, ReleaseCounter(i)) && !Enabled(w, ReleaseGlobal(i)) && !Enabled(w, ReleaseLocal(i)))
  }

  lemma {:induction false} AllGone(segs: seq<Segment>, a: Account)
    requires forall i | 0 <= i < |segs| :: segs[i].phase.Gone? && segs[i].place.Dropped?
    ensures Total(segs, a) == 0
  {
    if segs != [] {
      AllGone(segs[1..], a);
    }
  }

  lemma QuietIsGone(w: World, i: nat)
    requires Ordered(w) && SegmentsCharged(w) && Quiet(w) && i < |w.segs|
    ensures w.segs[i].phase.Gone? && w.segs[i].place.Dropped?
  {
    assert SegmentOk(w, i);
    assert !Enabled(w, ReleaseCounter(i)) && !Enabled(w, ReleaseGlobal(i)) && !Enabled(w, ReleaseLocal(i));
  }

  /** Nothing leaks: once every stream is quiet, every permit is back and the counter is zero. */
  lemma NoLeak(budget: nat, actions: seq<Action>, w: World)
    requires Reaches(Initial(budget), actions, w) && Quiet(w)
    ensures forall j | 0 <= j < |w.local| :: w.local[j] == TENANT_MEMORY_BUDGET
    ensures w.global + Sum(w.holds) == budget && w.counter == 0
  {
    InitialOrdered(budget);
    RunOrdered(Initial(budget), actions, w);
    InitialConserved(budget);
    RunConserves(Initial(budget), actions, w);
    forall i: nat | i < |w.segs| ensures w.segs[i].phase.Gone? && w.segs[i].place.Dropped? {
      QuietIsGone(w, i);
    }
    forall a: Account ensures Total(w.segs, a) == 0 && Balanced(w, a) {
      AllGone(w.segs, a);
    }
    assert Balanced(w, Global) && Balanced(w, Counter);
    forall j | 0 <= j < |w.local| ensures w.local[j] == TENANT_MEMORY_BUDGET {
      assert Balanced(w, Local(j));
    }
  }
}
