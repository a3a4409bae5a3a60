/**
  What one stream is supposed to send: upstream chunks go through the redactor of the engine snapshot
  taken at the start, for event streams through the done detector, and out to the client. What happens
  next (chunk, end, error, timeout, shutdown, disconnect, hot swap of the engine) is a parameter, so a
  label sequence stands for every interleaving.
 */
module StreamPlan {
  import opened Bytes
  import R = Redactor
  import D = Detector
  import opened DetectorRuns
  import Budget

  const OUTPUT_BYTE_BUDGET: nat := 2 * 1024 * 1024

  /** What the select loop can see next. A hot swap is not seen, only survived. */
  datatype Label =
    | Chunk(bytes: ByteString) | Eof | ReadError | IdleTimeout | ShutdownChanged(on: bool) | Disconnect
    | HotSwap(engine: R.Engine)

  datatype Reason =
    | UpstreamIdleTimeout | UpstreamReadFailed | RedactionFailed | RedactionFinishFailed
    | TenantLimitExceeded | GlobalLimitExceeded | DownstreamEnqueueFailed

  datatype End =
    | Open                       // labels used up, the stream goes on
    | Completed | Stopped        // everything sent: after the upstream's end, after a shutdown
    | Disconnected               // the client went away
    | Terminated(reason: Reason) // the terminal error frame was attempted
    | Aborted                    // the queue refused bytes and nothing more was attempted

  // ---- The transcript the run is measured against ----------------------------------------------

  /**
    What the labels call for when the queue takes everything: the bytes, how many of them come from
    inside the loop, how the task ends, and the bytes whose hash it logs.
   */
  datatype Plan = Plan(text: ByteString, body: nat, end: End, log: Option<ByteString>)

  /** Bytes from inside the loop, then the rest of the plan. */
  function Then(head: ByteString, p: Plan): Plan {
    Plan(head + p.text, |head| + p.body, p.end, p.log)
  }

  /** Bytes from after the loop, then the rest of the plan. */
  function Before(head: ByteString, p: Plan): Plan {
    Plan(head + p.text, 0, p.end, p.log)
  }

  /** Nothing more to send. */
  function Over(end: End): Plan {
    Plan([], 0, end, None)
  }

  function Texts(segments: seq<R.Segment>): (r: seq<ByteString>)
    ensures |r| == |segments|
  {
    seq(|segments|, i requires 0 <= i < |segments| => segments[i].bytes)
  }

  function Datas(texts: seq<ByteString>): (r: seq<D.Event>)
    ensures |r| == |texts|
  {
    seq(|texts|, i requires 0 <= i < |texts| => D.Data(texts[i]))
  }

  /** One redacted piece on its way out: through the detector for event streams, otherwise only hashed. */
  function Piece(sse: bool, s: D.State, bytes: ByteString, sign: D.Signer): D.Reply
    requires D.Valid(s)
  {
    if sse then D.Inspected(s, bytes, sign)
    else D.Reply(s.(hashed := s.hashed + bytes), [D.Data(bytes)])
  }

  /** The pieces of one redactor call. */
  function Relayed(sse: bool, s: D.State, texts: seq<ByteString>, sign: D.Signer): (r: D.Reply)
    requires D.Valid(s)
    ensures D.Valid(r.state)
  {
    if sse then Watch(s, texts, sign)
    else D.Reply(s.(hashed := s.hashed + Concat(texts)), Datas(texts))
  }

  function Capacity(): nat { R.DEFAULT_MAX_BUFFER_CAPACITY }

  /** The state in which a stream relayed from `s` and then flushed ends. */
  function LastState(sse: bool, s: D.State, segments: seq<R.Segment>, sign: D.Signer): D.State
    requires D.Valid(s)
  {
    var r := Relayed(sse, s, Texts(segments), sign);
    if sse then D.Flushed(r.state).state else r.state
  }

  /** Everything sent when `segments` are relayed and the detector is then flushed. */
  function WholeWire(sse: bool, s: D.State, segments: seq<R.Segment>, sign: D.Signer): ByteString
    requires D.Valid(s)
  {
    var r := Relayed(sse, s, Texts(segments), sign);
    Wire(r.events) + (if sse then Wire(D.Flushed(r.state).events) else [])
  }

  /** After the last chunk: what the redactor still holds, then what the detector still holds. */
  function Closing(e: R.Engine, sse: bool, sign: D.Signer, pending: ByteString, s: D.State, end: End): Plan
    requires R.Usable(e) && D.Valid(s)
  {
    match R.Finished(e, Capacity(), pending).result
    case Err(_) => Over(Terminated(RedactionFinishFailed))
    case Ok(segments) =>
      Plan(WholeWire(sse, s, segments, sign), 0, end,
           if end == Completed then Some(LastState(sse, s, segments, sign).hashed) else None)
  }

  /** Once a shutdown is seen: the shutdown events, then what is still held. */
  function ShutdownPlan(e: R.Engine, sse: bool, sign: D.Signer, pending: ByteString, s: D.State): Plan
    requires R.Usable(e) && D.Valid(s)
  {
    var r := D.ShutDown(s, sign);
    Before(Wire(r.events), Closing(e, sse, sign, pending, r.state, Stopped))
  }

  /** What one label calls for: some bytes and on with a new state, or the rest of the plan. */
  datatype Move = Go(text: ByteString, pending: ByteString, state: D.State) | Halt(plan: Plan)

  function MoveOn(e: R.Engine, sse: bool, sign: D.Signer, pending: ByteString, s: D.State, next: Label): (m: Move)
    requires R.Usable(e) && D.Valid(s)
    ensures m.Go? ==> D.Valid(m.state)
  {
    match next
    case Chunk(bytes) =>
      var o := R.Pushed(e, Capacity(), pending, bytes);
      (match o.result
       case Err(_) => Halt(Over(Terminated(RedactionFailed)))
       case Ok(segments) =>
         var r := Relayed(sse, s, Texts(segments), sign);
         Go(Wire(r.events), o.pending, r.state))
    case Eof => Halt(Closing(e, sse, sign, pending, s, Completed))
    case ShutdownChanged(on) =>
      if on then Halt(ShutdownPlan(e, sse, sign, pending, s)) else Go([], pending, s)
    case HotSwap(_) => Go([], pending, s)
    case ReadError => Halt(Over(Terminated(UpstreamReadFailed)))
    case IdleTimeout => Halt(Over(Terminated(UpstreamIdleTimeout)))
    case Disconnect => Halt(Over(Disconnected))
  }

  function Planned(e: R.Engine, sse: bool, sign: D.Signer, pending: ByteString, s: D.State, labels: seq<Label>): Plan
    requires R.Usable(e) && D.Valid(s)
    decreases |labels|
  {
    if labels == [] then Over(Open)
    else match MoveOn(e, sse, sign, pending, s, labels[0])
      case Go(text, pending', s') => Then(text, Planned(e, sse, sign, pending', s', labels[1..]))
      case Halt(plan) => plan
  }

  /** The detector-over-redactor transcript of engine `e` for a whole stream. */
  function Transcript(e: R.Engine, sse: bool, sign: D.Signer, labels: seq<Label>): Plan
    requires R.Usable(e)
  {
    Planned(e, sse, sign, [], D.INITIAL, labels)
  }

  // ---- The terminal error frame ------------------------------------------------------------------

  function ReasonText(reason: Reason): ByteString {
    match reason
    case UpstreamIdleTimeout => Ascii("upstream_idle_timeout")
    case UpstreamReadFailed => Ascii("upstream_read_failed")
    case RedactionFailed => Ascii("redaction_failed")
    case RedactionFinishFailed => Ascii("redaction_finish_failed")
    case TenantLimitExceeded => Ascii("tenant_limit_exceeded")
    case GlobalLimitExceeded => Ascii("global_limit_exceeded")
    case DownstreamEnqueueFailed => Ascii("downstream_enqueue_failed")
  }

  function ErrorFrame(reason: Reason): ByteString {
    Ascii("data: {\"error\": \"proxy_terminated\",") + Ascii(" \"reason\": \"") + ReasonText(reason) + Ascii("\"}\n\n")
  }

  /** The frame fits into one segment, so the queue takes all of it or nothing. */
  lemma FrameFitsOneSegment(reason: Reason)
    ensures 0 < |ErrorFrame(reason)| <= OUTPUT_BYTE_BUDGET
  {
    match reason
    case UpstreamIdleTimeout =>
    case UpstreamReadFailed =>
    case RedactionFailed =>
    case RedactionFinishFailed =>
    case TenantLimitExceeded =>
    case GlobalLimitExceeded =>
    case DownstreamEnqueueFailed =>
  }

  function ReasonFor(error: Budget.EnqueueError): Reason {
    match error
    case OverBudget(TenantLimitExceeded) => TenantLimitExceeded
    case OverBudget(GlobalLimitExceeded) => GlobalLimitExceeded
    case _ => DownstreamEnqueueFailed
  }

  // ---- What reaches the queue ---------------------------------------------------------------------

  /** `text` was offered after `before`: a prefix of it went out, all of it exactly if `ok`. */
  predicate Sent(before: ByteString, after: ByteString, text: ByteString, ok: bool) {
    before <= after <= before + text && (ok <==> after == before + text)
  }

  lemma SentMore(a: ByteString, b: ByteString, c: ByteString, x: ByteString, y: ByteString, ok: bool)
    requires Sent(a, b, x, true) && Sent(b, c, y, ok)
    ensures Sent(a, c, x + y, ok)
  {
    Reassociate(a, x, y);
  }

  lemma SentLess(a: ByteString, b: ByteString, x: ByteString, y: ByteString)
    requires Sent(a, b, x, false)
    ensures Sent(a, b, x + y, false)
  {
    Reassociate(a, x, y);
  }

  /** What a task leaves: the data and the notice it queued, how it ended, and the bytes whose hash it logged. */
  datatype Outcome = Outcome(data: ByteString, notice: ByteString, end: End, log: Option<ByteString>)

  predicate NoticeFits(o: Outcome) {
    o.notice != [] ==> o.end.Terminated? && o.notice == ErrorFrame(o.end.reason)
  }

  /** How a refusal ends the task: only a plain response refused inside the loop tries an error frame. */
  function RefusedEnd(sse: bool, inside: bool, error: Budget.EnqueueError): End {
    if !sse && inside then Terminated(ReasonFor(error)) else Aborted
  }

  /** How a task ends early because the queue refused part of `text` inside the loop. */
  predicate Refused(before: ByteString, text: ByteString, o: Outcome, sse: bool, error: Budget.EnqueueError) {
    Sent(before, o.data, text, false) && o.end == RefusedEnd(sse, true, error) && o.log.None? && NoticeFits(o)
  }

  /**
    What a run leaves in the queue after `before`, when `refusal` is the first error the queue gave it: a
    prefix of the planned text, then at most one terminal error frame. The task ends as planned exactly
    when the queue took the whole text, and otherwise as the refusal and its place call for.
   */
  predicate Served(before: ByteString, plan: Plan, o: Outcome, sse: bool, refusal: Option<Budget.EnqueueError>) {
    && before <= o.data <= before + plan.text
    && NoticeFits(o)
    && (o.end == plan.end <==> o.data == before + plan.text)
    && (o.end == plan.end ==> o.log == plan.log)
    && (o.end != plan.end ==>
          refusal.Some? && o.end == RefusedEnd(sse, |o.data| < |before| + plan.body, refusal.value) && o.log.None?)
    && (refusal.None? ==> o.end == plan.end && (o.end.Terminated? ==> o.notice == ErrorFrame(o.end.reason)))
  }

  /** No plan ends in a refusal, so a refusal is never mistaken for the planned end. */
  predicate Unrefused(end: End) {
    end != Aborted && (end.Terminated? ==> !RefusalReason(end.reason))
  }

  lemma RefusedIsServed(before: ByteString, text: ByteString, later: Plan, o: Outcome, sse: bool, error: Budget.EnqueueError)
    requires Refused(before, text, o, sse, error) && Unrefused(later.end)
    ensures Served(before, Then(text, later), o, sse, Some(error))
  {
    SentLess(before, o.data, text, later.text);
  }

  lemma RefusedAfterLoop(before: ByteString, text: ByteString, later: Plan, data: ByteString, sse: bool, error: Budget.EnqueueError)
    requires Sent(before, data, text, false) && Unrefused(later.end)
    ensures Served(before, Before(text, later), Outcome(data, [], Aborted, None), sse, Some(error))
  {
    SentLess(before, data, text, later.text);
  }

  lemma ServedLater(before: ByteString, mid: ByteString, text: ByteString, later: Plan, o: Outcome, sse: bool,
                    refusal: Option<Budget.EnqueueError>)
    requires Sent(before, mid, text, true) && Served(mid, later, o, sse, refusal)
    ensures Served(before, Then(text, later), o, sse, refusal)
    ensures later.body == 0 ==> Served(before, Before(text, later), o, sse, refusal)
  {
    Reassociate(before, text, later.text);
  }

  lemma ClosingEnds(e: R.Engine, sse: bool, sign: D.Signer, pending: ByteString, s: D.State, end: End)
    requires R.Usable(e) && D.Valid(s) && (end == Completed || end == Stopped)
    ensures Unrefused(Closing(e, sse, sign, pending, s, end).end) && Closing(e, sse, sign, pending, s, end).body == 0
  {
  }

  lemma MoveEnds(e: R.Engine, sse: bool, sign: D.Signer, pending: ByteString, s: D.State, next: Label)
    requires R.Usable(e) && D.Valid(s)
    ensures var m := MoveOn(e, sse, sign, pending, s, next);
            m.Halt? ==> Unrefused(m.plan.end)
  {
  }

  lemma {:induction false} PlannedEnds(e: R.Engine, sse: bool, sign: D.Signer, pending: ByteString, s: D.State, labels: seq<Label>)
    requires R.Usable(e) && D.Valid(s)
    ensures Unrefused(Planned(e, sse, sign, pending, s, labels).end)
    decreases |labels|
  {
    if labels != [] {
      MoveEnds(e, sse, sign, pending, s, labels[0]);
      var m := MoveOn(e, sse, sign, pending, s, labels[0]);
      if m.Go? {
        PlannedEnds(e, sse, sign, m.pending, m.state, labels[1..]);
      }
    }
  }

  lemma PlannedStep(e: R.Engine, sse: bool, sign: D.Signer, pending: ByteString, s: D.State,
                    labels: seq<Label>, k: nat, done: ByteString)
    requires R.Usable(e) && D.Valid(s) && k < |labels|
    ensures var m := MoveOn(e, sse, sign, pending, s, labels[k]);
            Then(done, Planned(e, sse, sign, pending, s, labels[k..]))
            == if m.Halt? then Then(done, m.plan)
               else Then(done + m.text, Planned(e, sse, sign, m.pending, m.state, labels[k + 1..]))
  {
    assert labels[k..][0] == labels[k] && labels[k..][1..] == labels[k + 1..];
    var m := MoveOn(e, sse, sign, pending, s, labels[k]);
    if m.Go? {
      Reassociate(done, m.text, Planned(e, sse, sign, m.pending, m.state, labels[k + 1..]).text);
    }
  }

  predicate RefusalReason(reason: Reason) {
    reason.TenantLimitExceeded? || reason.GlobalLimitExceeded? || reason.DownstreamEnqueueFailed?
  }

  /** What a turn of the loop leaves in the queue after `before`, by what its label calls for. */
  predicate MovedTo(m: Move, before: ByteString, queued: ByteString, halted: bool, o: Outcome, sse: bool,
                    refusal: Option<Budget.EnqueueError>) {
    && (m.Halt? ==> halted && Served(before, m.plan, o, sse, refusal))
    && (m.Go? && halted ==> refusal.Some? && Refused(before, m.text, o, sse, refusal.value))
    && (m.Go? && !halted ==> Sent(before, queued, m.text, true) && refusal.None?)
  }

  /** A turn in the middle of a run that has sent `done` after `q0`. */
  lemma TurnServes(e: R.Engine, sse: bool, sign: D.Signer, pending: ByteString, s: D.State, labels: seq<Label>, k: nat,
                   q0: ByteString, done: ByteString, q: ByteString, queued: ByteString, halted: bool, o: Outcome,
                   refusal: Option<Budget.EnqueueError>)
    requires R.Usable(e) && D.Valid(s) && k < |labels| && Sent(q0, q, done, true)
    requires MovedTo(MoveOn(e, sse, sign, pending, s, labels[k]), q, queued, halted, o, sse, refusal)
    ensures var plan := Then(done, Planned(e, sse, sign, pending, s, labels[k..]));
            var m := MoveOn(e, sse, sign, pending, s, labels[k]);
            && (halted ==> Served(q0, plan, o, sse, refusal))
            && (!halted ==> m.Go? && Sent(q0, queued, done + m.text, true) && refusal.None?
                            && plan == Then(done + m.text, Planned(e, sse, sign, m.pending, m.state, labels[k + 1..])))
  {
    var m := MoveOn(e, sse, sign, pending, s, labels[k]);
    PlannedStep(e, sse, sign, pending, s, labels, k, done);
    if !halted {
      SentMore(q0, q, queued, done, m.text, true);
    } else if m.Halt? {
      ServedLater(q0, q, done, m.plan, o, sse, refusal);
    } else {
      PlannedEnds(e, sse, sign, m.pending, m.state, labels[k + 1..]);
      SentMore(q0, q, o.data, done, m.text, false);
      RefusedIsServed(q0, done + m.text, Planned(e, sse, sign, m.pending, m.state, labels[k + 1..]), o, sse, refusal.value);
    }
  }

  lemma RelayedWire(sse: bool, s: D.State, texts: seq<ByteString>, sign: D.Signer, done: ByteString)
    requires D.Valid(s) && texts != []
    ensures var first := Piece(sse, s, texts[0], sign);
            && D.Valid(first.state)
            && done + Wire(Relayed(sse, s, texts, sign).events)
               == done + Wire(Piece(sse, s, texts[0], sign).events) + Wire(Relayed(sse, first.state, texts[1..], sign).events)
  {
    RelayStep(sse, s, texts, sign);
    var first := Piece(sse, s, texts[0], sign);
    var later := Wire(Relayed(sse, first.state, texts[1..], sign).events);
    WireSplits(first.events, Relayed(sse, first.state, texts[1..], sign).events);
    Reassociate(done, Wire(Piece(sse, s, texts[0], sign).events), later);
  }

  lemma RelayStep(sse: bool, s: D.State, texts: seq<ByteString>, sign: D.Signer)
    requires D.Valid(s) && texts != []
    ensures var first := Piece(sse, s, texts[0], sign);
            && D.Valid(first.state)
            && Relayed(sse, s, texts, sign).state == Relayed(sse, first.state, texts[1..], sign).state
            && Relayed(sse, s, texts, sign).events == first.events + Relayed(sse, first.state, texts[1..], sign).events
  {
    if sse {
      WatchStep(s, texts, sign);
    } else {
      Reassociate(s.hashed, texts[0], Concat(texts[1..]));
      assert Datas(texts) == [D.Data(texts[0])] + Datas(texts[1..]);
    }
  }

  lemma RelayNothing(sse: bool, s: D.State, sign: D.Signer)
    requires D.Valid(s)
    ensures Relayed(sse, s, [], sign) == D.Reply(s, [])
  {
    assert s.hashed + Concat([]) == s.hashed;
  }

  lemma WireOne(event: D.Event)
    ensures Wire([event]) == event.bytes
  {
    assert [event][1..] == [];
  }

  lemma WireSnoc(events: seq<D.Event>, i: nat)
    requires i < |events|
    ensures Wire(events[..i + 1]) == Wire(events[..i]) + events[i].bytes
  {
    assert events[..i + 1] == events[..i] + [events[i]];
    WireSplits(events[..i], [events[i]]);
    WireOne(events[i]);
  }

  lemma WirePrefix(events: seq<D.Event>, i: nat)
    requires i <= |events|
    ensures Wire(events) == Wire(events[..i]) + Wire(events[i..])
  {
    assert events == events[..i] + events[i..];
    WireSplits(events[..i], events[i..]);
  }
}
