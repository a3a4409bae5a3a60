/**
  Streams that do not reach the upstream's end: what was sent when the loop stopped on an error, a
  timeout, a disconnect, a rejected chunk or a shutdown, and what of the held bytes is lost.
 */
module StreamStops {
  import opened Bytes
  import R = Redactor
  import D = Detector
  import RR = RedactorRuns
  import opened DetectorRuns
  import opened StreamPlan
  import opened StreamResults
  import V = Verifier
  import RT = RoundTrip
  import DL = DetectorLedger

  // ---- The loop up to the label that stops it ----------------------------------------------------

  function PushCalls(chunks: seq<ByteString>): seq<RR.Call> {
    if chunks == [] then [] else [RR.PushCall(chunks[0])] + PushCalls(chunks[1..])
  }

  /** The chunks read so far as one redactor run, not finished. */
  function Pushed(e: R.Engine, pending: ByteString, labels: seq<Label>): R.Outcome
    requires R.Usable(e)
  {
    RR.Feed(e, Capacity(), pending, PushCalls(ChunksRead(labels)))
  }

  /** Labels that do not stop the loop. */
  predicate Passing(labels: seq<Label>) {
    forall i | 0 <= i < |labels| :: labels[i].Chunk? || Idle(labels[i])
  }

  lemma PushedChunk(e: R.Engine, pending: ByteString, labels: seq<Label>)
    requires R.Usable(e) && labels != [] && labels[0].Chunk?
    ensures var o := R.Pushed(e, Capacity(), pending, labels[0].bytes);
            Pushed(e, pending, labels) == RR.AfterPush(o, e, Capacity(), PushCalls(ChunksRead(labels[1..])))
  {
    var chunks := ChunksRead(labels);
    assert chunks[0] == labels[0].bytes && chunks[1..] == ChunksRead(labels[1..]);
    assert PushCalls(chunks)[0] == RR.PushCall(chunks[0]) && PushCalls(chunks)[1..] == PushCalls(chunks[1..]);
  }

  lemma RelayedThen(sse: bool, s: D.State, a: seq<R.Segment>, b: seq<R.Segment>, sign: D.Signer)
    requires D.Valid(s)
    ensures var first := Relayed(sse, s, Texts(a), sign);
            var later := Relayed(sse, first.state, Texts(b), sign);
            && Relayed(sse, s, Texts(a + b), sign).state == later.state
            && Wire(Relayed(sse, s, Texts(a + b), sign).events) == Wire(first.events) + Wire(later.events)
  {
    assert Texts(a + b) == Texts(a) + Texts(b);
    RelaySplits(sse, s, Texts(a), Texts(b), sign);
    var first := Relayed(sse, s, Texts(a), sign);
    WireSplits(first.events, Relayed(sse, first.state, Texts(b), sign).events);
  }

  /** After labels that do not stop the loop: the pieces of one redactor run are out, the plan goes on from there. */
  lemma {:induction false} PlannedThen(e: R.Engine, sse: bool, sign: D.Signer, pending: ByteString, s: D.State,
                                       a: seq<Label>, b: seq<Label>)
    requires R.Usable(e) && D.Valid(s) && Passing(a) && Pushed(e, pending, a).result.Ok?
    ensures var o := Pushed(e, pending, a);
            var r := Relayed(sse, s, Texts(o.result.value), sign);
            Planned(e, sse, sign, pending, s, a + b) == Then(Wire(r.events), Planned(e, sse, sign, o.pending, r.state, b))
    decreases |a|
  {
    if a == [] {
      assert a + b == b;
      RelayNothing(sse, s, sign);
      NothingFirst(Planned(e, sse, sign, pending, s, b));
    } else {
      assert (a + b)[0] == a[0] && (a + b)[1..] == a[1..] + b;
      if Idle(a[0]) {
        PlannedThen(e, sse, sign, pending, s, a[1..], b);
        NothingFirst(Planned(e, sse, sign, pending, s, a[1..] + b));
      } else {
        var o := R.Pushed(e, Capacity(), pending, a[0].bytes);
        PushedChunk(e, pending, a);
        var r := Relayed(sse, s, Texts(o.result.value), sign);
        var later := Pushed(e, o.pending, a[1..]);
        PlannedThen(e, sse, sign, o.pending, r.state, a[1..], b);
        RelayedThen(sse, s, o.result.value, later.result.value, sign);
        var rest := Relayed(sse, r.state, Texts(later.result.value), sign);
        Reassociate(Wire(r.events), Wire(rest.events), Planned(e, sse, sign, later.pending, rest.state, b).text);
      }
    }
  }

  /** Where the label that stops the loop stands. */
  lemma {:induction false} StopIndex(labels: seq<Label>) returns (k: nat)
    requires Stopper(labels).Some?
    ensures k < |labels| && labels[k] == Stopper(labels).value && Passing(labels[..k])
    ensures ChunksRead(labels[..k]) == ChunksRead(labels)
  {
    if labels[0].Chunk? || Idle(labels[0]) {
      var j := StopIndex(labels[1..]);
      k := j + 1;
      assert labels[..k][0] == labels[0] && labels[..k][1..] == labels[1..][..j];
    } else {
      k := 0;
    }
  }

  /** The pieces redacted before the loop stops, and what has become of them. */
  function Relays(e: R.Engine, sse: bool, sign: D.Signer, labels: seq<Label>): D.Reply
    requires R.Usable(e) && Pushed(e, [], labels).result.Ok?
  {
    Relayed(sse, D.INITIAL, Texts(Pushed(e, [], labels).result.value), sign)
  }

  /** Up to the label that stops the loop, whatever it is. */
  lemma StoppedTranscript(e: R.Engine, sse: bool, sign: D.Signer, labels: seq<Label>, stop: Label)
    requires R.Usable(e) && Stopper(labels) == Some(stop) && Pushed(e, [], labels).result.Ok?
    ensures var (o, r) := (Pushed(e, [], labels), Relays(e, sse, sign, labels));
            var m := MoveOn(e, sse, sign, o.pending, r.state, stop);
            m.Halt? && Transcript(e, sse, sign, labels) == Then(Wire(r.events), m.plan)
  {
    var k := StopIndex(labels);
    assert labels == labels[..k] + labels[k..];
    PlannedThen(e, sse, sign, [], D.INITIAL, labels[..k], labels[k..]);
    assert labels[k..][0] == stop;
    StopsLoop(labels, stop);
  }

  lemma {:induction false} StopsLoop(labels: seq<Label>, stop: Label)
    requires Stopper(labels) == Some(stop)
    ensures !stop.Chunk? && !Idle(stop)
  {
    if labels[0].Chunk? || Idle(labels[0]) {
      StopsLoop(labels[1..], stop);
    }
  }

  /** A stream that goes on: the pieces redacted so far are out, and it is open. */
  lemma RunningTranscript(e: R.Engine, sse: bool, sign: D.Signer, labels: seq<Label>)
    requires R.Usable(e) && Passing(labels) && Pushed(e, [], labels).result.Ok?
    ensures var plan := Transcript(e, sse, sign, labels);
            plan.text == Wire(Relays(e, sse, sign, labels).events) && plan.end == Open && plan.log == None
  {
    PlannedThen(e, sse, sign, [], D.INITIAL, labels, []);
    assert labels + [] == labels;
    var text := Wire(Relays(e, sse, sign, labels).events);
    assert text + [] == text;
  }

  // ---- Errors, timeouts, disconnects ---------------------------------------------------------------

  /**
    A failed read, an idle timeout or a disconnect: exactly the pieces redacted so far have been sent,
    neither the redactor's nor the detector's rest, no hash is logged, and the end is that label's own.
   */
  lemma FailureTranscript(e: R.Engine, sse: bool, sign: D.Signer, labels: seq<Label>, stop: Label)
    requires R.Usable(e) && Stopper(labels) == Some(stop) && Pushed(e, [], labels).result.Ok?
    requires stop == ReadError || stop == IdleTimeout || stop == Disconnect
    ensures var plan := Transcript(e, sse, sign, labels);
            && plan.text == Wire(Relays(e, sse, sign, labels).events) && plan.body == |plan.text| && plan.log == None
            && (stop == ReadError ==> plan.end == Terminated(UpstreamReadFailed))
            && (stop == IdleTimeout ==> plan.end == Terminated(UpstreamIdleTimeout))
            && (stop == Disconnect ==> plan.end == Disconnected)
  {
    StoppedTranscript(e, sse, sign, labels, stop);
    var text := Wire(Relays(e, sse, sign, labels).events);
    assert text + [] == text;
  }

  /** A chunk the redactor rejects: the same, and the end says so. */
  lemma RejectedChunkTranscript(e: R.Engine, sse: bool, sign: D.Signer, a: seq<Label>, bytes: ByteString, b: seq<Label>)
    requires R.Usable(e) && Passing(a) && Pushed(e, [], a).result.Ok?
    requires R.Pushed(e, Capacity(), Pushed(e, [], a).pending, bytes).result.Err?
    ensures var plan := Transcript(e, sse, sign, a + ([Chunk(bytes)] + b));
            && plan.text == Wire(Relays(e, sse, sign, a).events) && plan.log == None
            && plan.end == Terminated(RedactionFailed)
  {
    PlannedThen(e, sse, sign, [], D.INITIAL, a, [Chunk(bytes)] + b);
    assert ([Chunk(bytes)] + b)[0] == Chunk(bytes);
    var text := Wire(Relays(e, sse, sign, a).events);
    assert text + [] == text;
  }

  /** An upstream that ends inside a character: the redactor's rest is rejected, the detector's rest is not sent. */
  lemma RejectedEndTranscript(e: R.Engine, sse: bool, sign: D.Signer, labels: seq<Label>)
    requires R.Usable(e) && Stopper(labels) == Some(Eof) && Pushed(e, [], labels).result.Ok?
    requires R.Finished(e, Capacity(), Pushed(e, [], labels).pending).result.Err?
    ensures var plan := Transcript(e, sse, sign, labels);
            && plan.text == Wire(Relays(e, sse, sign, labels).events) && plan.log == None
            && plan.end == Terminated(RedactionFinishFailed)
  {
    StoppedTranscript(e, sse, sign, labels, Eof);
    var text := Wire(Relays(e, sse, sign, labels).events);
    assert text + [] == text;
  }

  /** In bytes: a plain response has sent all it redacted, an event stream all but the last eleven bytes of it. */
  lemma RelaysInBytes(e: R.Engine, sse: bool, sign: D.Signer, labels: seq<Label>)
    requires R.Usable(e) && Pushed(e, [], labels).result.Ok?
    ensures var (sent, body) := (Wire(Relays(e, sse, sign, labels).events), R.Flatten(Pushed(e, [], labels).result.value));
            && (!sse ==> sent == body)
            && (sse && !Contains(body, D.MARKER) ==> sent == body[..Max(0, |body| - 11)])
  {
    var segments := Pushed(e, [], labels).result.value;
    TextsFlatten(segments);
    if sse {
      if !Contains(Concat(Texts(segments)), D.MARKER) {
        WatchedKeeps(Texts(segments), sign);
      }
    } else {
      WireOfDatas(Texts(segments));
    }
  }

  lemma WatchedKeeps(pieces: seq<ByteString>, sign: D.Signer)
    requires !Contains(Concat(pieces), D.MARKER)
    ensures Wire(Watch(D.INITIAL, pieces, sign).events) == Concat(pieces)[..Max(0, |Concat(pieces)| - 11)]
  {
    DL.WatchedPlain(pieces, sign);
    DetectorCompleteness(pieces, sign);
  }

  // ---- Shutdowns -------------------------------------------------------------------------------------

  /** A stream that is shut down: the pieces redacted so far, the shutdown events, then the redactor's rest. */
  lemma ShutdownTranscript(e: R.Engine, sse: bool, sign: D.Signer, labels: seq<Label>)
    requires R.Usable(e) && Stopper(labels) == Some(ShutdownChanged(true)) && Pushed(e, [], labels).result.Ok?
    ensures var (o, r) := (Pushed(e, [], labels), Relays(e, sse, sign, labels));
            Transcript(e, sse, sign, labels) == Then(Wire(r.events), ShutdownPlan(e, sse, sign, o.pending, r.state))
  {
    StoppedTranscript(e, sse, sign, labels, ShutdownChanged(true));
  }

  /**
    A plain response that is shut down: what was redacted so far, a receipt that certifies exactly that,
    the shutdown text, and then what the redactor still held.
   */
  lemma PlainShutdown(e: R.Engine, sign: D.Signer, labels: seq<Label>)
    requires R.Usable(e) && Stopper(labels) == Some(ShutdownChanged(true)) && Pushed(e, [], labels).result.Ok?
    ensures var (o, plan) := (Pushed(e, [], labels), Transcript(e, false, sign, labels));
            var sent := R.Flatten(o.result.value);
            var rest := R.Finished(e, Capacity(), o.pending).result;
            && plan.text == sent + (sign(sent) + D.SHUTDOWN_TEXT + (if rest.Ok? then R.Flatten(rest.value) else []))
            && plan.end == (if rest.Ok? then Stopped else Terminated(RedactionFinishFailed)) && plan.log == None
  {
    var o := Pushed(e, [], labels);
    var sent := R.Flatten(o.result.value);
    ShutdownTranscript(e, false, sign, labels);
    RelaysInBytes(e, false, sign, labels);
    TextsFlatten(o.result.value);
    assert [] + sent == sent;
    var s := Relays(e, false, sign, labels).state;
    assert s == D.State([], false, sent);
    RT.ShutdownWire(s, sign);
    assert sent + [] == sent && [] + sign(sent) == sign(sent);
    var rest := R.Finished(e, Capacity(), o.pending).result;
    if rest.Ok? {
      WireOfDatas(Texts(rest.value));
      TextsFlatten(rest.value);
    }
  }

  lemma RelayedAfterReceipt(s: D.State, texts: seq<ByteString>, sign: D.Signer)
    requires D.Valid(s) && s.completed
    ensures var r := Watch(s, texts, sign);
            Wire(r.events) + Wire(D.Flushed(r.state).events) == Concat(texts)
  {
    CompletedForwards(s, texts, sign);
    FlushAfterReceipt(Watch(s, texts, sign).state);
    assert Concat(texts) + [] == Concat(texts);
  }

  /**
    An event stream shut down before its done marker: all that was redacted so far, a receipt, the
    shutdown text, and then what the redactor still held. The receipt certifies exactly what is in front
    of it if and only if no carry was lost.
   */
  lemma EventShutdown(e: R.Engine, sign: D.Signer, labels: seq<Label>)
    requires R.Usable(e) && Stopper(labels) == Some(ShutdownChanged(true)) && Pushed(e, [], labels).result.Ok?
    requires !Contains(R.Flatten(Pushed(e, [], labels).result.value), D.MARKER)
    ensures var (o, plan) := (Pushed(e, [], labels), Transcript(e, true, sign, labels));
            var (sent, pieces) := (R.Flatten(o.result.value), Texts(o.result.value));
            var rest := R.Finished(e, Capacity(), o.pending).result;
            var certified := D.ShutDown(Watch(D.INITIAL, pieces, sign).state, sign).state.hashed;
            && plan.text == sent + sign(certified) + D.SHUTDOWN_TEXT + (if rest.Ok? then R.Flatten(rest.value) else [])
            && plan.end == (if rest.Ok? then Stopped else Terminated(RedactionFinishFailed)) && plan.log == None
            && (certified == sent <==> !DL.LosesCarry([], pieces))
  {
    var o := Pushed(e, [], labels);
    var pieces := Texts(o.result.value);
    TextsFlatten(o.result.value);
    ShutdownTranscript(e, true, sign, labels);
    var w := Watch(D.INITIAL, pieces, sign);
    var last := D.ShutDown(w.state, sign);
    RT.ShutdownRun(pieces, sign);
    WatchThenShutdown(pieces, sign);
    WireSplits(w.events, last.events);
    DL.LastHashIff(pieces, ShutdownOp, sign);
    var rest := R.Finished(e, Capacity(), o.pending).result;
    if rest.Ok? {
      RelayedAfterReceipt(last.state, Texts(rest.value), sign);
      TextsFlatten(rest.value);
    }
    Reassociate(Wire(w.events), Wire(last.events), if rest.Ok? then R.Flatten(rest.value) else []);
  }

  /**
    An event stream shut down before its done marker, whatever is still flushed afterwards: if the
    script accepts the transcript, what it hashed is not what the receipt certifies.
   */
  lemma ShutdownTranscriptNeverVerifies(e: R.Engine, labels: seq<Label>, issuer: RT.Issuer, accepts: V.Acceptance)
    requires R.Usable(e) && Stopper(labels) == Some(ShutdownChanged(true)) && Pushed(e, [], labels).result.Ok?
    requires RT.Trustworthy(issuer, accepts)
    requires var sent := R.Flatten(Pushed(e, [], labels).result.value);
             !Contains(sent, D.MARKER) && forall i | 0 <= i < |V.Lines(sent)| :: !V.IsAuditEvent(V.Lines(sent)[i])
    ensures var pieces := Texts(Pushed(e, [], labels).result.value);
            var certified := D.ShutDown(Watch(D.INITIAL, pieces, RT.FramesOf(issuer)).state, RT.FramesOf(issuer)).state.hashed;
            var v := V.Verified(Transcript(e, true, RT.FramesOf(issuer), labels).text, accepts);
            v.Hashed? ==> v.payload != certified
  {
    var o, sign := Pushed(e, [], labels), RT.FramesOf(issuer);
    var pieces := Texts(o.result.value);
    TextsFlatten(o.result.value);
    ShutdownTranscript(e, true, sign, labels);
    var last := D.ShutDown(Watch(D.INITIAL, pieces, sign).state, sign);
    ShutdownPiecesNeverVerify(pieces, Closing(e, true, sign, o.pending, last.state, Stopped).text, issuer, accepts);
  }

  lemma ShutdownPiecesNeverVerify(pieces: seq<ByteString>, rest: ByteString, issuer: RT.Issuer, accepts: V.Acceptance)
    requires !Contains(Concat(pieces), D.MARKER) && RT.Trustworthy(issuer, accepts)
    requires forall i | 0 <= i < |V.Lines(Concat(pieces))| :: !V.IsAuditEvent(V.Lines(Concat(pieces))[i])
    ensures var sign := RT.FramesOf(issuer);
            var w := Watch(D.INITIAL, pieces, sign);
            var last := D.ShutDown(w.state, sign);
            var v := V.Verified(Wire(w.events) + (Wire(last.events) + rest), accepts);
            v.Hashed? ==> v.payload != last.state.hashed
  {
    var sign := RT.FramesOf(issuer);
    var w := Watch(D.INITIAL, pieces, sign);
    var last := D.ShutDown(w.state, sign);
    WatchThenShutdown(pieces, sign);
    WireSplits(w.events, last.events);
    Reassociate(Wire(w.events), Wire(last.events), rest);
    RT.ShutdownNeverVerifies(pieces, rest, issuer, accepts);
  }
}
