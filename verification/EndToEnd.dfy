/**
  From upstream to the client's last read: what `ServeStream` leaves in the shared queue and what the
  client has read when it has polled its body to the end, whatever all other streams did.
 */
module EndToEnd {
  import opened Bytes
  import R = Redactor
  import D = Detector
  import DL = DetectorLedger
  import opened DetectorRuns
  import opened Budget
  import opened BudgetQueue
  import opened ClientQueue
  import opened StreamPlan
  import opened StreamResults
  import opened StreamStops

  /** What `ServeStream` guarantees of its stream `c` when it has ended and every call was taken whole. */
  ghost predicate FullyServed(w: World, c: nat, plan: Plan, o: Outcome, sse: bool) {
    Ended(w, c, plan, o, sse) && AllDone(w.channels[c].calls)
  }

  /** What `ServeStream` guarantees of its stream `c` when it has ended. */
  ghost predicate Ended(w: World, c: nat, plan: Plan, o: Outcome, sse: bool) {
    && Sealed(w, c)
    && Accepted(w.channels[c].calls) == o.data + o.notice
    && Served([], plan, o, sse, FirstFailure(w.channels[c].calls))
  }

  lemma FullyServedAsPlanned(w: World, c: nat, plan: Plan, o: Outcome, sse: bool)
    requires FullyServed(w, c, plan, o, sse)
    ensures o.end == plan.end && o.data == plan.text && o.log == plan.log
    ensures o.notice == if o.end.Terminated? then ErrorFrame(o.end.reason) else []
  {
    AllDoneNoFailure(w.channels[c].calls);
    assert [] + plan.text == plan.text;
  }

  /** The client has polled stream `c` until it was told that it is over. */
  predicate ReadToEnd(v: World, c: nat) {
    c < |v.channels| && v.channels[c].bodyAlive && v.channels[c].ended
  }

  /** A stream that was to complete: at the end the client has read the transcript, no more and no less. */
  lemma ClientReadsTranscript(budget: nat, before: seq<Action>, w: World, c: nat, plan: Plan, o: Outcome, sse: bool,
                              later: seq<Action>, v: World)
    requires Reaches(Initial(budget), before, w) && FullyServed(w, c, plan, o, sse) && plan.end == Completed
    requires Reaches(w, later, v) && ReadToEnd(v, c)
    ensures v.channels[c].delivered == plan.text
  {
    SealedStreamIsRead(budget, before, w, c, later, v);
    FullyServedAsPlanned(w, c, plan, o, sse);
    assert o.data + [] == o.data;
  }

  /** A plain response that reaches its end: the client reads the one-shot redaction of the body. */
  lemma ClientReadsOneShot(
      budget: nat, before: seq<Action>, w: World, c: nat, e: R.Engine, sign: D.Signer, labels: seq<Label>,
      o: Outcome, later: seq<Action>, v: World)
    requires Stopper(labels) == Some(Eof) && Streamable(e, labels)
    requires Reaches(Initial(budget), before, w)
    requires FullyServed(w, c, Transcript(e, false, sign, labels), o, false)
    requires Reaches(w, later, v) && ReadToEnd(v, c)
    ensures v.channels[c].delivered == RedactedBody(e, labels)
  {
    PlainBodyIsOneShot(e, sign, labels);
    ClientReadsTranscript(budget, before, w, c, Transcript(e, false, sign, labels), o, false, later, v);
  }

  /** An event stream that reaches its end: the same, with the receipt in front of its done marker. */
  lemma ClientReadsReceipt(
      budget: nat, before: seq<Action>, w: World, c: nat, e: R.Engine, sign: D.Signer, labels: seq<Label>, p: nat,
      o: Outcome, later: seq<Action>, v: World)
    requires Stopper(labels) == Some(Eof) && Streamable(e, labels)
    requires Reaches(Initial(budget), before, w)
    requires FullyServed(w, c, Transcript(e, true, sign, labels), o, true)
    requires Reaches(w, later, v) && ReadToEnd(v, c)
    ensures !Contains(RedactedBody(e, labels), D.MARKER) ==> v.channels[c].delivered == RedactedBody(e, labels)
    ensures DL.FirstAt(RedactedBody(e, labels), D.MARKER, p) ==>
              var q := ReceiptPlace(RedactedPieces(e, labels), sign);
              && q <= |RedactedBody(e, labels)| && (q == p <==> !DL.PicksInner([], RedactedPieces(e, labels)))
              && v.channels[c].delivered
                 == RedactedBody(e, labels)[..q]
                    + sign(Watch(D.INITIAL, RedactedPieces(e, labels), sign).state.hashed)
                    + RedactedBody(e, labels)[q..]
  {
    EventStreamIsOneShotWithReceipt(e, sign, labels, p);
    ClientReadsTranscript(budget, before, w, c, Transcript(e, true, sign, labels), o, true, later, v);
  }

  // ---- Streams that fail -----------------------------------------------------------------------------

  /** The terminal error frame with `reason` in it. */
  function FrameWith(reason: ByteString): ByteString {
    Ascii("data: {\"error\": \"proxy_terminated\",") + Ascii(" \"reason\": \"") + reason + Ascii("\"}\n\n")
  }

  lemma FrameTexts()
    ensures ErrorFrame(UpstreamReadFailed) == FrameWith(Ascii("upstream_read_failed"))
    ensures ErrorFrame(UpstreamIdleTimeout) == FrameWith(Ascii("upstream_idle_timeout"))
  {
  }

  lemma RedactionFrameTexts()
    ensures ErrorFrame(RedactionFailed) == FrameWith(Ascii("redaction_failed"))
    ensures ErrorFrame(RedactionFinishFailed) == FrameWith(Ascii("redaction_finish_failed"))
  {
  }

  /** `text` after the data of a stream, as a failure of kind `stop` calls for. */
  predicate FailureText(stop: Label, text: ByteString) {
    && (stop == ReadError ==> text == FrameWith(Ascii("upstream_read_failed")))
    && (stop == IdleTimeout ==> text == FrameWith(Ascii("upstream_idle_timeout")))
    && (stop == Disconnect ==> text == [])
  }

  lemma FailureNotice(stop: Label, end: End, notice: ByteString)
    requires stop == ReadError ==> end == Terminated(UpstreamReadFailed)
    requires stop == IdleTimeout ==> end == Terminated(UpstreamIdleTimeout)
    requires stop == Disconnect ==> end == Disconnected
    requires notice == if end.Terminated? then ErrorFrame(end.reason) else []
    ensures FailureText(stop, notice)
  {
    FrameTexts();
  }

  /**
    A stream that fails while the queue takes everything: the client's queue holds the pieces redacted so
    far and then the error frame with that failure's own text, or nothing more on a disconnect.
   */
  lemma FailedStreamAccepted(w: World, c: nat, e: R.Engine, sse: bool, sign: D.Signer, labels: seq<Label>, stop: Label, o: Outcome)
    requires R.Usable(e) && Stopper(labels) == Some(stop) && Pushed(e, [], labels).result.Ok?
    requires stop == ReadError || stop == IdleTimeout || stop == Disconnect
    requires FullyServed(w, c, Transcript(e, sse, sign, labels), o, sse)
    ensures Accepted(w.channels[c].calls) == Wire(Relays(e, sse, sign, labels).events) + o.notice
    ensures FailureText(stop, o.notice)
  {
    FailureTranscript(e, sse, sign, labels, stop);
    FullyServedAsPlanned(w, c, Transcript(e, sse, sign, labels), o, sse);
    FailureNotice(stop, o.end, o.notice);
  }

  /** `text` after the data of a stream the redactor rejected. */
  predicate RejectionText(end: End, text: ByteString) {
    && (end == Terminated(RedactionFailed) ==> text == FrameWith(Ascii("redaction_failed")))
    && (end == Terminated(RedactionFinishFailed) ==> text == FrameWith(Ascii("redaction_finish_failed")))
  }

  lemma RejectionNotice(end: End, notice: ByteString)
    requires notice == if end.Terminated? then ErrorFrame(end.reason) else []
    ensures RejectionText(end, notice)
  {
    RedactionFrameTexts();
  }

  /** A stream whose bytes the redactor rejects: the pieces before them, and the error frame that says where. */
  lemma RejectedStreamAccepted(w: World, c: nat, plan: Plan, o: Outcome, sse: bool)
    requires FullyServed(w, c, plan, o, sse)
    ensures Accepted(w.channels[c].calls) == plan.text + o.notice && RejectionText(plan.end, o.notice)
  {
    FullyServedAsPlanned(w, c, plan, o, sse);
    RejectionNotice(o.end, o.notice);
  }

  /** What the error frame says about a call the queue refused. */
  function RefusalText(error: EnqueueError): ByteString {
    if error == OverBudget(BudgetError.TenantLimitExceeded) then Ascii("tenant_limit_exceeded")
    else if error == OverBudget(BudgetError.GlobalLimitExceeded) then Ascii("global_limit_exceeded")
    else Ascii("downstream_enqueue_failed")
  }

  lemma RefusalFrame(error: EnqueueError)
    ensures ErrorFrame(ReasonFor(error)) == FrameWith(RefusalText(error))
  {
  }

  /**
    A stream the queue refuses, `error` being the first refusal: a plain response refused inside the loop
    ends with the error frame for that error, if the queue takes it; an event stream, and any stream
    refused after the loop, ends without one.
   */
  lemma RefusedStreamAccepted(w: World, c: nat, plan: Plan, o: Outcome, sse: bool, error: EnqueueError)
    requires Ended(w, c, plan, o, sse) && FirstFailure(w.channels[c].calls) == Some(error) && o.end != plan.end
    ensures o.data <= plan.text && o.data != plan.text && o.log == None
    ensures sse || |o.data| >= plan.body ==> o.end == Aborted && Accepted(w.channels[c].calls) == o.data
    ensures Accepted(w.channels[c].calls) == o.data + o.notice
    ensures !sse && |o.data| < plan.body ==> o.notice == [] || o.notice == FrameWith(RefusalText(error))
  {
    assert [] + plan.text == plan.text && o.data + [] == o.data;
    RefusedNotice(o, sse, |o.data| < plan.body, error);
  }

  lemma RefusedNotice(o: Outcome, sse: bool, inside: bool, error: EnqueueError)
    requires NoticeFits(o) && o.end == RefusedEnd(sse, inside, error)
    ensures sse || !inside ==> o.end == Aborted && o.notice == []
    ensures !sse && inside ==> o.notice == [] || o.notice == FrameWith(RefusalText(error))
  {
    RefusalFrame(error);
  }
}
