/**
  What the transcript of a stream is, in terms of the whole upstream body: the one-shot redaction of
  it, with the receipt in front of the done marker for event streams.
 */
module StreamResults {
  import opened Bytes
  import opened Utf8
  import R = Redactor
  import D = Detector
  import RR = RedactorRuns
  import opened DetectorRuns
  import opened StreamPlan
  import F = Fragmentation
  import Dict = Dictionaries
  import V = Verifier
  import RT = RoundTrip
  import DL = DetectorLedger

  // ---- What a label sequence amounts to ----------------------------------------------------------

  /** Labels the loop turns over without stopping or reading anything. */
  predicate Idle(next: Label) {
    next.HotSwap? || next == ShutdownChanged(false)
  }

  /** The chunks read before the first label that stops the loop. */
  function ChunksRead(labels: seq<Label>): seq<ByteString> {
    if labels == [] then []
    else if labels[0].Chunk? then [labels[0].bytes] + ChunksRead(labels[1..])
    else if Idle(labels[0]) then ChunksRead(labels[1..])
    else []
  }

  /** The label that stops the loop. */
  function Stopper(labels: seq<Label>): Option<Label> {
    if labels == [] then None
    else if labels[0].Chunk? || Idle(labels[0]) then Stopper(labels[1..])
    else Some(labels[0])
  }

  // ---- One relay for the whole stream --------------------------------------------------------------

  lemma {:induction false} RelaySplits(sse: bool, s: D.State, a: seq<ByteString>, b: seq<ByteString>, sign: D.Signer)
    requires D.Valid(s)
    ensures var first := Relayed(sse, s, a, sign);
            && Relayed(sse, s, a + b, sign).state == Relayed(sse, first.state, b, sign).state
            && Relayed(sse, s, a + b, sign).events == first.events + Relayed(sse, first.state, b, sign).events
    decreases |a|
  {
    if a == [] {
      assert a + b == b;
      RelayNothing(sse, s, sign);
      assert [] + Relayed(sse, s, b, sign).events == Relayed(sse, s, b, sign).events;
    } else {
      assert (a + b)[1..] == a[1..] + b && (a + b)[0] == a[0];
      var first := Piece(sse, s, a[0], sign);
      RelayStep(sse, s, a, sign);
      RelayStep(sse, s, a + b, sign);
      RelaySplits(sse, first.state, a[1..], b, sign);
      var mid := Relayed(sse, first.state, a[1..], sign);
      ReassociateEvents(first.events, mid.events, Relayed(sse, mid.state, b, sign).events);
    }
  }

  lemma WholeSplits(sse: bool, s: D.State, a: seq<R.Segment>, b: seq<R.Segment>, sign: D.Signer)
    requires D.Valid(s)
    ensures var first := Relayed(sse, s, Texts(a), sign);
            && WholeWire(sse, s, a + b, sign) == Wire(first.events) + WholeWire(sse, first.state, b, sign)
            && LastState(sse, s, a + b, sign) == LastState(sse, first.state, b, sign)
  {
    assert Texts(a + b) == Texts(a) + Texts(b);
    RelaySplits(sse, s, Texts(a), Texts(b), sign);
    var first := Relayed(sse, s, Texts(a), sign);
    var later := Relayed(sse, first.state, Texts(b), sign);
    WireSplits(first.events, later.events);
    Reassociate(Wire(first.events), Wire(later.events), if sse then Wire(D.Flushed(later.state).events) else []);
  }

  /** The whole stream as one redactor run: chunks, then finish. */
  function Fed(e: R.Engine, pending: ByteString, labels: seq<Label>): R.Outcome
    requires R.Usable(e)
  {
    RR.Feed(e, Capacity(), pending, RR.Script(ChunksRead(labels)))
  }

  /** A stream that reaches the upstream's end is planned as one redactor run, relayed and flushed. */
  lemma {:induction false} EofTranscript(
      e: R.Engine, sse: bool, sign: D.Signer, pending: ByteString, s: D.State, labels: seq<Label>)
    requires R.Usable(e) && D.Valid(s) && Stopper(labels) == Some(Eof)
    ensures var (plan, fed) := (Planned(e, sse, sign, pending, s, labels), Fed(e, pending, labels).result);
            if fed.Ok? then
              && plan.text == WholeWire(sse, s, fed.value, sign) && plan.end == Completed
              && plan.log == Some(LastState(sse, s, fed.value, sign).hashed)
            else plan.end == Terminated(RedactionFailed) || plan.end == Terminated(RedactionFinishFailed)
    decreases |labels|
  {
    if labels[0] == Eof {
      RR.FinishStep(e, Capacity(), pending);
    } else if Idle(labels[0]) {
      EofTranscript(e, sse, sign, pending, s, labels[1..]);
      NothingFirst(Planned(e, sse, sign, pending, s, labels[1..]));
    } else {
      EofChunk(e, sse, sign, pending, s, labels);
      var o := R.Pushed(e, Capacity(), pending, labels[0].bytes);
      if o.result.Ok? {
        var r := Relayed(sse, s, Texts(o.result.value), sign);
        EofTranscript(e, sse, sign, o.pending, r.state, labels[1..]);
        if Fed(e, o.pending, labels[1..]).result.Ok? {
          WholeSplits(sse, s, o.result.value, Fed(e, o.pending, labels[1..]).result.value, sign);
        }
      }
    }
  }

  lemma NothingFirst(p: Plan)
    ensures Then([], p) == p
  {
    assert [] + p.text == p.text;
  }

  lemma EofChunk(e: R.Engine, sse: bool, sign: D.Signer, pending: ByteString, s: D.State, labels: seq<Label>)
    requires R.Usable(e) && D.Valid(s) && labels != [] && labels[0].Chunk?
    ensures var o := R.Pushed(e, Capacity(), pending, labels[0].bytes);
            Fed(e, pending, labels) == RR.AfterPush(o, e, Capacity(), RR.Script(ChunksRead(labels[1..])))
  {
    var chunks := ChunksRead(labels);
    assert chunks[0] == labels[0].bytes && chunks[1..] == ChunksRead(labels[1..]) && chunks[0..] == chunks;
    RR.ScriptStep(e, Capacity(), pending, chunks, 0);
  }

  // ---- What the client gets ------------------------------------------------------------------------

  lemma {:induction false} TextsFlatten(segments: seq<R.Segment>)
    ensures Concat(Texts(segments)) == R.Flatten(segments)
  {
    if segments != [] {
      assert Texts(segments)[1..] == Texts(segments[1..]);
      TextsFlatten(segments[1..]);
    }
  }

  lemma {:induction false} WireOfDatas(texts: seq<ByteString>)
    ensures Wire(Datas(texts)) == Concat(texts)
  {
    if texts != [] {
      assert Datas(texts)[1..] == Datas(texts[1..]);
      WireOfDatas(texts[1..]);
    }
  }

  /** A well-formed body none of whose one-shot matches straddles a release cut, and room for the carry. */
  ghost predicate Streamable(e: R.Engine, labels: seq<Label>) {
    && R.Sound(e) && R.MaxLen(e.patterns) + 3 <= Capacity()
    && WellFormed(Concat(ChunksRead(labels))) && F.CutsClear(e, [], ChunksRead(labels))
  }

  /** An overlap-free dictionary and a case-exact body always stream, however the body is cut. */
  lemma OverlapFreeStreams(e: R.Engine, labels: seq<Label>)
    requires R.Sound(e) && R.MaxLen(e.patterns) + 3 <= Capacity() && WellFormed(Concat(ChunksRead(labels)))
    requires Dict.OverlapFree(e.patterns) && Dict.CaseExact(e.patterns, Concat(ChunksRead(labels)))
    ensures Streamable(e, labels)
  {
    assert [] + Concat(ChunksRead(labels)) == Concat(ChunksRead(labels));
    Dict.OverlapFreeCutsClear(e, [], ChunksRead(labels));
  }

  lemma FedIsOneShot(e: R.Engine, labels: seq<Label>)
    requires Streamable(e, labels)
    ensures F.Produces(e, Fed(e, [], labels), Concat(ChunksRead(labels)))
  {
    assert [] + Concat(ChunksRead(labels)) == Concat(ChunksRead(labels));
    F.ClearRunsEqualOneShot(e, Capacity(), [], ChunksRead(labels));
  }

  /** A plain response that reaches its end: the transcript is the one-shot redaction of the body, and its hash is logged. */
  lemma PlainBodyIsOneShot(e: R.Engine, sign: D.Signer, labels: seq<Label>)
    requires Stopper(labels) == Some(Eof) && Streamable(e, labels)
    ensures var plan := Transcript(e, false, sign, labels);
            plan.text == R.OneShot(e, Concat(ChunksRead(labels)), 0) && plan.end == Completed && plan.log == Some(plan.text)
  {
    FedIsOneShot(e, labels);
    EofTranscript(e, false, sign, [], D.INITIAL, labels);
    var segments := Fed(e, [], labels).result.value;
    WireOfDatas(Texts(segments));
    TextsFlatten(segments);
    assert [] + Concat(Texts(segments)) == Concat(Texts(segments));
  }

  lemma FlushAfterReceipt(s: D.State)
    requires D.Valid(s) && s.completed
    ensures Wire(D.Flushed(s).events) == []
  {
  }

  /** Where in the stream the receipt goes. */
  ghost function ReceiptPlace(pieces: seq<ByteString>, sign: D.Signer): nat {
    RunInjection(D.INITIAL, pieces, sign)
  }

  lemma WatchedWithMarker(chunks: seq<ByteString>, p: nat, sign: D.Signer)
    requires DL.FirstAt(Concat(chunks), D.MARKER, p)
    ensures var (r, q) := (Watch(D.INITIAL, chunks, sign), ReceiptPlace(chunks, sign));
            && r.state.completed && OccursAt(Concat(chunks), D.MARKER, q) && (q == p <==> !DL.PicksInner([], chunks))
            && Wire(r.events) == Concat(chunks)[..q] + sign(r.state.hashed) + Concat(chunks)[q..]
  {
    RT.RunPasses(chunks, p, sign);
    RT.FirstIsUnique(chunks, p, sign);
    RT.WireOfLayout(Watch(D.INITIAL, chunks, sign).events);
  }

  lemma WatchedWithoutMarker(chunks: seq<ByteString>, sign: D.Signer)
    requires !Contains(Concat(chunks), D.MARKER)
    ensures var r := Watch(D.INITIAL, chunks, sign);
            Wire(r.events) + Wire(D.Flushed(r.state).events) == Concat(chunks)
  {
    var r := Watch(D.INITIAL, chunks, sign);
    DetectorCompleteness(chunks, sign);
    BytesPassThrough(D.INITIAL, chunks, sign);
    assert [] + Concat(chunks) == Concat(chunks);
    PlainIsAllData(r.events);
    WireOfData(r.state.trailing);
  }

  /** Watching pieces from the start and flushing: all the bytes an event stream sends. */
  function WatchedWhole(pieces: seq<ByteString>, sign: D.Signer): ByteString {
    var r := Watch(D.INITIAL, pieces, sign);
    Wire(r.events) + Wire(D.Flushed(r.state).events)
  }

  lemma WholeWithMarker(pieces: seq<ByteString>, p: nat, sign: D.Signer)
    requires DL.FirstAt(Concat(pieces), D.MARKER, p)
    ensures var (r, q) := (Watch(D.INITIAL, pieces, sign), ReceiptPlace(pieces, sign));
            && WatchedWhole(pieces, sign) == Wire(r.events)
            && OccursAt(Concat(pieces), D.MARKER, q) && (q == p <==> !DL.PicksInner([], pieces))
            && Wire(r.events) == Concat(pieces)[..q] + sign(r.state.hashed) + Concat(pieces)[q..]
  {
    WatchedWithMarker(pieces, p, sign);
    FlushAfterReceipt(Watch(D.INITIAL, pieces, sign).state);
  }

  /** The redacted pieces of a stream, as the detector gets them. */
  function RedactedPieces(e: R.Engine, labels: seq<Label>): seq<ByteString>
    requires R.Usable(e)
  {
    var fed := Fed(e, [], labels).result;
    if fed.Ok? then Texts(fed.value) else []
  }

  /** The one-shot redaction of everything upstream sent. */
  function RedactedBody(e: R.Engine, labels: seq<Label>): ByteString
    requires R.Usable(e)
  {
    R.OneShot(e, Concat(ChunksRead(labels)), 0)
  }

  lemma EventStreamIsWatched(e: R.Engine, sign: D.Signer, labels: seq<Label>)
    requires Stopper(labels) == Some(Eof) && Streamable(e, labels)
    ensures Concat(RedactedPieces(e, labels)) == RedactedBody(e, labels)
    ensures var plan := Transcript(e, true, sign, labels);
            && plan.text == WatchedWhole(RedactedPieces(e, labels), sign) && plan.end == Completed
            && plan.log == Some(D.Flushed(Watch(D.INITIAL, RedactedPieces(e, labels), sign).state).state.hashed)
  {
    FedIsOneShot(e, labels);
    EofTranscript(e, true, sign, [], D.INITIAL, labels);
    TextsFlatten(Fed(e, [], labels).result.value);
  }

  /** An event stream without a marker: the hash logged at its end covers it exactly if no carry was lost. */
  lemma EventStreamLogIff(e: R.Engine, sign: D.Signer, labels: seq<Label>)
    requires Stopper(labels) == Some(Eof) && Streamable(e, labels) && !Contains(RedactedBody(e, labels), D.MARKER)
    ensures Transcript(e, true, sign, labels).log == Some(RedactedBody(e, labels))
       <==> !DL.LosesCarry([], RedactedPieces(e, labels))
  {
    EventStreamIsWatched(e, sign, labels);
    DL.LastHashIff(RedactedPieces(e, labels), FinishOp, sign);
    PlaySnoc(D.INITIAL, Inspections(RedactedPieces(e, labels)), FinishOp, sign);
  }

  /**
    An event stream that reaches its end: the one-shot redaction of the body, and if it has a done
    marker, the receipt directly in front of one: the first, unless the piece that completes the first
    begins inside it and holds another.
   */
  lemma EventStreamIsOneShotWithReceipt(e: R.Engine, sign: D.Signer, labels: seq<Label>, p: nat)
    requires Stopper(labels) == Some(Eof) && Streamable(e, labels)
    ensures Transcript(e, true, sign, labels).end == Completed
    ensures !Contains(RedactedBody(e, labels), D.MARKER) ==>
              Transcript(e, true, sign, labels).text == RedactedBody(e, labels)
    ensures DL.FirstAt(RedactedBody(e, labels), D.MARKER, p) ==>
              var q := ReceiptPlace(RedactedPieces(e, labels), sign);
              && OccursAt(RedactedBody(e, labels), D.MARKER, q)
              && (q == p <==> !DL.PicksInner([], RedactedPieces(e, labels)))
              && Transcript(e, true, sign, labels).text
                 == RedactedBody(e, labels)[..q]
                    + sign(Watch(D.INITIAL, RedactedPieces(e, labels), sign).state.hashed)
                    + RedactedBody(e, labels)[q..]
  {
    EventStreamIsWatched(e, sign, labels);
    var pieces := RedactedPieces(e, labels);
    if !Contains(Concat(pieces), D.MARKER) {
      WatchedWithoutMarker(pieces, sign);
    }
    if DL.FirstAt(Concat(pieces), D.MARKER, p) {
      WholeWithMarker(pieces, p, sign);
    }
  }

  /** The first done marker is at `p`, with no audit event before it. */
  ghost predicate Readable(body: ByteString, p: nat) {
    && DL.FirstAt(body, D.MARKER, p)
    && forall i | 0 <= i < |V.Lines(body[..p])| :: !V.IsAuditEvent(V.Lines(body[..p])[i])
  }

  /** The script's verdict on `text`, sent while the detector watched `pieces` of `body`. */
  ghost predicate Certified(text: ByteString, pieces: seq<ByteString>, body: ByteString, p: nat, issuer: RT.Issuer, accepts: V.Acceptance)
    requires p <= |body|
  {
    RT.Verdicts(text, body, p, Watch(D.INITIAL, pieces, RT.FramesOf(issuer)).state.hashed,
                DL.PicksInner([], pieces), DL.LosesCarry([], pieces), accepts)
  }

  /**
    Proxy to script over the whole pipeline: the script run on the client's transcript accepts it if and
    only if the receipt is in front of the first marker; it then hashes the complete lines before the
    marker, and if these are all of the redacted payload, the receipt certifies them if and only if no
    long redacted piece followed earlier bytes before the marker.
   */
  lemma TranscriptVerifiesIff(e: R.Engine, labels: seq<Label>, p: nat, issuer: RT.Issuer, accepts: V.Acceptance)
    requires Stopper(labels) == Some(Eof) && Streamable(e, labels)
    requires Readable(RedactedBody(e, labels), p) && RT.Trustworthy(issuer, accepts)
    ensures Certified(Transcript(e, true, RT.FramesOf(issuer), labels).text, RedactedPieces(e, labels),
                      RedactedBody(e, labels), p, issuer, accepts)
  {
    EventStreamIsWatched(e, RT.FramesOf(issuer), labels);
    PiecesVerify(RedactedPieces(e, labels), RedactedBody(e, labels), Transcript(e, true, RT.FramesOf(issuer), labels).text,
                 p, issuer, accepts);
  }

  lemma PiecesVerify(pieces: seq<ByteString>, body: ByteString, text: ByteString, p: nat, issuer: RT.Issuer, accepts: V.Acceptance)
    requires body == Concat(pieces) && text == WatchedWhole(pieces, RT.FramesOf(issuer))
    requires Readable(body, p) && RT.Trustworthy(issuer, accepts)
    ensures Certified(text, pieces, body, p, issuer, accepts)
  {
    WholeWithMarker(pieces, p, RT.FramesOf(issuer));
    RT.ReceiptVerifiesIff(pieces, p, issuer, accepts);
  }

  /** A stream that reaches the upstream's end completes iff the body is well-formed UTF-8. */
  lemma CompletesIffWellFormed(e: R.Engine, sse: bool, sign: D.Signer, labels: seq<Label>)
    requires R.Sound(e) && R.MaxLen(e.patterns) + 3 <= Capacity() && Stopper(labels) == Some(Eof)
    ensures Transcript(e, sse, sign, labels).end == Completed <==> WellFormed(Concat(ChunksRead(labels)))
  {
    EofTranscript(e, sse, sign, [], D.INITIAL, labels);
    RR.AcceptsExactlyWellFormed(e, Capacity(), [], ChunksRead(labels));
    assert [] + Concat(ChunksRead(labels)) == Concat(ChunksRead(labels));
  }
}
