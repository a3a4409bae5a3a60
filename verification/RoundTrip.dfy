/**
  Writer against reader: what the verification script hashes when it is given a stream the proxy
  wrote, and when that agrees with what the receipt certifies.
 */
module RoundTrip {
  import opened Bytes
  import opened Detector
  import opened DetectorRuns
  import opened DetectorLedger
  import opened Verifier

  // ---- The payload as lines ------------------------------------------------------------------

  /** The payload up to and including its last newline. */
  function CompleteLines(payload: ByteString): (r: ByteString)
    ensures r <= payload && Terminated(r)
    ensures forall i | |r| <= i < |payload| :: payload[i] != LF
  {
    if Terminated(payload) then payload else CompleteLines(payload[..|payload| - 1])
  }

  function OpenLine(payload: ByteString): (r: ByteString)
    ensures NewlineFree(r) && payload == CompleteLines(payload) + r
  {
    payload[|CompleteLines(payload)|..]
  }

  lemma CompleteIffTerminated(payload: ByteString)
    ensures CompleteLines(payload) == payload <==> Terminated(payload)
  {
  }

  lemma ContainsLonger(a: ByteString, b: ByteString, c: ByteString, needle: ByteString)
    requires Contains(b, needle)
    ensures Contains(a + b + c, needle)
  {
    var at :| 0 <= at <= |b| && OccursAt(b, needle, at);
    assert (a + b + c)[|a| + at..|a| + at + |needle|] == b[at..at + |needle|];
    assert OccursAt(a + b + c, needle, |a| + at);
  }

  /** A marker in a line is a marker in the text. */
  lemma {:induction false} LinesWithoutMarker(text: ByteString, i: nat)
    requires !Contains(text, MARKER) && i < |Lines(text)|
    ensures Find(Lines(text)[i], MARKER).None?
    decreases |text|
  {
    match Find(text, [LF])
    case None =>
    case Some(k) =>
      var line, rest := text[..k + 1], text[k + 1..];
      assert text == [] + line + rest && text == line + rest + [];
      if i == 0 {
        if Find(line, MARKER).Some? { ContainsLonger([], line, rest, MARKER); }
      } else {
        if Contains(rest, MARKER) { ContainsLonger(line, rest, [], MARKER); }
        LinesWithoutMarker(rest, i - 1);
      }
  }

  lemma PayloadOrdinary(payload: ByteString)
    requires !Contains(payload, MARKER)
    requires forall i | 0 <= i < |Lines(payload)| :: !IsAuditEvent(Lines(payload)[i])
    ensures AllOrdinary(Lines(payload))
  {
    forall i | 0 <= i < |Lines(payload)| ensures Ordinary(Lines(payload)[i]) {
      LinesWithoutMarker(payload, i);
    }
  }

  lemma OpenLineIsLast(payload: ByteString)
    ensures Lines(payload) == Lines(CompleteLines(payload)) + (if OpenLine(payload) == [] then [] else [OpenLine(payload)])
  {
    LinesSplit(CompleteLines(payload), OpenLine(payload));
    OneLine(OpenLine(payload));
  }

  lemma OneLine(line: ByteString)
    requires NewlineFree(line)
    ensures Lines(line) == if line == [] then [] else [line]
  {
    forall j | 0 <= j < |line| ensures !OccursAt(line, [LF], j) {
      assert line[j..j + 1][0] == line[j];
    }
  }

  lemma MarkerNeedsItsLast(s: ByteString, at: nat)
    requires OccursAt(s + [LF], MARKER, at)
    ensures OccursAt(s, MARKER, at)
  {
    assert MARKER[11] == ']' as int;
    assert (s + [LF])[at..at + |MARKER|][11] == (s + [LF])[at + 11];
    assert s[at..at + |MARKER|] == (s + [LF])[at..at + |MARKER|];
  }

  /** Closing the open line with a newline keeps it ordinary. */
  lemma ClosedLineOrdinary(line: ByteString)
    requires line == [] || Ordinary(line)
    ensures Ordinary(line + [LF])
  {
    assert (line + [LF])[..|line|] == line;
    assert Strip(line + [LF]) == Strip(line);
    if Find(line + [LF], MARKER).Some? {
      MarkerNeedsItsLast(line, Find(line + [LF], MARKER).value);
    }
  }

  // ---- The audit frame as lines --------------------------------------------------------------

  lemma AuditLineNewlineFree(json: ByteString, signature: ByteString)
    requires NewlineFree(json) && NewlineFree(signature)
    ensures NewlineFree(AuditLine(json, signature)) && DATA_PREFIX <= AuditLine(json, signature) + [LF]
  {
    var head, mid, end := "data: {\"receipt\": ", ", \"signature\": \"", "\"}";
    assert forall i | 0 <= i < |head| :: head[i] != '\n';
    assert forall i | 0 <= i < |mid| :: mid[i] != '\n';
    assert forall i | 0 <= i < |end| :: end[i] != '\n';
    assert DATA_PREFIX == Ascii(head)[..5];
  }

  lemma AuditEventNewlineFree()
    ensures NewlineFree(AUDIT_EVENT)
  {
    var s := "event: proxy_audit";
    assert forall i | 0 <= i < |s| :: s[i] != '\n';
  }

  function FrameLines(tail: ByteString, json: ByteString, signature: ByteString): seq<ByteString> {
    [tail + [LF], AUDIT_EVENT + [LF], AuditLine(json, signature) + [LF], [LF]]
  }

  lemma FrameSplits(tail: ByteString, json: ByteString, signature: ByteString, done: ByteString)
    requires NewlineFree(tail) && NewlineFree(json) && NewlineFree(signature)
    ensures Lines(tail + AuditFrame(json, signature) + done) == FrameLines(tail, json, signature) + Lines(done)
  {
    var audit := AuditLine(json, signature);
    AuditLineNewlineFree(json, signature);
    AuditEventNewlineFree();
    FourLines(tail, AUDIT_EVENT, audit, done);
    FrameNests(tail, AUDIT_EVENT, audit, done);
  }

  lemma TwoLines(a: ByteString, b: ByteString, rest: ByteString)
    requires NewlineFree(a) && NewlineFree(b)
    ensures Lines(a + [LF] + (b + [LF] + rest)) == [a + [LF], b + [LF]] + Lines(rest)
  {
    FirstLine(a, b + [LF] + rest);
    FirstLine(b, rest);
    assert [a + [LF]] + ([b + [LF]] + Lines(rest)) == [a + [LF], b + [LF]] + Lines(rest);
  }

  lemma FourLines(a: ByteString, b: ByteString, c: ByteString, rest: ByteString)
    requires NewlineFree(a) && NewlineFree(b) && NewlineFree(c)
    ensures Lines(a + [LF] + (b + [LF] + (c + [LF] + ([] + [LF] + rest))))
         == [a + [LF], b + [LF], c + [LF], [LF]] + Lines(rest)
  {
    TwoLines(a, b, c + [LF] + ([] + [LF] + rest));
    TwoLines(c, [], rest);
    assert [] + [LF] == [LF];
    PairPair(a + [LF], b + [LF], c + [LF], [LF], Lines(rest));
  }

  lemma PairPair(a: ByteString, b: ByteString, c: ByteString, d: ByteString, rest: seq<ByteString>)
    ensures [a, b] + ([c, d] + rest) == [a, b, c, d] + rest
  {
  }

  lemma FrameNests(tail: ByteString, event: ByteString, audit: ByteString, done: ByteString)
    ensures tail + ([LF] + event + [LF] + audit + [LF] + [LF]) + done
         == tail + [LF] + (event + [LF] + (audit + [LF] + ([] + [LF] + done)))
  {
  }

  // ---- Reading the frame ---------------------------------------------------------------------

  lemma AuditEventIsOne()
    ensures IsAuditEvent(AUDIT_EVENT + [LF])
  {
    var line := AUDIT_EVENT + [LF];
    assert line[..|line| - 1] == AUDIT_EVENT;
    assert AUDIT_EVENT[17] == 't' as int;
    assert Strip(line) == Strip(AUDIT_EVENT);
  }

  /** Reading the frame drops the line the frame's newline closed and keeps the audit line. */
  lemma ReadFrame(r: Reader, tail: ByteString, json: ByteString, signature: ByteString, accepts: Acceptance)
    requires Idle(r) && Ordinary(tail + [LF])
    requires NewlineFree(json) && NewlineFree(signature) && accepts(AuditLine(json, signature) + [LF])
    ensures ReadsThrough(r, FrameLines(tail, json, signature), accepts,
                         Reader(r.hashed + Pending(r), Some(AuditLine(json, signature) + [LF]), false, false, None))
  {
    AuditEventIsOne();
    AuditLineNewlineFree(json, signature);
    var lines := FrameLines(tail, json, signature);
    var r1 := Reader(r.hashed + Pending(r), r.audit, false, false, Some(tail + [LF]));
    var r2 := r1.(pending := None, expectingData := true);
    var r3 := r2.(audit := Some(lines[2]), expectingData := false, expectingBlank := true);
    var r4 := r3.(expectingBlank := false);
    assert ReadLine(r, lines[0], accepts) == Continue(r1);
    assert ReadLine(r1, lines[1], accepts) == Continue(r2);
    assert ReadLine(r2, lines[2], accepts) == Continue(r3);
    assert ReadLine(r3, lines[3], accepts) == Continue(r4);
    assert ReadsThrough(r4, lines[4..], accepts, r4);
    assert lines[3..][1..] == lines[4..] && lines[2..][1..] == lines[3..] && lines[1..][1..] == lines[2..];
    assert ReadsThrough(r3, lines[3..], accepts, r4);
    assert ReadsThrough(r2, lines[2..], accepts, r4);
    assert ReadsThrough(r1, lines[1..], accepts, r4);
  }

  /** Reading everything up to the end of the frame leaves exactly the complete payload lines hashed. */
  lemma ReadPayloadAndFrame(payload: ByteString, json: ByteString, signature: ByteString, done: ByteString, accepts: Acceptance)
    requires AllOrdinary(Lines(payload))
    requires NewlineFree(json) && NewlineFree(signature) && accepts(AuditLine(json, signature) + [LF])
    ensures var after := Reader(CompleteLines(payload), Some(AuditLine(json, signature) + [LF]), false, false, None);
            ReadAll(START, Lines(payload + AuditFrame(json, signature) + done), accepts) == ReadAll(after, Lines(done), accepts)
  {
    var head, tail := CompleteLines(payload), OpenLine(payload);
    var frame := FrameLines(tail, json, signature);
    OpenLineIsLast(payload);
    assert AllOrdinary(Lines(head)) && (tail == [] || Ordinary(tail)) by {
      forall i | 0 <= i < |Lines(head)| ensures Ordinary(Lines(head)[i]) { assert Lines(payload)[i] == Lines(head)[i]; }
      if tail != [] { assert Lines(payload)[|Lines(head)|] == tail; }
    }
    ClosedLineOrdinary(tail);
    TranscriptLines(payload, json, signature, done);
    var r := ReadOrdinary(START, Lines(head), accepts);
    LinesConcat(head);
    assert r.hashed + Pending(r) == head;
    ReadFrame(r, tail, json, signature, accepts);
    ReadSplit(START, Lines(head), frame + Lines(done), accepts, r);
    ReadSplit(r, frame, Lines(done), accepts,
              Reader(head, Some(AuditLine(json, signature) + [LF]), false, false, None));
  }

  lemma TranscriptLines(payload: ByteString, json: ByteString, signature: ByteString, done: ByteString)
    requires NewlineFree(json) && NewlineFree(signature)
    ensures Lines(payload + AuditFrame(json, signature) + done)
         == Lines(CompleteLines(payload)) + (FrameLines(OpenLine(payload), json, signature) + Lines(done))
  {
    var head, tail, frame := CompleteLines(payload), OpenLine(payload), AuditFrame(json, signature);
    Reassociate(head, tail, frame);
    Reassociate(head, tail + frame, done);
    LinesSplit(head, tail + frame + done);
    FrameSplits(tail, json, signature, done);
  }

  // ---- Writer/reader round trip --------------------------------------------------------------

  lemma MarkerLine(done: ByteString)
    requires MARKER <= done
    ensures var line := Lines(done)[0];
            |Lines(done)| > 0 && !IsAuditEvent(line) && Find(line, MARKER) == Some(0)
  {
    MarkerNewlineFree();
    var line := Lines(done)[0];
    match Find(done, [LF]) {
      case None =>
      case Some(i) =>
        assert done[i..i + 1][0] == done[i] == LF;
        assert line == done[..i + 1];
    }
    assert MARKER <= line;
    assert OccursAt(line, MARKER, 0) by { assert line[0..0 + |MARKER|] == MARKER; }
    NotAnAuditEvent(line);
  }

  lemma MarkerNewlineFree()
    ensures NewlineFree(MARKER)
  {
    var s := "data: [DONE]";
    assert forall i | 0 <= i < |s| :: s[i] != '\n';
  }

  lemma NotAnAuditEvent(line: ByteString)
    requires |line| > 0 && line[0] == 'd' as int
    ensures !IsAuditEvent(line)
  {
    assert AUDIT_EVENT[0] == 'e' as int;
    assert Strip(line) == [] || Strip(line)[0] == line[0];
  }

  /** The script accepts a proxy transcript and hashes exactly the complete lines of the payload. */
  lemma ScriptReadsTranscript(payload: ByteString, json: ByteString, signature: ByteString, done: ByteString, accepts: Acceptance)
    requires AllOrdinary(Lines(payload)) && MARKER <= done
    requires NewlineFree(json) && NewlineFree(signature) && accepts(AuditLine(json, signature) + [LF])
    ensures Verified(payload + AuditFrame(json, signature) + done, accepts)
         == Hashed(CompleteLines(payload), AuditLine(json, signature) + [LF])
  {
    ReadPayloadAndFrame(payload, json, signature, done, accepts);
    MarkerLine(done);
    assert CompleteLines(payload) + [] + [] == CompleteLines(payload);
  }

  /** It hashes the payload itself if and only if the payload is empty or ends in a newline. */
  lemma WriterReaderRoundTrip(payload: ByteString, json: ByteString, signature: ByteString, done: ByteString, accepts: Acceptance)
    requires !Contains(payload, MARKER) && MARKER <= done
    requires forall i | 0 <= i < |Lines(payload)| :: !IsAuditEvent(Lines(payload)[i])
    requires NewlineFree(json) && NewlineFree(signature) && accepts(AuditLine(json, signature) + [LF])
    ensures var v := Verified(payload + AuditFrame(json, signature) + done, accepts);
            v.Hashed? && (v.payload == payload <==> Terminated(payload))
  {
    PayloadOrdinary(payload);
    ScriptReadsTranscript(payload, json, signature, done, accepts);
    CompleteIffTerminated(payload);
  }

  // ---- Shutdown transcripts ------------------------------------------------------------------

  const SHUTDOWN_LINE: ByteString := Ascii("data: [ERROR: KILLED BY SHUTDOWN]")

  lemma ShutdownLineFacts()
    ensures NewlineFree(SHUTDOWN_LINE) && SHUTDOWN_TEXT == SHUTDOWN_LINE + [LF] + [LF]
  {
    var s := "data: [ERROR: KILLED BY SHUTDOWN]";
    assert forall i | 0 <= i < |s| :: s[i] != '\n';
    var t := "data: [ERROR: KILLED BY SHUTDOWN]\n\n";
    assert forall i | 0 <= i < |s| :: t[i] == s[i];
    assert t[33] == '\n' && t[34] == '\n';
  }

  lemma ShutdownLineHasNoMarker(at: nat)
    ensures !OccursAt(SHUTDOWN_LINE, MARKER, at)
  {
    var s := "data: [ERROR: KILLED BY SHUTDOWN]";
    assert forall i | 0 <= i < |s| && i != 6 :: s[i] != '[';
    assert s[7] == 'E';
    assert MARKER[6] == '[' as int && MARKER[7] == 'D' as int;
    if at + |MARKER| <= |SHUTDOWN_LINE| {
      var window := SHUTDOWN_LINE[at..at + |MARKER|];
      assert window[6] == SHUTDOWN_LINE[at + 6] && window[7] == SHUTDOWN_LINE[at + 7];
    }
  }

  lemma ShutdownLineOrdinary()
    ensures Ordinary(SHUTDOWN_LINE + [LF])
  {
    assert SHUTDOWN_LINE[0] == 'd' as int;
    NotAnAuditEvent(SHUTDOWN_LINE);
    if Find(SHUTDOWN_LINE, MARKER).Some? {
      ShutdownLineHasNoMarker(Find(SHUTDOWN_LINE, MARKER).value);
    }
    ClosedLineOrdinary(SHUTDOWN_LINE);
  }

  lemma {:induction false} HashOnlyGrows(r: Reader, lines: seq<ByteString>, accepts: Acceptance)
    ensures var end := ReadAll(r, lines, accepts);
            end.Some? ==> r.hashed <= end.value.hashed
    decreases |lines|
  {
    if lines != [] && ReadLine(r, lines[0], accepts).Continue? {
      HashOnlyGrows(ReadLine(r, lines[0], accepts).reader, lines[1..], accepts);
    }
  }

  lemma ShutdownLines(rest: ByteString)
    ensures Lines(SHUTDOWN_TEXT + rest) == [SHUTDOWN_LINE + [LF], [LF]] + Lines(rest)
  {
    ShutdownLineFacts();
    ShutdownNests(SHUTDOWN_LINE, rest);
    TwoLines(SHUTDOWN_LINE, [], rest);
    assert [] + [LF] == [LF];
  }

  lemma ShutdownNests(line: ByteString, rest: ByteString)
    ensures line + [LF] + [LF] + rest == line + [LF] + ([] + [LF] + rest)
  {
  }

  /** Whatever follows, a shutdown transcript makes the script hash the shutdown line as payload. */
  lemma ShutdownLineIsHashed(payload: ByteString, json: ByteString, signature: ByteString, rest: ByteString, accepts: Acceptance)
    requires AllOrdinary(Lines(payload))
    requires NewlineFree(json) && NewlineFree(signature) && accepts(AuditLine(json, signature) + [LF])
    ensures var v := Verified(payload + AuditFrame(json, signature) + (SHUTDOWN_TEXT + rest), accepts);
            v.Hashed? ==> CompleteLines(payload) + (SHUTDOWN_LINE + [LF]) <= v.payload
  {
    ReadPayloadAndFrame(payload, json, signature, SHUTDOWN_TEXT + rest, accepts);
    ShutdownLines(rest);
    ShutdownLineOrdinary();
    ReadShutdown(Reader(CompleteLines(payload), Some(AuditLine(json, signature) + [LF]), false, false, None),
                 Lines(rest), accepts);
  }

  lemma ReadShutdown(r: Reader, rest: seq<ByteString>, accepts: Acceptance)
    requires Idle(r) && r.pending.None? && Ordinary(SHUTDOWN_LINE + [LF])
    ensures var end := ReadAll(r, [SHUTDOWN_LINE + [LF], [LF]] + rest, accepts);
            end.Some? ==> r.hashed + (SHUTDOWN_LINE + [LF]) <= end.value.hashed
  {
    var lines := [SHUTDOWN_LINE + [LF], [LF]] + rest;
    ClosedLineOrdinary([]);
    assert [] + [LF] == [LF];
    var r1 := Reader(r.hashed + [], r.audit, false, false, Some(SHUTDOWN_LINE + [LF]));
    assert r.hashed + [] == r.hashed;
    var r2 := Reader(r.hashed + (SHUTDOWN_LINE + [LF]), r.audit, false, false, Some([LF]));
    assert ReadLine(r, lines[0], accepts) == Continue(r1);
    assert ReadLine(r1, lines[1], accepts) == Continue(r2);
    assert lines[1..][0] == lines[1] && lines[1..][1..] == rest;
    assert ReadAll(r, lines, accepts) == ReadAll(r1, lines[1..], accepts) == ReadAll(r2, rest, accepts);
    HashOnlyGrows(r2, rest, accepts);
  }

  // ---- Proxy to script, end to end -----------------------------------------------------------

  /** Receipt JSON and signature as functions of the certified bytes. */
  datatype Issuer = Issuer(json: ByteString -> ByteString, signature: ByteString -> ByteString)

  function FramesOf(i: Issuer): Signer {
    (certified: ByteString) => AuditFrame(i.json(certified), i.signature(certified))
  }

  /** JSON and base64 carry no raw newline, and the script's field checks pass. */
  ghost predicate Trustworthy(i: Issuer, accepts: Acceptance) {
    forall c: ByteString ::
      && NewlineFree(i.json(c)) && NewlineFree(i.signature(c))
      && accepts(AuditLine(i.json(c), i.signature(c)) + [LF])
  }

  lemma {:induction false} WireOfLayout(events: seq<Event>)
    requires LayoutOf(events).Receipted?
    ensures var l := LayoutOf(events);
            Wire(events) == l.before + l.audit + (l.done + l.after)
  {
    var l := LayoutOf(events);
    if events[0].Data? {
      WireOfLayout(events[1..]);
      var m := LayoutOf(events[1..]);
      Reassociate(events[0].bytes, m.before, m.audit);
      Reassociate(events[0].bytes, m.before + m.audit, m.done + m.after);
    } else {
      assert events[1..][1..] == events[2..];
      assert [] + l.audit == l.audit;
    }
  }

  lemma NothingBeforeFirstMarker(text: ByteString, p: nat)
    requires FirstAt(text, MARKER, p)
    ensures !Contains(text[..p], MARKER)
  {
    if Contains(text[..p], MARKER) {
      var q :| 0 <= q <= p && OccursAt(text[..p], MARKER, q);
      assert text[q..q + |MARKER|] == text[..p][q..q + |MARKER|];
      assert OccursAt(text, MARKER, q);
    }
  }

  /** The marker's first byte is in it once, so two occurrences never overlap. */
  lemma MarkersApart(text: ByteString, p: nat, q: nat)
    requires OccursAt(text, MARKER, p) && OccursAt(text, MARKER, q) && p < q
    ensures p + |MARKER| <= q
  {
    var s := "data: [DONE]";
    assert forall i | 1 <= i < |s| :: s[i] != 'd';
    assert text[q..q + |MARKER|][0] == text[q] == 'd' as int;
    forall j | p + 1 <= j < p + |MARKER| ensures text[j] != 'd' as int {
      assert text[p..p + |MARKER|][j - p] == text[j];
    }
  }

  /** A line that goes on into a marker holds the marker and is no audit event. */
  lemma MarkerLineBehind(tail: ByteString, rest: ByteString)
    requires NewlineFree(tail) && MARKER <= rest
    ensures |Lines(tail + rest)| > 0
    ensures var line := Lines(tail + rest)[0];
            !IsAuditEvent(line) && Find(line, MARKER).Some?
  {
    var text, n := tail + rest, |tail| + |MARKER|;
    MarkerNewlineFree();
    assert forall i | 0 <= i < n :: text[i] != LF by {
      forall i | 0 <= i < n ensures text[i] != LF {
        assert text[i] == if i < |tail| then tail[i] else MARKER[i - |tail|];
      }
    }
    var line := Lines(text)[0];
    match Find(text, [LF]) {
      case None =>
      case Some(i) =>
        assert text[i..i + 1][0] == text[i] == LF;
        assert line == text[..i + 1];
    }
    assert line[..n] == tail + MARKER;
    assert line[|tail|..n] == MARKER;
    assert OccursAt(line, MARKER, |tail|);
    HoldsBracket(line, |tail|);
  }

  lemma HoldsBracket(line: ByteString, at: nat)
    requires OccursAt(line, MARKER, at)
    ensures !IsAuditEvent(line)
  {
    var stripped := Strip(line);
    var event := "event: proxy_audit";
    assert forall i | 0 <= i < |event| :: event[i] != '[';
    assert line[at..at + |MARKER|][6] == line[at + 6] == '[' as int;
    assert at + 6 < |stripped|;
    assert stripped[at + 6] == '[' as int;
  }

  /** A marker the script meets before any audit event ends in rejection. */
  lemma RejectsMarkerFirst(payload: ByteString, rest: ByteString, accepts: Acceptance)
    requires AllOrdinary(Lines(payload)) && MARKER <= rest
    ensures Verified(payload + rest, accepts) == Rejected
  {
    var head, tail := CompleteLines(payload), OpenLine(payload);
    OpenLineIsLast(payload);
    assert AllOrdinary(Lines(head)) by {
      forall i | 0 <= i < |Lines(head)| ensures Ordinary(Lines(head)[i]) { assert Lines(payload)[i] == Lines(head)[i]; }
    }
    Reassociate(head, tail, rest);
    LinesSplit(head, tail + rest);
    MarkerLineBehind(tail, rest);
    var r := ReadOrdinary(START, Lines(head), accepts);
    ReadSplit(START, Lines(head), Lines(tail + rest), accepts, r);
    StopsWithoutAudit(r, Lines(tail + rest), accepts);
  }

  lemma StopsWithoutAudit(r: Reader, lines: seq<ByteString>, accepts: Acceptance)
    requires Idle(r) && r.audit.None? && lines != [] && !IsAuditEvent(lines[0]) && Find(lines[0], MARKER).Some?
    ensures Conclude(ReadAll(r, lines, accepts)) == Rejected
  {
  }

  /** The script's verdict on `wire`, a stream whose first marker is at `p` and whose receipt certifies `certified`. */
  ghost predicate Verdicts(wire: ByteString, text: ByteString, p: nat, certified: ByteString, inner: bool, lost: bool, accepts: Acceptance)
    requires p <= |text|
  {
    var v := Verified(wire, accepts);
    && (v.Hashed? <==> !inner)
    && (v.Hashed? ==> v.payload == CompleteLines(text[..p]))
    && (v.Hashed? && Terminated(text[..p]) ==> v.payload == text[..p] && (v.payload == certified <==> !lost))
    && (v.Hashed? && !Terminated(text[..p]) && !lost ==> v.payload != certified)
  }

  lemma FirstMarkerVerdict(chunks: seq<ByteString>, p: nat, issuer: Issuer, accepts: Acceptance)
    requires FirstAt(Concat(chunks), MARKER, p) && !PicksInner([], chunks) && Trustworthy(issuer, accepts)
    requires forall i | 0 <= i < |Lines(Concat(chunks)[..p])| :: !IsAuditEvent(Lines(Concat(chunks)[..p])[i])
    ensures var r := Watch(INITIAL, chunks, FramesOf(issuer));
            Verdicts(Wire(r.events), Concat(chunks), p, r.state.hashed, false, LosesCarry([], chunks), accepts)
  {
    var text, sign := Concat(chunks), FramesOf(issuer);
    var r := Watch(INITIAL, chunks, sign);
    RunPasses(chunks, p, sign);
    FirstIsUnique(chunks, p, sign);
    var l := LayoutOf(r.events);
    WireOfLayout(r.events);
    NothingBeforeFirstMarker(text, p);
    PayloadOrdinary(text[..p]);
    ScriptReadsTranscript(text[..p], issuer.json(r.state.hashed), issuer.signature(r.state.hashed), l.done + l.after, accepts);
    CompleteIffTerminated(text[..p]);
    HashFaithfulIff(chunks, sign);
  }

  lemma RunPasses(chunks: seq<ByteString>, p: nat, sign: Signer)
    requires OccursAt(Concat(chunks), MARKER, p)
    ensures var r := Watch(INITIAL, chunks, sign);
            && Contains(Concat(chunks), MARKER) && r.state.completed
            && Passed(r, Concat(chunks), RunInjection(INITIAL, chunks, sign), sign)
  {
    assert [] + Concat(chunks) == Concat(chunks);
    DetectorCompleteness(chunks, sign);
    BytesPassThrough(INITIAL, chunks, sign);
  }

  /** The receipt goes in front of the first marker, or behind all of it. */
  lemma FirstIsUnique(chunks: seq<ByteString>, p: nat, sign: Signer)
    requires FirstAt(Concat(chunks), MARKER, p)
    ensures var q := RunInjection(INITIAL, chunks, sign);
            OccursAt(Concat(chunks), MARKER, q)
            && if PicksInner([], chunks) then p + |MARKER| <= q else q == p
  {
    var q := RunInjection(INITIAL, chunks, sign);
    RunPasses(chunks, p, sign);
    ReceiptFirstIff(chunks, sign);
    if PicksInner([], chunks) {
      MarkersApart(Concat(chunks), p, q);
    }
  }

  lemma InnerMarkerVerdict(chunks: seq<ByteString>, p: nat, issuer: Issuer, accepts: Acceptance)
    requires FirstAt(Concat(chunks), MARKER, p) && PicksInner([], chunks) && Trustworthy(issuer, accepts)
    requires forall i | 0 <= i < |Lines(Concat(chunks)[..p])| :: !IsAuditEvent(Lines(Concat(chunks)[..p])[i])
    ensures Verified(Wire(Watch(INITIAL, chunks, FramesOf(issuer)).events), accepts) == Rejected
  {
    var text, sign := Concat(chunks), FramesOf(issuer);
    var r := Watch(INITIAL, chunks, sign);
    var q := RunInjection(INITIAL, chunks, sign);
    RunPasses(chunks, p, sign);
    FirstIsUnique(chunks, p, sign);
    var l := LayoutOf(r.events);
    WireOfLayout(r.events);
    NothingBeforeFirstMarker(text, p);
    PayloadOrdinary(text[..p]);
    MarkerInFront(text, p, q, l.audit + (l.done + l.after));
    Reassociate(text[..q], l.audit, l.done + l.after);
    RejectsMarkerFirst(text[..p], text[p..q] + (l.audit + (l.done + l.after)), accepts);
  }

  lemma MarkerInFront(text: ByteString, p: nat, q: nat, rest: ByteString)
    requires OccursAt(text, MARKER, p) && p + |MARKER| <= q <= |text|
    ensures MARKER <= text[p..q] + rest && text[..q] + rest == text[..p] + (text[p..q] + rest)
  {
    assert text[p..p + |MARKER|] == (text[p..q] + rest)[..|MARKER|];
  }

  /**
    Any stream whose first marker, at `p`, comes after no audit event, read back by the script. It is
    accepted if and only if the chunk that completes the first marker does not begin inside it and hold
    another. What is then hashed are the complete lines before the marker; if these are all of the
    payload, the receipt certifies them if and only if no non-completing chunk of at least eleven bytes
    arrived after earlier bytes.
   */
  lemma ReceiptVerifiesIff(chunks: seq<ByteString>, p: nat, issuer: Issuer, accepts: Acceptance)
    requires FirstAt(Concat(chunks), MARKER, p) && Trustworthy(issuer, accepts)
    requires forall i | 0 <= i < |Lines(Concat(chunks)[..p])| :: !IsAuditEvent(Lines(Concat(chunks)[..p])[i])
    ensures var r := Watch(INITIAL, chunks, FramesOf(issuer));
            Verdicts(Wire(r.events), Concat(chunks), p, r.state.hashed, PicksInner([], chunks), LosesCarry([], chunks), accepts)
  {
    if PicksInner([], chunks) {
      InnerMarkerVerdict(chunks, p, issuer, accepts);
    } else {
      FirstMarkerVerdict(chunks, p, issuer, accepts);
    }
  }

  // ---- A shutdown transcript never verifies ----------------------------------------------------

  function Newlines(s: ByteString): nat {
    multiset(s)[LF]
  }

  lemma NewlinesSplit(a: ByteString, b: ByteString)
    ensures Newlines(a + b) == Newlines(a) + Newlines(b)
  {
  }

  lemma NewlinesOfPrefix(a: ByteString, b: ByteString)
    requires a <= b
    ensures Newlines(a) <= Newlines(b)
  {
    assert b == a + b[|a|..];
    NewlinesSplit(a, b[|a|..]);
  }

  lemma NewlinesOfLines(payload: ByteString)
    ensures Newlines(CompleteLines(payload)) == Newlines(payload)
  {
    NewlinesSplit(CompleteLines(payload), OpenLine(payload));
    assert LF !in OpenLine(payload);
  }

  /** Fed bytes are sent bytes with some left out. */
  lemma {:induction false} FedHasFewerNewlines(ledger: seq<Entry>)
    ensures Newlines(FedOf(ledger)) <= Newlines(SentOf(ledger))
  {
    if ledger != [] {
      FedHasFewerNewlines(ledger[1..]);
      NewlinesSplit(ledger[0].fed, FedOf(ledger[1..]));
      NewlinesSplit(ledger[0].dropped + ledger[0].fed, SentOf(ledger[1..]));
      NewlinesSplit(ledger[0].dropped, ledger[0].fed);
    }
  }

  /** The receipt of a shutdown certifies no more newlines than the stream had. */
  lemma ShutdownCertifiesSent(chunks: seq<ByteString>, sign: Signer)
    requires !Contains(Concat(chunks), MARKER)
    ensures var s := Watch(INITIAL, chunks, sign).state;
            Newlines(s.hashed + s.trailing) <= Newlines(Concat(chunks))
  {
    var w := Watch(INITIAL, chunks, sign);
    WatchedPlain(chunks, sign);
    HashAccounting(INITIAL, chunks, sign);
    var ledger := Ledger(INITIAL, chunks, sign);
    assert [] + FedOf(ledger) == FedOf(ledger);
    FedHasFewerNewlines(ledger);
    NewlinesSplit(w.state.hashed, w.state.trailing);
    NewlinesSplit(Wire(w.events), w.state.trailing);
  }

  /** What a shutdown after marker-free chunks puts on the wire. */
  lemma ShutdownRun(chunks: seq<ByteString>, sign: Signer)
    requires !Contains(Concat(chunks), MARKER)
    ensures var r := Play(INITIAL, Inspections(chunks) + [ShutdownOp], sign);
            var s := Watch(INITIAL, chunks, sign).state;
            && r.state.hashed == s.hashed + s.trailing
            && Wire(r.events) == Concat(chunks) + sign(r.state.hashed) + SHUTDOWN_TEXT
  {
    var w := Watch(INITIAL, chunks, sign);
    WatchedPlain(chunks, sign);
    WatchThenShutdown(chunks, sign);
    ShutdownJoins(w, Concat(chunks), sign);
  }

  lemma ShutdownJoins(w: Reply, text: ByteString, sign: Signer)
    requires !w.state.completed && Wire(w.events) + w.state.trailing == text
    ensures var last := ShutDown(w.state, sign);
            Wire(w.events + last.events) == text + sign(last.state.hashed) + SHUTDOWN_TEXT
  {
    var last := ShutDown(w.state, sign);
    ShutdownWire(w.state, sign);
    WireSplits(w.events, last.events);
    Reassociate(Wire(w.events), w.state.trailing + sign(last.state.hashed), SHUTDOWN_TEXT);
    Reassociate(Wire(w.events), w.state.trailing, sign(last.state.hashed));
  }

  lemma ShutdownWire(s: State, sign: Signer)
    requires !s.completed
    ensures Wire(ShutDown(s, sign).events) == s.trailing + sign(s.hashed + s.trailing) + SHUTDOWN_TEXT
  {
    var receipt := ReceiptEvents(s.hashed + s.trailing, SHUTDOWN_TEXT, sign);
    WireOfData(s.trailing);
    WireSplits(DataUnlessEmpty(s.trailing), receipt);
    assert receipt[1..][1..] == [];
  }

  /**
    For every chunking of a marker-free stream without audit lines, and whatever follows the shutdown:
    if the script accepts the transcript at all, the bytes it hashed are not the ones the receipt
    certifies.
   */
  lemma ShutdownNeverVerifies(chunks: seq<ByteString>, rest: ByteString, issuer: Issuer, accepts: Acceptance)
    requires !Contains(Concat(chunks), MARKER) && Trustworthy(issuer, accepts)
    requires forall i | 0 <= i < |Lines(Concat(chunks))| :: !IsAuditEvent(Lines(Concat(chunks))[i])
    ensures var r := Play(INITIAL, Inspections(chunks) + [ShutdownOp], FramesOf(issuer));
            var v := Verified(Wire(r.events) + rest, accepts);
            v.Hashed? ==> v.payload != r.state.hashed
  {
    var r := Play(INITIAL, Inspections(chunks) + [ShutdownOp], FramesOf(issuer));
    ShutdownRun(chunks, FramesOf(issuer));
    ShutdownCertifiesSent(chunks, FramesOf(issuer));
    ShutdownCertifiesLess(Concat(chunks), r.state.hashed, rest, issuer, accepts);
    Reassociate(Concat(chunks) + FramesOf(issuer)(r.state.hashed), SHUTDOWN_TEXT, rest);
  }

  lemma ShutdownCertifiesLess(payload: ByteString, certified: ByteString, rest: ByteString, issuer: Issuer, accepts: Acceptance)
    requires !Contains(payload, MARKER) && Trustworthy(issuer, accepts) && Newlines(certified) <= Newlines(payload)
    requires forall i | 0 <= i < |Lines(payload)| :: !IsAuditEvent(Lines(payload)[i])
    ensures var v := Verified(payload + FramesOf(issuer)(certified) + (SHUTDOWN_TEXT + rest), accepts);
            v.Hashed? ==> v.payload != certified
  {
    PayloadOrdinary(payload);
    ShutdownLineIsHashed(payload, issuer.json(certified), issuer.signature(certified), rest, accepts);
    var v := Verified(payload + FramesOf(issuer)(certified) + (SHUTDOWN_TEXT + rest), accepts);
    if v.Hashed? {
      NewlinesOfLines(payload);
      NewlinesSplit(CompleteLines(payload), SHUTDOWN_LINE + [LF]);
      NewlinesSplit(SHUTDOWN_LINE, [LF]);
      NewlinesOfPrefix(CompleteLines(payload) + (SHUTDOWN_LINE + [LF]), v.payload);
    }
  }

  // ---- Without a final newline -------------------------------------------------------------------

  /** One byte and no newline: the script accepts the transcript and hashes nothing. */
  lemma UnterminatedPayloadIsLost(json: ByteString, signature: ByteString, accepts: Acceptance)
    requires NewlineFree(json) && NewlineFree(signature) && accepts(AuditLine(json, signature) + [LF])
    ensures var payload: ByteString := ['d' as int];
            var v := Verified(payload + AuditFrame(json, signature) + MARKER, accepts);
            v.Hashed? && v.payload == [] && v.payload != payload
  {
    var payload: ByteString := ['d' as int];
    OneLine(payload);
    assert |MARKER| == 12;
    assert Find(payload, MARKER).None?;
    NotAnAuditEvent(payload);
    assert CompleteLines(payload[..0]) == [] && payload[..0] == [];
    ScriptReadsTranscript(payload, json, signature, MARKER, accepts);
  }
}
