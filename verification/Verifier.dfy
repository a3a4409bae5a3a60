/**
  The receipt verification script's reader: it walks the lines of a transcript, skips the injected
  audit event and feeds everything before the done marker to its own hash.
  JSON and field checks of the audit line are one opaque test.
 */
module Verifier {
  import opened Bytes
  import opened Detector

  const AUDIT_EVENT: ByteString := Ascii("event: proxy_audit")
  const DATA_PREFIX: ByteString := Ascii("data:")
  const LF: Byte := 10
  const CR: Byte := 13

  /** The injected frame around the receipt JSON and its signature. */
  function AuditFrame(json: ByteString, signature: ByteString): ByteString {
    [LF] + AUDIT_EVENT + [LF] + AuditLine(json, signature) + [LF] + [LF]
  }

  function AuditLine(json: ByteString, signature: ByteString): ByteString {
    Ascii("data: {\"receipt\": ") + json + Ascii(", \"signature\": \"") + signature + Ascii("\"}")
  }

  /** Iterating a binary file: every line up to and including its newline, then an unterminated rest. */
  function Lines(text: ByteString): seq<ByteString>
    decreases |text|
  {
    if text == [] then []
    else match Find(text, [LF])
      case None => [text]
      case Some(i) => [text[..i + 1]] + Lines(text[i + 1..])
  }

  /** `line.rstrip(b"\r\n")`. */
  function Strip(line: ByteString): (r: ByteString)
    ensures r <= line
    ensures r == [] || (r[|r| - 1] != CR && r[|r| - 1] != LF)
    ensures forall i | |r| <= i < |line| :: line[i] == CR || line[i] == LF
  {
    if line != [] && (line[|line| - 1] == CR || line[|line| - 1] == LF) then Strip(line[..|line| - 1]) else line
  }

  predicate IsAuditEvent(line: ByteString) {
    Strip(line) == AUDIT_EVENT
  }

  /** The opaque test a line passes when it parses as an audit event with a consistent receipt. */
  type Acceptance = ByteString -> bool

  datatype Reader = Reader(
    hashed: ByteString, audit: Option<ByteString>, expectingData: bool, expectingBlank: bool, pending: Option<ByteString>)

  const START := Reader([], None, false, false, None)

  datatype Step = Continue(reader: Reader) | Stop(reader: Reader) | Fail

  function Pending(r: Reader): ByteString {
    if r.pending.Some? then r.pending.value else []
  }

  function ReadLine(r: Reader, line: ByteString, accepts: Acceptance): Step {
    if r.expectingData then
      if DATA_PREFIX <= line && accepts(line)
      then Continue(r.(audit := Some(line), expectingData := false, expectingBlank := true))
      else Fail
    else if r.expectingBlank then
      if line == [LF] || line == [CR, LF] then Continue(r.(expectingBlank := false)) else Fail
    else if IsAuditEvent(line) then
      Continue(r.(pending := None, expectingData := true))
    else
      var flushed := r.(hashed := r.hashed + Pending(r), pending := None);
      match Find(line, MARKER)
      case Some(start) => Stop(flushed.(hashed := flushed.hashed + line[..start]))
      case None => Continue(flushed.(pending := Some(line)))
  }

  function ReadAll(r: Reader, lines: seq<ByteString>, accepts: Acceptance): Option<Reader>
    decreases |lines|
  {
    if lines == [] then Some(r)
    else match ReadLine(r, lines[0], accepts)
      case Fail => None
      case Stop(last) => Some(last)
      case Continue(next) => ReadAll(next, lines[1..], accepts)
  }

  datatype Verdict = Hashed(payload: ByteString, audit: ByteString) | Rejected

  function Conclude(r: Option<Reader>): Verdict {
    if r.None? || r.value.expectingData || r.value.expectingBlank || r.value.audit.None? then Rejected
    else Hashed(r.value.hashed, r.value.audit.value)
  }

  function Verified(text: ByteString, accepts: Acceptance): Verdict {
    Conclude(ReadAll(START, Lines(text), accepts))
  }

  /** The script's loop over the lines of the transcript. */
  method HashTranscript(text: ByteString, accepts: Acceptance) returns (v: Verdict)
    ensures v == Verified(text, accepts)
  {
    var hashed: ByteString, audit: Option<ByteString> := [], None;
    var expectingData, expectingBlank := false, false;
    var pendingLine: Option<ByteString> := None;
    var lines := Lines(text);
    var i := 0;
    while i < |lines|
      invariant i <= |lines|
      invariant ReadAll(START, lines, accepts)
             == ReadAll(Reader(hashed, audit, expectingData, expectingBlank, pendingLine), lines[i..], accepts)
      decreases |lines| - i
    {
      var line := lines[i];
      ghost var r := Reader(hashed, audit, expectingData, expectingBlank, pendingLine);
      assert lines[i..][0] == line && lines[i..][1..] == lines[i + 1..];
      i := i + 1;
      if expectingData {
        if !(DATA_PREFIX <= line && accepts(line)) { return Rejected; }
        audit := Some(line);
        expectingData := false;
        expectingBlank := true;
        continue;
      }
      if expectingBlank {
        if line != [LF] && line != [CR, LF] { return Rejected; }
        expectingBlank := false;
        continue;
      }
      var isAuditEvent := Strip(line) == AUDIT_EVENT;
      if pendingLine.Some? {
        if !isAuditEvent {
          hashed := hashed + pendingLine.value;
        }
        pendingLine := None;
      }
      if isAuditEvent {
        expectingData := true;
        continue;
      }
      assert hashed == r.hashed + Pending(r);
      var markerStart := Find(line, MARKER);
      if markerStart.Some? {
        hashed := hashed + line[..markerStart.value];
        v := if audit.None? then Rejected else Hashed(hashed, audit.value);
        return;
      }
      pendingLine := Some(line);
    }
    if expectingData || expectingBlank { return Rejected; }
    if audit.None? { return Rejected; }
    return Hashed(hashed, audit.value);
  }

  // ---- Lines of a concatenation --------------------------------------------------------------

  predicate NewlineFree(s: ByteString) {
    forall i | 0 <= i < |s| :: s[i] != LF
  }

  predicate Terminated(s: ByteString) {
    s == [] || s[|s| - 1] == LF
  }

  lemma FirstNewline(line: ByteString, rest: ByteString)
    requires NewlineFree(line)
    ensures Find(line + [LF] + rest, [LF]) == Some(|line|)
  {
    var text := line + [LF] + rest;
    assert OccursAt(text, [LF], |line|);
    forall j | 0 <= j < |line| ensures !OccursAt(text, [LF], j) {
      assert text[j] == line[j];
    }
  }

  lemma FirstLine(line: ByteString, rest: ByteString)
    requires NewlineFree(line)
    ensures Lines(line + [LF] + rest) == [line + [LF]] + Lines(rest)
  {
    var text := line + [LF] + rest;
    FirstNewline(line, rest);
    assert text[..|line| + 1] == line + [LF];
    assert text[|line| + 1..] == rest;
  }

  /** Up to the first newline, and what follows it. */
  lemma SplitFirstLine(text: ByteString) returns (line: ByteString, rest: ByteString)
    requires text != [] && Terminated(text)
    ensures NewlineFree(line) && text == line + [LF] + rest && Terminated(rest)
  {
    var r := Find(text, [LF]);
    assert OccursAt(text, [LF], |text| - 1);
    var i := r.value;
    line, rest := text[..i], text[i + 1..];
    assert text[i..i + 1] == [LF];
    forall j | 0 <= j < i ensures line[j] != LF {
      assert !OccursAt(text, [LF], j);
      assert text[j..j + 1] == [line[j]];
    }
  }

  lemma {:induction false} LinesSplit(a: ByteString, b: ByteString)
    requires Terminated(a)
    ensures Lines(a + b) == Lines(a) + Lines(b)
    decreases |a|
  {
    if a == [] {
      assert a + b == b;
    } else {
      var line, rest := SplitFirstLine(a);
      FirstLine(line, rest);
      FirstLine(line, rest + b);
      Reassociate(line + [LF], rest, b);
      LinesSplit(rest, b);
      ReassociateLines([line + [LF]], Lines(rest), Lines(b));
    }
  }

  lemma ReassociateLines(a: seq<ByteString>, b: seq<ByteString>, c: seq<ByteString>)
    ensures a + (b + c) == (a + b) + c
  {
  }

  lemma {:induction false} ReadSplit(r: Reader, a: seq<ByteString>, b: seq<ByteString>, accepts: Acceptance, next: Reader)
    requires ReadsThrough(r, a, accepts, next)
    ensures ReadAll(r, a + b, accepts) == ReadAll(next, b, accepts)
    decreases |a|
  {
    if a == [] {
      assert a + b == b;
    } else {
      assert (a + b)[0] == a[0] && (a + b)[1..] == a[1..] + b;
      ReadSplit(ReadLine(r, a[0], accepts).reader, a[1..], b, accepts, next);
    }
  }

  /** The lines are read to the end without stopping or failing. */
  predicate ReadsThrough(r: Reader, lines: seq<ByteString>, accepts: Acceptance, next: Reader)
    decreases |lines|
  {
    if lines == [] then r == next
    else
      var s := ReadLine(r, lines[0], accepts);
      s.Continue? && ReadsThrough(s.reader, lines[1..], accepts, next)
  }

  // ---- Payload lines -------------------------------------------------------------------------

  /** Neither an audit event nor carrying a marker. */
  predicate Ordinary(line: ByteString) {
    !IsAuditEvent(line) && Find(line, MARKER).None?
  }

  predicate AllOrdinary(lines: seq<ByteString>) {
    forall i | 0 <= i < |lines| :: Ordinary(lines[i])
  }

  predicate Idle(r: Reader) {
    !r.expectingData && !r.expectingBlank
  }

  /** Ordinary lines all reach the hash, the last one with a delay of one line. */
  lemma {:induction false} ReadOrdinary(r: Reader, lines: seq<ByteString>, accepts: Acceptance) returns (next: Reader)
    requires Idle(r) && AllOrdinary(lines)
    ensures ReadsThrough(r, lines, accepts, next) && Idle(next) && next.audit == r.audit
    ensures next.hashed + Pending(next) == r.hashed + Pending(r) + Concat(lines)
    decreases |lines|
  {
    if lines == [] {
      next := r;
    } else {
      var s := ReadLine(r, lines[0], accepts).reader;
      next := ReadOrdinary(s, lines[1..], accepts);
      Reassociate(r.hashed + Pending(r), lines[0], Concat(lines[1..]));
    }
  }

  lemma {:induction false} LinesConcat(text: ByteString)
    ensures Concat(Lines(text)) == text
    decreases |text|
  {
    if text != [] {
      match Find(text, [LF])
      case None => ConcatOne(text);
      case Some(i) =>
        LinesConcat(text[i + 1..]);
        assert Lines(text)[1..] == Lines(text[i + 1..]);
        assert text[..i + 1] + text[i + 1..] == text;
    }
  }

  /** A line is not empty and has its newline, if it has one, at its end. */
  predicate IsLine(line: ByteString) {
    line != [] && NewlineFree(line[..|line| - 1])
  }

  /** Lines are lines, and only the last can lack its newline; with `LinesConcat`, that says what they are. */
  lemma {:induction false} LinesAreLines(text: ByteString)
    ensures forall i | 0 <= i < |Lines(text)| :: IsLine(Lines(text)[i])
    ensures forall i | 0 <= i < |Lines(text)| - 1 :: Terminated(Lines(text)[i])
    decreases |text|
  {
    if text != [] {
      NoNewlineBefore(text);
      match Find(text, [LF])
      case None =>
      case Some(i) =>
        LinesAreLines(text[i + 1..]);
        assert text[i..i + 1][0] == text[i] == LF;
        assert text[..i + 1][..i] == text[..i];
    }
  }

  lemma NoNewlineBefore(text: ByteString)
    ensures match Find(text, [LF])
            case None => NewlineFree(text)
            case Some(i) => NewlineFree(text[..i])
  {
    forall i | 0 <= i < |text| ensures OccursAt(text, [LF], i) <==> text[i] == LF {
      assert text[i..i + 1] == [text[i]];
    }
  }
}
