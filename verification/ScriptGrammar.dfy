/**
  What the verification script accepts, as a grammar of lines rather than as a machine: plain lines and
  complete audit frames up to the first line with the done marker, or up to the end of the file.
 */
module ScriptGrammar {
  import opened Bytes
  import opened Detector
  import opened Verifier

  /** A plain line, or the three lines of an audit frame. */
  datatype Item = Plain(line: ByteString) | Frame(event: ByteString, data: ByteString, blank: ByteString)

  /** Items, and then the line with the done marker and whatever follows it, or the end of the file. */
  datatype Outline = Outline(items: seq<Item>, stop: Option<ByteString>, rest: seq<ByteString>)

  predicate IsBlankLine(line: ByteString) {
    line == [LF] || line == [CR, LF]
  }

  predicate ItemOk(item: Item, accepts: Acceptance) {
    match item
    case Plain(line) => !IsAuditEvent(line) && !Contains(line, MARKER)
    case Frame(event, data, blank) =>
      IsAuditEvent(event) && DATA_PREFIX <= data && accepts(data) && IsBlankLine(blank)
  }

  function LinesOf(item: Item): seq<ByteString> {
    match item
    case Plain(line) => [line]
    case Frame(event, data, blank) => [event, data, blank]
  }

  function AllLines(items: seq<Item>): seq<ByteString> {
    if items == [] then [] else LinesOf(items[0]) + AllLines(items[1..])
  }

  predicate ItemsOk(items: seq<Item>, accepts: Acceptance) {
    forall i | 0 <= i < |items| :: ItemOk(items[i], accepts)
  }

  /** The lines of a file read as an outline. */
  predicate Describes(lines: seq<ByteString>, o: Outline, accepts: Acceptance) {
    && ItemsOk(o.items, accepts)
    && match o.stop
       case None => o.rest == [] && lines == AllLines(o.items)
       case Some(line) =>
         !IsAuditEvent(line) && Contains(line, MARKER) && lines == AllLines(o.items) + ([line] + o.rest)
  }

  /** The plain line at `i` is hashed: an audit frame does not follow, nor the end of the file. */
  predicate IsHashed(o: Outline, i: nat)
    requires i < |o.items|
  {
    o.items[i].Plain? && (if i + 1 < |o.items| then o.items[i + 1].Plain? else o.stop.Some?)
  }

  /** The hashed plain lines from item `i` on, in order, and the part of the last line before the marker. */
  function PayloadFrom(o: Outline, i: nat): ByteString
    requires i <= |o.items|
    decreases |o.items| - i
  {
    if i == |o.items| then
      match o.stop
      case None => []
      case Some(line) => UpToMarker(line)
    else (if IsHashed(o, i) then o.items[i].line else []) + PayloadFrom(o, i + 1)
  }

  function UpToMarker(line: ByteString): ByteString {
    match Find(line, MARKER)
    case None => line
    case Some(at) => line[..at]
  }

  /** The data line of the last audit frame from item `i` on, or `before` if there is none. */
  function LastDataFrom(items: seq<Item>, i: nat, before: Option<ByteString>): Option<ByteString>
    requires i <= |items|
    decreases |items| - i
  {
    if i == |items| then before
    else LastDataFrom(items, i + 1, if items[i].Frame? then Some(items[i].data) else before)
  }

  // ---- The machine reads the grammar -----------------------------------------------------------------

  /** The reader between items: nothing expected, `pending` the plain line just read. */
  function Between(hashed: ByteString, audit: Option<ByteString>, pending: Option<ByteString>): Reader {
    Reader(hashed, audit, false, false, pending)
  }

  lemma FindIffContains(line: ByteString)
    ensures Find(line, MARKER).Some? <==> Contains(line, MARKER)
  {
    if Find(line, MARKER).Some? {
      assert OccursAt(line, MARKER, Find(line, MARKER).value);
    }
  }

  lemma ReadPlain(r: Reader, line: ByteString, lines: seq<ByteString>, accepts: Acceptance)
    requires Idle(r) && !IsAuditEvent(line) && !Contains(line, MARKER)
    ensures ReadAll(r, [line] + lines, accepts)
         == ReadAll(Between(r.hashed + Pending(r), r.audit, Some(line)), lines, accepts)
  {
    FindIffContains(line);
    assert ([line] + lines)[0] == line && ([line] + lines)[1..] == lines;
  }

  lemma ReadFrameItem(r: Reader, item: Item, lines: seq<ByteString>, accepts: Acceptance)
    requires Idle(r) && item.Frame? && ItemOk(item, accepts)
    ensures ReadAll(r, LinesOf(item) + lines, accepts) == ReadAll(Between(r.hashed, Some(item.data), None), lines, accepts)
  {
    var all := [item.event, item.data, item.blank] + lines;
    var r1 := r.(pending := None, expectingData := true);
    var r2 := r1.(audit := Some(item.data), expectingData := false, expectingBlank := true);
    assert all[0] == item.event && all[1..] == [item.data, item.blank] + lines;
    assert all[1..][0] == item.data && all[1..][1..] == [item.blank] + lines;
    assert all[1..][1..][0] == item.blank && all[1..][1..][1..] == lines;
    assert ReadLine(r, item.event, accepts) == Continue(r1);
    assert ReadLine(r1, item.data, accepts) == Continue(r2);
    assert ReadLine(r2, item.blank, accepts) == Continue(r2.(expectingBlank := false));
    assert ReadAll(r, all, accepts) == ReadAll(r1, all[1..], accepts) == ReadAll(r2, all[1..][1..], accepts);
  }

  lemma ReadStop(r: Reader, line: ByteString, lines: seq<ByteString>, accepts: Acceptance)
    requires Idle(r) && !IsAuditEvent(line) && Contains(line, MARKER)
    ensures ReadAll(r, [line] + lines, accepts)
         == Some(Between(r.hashed + Pending(r) + UpToMarker(line), r.audit, None))
  {
    FindIffContains(line);
    assert ([line] + lines)[0] == line;
  }

  /** The reader in front of item `i`: the plain line before it, if there is one, is pending. */
  predicate AtItem(o: Outline, i: nat, r: Reader)
    requires i <= |o.items|
  {
    && Idle(r)
    && r.pending == if i > 0 && o.items[i - 1].Plain? then Some(o.items[i - 1].line) else None
  }

  /** What the pending line still adds to the hash. */
  function Due(o: Outline, i: nat, r: Reader): ByteString
    requires i <= |o.items|
  {
    if i > 0 && IsHashed(o, i - 1) then Pending(r) else []
  }

  lemma AllLinesFrom(items: seq<Item>, i: nat, tail: seq<ByteString>)
    requires i < |items|
    ensures AllLines(items[i..]) + tail == LinesOf(items[i]) + (AllLines(items[i + 1..]) + tail)
  {
    assert items[i..][0] == items[i] && items[i..][1..] == items[i + 1..];
  }

  /** Reading the items from `i` on, whatever comes after them. */
  lemma {:induction false} ReadItems(o: Outline, i: nat, r: Reader, tail: seq<ByteString>, accepts: Acceptance) returns (last: Reader)
    requires i <= |o.items| && ItemsOk(o.items, accepts) && AtItem(o, i, r)
    ensures ReadAll(r, AllLines(o.items[i..]) + tail, accepts) == ReadAll(last, tail, accepts) && AtItem(o, |o.items|, last)
    ensures last.audit == LastDataFrom(o.items, i, r.audit)
    ensures r.hashed + Due(o, i, r) + PayloadFrom(o, i) == last.hashed + Due(o, |o.items|, last) + PayloadFrom(o, |o.items|)
    decreases |o.items| - i
  {
    if i == |o.items| {
      last := r;
      assert AllLines(o.items[i..]) + tail == tail;
    } else {
      AllLinesFrom(o.items, i, tail);
      var item := o.items[i];
      var lines := AllLines(o.items[i + 1..]) + tail;
      var next := if item.Plain? then Between(r.hashed + Pending(r), r.audit, Some(item.line))
                  else Between(r.hashed, Some(item.data), None);
      if item.Plain? {
        ReadPlain(r, item.line, lines, accepts);
      } else {
        ReadFrameItem(r, item, lines, accepts);
      }
      last := ReadItems(o, i + 1, next, tail, accepts);
      DueMoves(o, i, r, next);
    }
  }

  lemma DueMoves(o: Outline, i: nat, r: Reader, next: Reader)
    requires i < |o.items| && AtItem(o, i, r)
    requires var item := o.items[i];
             next == if item.Plain? then Between(r.hashed + Pending(r), r.audit, Some(item.line))
                     else Between(r.hashed, Some(item.data), None)
    ensures r.hashed + Due(o, i, r) + PayloadFrom(o, i) == next.hashed + Due(o, i + 1, next) + PayloadFrom(o, i + 1)
  {
    var own := if IsHashed(o, i) then o.items[i].line else [];
    assert Due(o, i + 1, next) == own;
    assert r.hashed + Due(o, i, r) == next.hashed by {
      assert r.hashed + [] == r.hashed;
    }
    Reassociate(next.hashed, own, PayloadFrom(o, i + 1));
  }

  // ---- Exactly the grammar is accepted -----------------------------------------------------------

  lemma StartAtItem(o: Outline)
    ensures AtItem(o, 0, START) && START.hashed + Due(o, 0, START) == []
  {
  }

  /** Every file of the grammar is read as the grammar says; without an audit frame it is rejected. */
  lemma GrammarIsRead(text: ByteString, o: Outline, accepts: Acceptance)
    requires Describes(Lines(text), o, accepts)
    ensures var data := LastDataFrom(o.items, 0, None);
            Verified(text, accepts) == if data.None? then Rejected else Hashed(PayloadFrom(o, 0), data.value)
  {
    var tail := if o.stop.Some? then [o.stop.value] + o.rest else [];
    assert AllLines(o.items[0..]) + tail == Lines(text) by {
      assert o.items[0..] == o.items && AllLines(o.items) + [] == AllLines(o.items);
    }
    StartAtItem(o);
    var last := ReadItems(o, 0, START, tail, accepts);
    assert [] + PayloadFrom(o, 0) == PayloadFrom(o, 0);
    if o.stop.Some? {
      ReadStop(last, o.stop.value, o.rest, accepts);
    }
    DueAtEnd(o, last);
  }

  lemma DueAtEnd(o: Outline, last: Reader)
    requires AtItem(o, |o.items|, last)
    ensures last.hashed + Due(o, |o.items|, last) + PayloadFrom(o, |o.items|)
         == match o.stop
            case None => last.hashed
            case Some(line) => last.hashed + Pending(last) + UpToMarker(line)
  {
    assert last.hashed + [] + [] == last.hashed;
  }

  lemma Prepend(item: Item, o: Outline, lines: seq<ByteString>, accepts: Acceptance) returns (whole: Outline)
    requires ItemOk(item, accepts) && Describes(lines, o, accepts)
    ensures Describes(LinesOf(item) + lines, whole, accepts)
  {
    whole := o.(items := [item] + o.items);
    assert whole.items[1..] == o.items;
    forall i | 0 <= i < |whole.items| ensures ItemOk(whole.items[i], accepts) {
      assert whole.items[i] == if i == 0 then item else o.items[i - 1];
    }
    if o.stop.Some? {
      ReassociateLines(LinesOf(item), AllLines(o.items), [o.stop.value] + o.rest);
    }
  }

  /** A reader that gets to the end with nothing expected has read the grammar. */
  lemma {:induction false} OnlyGrammarIsRead(r: Reader, lines: seq<ByteString>, accepts: Acceptance) returns (o: Outline)
    requires Idle(r) && ReadAll(r, lines, accepts).Some? && Idle(ReadAll(r, lines, accepts).value)
    ensures Describes(lines, o, accepts)
    decreases |lines|
  {
    if lines == [] {
      o := Outline([], None, []);
    } else if IsAuditEvent(lines[0]) {
      var r1 := r.(pending := None, expectingData := true);
      assert ReadLine(r, lines[0], accepts) == Continue(r1);
      var item := FrameRead(r1, lines, accepts);
      var rest := OnlyGrammarIsRead(Between(r1.hashed, Some(item.data), None), lines[3..], accepts);
      o := Prepend(item, rest, lines[3..], accepts);
      assert lines == LinesOf(item) + lines[3..];
    } else if Contains(lines[0], MARKER) {
      o := Outline([], Some(lines[0]), lines[1..]);
      assert lines == [lines[0]] + lines[1..];
    } else {
      assert lines == [lines[0]] + lines[1..];
      ReadPlain(r, lines[0], lines[1..], accepts);
      var rest := OnlyGrammarIsRead(Between(r.hashed + Pending(r), r.audit, Some(lines[0])), lines[1..], accepts);
      o := Prepend(Plain(lines[0]), rest, lines[1..], accepts);
    }
  }

  /** Behind an audit event that is accepted come its data line and a blank line. */
  lemma FrameRead(r1: Reader, lines: seq<ByteString>, accepts: Acceptance) returns (item: Item)
    requires lines != [] && IsAuditEvent(lines[0]) && r1.expectingData && !r1.expectingBlank && r1.pending.None?
    requires ReadAll(r1, lines[1..], accepts).Some? && Idle(ReadAll(r1, lines[1..], accepts).value)
    ensures |lines| >= 3 && item == Frame(lines[0], lines[1], lines[2]) && ItemOk(item, accepts)
    ensures ReadAll(r1, lines[1..], accepts) == ReadAll(Between(r1.hashed, Some(item.data), None), lines[3..], accepts)
  {
    var rest := lines[1..];
    assert rest != [];
    var r2 := r1.(audit := Some(rest[0]), expectingData := false, expectingBlank := true);
    assert ReadLine(r1, rest[0], accepts) == Continue(r2);
    assert rest[1..] != [];
    assert ReadLine(r2, rest[1..][0], accepts) == Continue(r2.(expectingBlank := false));
    assert rest[1..][1..] == lines[3..];
    item := Frame(lines[0], lines[1], lines[2]);
  }

  /** Whatever the script accepts is a file of the grammar, with an audit frame, read as the grammar says. */
  lemma OnlyGrammarIsAccepted(text: ByteString, accepts: Acceptance) returns (o: Outline)
    requires Verified(text, accepts).Hashed?
    ensures Describes(Lines(text), o, accepts) && LastDataFrom(o.items, 0, None).Some?
    ensures Verified(text, accepts) == Hashed(PayloadFrom(o, 0), LastDataFrom(o.items, 0, None).value)
  {
    o := OnlyGrammarIsRead(START, Lines(text), accepts);
    GrammarIsRead(text, o, accepts);
  }

  /** What has to follow an audit event. */
  predicate FrameFollows(rest: seq<ByteString>, accepts: Acceptance) {
    |rest| >= 2 && DATA_PREFIX <= rest[0] && accepts(rest[0]) && IsBlankLine(rest[1])
  }

  /** An audit event without its data line and its blank line, or cut off by the end of the file, is rejected. */
  lemma BrokenFrameIsRejected(text: ByteString, items: seq<Item>, event: ByteString, rest: seq<ByteString>, accepts: Acceptance)
    requires ItemsOk(items, accepts) && IsAuditEvent(event) && !FrameFollows(rest, accepts)
    requires Lines(text) == AllLines(items) + ([event] + rest)
    ensures Verified(text, accepts) == Rejected
  {
    var o := Outline(items, None, []);
    assert items[0..] == items;
    StartAtItem(o);
    var last := ReadItems(o, 0, START, [event] + rest, accepts);
    BrokenFrame(last, event, rest, accepts);
  }

  lemma BrokenFrame(r: Reader, event: ByteString, rest: seq<ByteString>, accepts: Acceptance)
    requires Idle(r) && IsAuditEvent(event) && !FrameFollows(rest, accepts)
    ensures Conclude(ReadAll(r, [event] + rest, accepts)) == Rejected
  {
    var all := [event] + rest;
    assert all[0] == event && all[1..] == rest;
    var r1 := r.(pending := None, expectingData := true);
    assert ReadLine(r, event, accepts) == Continue(r1);
    if rest != [] && DATA_PREFIX <= rest[0] && accepts(rest[0]) {
      var r2 := r1.(audit := Some(rest[0]), expectingData := false, expectingBlank := true);
      assert ReadLine(r1, rest[0], accepts) == Continue(r2);
      assert ReadAll(r1, rest, accepts) == ReadAll(r2, rest[1..], accepts);
      if rest[1..] != [] {
        assert rest[1..][0] == rest[1];
        assert ReadLine(r2, rest[1], accepts) == Fail;
        assert ReadAll(r2, rest[1..], accepts) == None;
      }
    }
  }
}
