/**
  Whole runs of the detector: when it completes, where the receipt lands, what it certifies.
 */
module DetectorRuns {
  import opened Bytes
  import opened Detector

  datatype Op = InspectOp(bytes: ByteString) | FinishOp | ShutdownOp

  function Applied(s: State, op: Op, sign: Signer): Reply
    requires Valid(s)
  {
    match op
    case InspectOp(bytes) => Inspected(s, bytes, sign)
    case FinishOp => Flushed(s)
    case ShutdownOp => ShutDown(s, sign)
  }

  lemma StaysValid(s: State, op: Op, sign: Signer)
    requires Valid(s)
    ensures Valid(Applied(s, op, sign).state)
  {
  }

  function Play(s: State, ops: seq<Op>, sign: Signer): (r: Reply)
    requires Valid(s)
    ensures Valid(r.state)
    decreases |ops|
  {
    if ops == [] then Reply(s, [])
    else
      StaysValid(s, ops[0], sign);
      var first := Applied(s, ops[0], sign);
      var rest := Play(first.state, ops[1..], sign);
      Reply(rest.state, first.events + rest.events)
  }

  lemma PlayStep(s: State, ops: seq<Op>, sign: Signer)
    requires Valid(s) && ops != []
    ensures var first := Applied(s, ops[0], sign);
            && Valid(first.state)
            && Play(s, ops, sign) == Reply(Play(first.state, ops[1..], sign).state,
                                           first.events + Play(first.state, ops[1..], sign).events)
  {
    StaysValid(s, ops[0], sign);
  }

  lemma ReassociateEvents(a: seq<Event>, b: seq<Event>, c: seq<Event>)
    ensures a + (b + c) == (a + b) + c
  {
  }

  /** One more operation at the end of a run. */
  lemma {:induction false} PlaySnoc(s: State, ops: seq<Op>, op: Op, sign: Signer)
    requires Valid(s)
    ensures var first := Play(s, ops, sign);
            Play(s, ops + [op], sign)
            == Reply(Applied(first.state, op, sign).state, first.events + Applied(first.state, op, sign).events)
    decreases |ops|
  {
    PlayStep(s, ops + [op], sign);
    if ops == [] {
      assert ops + [op] == [op] && [op][1..] == [];
    } else {
      assert (ops + [op])[1..] == ops[1..] + [op];
      PlayStep(s, ops, sign);
      var first := Applied(s, ops[0], sign);
      PlaySnoc(first.state, ops[1..], op, sign);
      var mid := Play(first.state, ops[1..], sign);
      ReassociateEvents(first.events, mid.events, Applied(mid.state, op, sign).events);
    }
  }

  function Inspections(chunks: seq<ByteString>): seq<Op> {
    seq(|chunks|, i requires 0 <= i < |chunks| => InspectOp(chunks[i]))
  }

  /** Chunk after chunk, nothing else. */
  function Watch(s: State, chunks: seq<ByteString>, sign: Signer): Reply
    requires Valid(s)
  {
    Play(s, Inspections(chunks), sign)
  }

  lemma WatchThenShutdown(chunks: seq<ByteString>, sign: Signer)
    ensures var w := Watch(INITIAL, chunks, sign);
            var last := ShutDown(w.state, sign);
            Play(INITIAL, Inspections(chunks) + [ShutdownOp], sign) == Reply(last.state, w.events + last.events)
  {
    PlaySnoc(INITIAL, Inspections(chunks), ShutdownOp, sign);
  }

  lemma WatchStep(s: State, chunks: seq<ByteString>, sign: Signer)
    requires Valid(s) && chunks != []
    ensures var first := Inspected(s, chunks[0], sign);
            && Valid(first.state)
            && Watch(s, chunks, sign).state == Watch(first.state, chunks[1..], sign).state
            && Watch(s, chunks, sign).events == first.events + Watch(first.state, chunks[1..], sign).events
  {
    StaysValid(s, InspectOp(chunks[0]), sign);
    assert Inspections(chunks)[1..] == Inspections(chunks[1..]);
  }

  // ---- Completeness --------------------------------------------------------------------------

  function Last(s: ByteString, n: nat): ByteString {
    s[Max(0, |s| - n)..]
  }

  /** What the state must say after the bytes `seen`. */
  ghost predicate Tracks(s: State, seen: ByteString) {
    if Contains(seen, MARKER) then s.completed && s.trailing == []
    else !s.completed && s.trailing == Last(seen, KEEP)
  }

  lemma ProbeIsSlice(seen: ByteString, bytes: ByteString)
    ensures var t := Last(seen, KEEP);
            var p := Probe(t, bytes);
            |seen| - |t| + |p| <= |seen + bytes| && p == (seen + bytes)[|seen| - |t|..|seen| - |t| + |p|]
  {
    var t := Last(seen, KEEP);
    var base, p, all := |seen| - |t|, Probe(t, bytes), seen + bytes;
    forall i | 0 <= i < |p| ensures p[i] == all[base..base + |p|][i] {
    }
  }

  /** A marker that ends in the new bytes lies inside them or begins in the last eleven old ones. */
  lemma NewOccurrence(seen: ByteString, bytes: ByteString, at: nat)
    requires OccursAt(seen + bytes, MARKER, at) && !Contains(seen, MARKER)
    ensures at >= |seen| ==> OccursAt(bytes, MARKER, at - |seen|)
    ensures at < |seen| ==> at >= |seen| - |Last(seen, KEEP)|
                            && OccursAt(Probe(Last(seen, KEEP), bytes), MARKER, at - (|seen| - |Last(seen, KEEP)|))
  {
    var all, n := seen + bytes, |MARKER|;
    if at >= |seen| {
      assert bytes[at - |seen|..at - |seen| + n] == all[at..at + n];
    } else {
      if at + n <= |seen| {
        assert seen[at..at + n] == all[at..at + n];
        assert OccursAt(seen, MARKER, at);
      }
      var t := Last(seen, KEEP);
      var base := |seen| - |t|;
      var p := Probe(t, bytes);
      ProbeIsSlice(seen, bytes);
      SliceOfSlice(all, base, base + |p|, at - base, at - base + n);
    }
  }

  lemma InsideIsOccurrence(seen: ByteString, bytes: ByteString, at: nat)
    requires OccursAt(bytes, MARKER, at)
    ensures OccursAt(seen + bytes, MARKER, |seen| + at) && Contains(seen + bytes, MARKER)
  {
    assert (seen + bytes)[|seen| + at..|seen| + at + |MARKER|] == bytes[at..at + |MARKER|];
    assert OccursAt(seen + bytes, MARKER, |seen| + at);
  }

  lemma ProbeIsOccurrence(seen: ByteString, bytes: ByteString, at: nat)
    requires OccursAt(Probe(Last(seen, KEEP), bytes), MARKER, at)
    ensures var base := |seen| - |Last(seen, KEEP)|;
            OccursAt(seen + bytes, MARKER, base + at) && Contains(seen + bytes, MARKER)
  {
    var t := Last(seen, KEEP);
    var base, p := |seen| - |t|, Probe(t, bytes);
    ProbeIsSlice(seen, bytes);
    SliceOfSlice(seen + bytes, base, base + |p|, at, at + |MARKER|);
    assert OccursAt(seen + bytes, MARKER, base + at);
  }

  lemma SeenGrows(seen: ByteString, bytes: ByteString)
    requires Contains(seen, MARKER)
    ensures Contains(seen + bytes, MARKER)
  {
    var at :| 0 <= at <= |seen| && OccursAt(seen, MARKER, at);
    assert (seen + bytes)[at..at + |MARKER|] == seen[at..at + |MARKER|];
    assert OccursAt(seen + bytes, MARKER, at);
  }

  /** Neither inside the chunk nor across the carry: the marker has not arrived. */
  lemma NotYet(seen: ByteString, bytes: ByteString)
    requires !Contains(seen, MARKER)
    requires Find(bytes, MARKER).None? && Straddling(Last(seen, KEEP), bytes).None?
    ensures !Contains(seen + bytes, MARKER)
  {
    if Contains(seen + bytes, MARKER) {
      var at :| 0 <= at <= |seen + bytes| && OccursAt(seen + bytes, MARKER, at);
      NewOccurrence(seen, bytes, at);
    }
  }

  lemma TracksStep(s: State, seen: ByteString, bytes: ByteString, sign: Signer)
    requires Valid(s) && Tracks(s, seen)
    ensures Tracks(Inspected(s, bytes, sign).state, seen + bytes)
  {
    if Contains(seen, MARKER) {
      SeenGrows(seen, bytes);
    } else if Find(bytes, MARKER).Some? {
      InsideIsOccurrence(seen, bytes, Find(bytes, MARKER).value);
    } else if Straddling(s.trailing, bytes).Some? {
      ProbeIsOccurrence(seen, bytes, Straddling(s.trailing, bytes).value);
    } else {
      NotYet(seen, bytes);
      assert Inspected(s, bytes, sign).state.trailing == Last(seen + bytes, KEEP);
    }
  }

  /** After any chunks: completed iff the marker has arrived; until then the carry is the last eleven bytes. */
  lemma {:induction false} CompletesExactlyOnMarker(s: State, seen: ByteString, chunks: seq<ByteString>, sign: Signer)
    requires Valid(s) && Tracks(s, seen)
    ensures Tracks(Watch(s, chunks, sign).state, seen + Concat(chunks))
    decreases |chunks|
  {
    if chunks == [] {
      assert seen + Concat(chunks) == seen;
    } else {
      WatchStep(s, chunks, sign);
      TracksStep(s, seen, chunks[0], sign);
      CompletesExactlyOnMarker(Inspected(s, chunks[0], sign).state, seen + chunks[0], chunks[1..], sign);
      assert seen + Concat(chunks) == seen + chunks[0] + Concat(chunks[1..]);
    }
  }

  lemma DetectorCompleteness(chunks: seq<ByteString>, sign: Signer)
    ensures var s := Watch(INITIAL, chunks, sign).state;
            && (s.completed <==> Contains(Concat(chunks), MARKER))
            && (!s.completed ==> s.trailing == Last(Concat(chunks), KEEP))
  {
    assert [] + Concat(chunks) == Concat(chunks);
    CompletesExactlyOnMarker(INITIAL, [], chunks, sign);
  }

  // ---- Where the receipt lands ---------------------------------------------------------------

  predicate AllData(events: seq<Event>) {
    forall i | 0 <= i < |events| :: events[i].Data?
  }

  /** All bytes of the events, in order. */
  function Wire(events: seq<Event>): ByteString {
    if events == [] then [] else events[0].bytes + Wire(events[1..])
  }

  lemma {:induction false} WireSplits(a: seq<Event>, b: seq<Event>)
    ensures Wire(a + b) == Wire(a) + Wire(b)
  {
    if a == [] {
      assert a + b == b;
    } else {
      assert (a + b)[1..] == a[1..] + b;
      WireSplits(a[1..], b);
    }
  }

  lemma WireOfData(bytes: ByteString)
    ensures Wire(DataUnlessEmpty(bytes)) == bytes && AllData(DataUnlessEmpty(bytes))
  {
    if bytes != [] {
      assert [Data(bytes)][1..] == [];
    }
  }

  /**
    What a sequence of events amounts to: plain data, or data, one receipt immediately followed by
    the only done marker, and data again. Anything else is broken.
   */
  datatype Layout =
    | Plain(data: ByteString)
    | Receipted(before: ByteString, audit: ByteString, done: ByteString, after: ByteString)
    | Broken

  function LayoutOf(events: seq<Event>): Layout {
    if events == [] then Plain([])
    else match events[0]
      case Data(bytes) => Preceded(bytes, LayoutOf(events[1..]))
      case AuditReceipt(audit) =>
        if |events| >= 2 && events[1].DoneMarker? && AllData(events[2..])
        then Receipted([], audit, events[1].bytes, Wire(events[2..]))
        else Broken
      case DoneMarker(_) => Broken
  }

  function Preceded(head: ByteString, l: Layout): Layout {
    match l
    case Plain(data) => Plain(head + data)
    case Receipted(before, audit, done, after) => Receipted(head + before, audit, done, after)
    case Broken => Broken
  }

  function Followed(l: Layout, tail: ByteString): Layout {
    match l
    case Plain(data) => Plain(data + tail)
    case Receipted(before, audit, done, after) => Receipted(before, audit, done, after + tail)
    case Broken => Broken
  }

  lemma PrecededTwice(a: ByteString, b: ByteString, l: Layout)
    ensures Preceded(a, Preceded(b, l)) == Preceded(a + b, l)
    ensures Preceded([], l) == l
  {
    match l
    case Plain(data) => assert a + (b + data) == a + b + data; assert [] + data == data;
    case Receipted(before, _, _, _) => assert a + (b + before) == a + b + before; assert [] + before == before;
    case Broken =>
  }

  lemma {:induction false} DataBefore(data: seq<Event>, events: seq<Event>)
    requires AllData(data)
    ensures LayoutOf(data + events) == Preceded(Wire(data), LayoutOf(events))
  {
    if data == [] {
      assert data + events == events;
      PrecededTwice([], [], LayoutOf(events));
    } else {
      assert (data + events)[1..] == data[1..] + events;
      DataBefore(data[1..], events);
      PrecededTwice(data[0].bytes, Wire(data[1..]), LayoutOf(events));
    }
  }

  lemma DataOnly(data: seq<Event>)
    requires AllData(data)
    ensures LayoutOf(data) == Plain(Wire(data))
  {
    DataBefore(data, []);
    assert data + [] == data && Wire(data) + [] == Wire(data);
  }

  lemma FollowedInner(head: ByteString, l: Layout, tail: ByteString)
    ensures Followed(Preceded(head, l), tail) == Preceded(head, Followed(l, tail))
  {
    if l.Plain? {
      assert head + l.data + tail == head + (l.data + tail);
    }
  }

  lemma {:induction false} DataAfter(events: seq<Event>, data: seq<Event>)
    requires AllData(data) && !LayoutOf(events).Broken?
    ensures LayoutOf(events + data) == Followed(LayoutOf(events), Wire(data))
  {
    if events == [] {
      assert events + data == data;
      DataOnly(data);
      assert [] + Wire(data) == Wire(data);
    } else if events[0].Data? {
      assert (events + data)[1..] == events[1..] + data;
      DataAfter(events[1..], data);
      FollowedInner(events[0].bytes, LayoutOf(events[1..]), Wire(data));
    } else {
      assert (events + data)[2..] == events[2..] + data;
      WireSplits(events[2..], data);
    }
  }

  lemma LayoutOfReceipt(hashed: ByteString, done: ByteString, sign: Signer)
    ensures LayoutOf(ReceiptEvents(hashed, done, sign)) == Receipted([], sign(hashed), done, [])
  {
  }

  /** `before`, `done` and `after` spell `text`, split where the needle stands at `q`. */
  ghost predicate Spell(needle: ByteString, l: Layout, text: ByteString, q: nat)
    requires l.Receipted?
  {
    && OccursAt(text, needle, q)
    && l.before == text[..q]
    && needle <= l.done
    && l.done + l.after == text[q..]
  }

  lemma SpellPreceded(needle: ByteString, l: Layout, text: ByteString, q: nat, head: ByteString)
    requires l.Receipted? && Spell(needle, l, text, q)
    ensures Spell(needle, Preceded(head, l), head + text, |head| + q)
  {
    var all, p := head + text, |head| + q;
    assert all[p..p + |needle|] == text[q..q + |needle|];
    assert all[..p] == head + text[..q];
    assert all[p..] == text[q..];
  }

  lemma SpellFollowed(needle: ByteString, l: Layout, text: ByteString, q: nat, tail: ByteString)
    requires l.Receipted? && Spell(needle, l, text, q)
    ensures Spell(needle, Followed(l, tail), text + tail, q)
  {
    var all := text + tail;
    assert all[q..q + |needle|] == text[q..q + |needle|];
    assert all[..q] == text[..q];
    assert all[q..] == text[q..] + tail;
  }

  /**
    The bytes of `text` went out as data or wait in the carry; or a receipt for the hashed bytes was
    put into them in front of the marker at `q`.
   */
  ghost predicate Passed(r: Reply, text: ByteString, q: nat, sign: Signer) {
    var l := LayoutOf(r.events);
    if r.state.completed then l.Receipted? && l.audit == sign(r.state.hashed) && Spell(MARKER, l, text, q)
    else l.Plain? && l.data + r.state.trailing == text
  }

  /** Where in carry plus chunk the receipt goes. */
  function Injection(s: State, bytes: ByteString): (q: nat)
    requires Valid(s) && !s.completed && (Find(bytes, MARKER).Some? || Straddling(s.trailing, bytes).Some?)
  {
    match Find(bytes, MARKER)
    case Some(start) => |s.trailing| + start
    case None => Straddling(s.trailing, bytes).value
  }

  lemma InsideInjects(s: State, bytes: ByteString, start: nat, sign: Signer)
    requires Valid(s) && OccursAt(bytes, MARKER, start)
    ensures Passed(FoundInside(s, bytes, start, sign), s.trailing + bytes, |s.trailing| + start, sign)
  {
    var r := FoundInside(s, bytes, start, sign);
    var a, b := DataUnlessEmpty(s.trailing), DataUnlessEmpty(bytes[..start]);
    var receipt := ReceiptEvents(r.state.hashed, bytes[start..], sign);
    WireOfData(s.trailing);
    WireOfData(bytes[..start]);
    LayoutOfReceipt(r.state.hashed, bytes[start..], sign);
    DataBefore(b, receipt);
    DataBefore(a, b + receipt);
    assert r.events == a + (b + receipt);
    var l := Receipted(s.trailing + bytes[..start], sign(r.state.hashed), bytes[start..], []);
    assert bytes[..start] + [] == bytes[..start];
    assert LayoutOf(r.events) == l;
    InsideSpells(MARKER, s.trailing, bytes, start, l);
  }

  lemma InsideSpells(needle: ByteString, head: ByteString, bytes: ByteString, start: nat, l: Layout)
    requires OccursAt(bytes, needle, start) && l.Receipted?
    requires l.before == head + bytes[..start] && l.done == bytes[start..] && l.after == []
    ensures Spell(needle, l, head + bytes, |head| + start)
  {
    var text, q := head + bytes, |head| + start;
    assert text[q..q + |needle|] == bytes[start..start + |needle|];
    assert text[..q] == head + bytes[..start];
    assert text[q..] == bytes[start..];
  }

  lemma StraddlingSpells(needle: ByteString, carry: ByteString, bytes: ByteString, probe: ByteString, start: nat, l: Layout)
    requires start < |carry| <= start + |needle| <= |carry| + |bytes| && l.Receipted?
    requires probe <= carry + bytes && OccursAt(probe, needle, start)
    requires l.before == carry[..start] && l.done == probe[start..start + |needle|]
    requires l.after == bytes[|needle| - (|carry| - start)..]
    ensures Spell(needle, l, carry + bytes, start)
  {
    var text := carry + bytes;
    assert probe[start..start + |needle|] == text[start..start + |needle|];
    assert text[..start] == carry[..start];
    assert text[start..] == text[start..start + |needle|] + text[start + |needle|..];
    assert text[start + |needle|..] == bytes[|needle| - (|carry| - start)..];
  }

  lemma StraddlingInjects(s: State, bytes: ByteString, start: nat, sign: Signer)
    requires Valid(s) && start < |s.trailing| <= start + |MARKER| <= |s.trailing| + |bytes|
    requires OccursAt(Probe(s.trailing, bytes), MARKER, start)
    ensures Passed(FoundStraddling(s, bytes, start, sign), s.trailing + bytes, start, sign)
  {
    var r := FoundStraddling(s, bytes, start, sign);
    var probe := Probe(s.trailing, bytes);
    var done := probe[start..start + |MARKER|];
    var rest := bytes[|MARKER| - (|s.trailing| - start)..];
    var a, receipt, c := DataUnlessEmpty(s.trailing[..start]), ReceiptEvents(r.state.hashed, done, sign), DataUnlessEmpty(rest);
    WireOfData(s.trailing[..start]);
    WireOfData(rest);
    LayoutOfReceipt(r.state.hashed, done, sign);
    DataAfter(receipt, c);
    DataBefore(a, receipt + c);
    assert r.events == a + (receipt + c);
    var l := LayoutOf(r.events);
    assert l.before == s.trailing[..start] + [] == s.trailing[..start];
    assert l.after == [] + rest == rest;
    StraddlingSpells(MARKER, s.trailing, bytes, probe, start, l);
  }

  lemma LongPasses(s: State, bytes: ByteString, sign: Signer)
    requires |bytes| >= KEEP
    ensures Passed(LongChunk(s, bytes), s.trailing + bytes, 0, sign)
  {
    var data := bytes[..|bytes| - KEEP];
    var a, b := DataUnlessEmpty(s.trailing), DataUnlessEmpty(data);
    WireOfData(s.trailing);
    WireOfData(data);
    WireSplits(a, b);
    DataOnly(a + b);
    assert s.trailing + data + bytes[|bytes| - KEEP..] == s.trailing + bytes;
  }

  lemma ShortPasses(s: State, bytes: ByteString, sign: Signer)
    ensures Passed(ShortChunk(s, bytes), s.trailing + bytes, 0, sign)
  {
    var held := s.trailing + bytes;
    WireOfData(held[..Max(0, |held| - KEEP)]);
    DataOnly(DataUnlessEmpty(held[..Max(0, |held| - KEEP)]));
  }

  /** One chunk: either the bytes just move through the carry, or the receipt is injected at a marker. */
  lemma InspectPasses(s: State, bytes: ByteString, sign: Signer)
    requires Valid(s) && !s.completed
    ensures var r := Inspected(s, bytes, sign);
            && (r.state.completed ==> Find(bytes, MARKER).Some? || Straddling(s.trailing, bytes).Some?)
            && Passed(r, s.trailing + bytes, if r.state.completed then Injection(s, bytes) else 0, sign)
  {
    if Find(bytes, MARKER).Some? {
      InsideInjects(s, bytes, Find(bytes, MARKER).value, sign);
    } else if Straddling(s.trailing, bytes).Some? {
      StraddlingInjects(s, bytes, Straddling(s.trailing, bytes).value, sign);
    } else if |bytes| >= KEEP {
      LongPasses(s, bytes, sign);
    } else {
      ShortPasses(s, bytes, sign);
    }
  }

  lemma {:induction false} CompletedForwards(s: State, chunks: seq<ByteString>, sign: Signer)
    requires Valid(s) && s.completed
    ensures var r := Watch(s, chunks, sign);
            r.state == s && AllData(r.events) && Wire(r.events) == Concat(chunks)
    decreases |chunks|
  {
    if chunks != [] {
      WatchStep(s, chunks, sign);
      CompletedForwards(s, chunks[1..], sign);
      assert [Data(chunks[0])][1..] == [];
      WireSplits([Data(chunks[0])], Watch(s, chunks[1..], sign).events);
    }
  }

  /** Position of the receipt in carry plus all chunks. */
  ghost function RunInjection(s: State, chunks: seq<ByteString>, sign: Signer): nat
    requires Valid(s) && !s.completed
    decreases |chunks|
  {
    if chunks == [] then 0
    else
      StaysValid(s, InspectOp(chunks[0]), sign);
      var first := Inspected(s, chunks[0], sign);
      InspectPasses(s, chunks[0], sign);
      if first.state.completed then Injection(s, chunks[0])
      else |Wire(first.events)| + RunInjection(first.state, chunks[1..], sign)
  }

  lemma PlainIsAllData(events: seq<Event>)
    requires LayoutOf(events).Plain?
    ensures AllData(events) && Wire(events) == LayoutOf(events).data
  {
    if events != [] {
      PlainIsAllData(events[1..]);
    }
  }

  lemma PassedPreceded(head: ByteString, l: Layout, later: Reply, text: ByteString, q: nat, sign: Signer)
    requires Passed(later, text, q, sign) && l == LayoutOf(later.events)
    ensures var m := Preceded(head, l);
            if later.state.completed then
              m.Receipted? && m.audit == sign(later.state.hashed) && Spell(MARKER, m, head + text, |head| + q)
            else m.Plain? && m.data + later.state.trailing == head + text
  {
    if later.state.completed {
      SpellPreceded(MARKER, l, text, q, head);
    } else {
      assert head + l.data + later.state.trailing == head + (l.data + later.state.trailing);
    }
  }

  lemma PassedLater(first: Reply, later: Reply, text: ByteString, more: ByteString, q: nat, sign: Signer)
    requires !first.state.completed && Passed(first, text, 0, sign)
    requires Passed(later, first.state.trailing + more, q, sign)
    ensures Passed(Reply(later.state, first.events + later.events), text + more, |Wire(first.events)| + q, sign)
  {
    PlainIsAllData(first.events);
    DataBefore(first.events, later.events);
    assert Wire(first.events) + (first.state.trailing + more) == text + more;
    PassedPreceded(Wire(first.events), LayoutOf(later.events), later, first.state.trailing + more, q, sign);
  }

  lemma PassedCompleted(first: Reply, rest: seq<ByteString>, text: ByteString, q: nat, sign: Signer)
    requires Valid(first.state) && first.state.completed && Passed(first, text, q, sign)
    ensures var later := Watch(first.state, rest, sign);
            Passed(Reply(later.state, first.events + later.events), text + Concat(rest), q, sign)
  {
    CompletedForwards(first.state, rest, sign);
    DataAfter(first.events, Watch(first.state, rest, sign).events);
    SpellFollowed(MARKER, LayoutOf(first.events), text, q, Concat(rest));
  }

  lemma PassedStep(s: State, chunks: seq<ByteString>, sign: Signer)
    requires Valid(s) && !s.completed && chunks != []
    ensures var first := Inspected(s, chunks[0], sign);
            && Valid(first.state)
            && Passed(first, s.trailing + chunks[0], if first.state.completed then Injection(s, chunks[0]) else 0, sign)
            && Watch(s, chunks, sign)
               == Reply(Watch(first.state, chunks[1..], sign).state, first.events + Watch(first.state, chunks[1..], sign).events)
  {
    WatchStep(s, chunks, sign);
    InspectPasses(s, chunks[0], sign);
  }

  /** Joining a chunk that completed the detector with everything after it. */
  lemma JoinNow(whole: Reply, first: Reply, carry: ByteString, chunks: seq<ByteString>, q: nat, sign: Signer)
    requires Valid(first.state) && chunks != [] && first.state.completed && Passed(first, carry + chunks[0], q, sign)
    requires var later := Watch(first.state, chunks[1..], sign);
             whole == Reply(later.state, first.events + later.events)
    ensures Passed(whole, carry + Concat(chunks), q, sign)
  {
    PassedCompleted(first, chunks[1..], carry + chunks[0], q, sign);
    assert carry + Concat(chunks) == (carry + chunks[0]) + Concat(chunks[1..]);
  }

  /** Joining a chunk that did not complete it. */
  lemma JoinLater(whole: Reply, first: Reply, later: Reply, carry: ByteString, chunks: seq<ByteString>, q: nat, sign: Signer)
    requires chunks != [] && !first.state.completed && Passed(first, carry + chunks[0], 0, sign)
    requires Passed(later, first.state.trailing + Concat(chunks[1..]), q, sign)
    requires whole == Reply(later.state, first.events + later.events)
    ensures Passed(whole, carry + Concat(chunks), |Wire(first.events)| + q, sign)
  {
    PassedLater(first, later, carry + chunks[0], Concat(chunks[1..]), q, sign);
    assert carry + Concat(chunks) == (carry + chunks[0]) + Concat(chunks[1..]);
  }

  /** Any chunking: the bytes pass through unchanged, with one receipt in front of a marker. */
  lemma {:induction false} BytesPassThrough(s: State, chunks: seq<ByteString>, sign: Signer)
    requires Valid(s) && !s.completed
    ensures Passed(Watch(s, chunks, sign), s.trailing + Concat(chunks), RunInjection(s, chunks, sign), sign)
    decreases |chunks|
  {
    if chunks == [] {
      assert s.trailing + Concat(chunks) == s.trailing;
      assert [] + s.trailing == s.trailing;
    } else {
      var first := Inspected(s, chunks[0], sign);
      PassedStep(s, chunks, sign);
      var whole, later := Watch(s, chunks, sign), Watch(first.state, chunks[1..], sign);
      if first.state.completed {
        JoinNow(whole, first, s.trailing, chunks, Injection(s, chunks[0]), sign);
      } else {
        BytesPassThrough(first.state, chunks[1..], sign);
        JoinLater(whole, first, later, s.trailing, chunks, RunInjection(first.state, chunks[1..], sign), sign);
      }
    }
  }

  /** With a single marker at `p`, every chunking splits the stream exactly there. */
  lemma ChunkIndependence(chunks: seq<ByteString>, p: nat, sign: Signer)
    requires OccursAt(Concat(chunks), MARKER, p)
    requires forall q | 0 <= q <= |Concat(chunks)| && OccursAt(Concat(chunks), MARKER, q) :: q == p
    ensures var r := Watch(INITIAL, chunks, sign);
            r.state.completed && Passed(r, Concat(chunks), p, sign)
  {
    assert [] + Concat(chunks) == Concat(chunks);
    DetectorCompleteness(chunks, sign);
    BytesPassThrough(INITIAL, chunks, sign);
  }
}
