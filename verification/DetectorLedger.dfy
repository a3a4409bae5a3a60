/**
  What the receipt certifies: how the hashed bytes relate to the bytes sent before the receipt, and
  that every run carries at most one receipt, whatever the order of calls.
 */
module DetectorLedger {
  import opened Bytes
  import opened Detector
  import opened DetectorRuns

  // ---- Which marker gets the receipt ---------------------------------------------------------

  ghost predicate FirstAt(text: ByteString, needle: ByteString, p: nat) {
    OccursAt(text, needle, p) && forall q | 0 <= q < p :: !OccursAt(text, needle, q)
  }

  lemma StraddlingIsFirst(seen: ByteString, bytes: ByteString, start: nat)
    requires !Contains(seen, MARKER) && Straddling(Last(seen, KEEP), bytes) == Some(start)
    ensures FirstAt(seen + bytes, MARKER, |seen| - |Last(seen, KEEP)| + start)
  {
    var base := |seen| - |Last(seen, KEEP)|;
    ProbeIsOccurrence(seen, bytes, start);
    forall q | 0 <= q < base + start ensures !OccursAt(seen + bytes, MARKER, q) {
      if OccursAt(seen + bytes, MARKER, q) {
        NewOccurrence(seen, bytes, q);
      }
    }
  }

  lemma InsideIsFirst(seen: ByteString, bytes: ByteString, start: nat)
    requires !Contains(seen, MARKER) && Find(bytes, MARKER) == Some(start)
    requires Straddling(Last(seen, KEEP), bytes).None?
    ensures FirstAt(seen + bytes, MARKER, |seen| + start)
  {
    InsideIsOccurrence(seen, bytes, start);
    forall q | 0 <= q < |seen| + start ensures !OccursAt(seen + bytes, MARKER, q) {
      if OccursAt(seen + bytes, MARKER, q) {
        NewOccurrence(seen, bytes, q);
      }
    }
  }

  lemma InnerIsNotFirst(seen: ByteString, bytes: ByteString, start: nat)
    requires Straddling(Last(seen, KEEP), bytes).Some?
    ensures !FirstAt(seen + bytes, MARKER, |seen| + start)
  {
    var at := Straddling(Last(seen, KEEP), bytes).value;
    ProbeIsOccurrence(seen, bytes, at);
    assert OccursAt(seen + bytes, MARKER, |seen| - |Last(seen, KEEP)| + at);
  }

  /** Where in the stream the completing chunk puts the receipt. */
  function ReceiptAt(s: State, seen: ByteString, bytes: ByteString): int
    requires Valid(s) && !s.completed && (Find(bytes, MARKER).Some? || Straddling(s.trailing, bytes).Some?)
  {
    |seen| - |s.trailing| + Injection(s, bytes)
  }

  ghost predicate AtFirstMarker(s: State, seen: ByteString, bytes: ByteString)
    requires Valid(s) && !s.completed && (Find(bytes, MARKER).Some? || Straddling(s.trailing, bytes).Some?)
  {
    ReceiptAt(s, seen, bytes) >= 0 && FirstAt(seen + bytes, MARKER, ReceiptAt(s, seen, bytes))
  }

  lemma FirstWhenInsideOnly(s: State, seen: ByteString, bytes: ByteString)
    requires Valid(s) && Tracks(s, seen) && !s.completed
    requires Find(bytes, MARKER).Some? && Straddling(s.trailing, bytes).None?
    ensures AtFirstMarker(s, seen, bytes)
  {
    InsideIsFirst(seen, bytes, Find(bytes, MARKER).value);
    assert ReceiptAt(s, seen, bytes) == |seen| + Find(bytes, MARKER).value;
  }

  lemma FirstWhenStraddlingOnly(s: State, seen: ByteString, bytes: ByteString)
    requires Valid(s) && Tracks(s, seen) && !s.completed
    requires Find(bytes, MARKER).None? && Straddling(s.trailing, bytes).Some?
    ensures AtFirstMarker(s, seen, bytes)
  {
    StraddlingIsFirst(seen, bytes, Straddling(s.trailing, bytes).value);
  }

  lemma NotFirstWhenBoth(s: State, seen: ByteString, bytes: ByteString)
    requires Valid(s) && Tracks(s, seen) && !s.completed
    requires Find(bytes, MARKER).Some? && Straddling(s.trailing, bytes).Some?
    ensures !AtFirstMarker(s, seen, bytes)
  {
    var start := Find(bytes, MARKER).value;
    assert ReceiptAt(s, seen, bytes) == |seen| + start;
    InnerIsNotFirst(seen, bytes, start);
  }

  /**
    The completing chunk puts the receipt in front of the first marker of the stream, unless one
    marker straddles the carry and another lies wholly inside the chunk: then it picks the inner one.
   */
  lemma ReceiptAtFirstMarkerIff(s: State, seen: ByteString, bytes: ByteString)
    requires Valid(s) && Tracks(s, seen) && !s.completed
    requires Find(bytes, MARKER).Some? || Straddling(s.trailing, bytes).Some?
    ensures AtFirstMarker(s, seen, bytes) <==> !(Find(bytes, MARKER).Some? && Straddling(s.trailing, bytes).Some?)
  {
    if Straddling(s.trailing, bytes).None? {
      FirstWhenInsideOnly(s, seen, bytes);
    } else if Find(bytes, MARKER).None? {
      FirstWhenStraddlingOnly(s, seen, bytes);
    } else {
      NotFirstWhenBoth(s, seen, bytes);
    }
  }

  /**
    The chunk that completes the stream's first marker begins inside it and holds another marker
    entirely; `seen` is what came before these chunks.
   */
  ghost predicate PicksInner(seen: ByteString, chunks: seq<ByteString>)
    decreases |chunks|
  {
    chunks != [] &&
    if Contains(seen + chunks[0], MARKER)
    then Contains(chunks[0], MARKER) && exists q | 0 <= q < |seen| :: OccursAt(seen + chunks[0], MARKER, q)
    else PicksInner(seen + chunks[0], chunks[1..])
  }

  lemma InnerAndStraddling(s: State, seen: ByteString, bytes: ByteString)
    requires Valid(s) && Tracks(s, seen) && !s.completed
    ensures Find(bytes, MARKER).Some? <==> Contains(bytes, MARKER)
    ensures Straddling(s.trailing, bytes).Some? <==> exists q | 0 <= q < |seen| :: OccursAt(seen + bytes, MARKER, q)
  {
    if Find(bytes, MARKER).Some? {
      assert OccursAt(bytes, MARKER, Find(bytes, MARKER).value);
    }
    if Straddling(s.trailing, bytes).Some? {
      var at := Straddling(s.trailing, bytes).value;
      ProbeIsOccurrence(seen, bytes, at);
      assert OccursAt(seen + bytes, MARKER, |seen| - |s.trailing| + at);
    }
    if q :| 0 <= q < |seen| && OccursAt(seen + bytes, MARKER, q) {
      NewOccurrence(seen, bytes, q);
    }
  }

  /** Later bytes do not change which occurrence is the first. */
  lemma FirstAtGrows(text: ByteString, more: ByteString, needle: ByteString, p: nat)
    requires OccursAt(text, needle, p)
    ensures FirstAt(text, needle, p) <==> FirstAt(text + more, needle, p)
  {
    forall q | 0 <= q <= p ensures OccursAt(text, needle, q) <==> OccursAt(text + more, needle, q) {
      assert text[q..q + |needle|] == (text + more)[q..q + |needle|];
    }
  }

  /** Where in the stream a run puts the receipt. */
  ghost function RunReceiptAt(s: State, seen: ByteString, chunks: seq<ByteString>, sign: Signer): int
    requires Valid(s) && !s.completed
  {
    |seen| - |s.trailing| + RunInjection(s, chunks, sign)
  }

  ghost predicate FirstMarkerAt(text: ByteString, p: int) {
    p >= 0 && FirstAt(text, MARKER, p)
  }

  lemma ReceiptOccurs(s: State, seen: ByteString, bytes: ByteString)
    requires Valid(s) && Tracks(s, seen) && !s.completed
    requires Find(bytes, MARKER).Some? || Straddling(s.trailing, bytes).Some?
    ensures ReceiptAt(s, seen, bytes) >= 0 && OccursAt(seen + bytes, MARKER, ReceiptAt(s, seen, bytes))
    ensures Contains(seen + bytes, MARKER)
  {
    if Find(bytes, MARKER).Some? {
      var start := Find(bytes, MARKER).value;
      assert ReceiptAt(s, seen, bytes) == |seen| + start;
      InsideIsOccurrence(seen, bytes, start);
    } else {
      var start := Straddling(s.trailing, bytes).value;
      assert ReceiptAt(s, seen, bytes) == |seen| - |Last(seen, KEEP)| + start;
      ProbeIsOccurrence(seen, bytes, start);
    }
  }

  lemma ReceiptFirstThen(s: State, seen: ByteString, bytes: ByteString, more: ByteString)
    requires Valid(s) && Tracks(s, seen) && !s.completed
    requires Find(bytes, MARKER).Some? || Straddling(s.trailing, bytes).Some?
    ensures FirstMarkerAt(seen + bytes + more, ReceiptAt(s, seen, bytes)) <==> AtFirstMarker(s, seen, bytes)
  {
    ReceiptOccurs(s, seen, bytes);
    FirstAtGrows(seen + bytes, more, MARKER, ReceiptAt(s, seen, bytes));
  }

  lemma PicksNow(s: State, seen: ByteString, chunks: seq<ByteString>)
    requires Valid(s) && Tracks(s, seen) && !s.completed && chunks != []
    requires Find(chunks[0], MARKER).Some? || Straddling(s.trailing, chunks[0]).Some?
    ensures PicksInner(seen, chunks) <==> Find(chunks[0], MARKER).Some? && Straddling(s.trailing, chunks[0]).Some?
  {
    ReceiptOccurs(s, seen, chunks[0]);
    InnerAndStraddling(s, seen, chunks[0]);
  }

  lemma InjectionNow(s: State, chunks: seq<ByteString>, sign: Signer)
    requires Valid(s) && !s.completed && chunks != []
    requires Find(chunks[0], MARKER).Some? || Straddling(s.trailing, chunks[0]).Some?
    ensures RunInjection(s, chunks, sign) == Injection(s, chunks[0])
  {
  }

  lemma CompletingChunk(s: State, seen: ByteString, chunks: seq<ByteString>, sign: Signer)
    requires Valid(s) && Tracks(s, seen) && !s.completed && chunks != []
    requires Find(chunks[0], MARKER).Some? || Straddling(s.trailing, chunks[0]).Some?
    ensures FirstMarkerAt(seen + chunks[0] + Concat(chunks[1..]), RunReceiptAt(s, seen, chunks, sign))
       <==> !PicksInner(seen, chunks)
  {
    InjectionNow(s, chunks, sign);
    assert RunReceiptAt(s, seen, chunks, sign) == ReceiptAt(s, seen, chunks[0]);
    ReceiptFirstThen(s, seen, chunks[0], Concat(chunks[1..]));
    ReceiptAtFirstMarkerIff(s, seen, chunks[0]);
    PicksNow(s, seen, chunks);
  }

  /** Past a chunk that completes nothing, the receipt's place in the stream is found in the rest. */
  lemma InjectionLater(s: State, seen: ByteString, chunks: seq<ByteString>, sign: Signer)
    requires Valid(s) && Tracks(s, seen) && !s.completed && chunks != []
    requires Find(chunks[0], MARKER).None? && Straddling(s.trailing, chunks[0]).None?
    ensures var next := Inspected(s, chunks[0], sign).state;
            && Valid(next) && !next.completed && Tracks(next, seen + chunks[0]) && !Contains(seen + chunks[0], MARKER)
            && RunReceiptAt(s, seen, chunks, sign) == RunReceiptAt(next, seen + chunks[0], chunks[1..], sign)
  {
    var first := Inspected(s, chunks[0], sign);
    NotYet(seen, chunks[0]);
    TracksStep(s, seen, chunks[0], sign);
    StaysValid(s, InspectOp(chunks[0]), sign);
    InspectPasses(s, chunks[0], sign);
    PlainIsAllData(first.events);
    assert |Wire(first.events)| + |first.state.trailing| == |s.trailing| + |chunks[0]|;
  }

  lemma {:induction false} ReceiptFirstFrom(s: State, seen: ByteString, chunks: seq<ByteString>, sign: Signer)
    requires Valid(s) && Tracks(s, seen) && !s.completed && Contains(seen + Concat(chunks), MARKER)
    ensures FirstMarkerAt(seen + Concat(chunks), RunReceiptAt(s, seen, chunks, sign)) <==> !PicksInner(seen, chunks)
    decreases |chunks|
  {
    if chunks == [] {
      assert seen + Concat(chunks) == seen;
    } else {
      Reassociate(seen, chunks[0], Concat(chunks[1..]));
      if Find(chunks[0], MARKER).Some? || Straddling(s.trailing, chunks[0]).Some? {
        CompletingChunk(s, seen, chunks, sign);
      } else {
        var next := Inspected(s, chunks[0], sign).state;
        InjectionLater(s, seen, chunks, sign);
        ReceiptFirstFrom(next, seen + chunks[0], chunks[1..], sign);
      }
    }
  }

  /**
    Whole runs: the receipt is in front of the first marker of the stream if and only if the chunk
    that completes the first marker does not also hold one entirely after beginning inside it.
   */
  lemma ReceiptFirstIff(chunks: seq<ByteString>, sign: Signer)
    requires Contains(Concat(chunks), MARKER)
    ensures FirstMarkerAt(Concat(chunks), RunInjection(INITIAL, chunks, sign)) <==> !PicksInner([], chunks)
  {
    StartTracks();
    assert [] + Concat(chunks) == Concat(chunks);
    assert RunReceiptAt(INITIAL, [], chunks, sign) == RunInjection(INITIAL, chunks, sign);
    ReceiptFirstFrom(INITIAL, [], chunks, sign);
  }

  lemma StartTracks()
    ensures Valid(INITIAL) && Tracks(INITIAL, [])
  {
  }

  /** `data: [DONE` and then `]data: [DONE]`: the receipt goes in front of the second marker. */
  lemma SecondMarkerExample(sign: Signer)
    ensures var chunks := [MARKER[..11], [MARKER[11]] + MARKER];
            Contains(Concat(chunks), MARKER) && !FirstMarkerAt(Concat(chunks), RunInjection(INITIAL, chunks, sign))
  {
    var a, b := MARKER[..11], [MARKER[11]] + MARKER;
    var chunks := [a, b];
    assert chunks[1..] == [b];
    ConcatOne(b);
    assert |MARKER| == 12 && (a + b)[..12] == MARKER && b[1..] == MARKER;
    assert OccursAt(a + b, MARKER, 0) && OccursAt(b, MARKER, 1);
    assert [] + a == a;
    assert !Contains(a, MARKER);
    assert PicksInner(a, [b]);
    assert PicksInner([], chunks);
    ReceiptFirstIff(chunks, sign);
  }

  // ---- Hash accounting -----------------------------------------------------------------------

  /** What one chunk contributed before the receipt: bytes sent but not hashed, then bytes sent and hashed. */
  datatype Entry = Entry(dropped: ByteString, fed: ByteString)

  function EntryOf(s: State, bytes: ByteString): Entry
    requires Valid(s)
  {
    if s.completed then Entry([], [])
    else match Find(bytes, MARKER)
      case Some(start) => Entry([], s.trailing + bytes[..start])
      case None =>
        match Straddling(s.trailing, bytes)
        case Some(start) => Entry([], s.trailing[..start])
        case None =>
          if |bytes| >= KEEP then Entry(s.trailing, bytes[..|bytes| - KEEP])
          else Entry([], (s.trailing + bytes)[..Max(0, |s.trailing + bytes| - KEEP)])
  }

  function Ledger(s: State, chunks: seq<ByteString>, sign: Signer): seq<Entry>
    requires Valid(s)
    decreases |chunks|
  {
    if chunks == [] then []
    else
      StaysValid(s, InspectOp(chunks[0]), sign);
      [EntryOf(s, chunks[0])] + Ledger(Inspected(s, chunks[0], sign).state, chunks[1..], sign)
  }

  function SentOf(ledger: seq<Entry>): ByteString {
    if ledger == [] then [] else ledger[0].dropped + ledger[0].fed + SentOf(ledger[1..])
  }

  function FedOf(ledger: seq<Entry>): ByteString {
    if ledger == [] then [] else ledger[0].fed + FedOf(ledger[1..])
  }

  /** The data a layout sends ahead of its receipt. */
  function SentBefore(l: Layout): ByteString {
    match l
    case Plain(data) => data
    case Receipted(before, _, _, _) => before
    case Broken => []
  }

  lemma LongEntry(s: State, bytes: ByteString)
    requires |bytes| >= KEEP
    ensures SentBefore(LayoutOf(LongChunk(s, bytes).events)) == s.trailing + bytes[..|bytes| - KEEP]
  {
    var data := bytes[..|bytes| - KEEP];
    WireOfData(s.trailing);
    WireOfData(data);
    WireSplits(DataUnlessEmpty(s.trailing), DataUnlessEmpty(data));
    DataOnly(DataUnlessEmpty(s.trailing) + DataUnlessEmpty(data));
  }

  lemma ShortEntry(s: State, bytes: ByteString)
    ensures SentBefore(LayoutOf(ShortChunk(s, bytes).events)) == (s.trailing + bytes)[..Max(0, |s.trailing + bytes| - KEEP)]
  {
    var held := s.trailing + bytes;
    WireOfData(held[..Max(0, |held| - KEEP)]);
    DataOnly(DataUnlessEmpty(held[..Max(0, |held| - KEEP)]));
  }

  lemma FoundEntry(s: State, bytes: ByteString, sign: Signer)
    requires Valid(s) && !s.completed && (Find(bytes, MARKER).Some? || Straddling(s.trailing, bytes).Some?)
    ensures var entry := EntryOf(s, bytes);
            SentBefore(LayoutOf(Inspected(s, bytes, sign).events)) == entry.dropped + entry.fed
  {
    InspectPasses(s, bytes, sign);
    if Find(bytes, MARKER).Some? {
      var start := Find(bytes, MARKER).value;
      assert (s.trailing + bytes)[..|s.trailing| + start] == s.trailing + bytes[..start];
    } else {
      var start := Straddling(s.trailing, bytes).value;
      assert (s.trailing + bytes)[..start] == s.trailing[..start];
    }
  }

  lemma EntryMatches(s: State, bytes: ByteString, sign: Signer)
    requires Valid(s) && !s.completed
    ensures var r := Inspected(s, bytes, sign);
            var entry := EntryOf(s, bytes);
            && SentBefore(LayoutOf(r.events)) == entry.dropped + entry.fed
            && r.state.hashed == s.hashed + entry.fed
  {
    if Find(bytes, MARKER).Some? || Straddling(s.trailing, bytes).Some? {
      FoundEntry(s, bytes, sign);
      if Find(bytes, MARKER).Some? {
        Reassociate(s.hashed, s.trailing, bytes[..Find(bytes, MARKER).value]);
      }
    } else if |bytes| >= KEEP {
      LongEntry(s, bytes);
    } else {
      ShortEntry(s, bytes);
    }
  }

  lemma {:induction false} CompletedLedger(s: State, chunks: seq<ByteString>, sign: Signer)
    requires Valid(s) && s.completed
    ensures SentOf(Ledger(s, chunks, sign)) == [] == FedOf(Ledger(s, chunks, sign))
    decreases |chunks|
  {
    if chunks != [] {
      CompletedLedger(s, chunks[1..], sign);
    }
  }

  /** Over every run: sent before the receipt = the ledger; hashed = the ledger without the dropped carries. */
  lemma {:induction false} HashAccounting(s: State, chunks: seq<ByteString>, sign: Signer)
    requires Valid(s) && !s.completed
    ensures var r := Watch(s, chunks, sign);
            var ledger := Ledger(s, chunks, sign);
            && SentBefore(LayoutOf(r.events)) == SentOf(ledger)
            && r.state.hashed == s.hashed + FedOf(ledger)
    decreases |chunks|
  {
    if chunks != [] {
      var first := Inspected(s, chunks[0], sign);
      EntryMatches(s, chunks[0], sign);
      PassedStep(s, chunks, sign);
      var later := Watch(first.state, chunks[1..], sign);
      if first.state.completed {
        CompletedForwards(first.state, chunks[1..], sign);
        CompletedLedger(first.state, chunks[1..], sign);
        DataAfter(first.events, later.events);
      } else {
        HashAccounting(first.state, chunks[1..], sign);
        PlainIsAllData(first.events);
        DataBefore(first.events, later.events);
        BytesPassThrough(first.state, chunks[1..], sign);
      }
      JoinLedger(s, EntryOf(s, chunks[0]), Ledger(first.state, chunks[1..], sign));
    }
  }

  lemma JoinLedger(s: State, entry: Entry, rest: seq<Entry>)
    ensures SentOf([entry] + rest) == entry.dropped + entry.fed + SentOf(rest)
    ensures FedOf([entry] + rest) == entry.fed + FedOf(rest)
    ensures s.hashed + FedOf([entry] + rest) == s.hashed + entry.fed + FedOf(rest)
  {
    assert ([entry] + rest)[1..] == rest;
  }

  /** Some chunk of at least eleven bytes arrives after other bytes and does not complete the marker. */
  ghost predicate LosesCarry(seen: ByteString, chunks: seq<ByteString>)
    decreases |chunks|
  {
    chunks != [] &&
    ( || (|chunks[0]| >= KEEP && seen != [] && !Contains(seen + chunks[0], MARKER))
      || LosesCarry(seen + chunks[0], chunks[1..]))
  }

  lemma DroppedIff(s: State, seen: ByteString, bytes: ByteString)
    requires Valid(s) && Tracks(s, seen)
    ensures EntryOf(s, bytes).dropped != [] <==> |bytes| >= KEEP && seen != [] && !Contains(seen + bytes, MARKER)
  {
    if Contains(seen, MARKER) {
      SeenGrows(seen, bytes);
    } else if Find(bytes, MARKER).Some? {
      InsideIsOccurrence(seen, bytes, Find(bytes, MARKER).value);
    } else if Straddling(s.trailing, bytes).Some? {
      ProbeIsOccurrence(seen, bytes, Straddling(s.trailing, bytes).value);
    } else {
      NotYet(seen, bytes);
    }
  }

  /** Fed and sent bytes agree, unless something nonempty was dropped: then more was sent. */
  ghost predicate Balanced(ledger: seq<Entry>, lost: bool) {
    if lost then |FedOf(ledger)| < |SentOf(ledger)| else FedOf(ledger) == SentOf(ledger)
  }

  lemma JoinBalanced(entry: Entry, rest: seq<Entry>, lost: bool)
    requires Balanced(rest, lost)
    ensures Balanced([entry] + rest, entry.dropped != [] || lost)
  {
    assert ([entry] + rest)[1..] == rest;
  }

  lemma {:induction false} LedgerBalanced(s: State, seen: ByteString, chunks: seq<ByteString>, sign: Signer)
    requires Valid(s) && Tracks(s, seen)
    ensures Balanced(Ledger(s, chunks, sign), LosesCarry(seen, chunks))
    decreases |chunks|
  {
    if chunks != [] {
      StaysValid(s, InspectOp(chunks[0]), sign);
      TracksStep(s, seen, chunks[0], sign);
      DroppedIff(s, seen, chunks[0]);
      var next := Inspected(s, chunks[0], sign).state;
      LedgerBalanced(next, seen + chunks[0], chunks[1..], sign);
      JoinBalanced(EntryOf(s, chunks[0]), Ledger(next, chunks[1..], sign), LosesCarry(seen + chunks[0], chunks[1..]));
    }
  }

  /**
    The hash covers exactly the bytes sent before the receipt if and only if no non-completing chunk
    of at least eleven bytes arrives after earlier bytes.
   */
  lemma HashFaithfulIff(chunks: seq<ByteString>, sign: Signer)
    ensures var r := Watch(INITIAL, chunks, sign);
            r.state.hashed == SentBefore(LayoutOf(r.events)) <==> !LosesCarry([], chunks)
  {
    HashAccounting(INITIAL, chunks, sign);
    LedgerBalanced(INITIAL, [], chunks, sign);
    var ledger := Ledger(INITIAL, chunks, sign);
    assert [] + FedOf(ledger) == FedOf(ledger);
  }

  /** One byte, then eleven: the first is sent and never hashed. */
  lemma LostCarryExample(sign: Signer)
    ensures var chunks: seq<ByteString> := [[120], seq(KEEP, _ => 120)];
            var r := Watch(INITIAL, chunks, sign);
            r.state.hashed != SentBefore(LayoutOf(r.events))
  {
    var a: ByteString, b: ByteString := [120], seq(KEEP, _ => 120);
    var chunks := [a, b];
    assert chunks[1..] == [b] && [] + a == a;
    assert MARKER[0] == 'd' as int;
    forall at | 0 <= at <= |a + b| ensures !OccursAt(a + b, MARKER, at) {
      assert at < |a + b| ==> (a + b)[at] == 120;
    }
    assert LosesCarry(a, [b]);
    assert LosesCarry([], chunks);
    HashFaithfulIff(chunks, sign);
  }

  // ---- Exactly one receipt, whatever is called -----------------------------------------------

  function InputOf(ops: seq<Op>): ByteString {
    if ops == [] then []
    else (if ops[0].InspectOp? then ops[0].bytes else []) + InputOf(ops[1..])
  }

  /** The input bytes a layout carries: everything but the receipt and the synthetic shutdown text. */
  function Carried(l: Layout): ByteString {
    match l
    case Plain(data) => data
    case Receipted(before, _, done, after) => before + (if done == SHUTDOWN_TEXT then [] else done) + after
    case Broken => []
  }

  /** At most one receipt, certifying what was hashed; carried bytes and carry make up `text`. */
  ghost predicate Faithful(r: Reply, text: ByteString, sign: Signer) {
    var l := LayoutOf(r.events);
    && (if r.state.completed then l.Receipted? && l.audit == sign(r.state.hashed) else l.Plain?)
    && Carried(l) + r.state.trailing == text
  }

  lemma MarkerIsNotShutdown(done: ByteString)
    requires MARKER <= done
    ensures done != SHUTDOWN_TEXT
  {
    assert done[7] == MARKER[7] == 'D' as int;
    assert SHUTDOWN_TEXT[7] == 'E' as int;
  }

  lemma PassedIsFaithful(r: Reply, text: ByteString, q: nat, sign: Signer)
    requires Passed(r, text, q, sign) && (r.state.completed ==> r.state.trailing == [])
    ensures Faithful(r, text, sign)
  {
    if r.state.completed {
      var l := LayoutOf(r.events);
      MarkerIsNotShutdown(l.done);
      assert l.before + l.done + l.after == text[..q] + text[q..] == text;
    }
  }

  lemma OpFaithful(s: State, op: Op, sign: Signer)
    requires Valid(s) && !s.completed
    ensures Faithful(Applied(s, op, sign), s.trailing + InputOf([op]), sign)
  {
    assert [op][1..] == [];
    match op
    case InspectOp(bytes) =>
      InspectPasses(s, bytes, sign);
      StaysValid(s, op, sign);
      var r := Inspected(s, bytes, sign);
      PassedIsFaithful(r, s.trailing + bytes, if r.state.completed then Injection(s, bytes) else 0, sign);
      assert bytes + [] == bytes;
    case FinishOp =>
      WireOfData(s.trailing);
      DataOnly(DataUnlessEmpty(s.trailing));
      assert s.trailing + ([] + []) == s.trailing;
    case ShutdownOp =>
      var hashed := s.hashed + s.trailing;
      WireOfData(s.trailing);
      LayoutOfReceipt(hashed, SHUTDOWN_TEXT, sign);
      DataBefore(DataUnlessEmpty(s.trailing), ReceiptEvents(hashed, SHUTDOWN_TEXT, sign));
      assert s.trailing + ([] + []) == s.trailing;
  }

  /** After the receipt: only data goes out, nothing is hashed any more. */
  lemma {:induction false} SealedAfterReceipt(s: State, ops: seq<Op>, sign: Signer)
    requires Valid(s) && s.completed
    ensures var r := Play(s, ops, sign);
            r.state == s && AllData(r.events) && Wire(r.events) == InputOf(ops)
    decreases |ops|
  {
    if ops != [] {
      assert s.hashed + [] == s.hashed;
      assert Applied(s, ops[0], sign).state == s;
      SealedAfterReceipt(s, ops[1..], sign);
      WireSplits(Applied(s, ops[0], sign).events, Play(s, ops[1..], sign).events);
      if ops[0].InspectOp? {
        assert [Data(ops[0].bytes)][1..] == [];
      }
    }
  }

  lemma CarriedPreceded(head: ByteString, l: Layout)
    requires !l.Broken?
    ensures Carried(Preceded(head, l)) == head + Carried(l)
  {
    if l.Receipted? {
      var done := if l.done == SHUTDOWN_TEXT then [] else l.done;
      Reassociate(head, l.before, done);
      Reassociate(head, l.before + done, l.after);
    }
  }

  lemma CarriedFollowed(l: Layout, tail: ByteString)
    requires !l.Broken?
    ensures Carried(Followed(l, tail)) == Carried(l) + tail
  {
    if l.Receipted? {
      Reassociate(l.before + (if l.done == SHUTDOWN_TEXT then [] else l.done), l.after, tail);
    }
  }

  lemma FaithfulGoesOn(first: Reply, later: Reply, text: ByteString, more: ByteString, sign: Signer)
    requires !first.state.completed && Faithful(first, text, sign)
    requires Faithful(later, first.state.trailing + more, sign)
    ensures Faithful(Reply(later.state, first.events + later.events), text + more, sign)
  {
    PlainIsAllData(first.events);
    DataBefore(first.events, later.events);
    var l := LayoutOf(later.events);
    CarriedPreceded(Wire(first.events), l);
    assert Wire(first.events) + Carried(l) + later.state.trailing
        == Wire(first.events) + (Carried(l) + later.state.trailing);
    assert Wire(first.events) + (first.state.trailing + more) == text + more;
  }

  lemma FaithfulSealed(first: Reply, later: Reply, text: ByteString, more: ByteString, sign: Signer)
    requires first.state.completed && first.state.trailing == [] && Faithful(first, text, sign)
    requires later.state == first.state && AllData(later.events) && Wire(later.events) == more
    ensures Faithful(Reply(later.state, first.events + later.events), text + more, sign)
  {
    DataAfter(first.events, later.events);
    CarriedFollowed(LayoutOf(first.events), more);
    assert Carried(LayoutOf(first.events)) + [] == Carried(LayoutOf(first.events));
  }

  lemma InputStep(carry: ByteString, ops: seq<Op>)
    requires ops != []
    ensures carry + InputOf(ops) == carry + InputOf([ops[0]]) + InputOf(ops[1..])
  {
    var now := if ops[0].InspectOp? then ops[0].bytes else [];
    assert InputOf([ops[0]]) == now by {
      assert [ops[0]][1..] == [];
      assert now + [] == now;
    }
    Reassociate(carry, now, InputOf(ops[1..]));
  }

  lemma FaithfulThen(first: Reply, ops: seq<Op>, text: ByteString, sign: Signer)
    requires Valid(first.state) && Faithful(first, text, sign)
    requires !first.state.completed ==> Faithful(Play(first.state, ops, sign), first.state.trailing + InputOf(ops), sign)
    ensures var later := Play(first.state, ops, sign);
            Faithful(Reply(later.state, first.events + later.events), text + InputOf(ops), sign)
  {
    var later := Play(first.state, ops, sign);
    if first.state.completed {
      SealedAfterReceipt(first.state, ops, sign);
      FaithfulSealed(first, later, text, InputOf(ops), sign);
    } else {
      FaithfulGoesOn(first, later, text, InputOf(ops), sign);
    }
  }

  /** Any sequence of inspections, finishes and shutdowns carries at most one receipt and loses no byte. */
  lemma {:induction false} ReceiptExactlyOnce(s: State, ops: seq<Op>, sign: Signer)
    requires Valid(s) && !s.completed
    ensures Faithful(Play(s, ops, sign), s.trailing + InputOf(ops), sign)
    decreases |ops|
  {
    if ops == [] {
      assert [] + s.trailing == s.trailing == s.trailing + [];
    } else {
      OpFaithful(s, ops[0], sign);
      StaysValid(s, ops[0], sign);
      InputStep(s.trailing, ops);
      var first := Applied(s, ops[0], sign);
      if !first.state.completed {
        ReceiptExactlyOnce(first.state, ops[1..], sign);
      }
      FaithfulThen(first, ops[1..], s.trailing + InputOf([ops[0]]), sign);
    }
  }

  // ---- Hash accounting, finish and shutdown included ---------------------------------------------

  /** What one operation contributed before the receipt: finishing and shutting down send and hash the carry. */
  function OpEntry(s: State, op: Op): Entry
    requires Valid(s)
  {
    if op.InspectOp? then EntryOf(s, op.bytes)
    else if s.completed then Entry([], [])
    else Entry([], s.trailing)
  }

  function OpLedger(s: State, ops: seq<Op>, sign: Signer): seq<Entry>
    requires Valid(s)
    decreases |ops|
  {
    if ops == [] then []
    else
      StaysValid(s, ops[0], sign);
      [OpEntry(s, ops[0])] + OpLedger(Applied(s, ops[0], sign).state, ops[1..], sign)
  }

  lemma OpEntryMatches(s: State, op: Op, sign: Signer)
    requires Valid(s) && !s.completed
    ensures var r := Applied(s, op, sign);
            var entry := OpEntry(s, op);
            && SentBefore(LayoutOf(r.events)) == entry.dropped + entry.fed
            && r.state.hashed == s.hashed + entry.fed
  {
    match op
    case InspectOp(bytes) => EntryMatches(s, bytes, sign);
    case FinishOp =>
      WireOfData(s.trailing);
      DataOnly(DataUnlessEmpty(s.trailing));
      assert [] + s.trailing == s.trailing;
    case ShutdownOp =>
      var hashed := s.hashed + s.trailing;
      WireOfData(s.trailing);
      LayoutOfReceipt(hashed, SHUTDOWN_TEXT, sign);
      DataBefore(DataUnlessEmpty(s.trailing), ReceiptEvents(hashed, SHUTDOWN_TEXT, sign));
      assert [] + s.trailing == s.trailing == s.trailing + [];
  }

  lemma {:induction false} CompletedOpLedger(s: State, ops: seq<Op>, sign: Signer)
    requires Valid(s) && s.completed
    ensures SentOf(OpLedger(s, ops, sign)) == [] == FedOf(OpLedger(s, ops, sign))
    decreases |ops|
  {
    if ops != [] {
      assert s.hashed + [] == s.hashed;
      assert Applied(s, ops[0], sign).state == s;
      CompletedOpLedger(s, ops[1..], sign);
    }
  }

  /**
    Any inspections, finishes and shutdowns: the bytes sent before the receipt are the ledger, and the
    bytes hashed are the ledger without the carries that long chunks released.
   */
  lemma {:induction false} OpAccounting(s: State, ops: seq<Op>, sign: Signer)
    requires Valid(s) && !s.completed
    ensures var r := Play(s, ops, sign);
            var ledger := OpLedger(s, ops, sign);
            && SentBefore(LayoutOf(r.events)) == SentOf(ledger)
            && r.state.hashed == s.hashed + FedOf(ledger)
    decreases |ops|
  {
    if ops != [] {
      var first := Applied(s, ops[0], sign);
      OpEntryMatches(s, ops[0], sign);
      OpFaithful(s, ops[0], sign);
      PlayStep(s, ops, sign);
      var later := Play(first.state, ops[1..], sign);
      if first.state.completed {
        SealedAfterReceipt(first.state, ops[1..], sign);
        CompletedOpLedger(first.state, ops[1..], sign);
        DataAfter(first.events, later.events);
      } else {
        OpAccounting(first.state, ops[1..], sign);
        ReceiptExactlyOnce(first.state, ops[1..], sign);
        PlainIsAllData(first.events);
        DataBefore(first.events, later.events);
      }
      JoinLedger(s, OpEntry(s, ops[0]), OpLedger(first.state, ops[1..], sign));
    }
  }

  // ---- The hash of a stream without a marker -------------------------------------------------------

  /**
    Finishing, or shutting down, a stream without a marker: the hash then covers the whole stream if and
    only if no chunk of at least eleven bytes arrived after earlier bytes.
   */
  lemma LastHashIff(chunks: seq<ByteString>, last: Op, sign: Signer)
    requires !Contains(Concat(chunks), MARKER) && (last == FinishOp || last == ShutdownOp)
    ensures Play(INITIAL, Inspections(chunks) + [last], sign).state.hashed == Concat(chunks) <==> !LosesCarry([], chunks)
  {
    var w := Watch(INITIAL, chunks, sign);
    PlaySnoc(INITIAL, Inspections(chunks), last, sign);
    WatchedPlain(chunks, sign);
    HashFaithfulIff(chunks, sign);
    SameFront(w.state.hashed, Wire(w.events), w.state.trailing);
  }

  lemma SameFront(a: ByteString, b: ByteString, tail: ByteString)
    ensures a + tail == b + tail <==> a == b
  {
    if a + tail == b + tail {
      assert a == (a + tail)[..|a|] && b == (b + tail)[..|b|];
    }
  }

  lemma WatchedPlain(chunks: seq<ByteString>, sign: Signer)
    requires !Contains(Concat(chunks), MARKER)
    ensures var w := Watch(INITIAL, chunks, sign);
            && !w.state.completed && SentBefore(LayoutOf(w.events)) == Wire(w.events)
            && Wire(w.events) + w.state.trailing == Concat(chunks)
  {
    DetectorCompleteness(chunks, sign);
    BytesPassThrough(INITIAL, chunks, sign);
    assert [] + Concat(chunks) == Concat(chunks);
    PlainIsAllData(Watch(INITIAL, chunks, sign).events);
  }
}
