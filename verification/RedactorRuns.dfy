/**
  Whole runs of the streaming redactor: what any sequence of calls accepts, holds back and accounts for.
 */
module RedactorRuns {
  import opened Bytes
  import opened Utf8
  import opened Matching
  import opened Redactor

  datatype Call = PushCall(chunk: ByteString) | FinishCall

  function CallOutcome(e: Engine, capacity: nat, pending: ByteString, call: Call): Outcome
    requires Usable(e)
  {
    match call
    case PushCall(chunk) => Pushed(e, capacity, pending, chunk)
    case FinishCall => Finished(e, capacity, pending)
  }

  /** Output collected before the outcome `o` was reached. */
  function After(output: seq<Segment>, o: Outcome): Outcome {
    if o.result.Err? then o else Outcome(o.pending, Ok(output + o.result.value))
  }

  /** All calls in order: the collected segments, or the first error. */
  function Feed(e: Engine, capacity: nat, pending: ByteString, calls: seq<Call>): Outcome
    requires Usable(e)
    decreases |calls|
  {
    if calls == [] then Outcome(pending, Ok([]))
    else
      var first := CallOutcome(e, capacity, pending, calls[0]);
      if first.result.Err? then first
      else After(first.result.value, Feed(e, capacity, first.pending, calls[1..]))
  }

  /** Push every chunk, then finish. */
  function Script(chunks: seq<ByteString>): seq<Call> {
    if chunks == [] then [FinishCall] else [PushCall(chunks[0])] + Script(chunks[1..])
  }

  lemma AfterAfter(a: seq<Segment>, b: seq<Segment>, o: Outcome)
    ensures After(a, After(b, o)) == After(a + b, o)
    ensures After([], o) == o
  {
    if o.result.Ok? {
      assert a + (b + o.result.value) == (a + b) + o.result.value;
      assert [] + o.result.value == o.result.value;
    }
  }

  function AfterPush(first: Outcome, e: Engine, capacity: nat, later: seq<Call>): Outcome
    requires Usable(e)
  {
    if first.result.Err? then first
    else After(first.result.value, Feed(e, capacity, first.pending, later))
  }

  lemma ScriptStep(e: Engine, capacity: nat, pending: ByteString, chunks: seq<ByteString>, i: nat)
    requires Usable(e) && i < |chunks|
    ensures Feed(e, capacity, pending, Script(chunks[i..]))
         == AfterPush(Pushed(e, capacity, pending, chunks[i]), e, capacity, Script(chunks[i + 1..]))
  {
    assert chunks[i..][1..] == chunks[i + 1..];
    assert Script(chunks[i..])[1..] == Script(chunks[i + 1..]);
  }

  lemma FinishStep(e: Engine, capacity: nat, pending: ByteString)
    requires Usable(e)
    ensures Feed(e, capacity, pending, [FinishCall]) == Finished(e, capacity, pending)
  {
    assert [FinishCall][1..] == [];
    var o := Finished(e, capacity, pending);
    if o.result.Ok? {
      assert o.result.value + [] == o.result.value;
    }
  }

  /** A driver that owns a redactor object: the object computes exactly `Feed`. */
  method Drive(e: Engine, capacity: nat, chunks: seq<ByteString>) returns (r: Result<seq<Segment>>)
    requires Usable(e) && capacity > 0
    ensures r == Feed(e, capacity, [], Script(chunks)).result
  {
    var redactor := new StreamRedactor(e, capacity);
    var output: seq<Segment> := [];
    ghost var total := Feed(e, capacity, [], Script(chunks));
    assert chunks[0..] == chunks;
    AfterAfter([], [], total);
    for i := 0 to |chunks|
      invariant redactor.engine == e && redactor.maxCapacity == capacity && fresh(redactor)
      invariant total == After(output, Feed(e, capacity, redactor.pending, Script(chunks[i..])))
    {
      ScriptStep(e, capacity, redactor.pending, chunks, i);
      r := redactor.Push(chunks[i]);
      if r.Err? { return; }
      AfterAfter(output, r.value, Feed(e, capacity, redactor.pending, Script(chunks[i + 1..])));
      output := output + r.value;
    }
    FinishStep(e, capacity, redactor.pending);
    r := redactor.Finish();
    if r.Ok? {
      r := Ok(output + r.value);
    }
  }

  // ---- What one released source looks like ---------------------------------------------------

  /** A hold-back always starts on a character boundary, so the backward search never moves. */
  lemma BoundarySearchNeverMoves(e: Engine, text: ByteString)
    requires Sound(e)
    ensures var retain := Retain(e.patterns, text, |text|);
            retain > 0 ==> BackToBoundary(text, |text| - retain) == |text| - retain
  {
    var retain := Retain(e.patterns, text, |text|);
    if retain > 0 {
      var k :| 0 <= k < |e.patterns| && EndsInPrefix(e.patterns, text, k, retain);
      ValidIffWellFormed(e.patterns[k]);
      LeadIsNoTail(e.patterns[k]);
      assert text[|text| - retain..][0] == e.patterns[k][..retain][0];
    }
  }

  function Cut(e: Engine, source: ByteString): (n: nat)
    requires !Check(source).Malformed?
    ensures n <= ValidLen(source)
  {
    SafeLen(e.patterns, source[..ValidLen(source)])
  }

  lemma WithheldBounded(e: Engine, text: ByteString)
    requires Sound(e)
    ensures |text| - SafeLen(e.patterns, text) <= MaxLen(e.patterns)
  {
    var retain := Retain(e.patterns, text, |text|);
    if |text| > MaxLen(e.patterns) && !EndsWithPattern(e.patterns, text) && retain > 0 {
      BoundarySearchNeverMoves(e, text);
      var k :| 0 <= k < |e.patterns| && EndsInPrefix(e.patterns, text, k, retain);
      assert |e.patterns[k]| <= MaxLen(e.patterns);
    }
  }

  /** However large the source, at most one pattern length and a cut-off character stay behind. */
  lemma CarryBounded(e: Engine, source: ByteString)
    requires Sound(e) && !Check(source).Malformed?
    ensures |source| - Cut(e, source) <= MaxLen(e.patterns) + 3
  {
    WithheldBounded(e, source[..ValidLen(source)]);
  }

  lemma CutIsWellFormed(e: Engine, source: ByteString)
    requires !Check(source).Malformed?
    ensures WellFormed(source[..Cut(e, source)])
  {
    var text := source[..ValidLen(source)];
    ValidPrefixWellFormed(source);
    BoundarySplits(text, Cut(e, source));
    assert text[..Cut(e, source)] == source[..Cut(e, source)];
  }

  /** With room for the carry, a push fails only on malformed input. */
  lemma PushOutcome(e: Engine, capacity: nat, source: ByteString)
    requires Sound(e) && capacity >= MaxLen(e.patterns) + 3
    ensures ProcessSource(e, capacity, source, false)
         == if Check(source).Malformed? then Outcome([], Err(InvalidUtf8))
            else Outcome(source[Cut(e, source)..], Ok(Redacted(e, source[..Cut(e, source)])))
  {
    if !Check(source).Malformed? {
      CarryBounded(e, source);
    }
  }

  // ---- UTF-8 acceptance ----------------------------------------------------------------------

  lemma ReleasedPrefixIrrelevant(e: Engine, source: ByteString, more: ByteString)
    requires !Check(source).Malformed?
    ensures WellFormed(source + more) <==> WellFormed(source[Cut(e, source)..] + more)
  {
    var n := Cut(e, source);
    CutIsWellFormed(e, source);
    SplitAt(source, n, more);
    WellFormedSum(source[..n], source[n..] + more);
  }

  lemma HopelessStaysHopeless(source: ByteString, more: ByteString)
    requires Check(source).Malformed?
    ensures !WellFormed(source + more)
  {
    MalformedIffHopeless(source);
  }

  lemma FinishAcceptance(e: Engine, capacity: nat, pending: ByteString)
    requires Usable(e)
    ensures Finished(e, capacity, pending).result.Ok? <==> WellFormed(pending)
    ensures Finished(e, capacity, pending).result.Err? ==> Finished(e, capacity, pending).result.error == InvalidUtf8
  {
    ValidIffWellFormed(pending);
  }

  /** A run succeeds exactly when all chunks together are well-formed UTF-8. */
  lemma {:induction false} AcceptsExactlyWellFormed(e: Engine, capacity: nat, pending: ByteString, chunks: seq<ByteString>)
    requires Sound(e) && capacity >= MaxLen(e.patterns) + 3
    ensures var r := Feed(e, capacity, pending, Script(chunks)).result;
            && (r.Ok? <==> WellFormed(pending + Concat(chunks)))
            && (r.Err? ==> r.error == InvalidUtf8)
    decreases |chunks|
  {
    if chunks == [] {
      FinishAcceptance(e, capacity, pending);
      assert pending + Concat(chunks) == pending;
      assert Script(chunks)[1..] == [];
    } else {
      var chunk, more := chunks[0], Concat(chunks[1..]);
      var source := pending + chunk;
      assert Script(chunks)[1..] == Script(chunks[1..]);
      assert pending + Concat(chunks) == source + more;
      if chunk == [] {
        assert source == pending;
        AcceptsExactlyWellFormed(e, capacity, pending, chunks[1..]);
      } else {
        PushOutcome(e, capacity, source);
        if Check(source).Malformed? {
          HopelessStaysHopeless(source, more);
        } else {
          ReleasedPrefixIrrelevant(e, source, more);
          AcceptsExactlyWellFormed(e, capacity, source[Cut(e, source)..], chunks[1..]);
        }
      }
    }
  }

  lemma {:induction false} FoldKeepsShape(s: ByteString)
    ensures Check(Fold(s)) == Check(s)
    decreases |s|
  {
    if s != [] && HeadOf(s).Complete? {
      var n := HeadOf(s).len;
      assert Fold(s)[n..] == Fold(s[n..]);
      FoldKeepsShape(s[n..]);
    }
  }

  lemma SameFoldSameShape(a: ByteString, b: ByteString)
    requires Fold(a) == Fold(b)
    ensures WellFormed(a) <==> WellFormed(b)
  {
    FoldKeepsShape(a);
    FoldKeepsShape(b);
    ValidIffWellFormed(a);
    ValidIffWellFormed(b);
  }

  /** A match in well-formed text never splits a character. */
  lemma MatchRespectsChars(pats: Patterns, w: ByteString, from: nat, m: Match)
    requires NonEmpty(pats) && Occurs(pats, w, m) && from <= m.start
    requires WellFormed(pats[m.pattern]) && WellFormed(w[from..])
    ensures WellFormed(w[from..m.start]) && WellFormed(w[m.end..])
  {
    var hit := w[m.start..m.end];
    SameFoldSameShape(hit, pats[m.pattern]);
    ValidIffWellFormed(hit);
    LeadIsNoTail(hit);
    assert hit[0] == w[m.start];
    BoundarySplits(w[from..], m.start - from);
    assert w[from..][..m.start - from] == w[from..m.start];
    assert w[from..][m.start - from..] == hit + w[m.end..];
    WellFormedSum(hit, w[m.end..]);
  }

  ghost predicate InputsWellFormed(segments: seq<Segment>) {
    forall i | 0 <= i < |segments| && segments[i].Input? :: WellFormed(segments[i].bytes)
  }

  lemma {:induction false} RedactedInputsWellFormed(e: Engine, w: ByteString, from: nat)
    requires Sound(e) && from <= |w| && WellFormed(w[from..])
    ensures InputsWellFormed(RedactedFrom(e, w, from))
    decreases |w| - from
  {
    NextSpec(e.patterns, w, from);
    var r := Next(e.patterns, w, from);
    if r.Some? {
      MatchRespectsChars(e.patterns, w, from, r.value);
      RedactedInputsWellFormed(e, w, r.value.end);
    }
  }

  lemma ReleaseInputsWellFormed(e: Engine, w: ByteString)
    requires Sound(e) && WellFormed(w)
    ensures InputsWellFormed(Redacted(e, w))
  {
    assert w[0..] == w;
    RedactedInputsWellFormed(e, w, 0);
  }

  lemma CallInputsWellFormed(e: Engine, capacity: nat, pending: ByteString, call: Call)
    requires Sound(e)
    ensures var o := CallOutcome(e, capacity, pending, call).result;
            o.Ok? ==> InputsWellFormed(o.value)
  {
    match call
    case PushCall(chunk) =>
      var source := pending + chunk;
      if !Check(source).Malformed? {
        CutIsWellFormed(e, source);
        ReleaseInputsWellFormed(e, source[..Cut(e, source)]);
      }
    case FinishCall =>
      if !Check(pending).Malformed? {
        ValidPrefixWellFormed(pending);
        ReleaseInputsWellFormed(e, pending[..ValidLen(pending)]);
      }
  }

  /** Every kept stretch any run emits is itself well-formed, wherever the chunks were cut. */
  lemma {:induction false} EmittedInputsWellFormed(e: Engine, capacity: nat, pending: ByteString, calls: seq<Call>)
    requires Sound(e)
    ensures var o := Feed(e, capacity, pending, calls).result;
            o.Ok? ==> InputsWellFormed(o.value)
    decreases |calls|
  {
    if calls != [] {
      CallInputsWellFormed(e, capacity, pending, calls[0]);
      EmittedInputsWellFormed(e, capacity, CallOutcome(e, capacity, pending, calls[0]).pending, calls[1..]);
    }
  }

  // ---- Bounded carry -------------------------------------------------------------------------

  lemma {:induction false} AsciiWellFormed(s: ByteString)
    requires forall i | 0 <= i < |s| :: s[i] <= 0x7F
    ensures WellFormed(s)
  {
    if s == [] {
      EmptyWellFormed();
    } else {
      AsciiWellFormed(s[1..]);
      CharWellFormed(s[..1]);
      WellFormedSum(s[..1], s[1..]);
      assert s[..1] + s[1..] == s;
    }
  }

  /** A push that leaves the largest possible carry. */
  lemma WorstPush(e: Engine, capacity: nat) returns (chunk: ByteString)
    requires Sound(e)
    ensures Pushed(e, capacity, [], chunk).pending == chunk && |chunk| == MaxLen(e.patterns) + 3
    ensures capacity < |chunk| ==> Pushed(e, capacity, [], chunk).result == Err(BufferLimitExceeded)
  {
    var filler: ByteString := seq(MaxLen(e.patterns), _ => 97);
    AsciiWellFormed(filler);
    var cutOff: ByteString := [0xF0, 0x9F, 0x9A];
    chunk := filler + cutOff;
    CheckAfter(filler, cutOff);
    assert Check(cutOff) == Truncated(0);
    assert chunk[..ValidLen(chunk)] == filler;
    assert [] + chunk == chunk;
    assert chunk[0..] == chunk;
  }

  lemma CallCarryBounded(e: Engine, capacity: nat, pending: ByteString, call: Call)
    requires Sound(e) && |pending| <= MaxLen(e.patterns) + 3
    ensures var o := CallOutcome(e, capacity, pending, call);
            && |o.pending| <= MaxLen(e.patterns) + 3
            && (capacity >= MaxLen(e.patterns) + 3 ==> o.result != Err(BufferLimitExceeded))
  {
    var source := if call.PushCall? then pending + call.chunk else pending;
    if !Check(source).Malformed? {
      CarryBounded(e, source);
    }
  }

  lemma {:induction false} CarryBoundedOverRun(e: Engine, capacity: nat, pending: ByteString, calls: seq<Call>)
    requires Sound(e) && |pending| <= MaxLen(e.patterns) + 3
    ensures var o := Feed(e, capacity, pending, calls);
            && |o.pending| <= MaxLen(e.patterns) + 3
            && (capacity >= MaxLen(e.patterns) + 3 ==> o.result != Err(BufferLimitExceeded))
    decreases |calls|
  {
    if calls != [] {
      CallCarryBounded(e, capacity, pending, calls[0]);
      CarryBoundedOverRun(e, capacity, CallOutcome(e, capacity, pending, calls[0]).pending, calls[1..]);
    }
  }

  ghost predicate NeverOverflows(e: Engine, capacity: nat)
    requires Usable(e)
  {
    forall calls: seq<Call> :: Feed(e, capacity, [], calls).result != Err(BufferLimitExceeded)
  }

  lemma SmallCapacityOverflows(e: Engine, capacity: nat)
    requires Sound(e) && capacity < MaxLen(e.patterns) + 3
    ensures !NeverOverflows(e, capacity)
  {
    var chunk := WorstPush(e, capacity);
    var calls := [PushCall(chunk)];
    assert CallOutcome(e, capacity, [], calls[0]).result == Err(BufferLimitExceeded);
    assert Feed(e, capacity, [], calls).result == Err(BufferLimitExceeded);
  }

  /** The buffer limit can be hit exactly when it is below one pattern plus a cut-off character. */
  lemma CapacityExact(e: Engine, capacity: nat)
    requires Sound(e)
    ensures NeverOverflows(e, capacity) <==> capacity >= MaxLen(e.patterns) + 3
  {
    if capacity < MaxLen(e.patterns) + 3 {
      SmallCapacityOverflows(e, capacity);
    } else {
      forall calls: seq<Call> ensures Feed(e, capacity, [], calls).result != Err(BufferLimitExceeded) {
        CarryBoundedOverRun(e, capacity, [], calls);
      }
    }
  }

  // ---- Accounting ----------------------------------------------------------------------------

  function SourceOf(pieces: seq<Piece>): ByteString {
    if pieces == [] then [] else pieces[0].source + SourceOf(pieces[1..])
  }

  lemma {:induction false} SourceSplits(a: seq<Piece>, b: seq<Piece>)
    ensures SourceOf(a + b) == SourceOf(a) + SourceOf(b)
  {
    if a == [] {
      assert a + b == b;
    } else {
      assert (a + b)[1..] == a[1..] + b;
      SourceSplits(a[1..], b);
    }
  }

  /** A replaced piece is an occurrence of its pattern; a kept piece holds no occurrence at all. */
  ghost predicate Accounted(pats: Patterns, p: Piece) {
    match p
    case Kept(s) => s != [] && NoOccurrence(pats, s, 0)
    case Replaced(s, k) => k < |pats| && Fold(s) == Fold(pats[k])
  }

  ghost predicate AllAccounted(pats: Patterns, pieces: seq<Piece>) {
    forall i | 0 <= i < |pieces| :: Accounted(pats, pieces[i])
  }

  lemma OccursInSlice(pats: Patterns, w: ByteString, from: nat, to: nat, o: Match)
    requires from <= to <= |w| && Occurs(pats, w[from..to], o)
    ensures Occurs(pats, w, Moved(o, from))
  {
    assert w[from..to][o.start..o.end] == w[from + o.start..from + o.end];
  }

  lemma KeptIsClean(pats: Patterns, w: ByteString, from: nat, to: nat)
    requires NonEmpty(pats) && from <= to <= |w|
    requires forall o | Occurs(pats, w, o) && from <= o.start :: to < o.end
    ensures NoOccurrence(pats, w[from..to], 0)
  {
    forall o | Occurs(pats, w[from..to], o) ensures o.start < 0 {
      OccursInSlice(pats, w, from, to, o);
    }
  }

  lemma {:induction false} PiecesAccounted(pats: Patterns, w: ByteString, from: nat)
    requires NonEmpty(pats) && from <= |w|
    ensures AllAccounted(pats, Pieces(pats, w, from))
    decreases |w| - from
  {
    NextSpec(pats, w, from);
    match Next(pats, w, from)
    case None =>
      KeptIsClean(pats, w, from, |w|);
      assert w[from..|w|] == w[from..];
    case Some(m) =>
      KeptIsClean(pats, w, from, m.start);
      PiecesAccounted(pats, w, m.end);
  }

  lemma {:induction false} PiecesCover(pats: Patterns, w: ByteString, from: nat)
    requires NonEmpty(pats) && from <= |w|
    ensures SourceOf(Pieces(pats, w, from)) == w[from..]
    decreases |w| - from
  {
    match Next(pats, w, from)
    case None => SourceOfKept(w[from..]);
    case Some(m) =>
      PiecesCover(pats, w, m.end);
      HeadSource(w[from..m.start], w[m.start..m.end], m.pattern, Pieces(pats, w, m.end));
      assert w[from..m.start] + w[m.start..m.end] + w[m.end..] == w[from..];
  }

  lemma HeadSource(kept: ByteString, hit: ByteString, pattern: nat, rest: seq<Piece>)
    ensures SourceOf(KeptUnlessEmpty(kept) + [Replaced(hit, pattern)] + rest) == kept + hit + SourceOf(rest)
  {
    SourceOfKept(kept);
    SourceSplits(KeptUnlessEmpty(kept), [Replaced(hit, pattern)]);
    assert [Replaced(hit, pattern)][1..] == [];
    SourceSplits(KeptUnlessEmpty(kept) + [Replaced(hit, pattern)], rest);
  }

  lemma SourceOfKept(s: ByteString)
    ensures SourceOf(KeptUnlessEmpty(s)) == s
  {
    if s != [] {
      assert [Kept(s)][1..] == [];
    }
  }

  /** The emitted segments are the rendered pieces. */
  lemma {:induction false} SegmentsAreRenderedPieces(e: Engine, w: ByteString, from: nat)
    requires Usable(e) && from <= |w|
    ensures RedactedFrom(e, w, from) == RenderAll(e, Pieces(e.patterns, w, from))
    decreases |w| - from
  {
    match Next(e.patterns, w, from)
    case None =>
    case Some(m) =>
      SegmentsAreRenderedPieces(e, w, m.end);
  }

  /** The pieces behind the segments one call emits. */
  ghost function CallPieces(e: Engine, pending: ByteString, call: Call): (r: seq<Piece>)
    requires Usable(e)
    ensures forall i | 0 <= i < |r| && r[i].Replaced? :: r[i].pattern < |e.patterns|
  {
    var source := if call.PushCall? then pending + call.chunk else pending;
    if Check(source).Malformed? || call == PushCall([]) then []
    else if call.PushCall? then Pieces(e.patterns, source[..Cut(e, source)], 0)
    else Pieces(e.patterns, source[..ValidLen(source)], 0)
  }

  ghost function FeedPieces(e: Engine, capacity: nat, pending: ByteString, calls: seq<Call>): (r: seq<Piece>)
    requires Usable(e)
    ensures forall i | 0 <= i < |r| && r[i].Replaced? :: r[i].pattern < |e.patterns|
    decreases |calls|
  {
    if calls == [] then []
    else
      CallPieces(e, pending, calls[0])
      + FeedPieces(e, capacity, CallOutcome(e, capacity, pending, calls[0]).pending, calls[1..])
  }

  ghost function PushedBytes(calls: seq<Call>): ByteString {
    if calls == [] then []
    else (if calls[0].PushCall? then calls[0].chunk else []) + PushedBytes(calls[1..])
  }

  /** Segments, carry and pieces tell the same story about the input. */
  ghost predicate Consistent(e: Engine, input: ByteString, o: Outcome, ps: seq<Piece>)
    requires Usable(e) && o.result.Ok?
    requires forall i | 0 <= i < |ps| && ps[i].Replaced? :: ps[i].pattern < |e.patterns|
  {
    && o.result.value == RenderAll(e, ps)
    && AllAccounted(e.patterns, ps)
    && SourceOf(ps) + o.pending == input
  }

  lemma ReleaseAccounting(e: Engine, source: ByteString, n: nat)
    requires Usable(e) && n <= |source|
    ensures Consistent(e, source, Outcome(source[n..], Ok(Redacted(e, source[..n]))), Pieces(e.patterns, source[..n], 0))
  {
    SegmentsAreRenderedPieces(e, source[..n], 0);
    PiecesAccounted(e.patterns, source[..n], 0);
    PiecesCover(e.patterns, source[..n], 0);
    assert source[..n][0..] + source[n..] == source;
  }

  lemma NothingToRelease(e: Engine)
    requires Usable(e)
    ensures Pieces(e.patterns, [], 0) == []
  {
    NextSpec(e.patterns, [], 0);
  }

  lemma CallAccounting(e: Engine, capacity: nat, pending: ByteString, call: Call)
    requires Usable(e) && CallOutcome(e, capacity, pending, call).result.Ok?
    ensures Consistent(e, pending + (if call.PushCall? then call.chunk else []),
                       CallOutcome(e, capacity, pending, call), CallPieces(e, pending, call))
  {
    assert pending + [] == pending;
    if call == PushCall([]) {
    } else if call.PushCall? {
      ReleaseAccounting(e, pending + call.chunk, Cut(e, pending + call.chunk));
    } else if pending == [] {
      NothingToRelease(e);
    } else {
      ReleaseAccounting(e, pending, |pending|);
    }
  }

  /**
    For any dictionary, any calls and any chunking: putting the matched ranges back for the
    replacements and appending the carry gives the input; every replaced range is an occurrence of
    the pattern whose replacement was used; no kept segment contains a pattern.
   */
  lemma {:induction false} Accounting(e: Engine, capacity: nat, pending: ByteString, calls: seq<Call>)
    requires Usable(e) && Feed(e, capacity, pending, calls).result.Ok?
    ensures Consistent(e, pending + PushedBytes(calls), Feed(e, capacity, pending, calls),
                       FeedPieces(e, capacity, pending, calls))
    decreases |calls|
  {
    if calls == [] {
      assert pending + PushedBytes(calls) == pending;
    } else {
      var first := CallOutcome(e, capacity, pending, calls[0]);
      CallAccounting(e, capacity, pending, calls[0]);
      Accounting(e, capacity, first.pending, calls[1..]);
      var a := CallPieces(e, pending, calls[0]);
      var b := FeedPieces(e, capacity, first.pending, calls[1..]);
      JoinConsistent(e, if calls[0].PushCall? then calls[0].chunk else [], PushedBytes(calls[1..]), pending,
                     first, Feed(e, capacity, first.pending, calls[1..]), a, b);
    }
  }

  lemma JoinConsistent(e: Engine, chunk: ByteString, more: ByteString, pending: ByteString,
                       first: Outcome, rest: Outcome, a: seq<Piece>, b: seq<Piece>)
    requires Usable(e) && first.result.Ok? && rest.result.Ok?
    requires forall i | 0 <= i < |a| && a[i].Replaced? :: a[i].pattern < |e.patterns|
    requires forall i | 0 <= i < |b| && b[i].Replaced? :: b[i].pattern < |e.patterns|
    requires Consistent(e, pending + chunk, first, a) && Consistent(e, first.pending + more, rest, b)
    ensures forall i | 0 <= i < |a + b| && (a + b)[i].Replaced? :: (a + b)[i].pattern < |e.patterns|
    ensures Consistent(e, pending + (chunk + more), Outcome(rest.pending, Ok(first.result.value + rest.result.value)), a + b)
  {
    RenderSplits(e, a, b);
    SourceSplits(a, b);
    calc {
      SourceOf(a + b) + rest.pending;
      SourceOf(a) + (SourceOf(b) + rest.pending);
      SourceOf(a) + (first.pending + more);
      (SourceOf(a) + first.pending) + more;
      pending + chunk + more;
    }
  }

  lemma RenderSplits(e: Engine, a: seq<Piece>, b: seq<Piece>)
    requires forall i | 0 <= i < |a| && a[i].Replaced? :: a[i].pattern < |e.replacements|
    requires forall i | 0 <= i < |b| && b[i].Replaced? :: b[i].pattern < |e.replacements|
    ensures forall i | 0 <= i < |a + b| && (a + b)[i].Replaced? :: (a + b)[i].pattern < |e.replacements|
    ensures RenderAll(e, a + b) == RenderAll(e, a) + RenderAll(e, b)
  {
  }
}
