/**
  The redaction engine: one-shot redaction of a text, the boundary rule that decides how much of
  a partial stream may be released, and the streaming redactor built on both.
 */
module Redactor {
  import opened Bytes
  import opened Utf8
  import opened Matching

  const DEFAULT_MAX_BUFFER_CAPACITY: nat := 64 * 1024

  datatype Engine = Engine(patterns: Patterns, replacements: seq<ByteString>)

  /** What the vault constructor asserts, the string types guarantee and the config parser provides. */
  ghost predicate Sound(e: Engine) {
    && |e.patterns| == |e.replacements|
    && NonEmpty(e.patterns)
    && forall k | 0 <= k < |e.patterns| :: WellFormed(e.patterns[k])
  }

  /** The lists line up and no pattern is empty: enough to scan and to look up every replacement. */
  predicate Usable(e: Engine) {
    |e.patterns| == |e.replacements| && NonEmpty(e.patterns)
  }

  datatype Segment = Input(bytes: ByteString) | Replacement(bytes: ByteString)

  function Flatten(segments: seq<Segment>): ByteString {
    if |segments| == 0 then [] else segments[0].bytes + Flatten(segments[1..])
  }

  lemma {:induction false} FlattenSplits(a: seq<Segment>, b: seq<Segment>)
    ensures Flatten(a + b) == Flatten(a) + Flatten(b)
  {
    if |a| == 0 {
      assert a + b == b;
    } else {
      assert (a + b)[1..] == a[1..] + b;
      FlattenSplits(a[1..], b);
    }
  }

  // ---- Redacting a complete text -------------------------------------------------------------

  /** A stretch of source text and what became of it. */
  datatype Piece = Kept(source: ByteString) | Replaced(source: ByteString, pattern: nat)

  function Rendered(e: Engine, p: Piece): Segment
    requires p.Replaced? ==> p.pattern < |e.replacements|
  {
    if p.Kept? then Input(p.source) else Replacement(e.replacements[p.pattern])
  }

  /** The scanned text cut into kept stretches and matches. */
  function Pieces(pats: Patterns, w: ByteString, from: nat): (r: seq<Piece>)
    requires NonEmpty(pats) && from <= |w|
    ensures forall i | 0 <= i < |r| && r[i].Replaced? :: r[i].pattern < |pats|
    decreases |w| - from
  {
    match Next(pats, w, from)
    case None => KeptUnlessEmpty(w[from..])
    case Some(m) =>
      KeptUnlessEmpty(w[from..m.start]) + [Replaced(w[m.start..m.end], m.pattern)] + Pieces(pats, w, m.end)
  }

  function KeptUnlessEmpty(s: ByteString): seq<Piece> {
    if s == [] then [] else [Kept(s)]
  }

  function RenderAll(e: Engine, ps: seq<Piece>): (r: seq<Segment>)
    requires forall i | 0 <= i < |ps| && ps[i].Replaced? :: ps[i].pattern < |e.replacements|
    ensures |r| == |ps|
    ensures forall i | 0 <= i < |ps| :: r[i] == Rendered(e, ps[i])
  {
    seq(|ps|, i requires 0 <= i < |ps| => Rendered(e, ps[i]))
  }

  function InputUnlessEmpty(s: ByteString): seq<Segment> {
    if s == [] then [] else [Input(s)]
  }

  /** Segments produced for the part of a text from `from` on. */
  function RedactedFrom(e: Engine, w: ByteString, from: nat): seq<Segment>
    requires Usable(e) && from <= |w|
    decreases |w| - from
  {
    match Next(e.patterns, w, from)
    case None => InputUnlessEmpty(w[from..])
    case Some(m) =>
      InputUnlessEmpty(w[from..m.start]) + [Replacement(e.replacements[m.pattern])] + RedactedFrom(e, w, m.end)
  }

  function Redacted(e: Engine, w: ByteString): seq<Segment>
    requires Usable(e)
  {
    RedactedFrom(e, w, 0)
  }

  lemma RedactedStep(e: Engine, w: ByteString, from: nat, m: Match, output: seq<Segment>)
    requires Usable(e) && from <= |w| && Next(e.patterns, w, from) == Some(m)
    ensures output + RedactedFrom(e, w, from)
         == output + InputUnlessEmpty(w[from..m.start]) + [Replacement(e.replacements[m.pattern])] + RedactedFrom(e, w, m.end)
  {
  }

  method RedactSource(e: Engine, source: ByteString, safeLen: nat) returns (output: seq<Segment>)
    requires Usable(e) && safeLen <= |source|
    ensures output == Redacted(e, source[..safeLen])
  {
    var hay := source[..safeLen];
    output := [];
    var last := 0;
    var next := Next(e.patterns, hay, 0);
    while next.Some?
      invariant last <= |hay| && next == Next(e.patterns, hay, last)
      invariant output + RedactedFrom(e, hay, last) == RedactedFrom(e, hay, 0)
      decreases |hay| - last
    {
      var m := next.value;
      RedactedStep(e, hay, last, m, output);
      if m.start > last {
        output := output + [Input(hay[last..m.start])];
      }
      output := output + [Replacement(e.replacements[m.pattern])];
      last := m.end;
      next := Next(e.patterns, hay, last);
    }
    if last < safeLen {
      output := output + [Input(hay[last..])];
    }
  }

  /** One-shot redaction, the reference the streaming redactor is meant to agree with. */
  function OneShot(e: Engine, w: ByteString, from: nat): ByteString
    requires Usable(e) && from <= |w|
    decreases |w| - from
  {
    match Next(e.patterns, w, from)
    case None => w[from..]
    case Some(m) => w[from..m.start] + e.replacements[m.pattern] + OneShot(e, w, m.end)
  }

  lemma OneShotStep(e: Engine, w: ByteString, from: nat, m: Match, output: ByteString)
    requires Usable(e) && from <= |w| && Next(e.patterns, w, from) == Some(m)
    ensures output + OneShot(e, w, from) == output + w[from..m.start] + e.replacements[m.pattern] + OneShot(e, w, m.end)
  {
    Reassociate(output, w[from..m.start] + e.replacements[m.pattern], OneShot(e, w, m.end));
    Reassociate(output, w[from..m.start], e.replacements[m.pattern]);
  }

  method RedactText(e: Engine, text: ByteString) returns (output: ByteString)
    requires Usable(e)
    ensures output == OneShot(e, text, 0)
  {
    var next := Next(e.patterns, text, 0);
    if next.None? {
      assert text[0..] == text;
      return text;
    }
    output := [];
    var last := 0;
    while next.Some?
      invariant last <= |text| && next == Next(e.patterns, text, last)
      invariant output + OneShot(e, text, last) == OneShot(e, text, 0)
      decreases |text| - last
    {
      var m := next.value;
      OneShotStep(e, text, last, m, output);
      if m.start >= last {
        output := output + text[last..m.start];
        output := output + e.replacements[m.pattern];
        last := m.end;
      }
      next := Next(e.patterns, text, last);
    }
    output := output + text[last..];
  }

  // ---- The release boundary ------------------------------------------------------------------

  function MaxLen(pats: Patterns): (n: nat)
    ensures forall k | 0 <= k < |pats| :: |pats[k]| <= n
    ensures n == 0 || exists k | 0 <= k < |pats| :: |pats[k]| == n
  {
    if |pats| == 0 then 0
    else
      var rest := MaxLen(pats[1..]);
      assert forall k | 0 < k < |pats| :: pats[k] == pats[1..][k - 1];
      Max(|pats[0]|, rest)
  }

  predicate EndsWithPattern(pats: Patterns, text: ByteString) {
    exists k | 0 <= k < |pats| :: EndsWith(text, pats[k])
  }

  /** The last `len` bytes of `text` are a proper, nonempty prefix of pattern `k`. */
  predicate EndsInPrefix(pats: Patterns, text: ByteString, k: nat, len: nat)
    requires k < |pats|
  {
    1 <= len < Min(|pats[k]|, |text|) && EndsWith(text, pats[k][..len])
  }

  predicate HoldsBack(pats: Patterns, text: ByteString, len: nat) {
    exists k | 0 <= k < |pats| :: EndsInPrefix(pats, text, k, len)
  }

  /** The longest hold-back of at most `bound` bytes, 0 if there is none. */
  function Retain(pats: Patterns, text: ByteString, bound: nat): (r: nat)
    ensures r <= bound && (r == 0 || HoldsBack(pats, text, r))
    ensures forall len: nat | HoldsBack(pats, text, len) && len <= bound :: len <= r
  {
    if bound == 0 then 0
    else if HoldsBack(pats, text, bound) then bound
    else Retain(pats, text, bound - 1)
  }

  function BackToBoundary(text: ByteString, i: nat): (r: nat)
    requires i <= |text|
    ensures r <= i && IsBoundary(text, r)
  {
    if i == 0 || IsBoundary(text, i) then i else BackToBoundary(text, i - 1)
  }

  /** How many bytes of a not yet complete text may be released now. */
  function SafeLen(pats: Patterns, text: ByteString): (n: nat)
    ensures n <= |text| && IsBoundary(text, n)
  {
    if |text| <= MaxLen(pats) then 0
    else if EndsWithPattern(pats, text) then |text|
    else
      var retain := Retain(pats, text, |text|);
      if retain == 0 then |text| else BackToBoundary(text, |text| - retain)
  }

  lemma RetainIs(pats: Patterns, text: ByteString, r: nat)
    requires r <= |text| && (r == 0 || HoldsBack(pats, text, r))
    requires forall len: nat | HoldsBack(pats, text, len) :: len <= r
    ensures Retain(pats, text, |text|) == r
  {
  }

  method LongestRetain(pats: Patterns, text: ByteString) returns (retain: nat)
    ensures retain == Retain(pats, text, |text|)
  {
    retain := 0;
    for i := 0 to |pats|
      invariant retain <= |text| && (retain == 0 || HoldsBack(pats, text, retain))
      invariant forall k, len: nat | 0 <= k < i && EndsInPrefix(pats, text, k, len) :: len <= retain
    {
      var maxPrefix := Min(|pats[i]|, |text|);
      for prefixLen := 1 to Max(1, maxPrefix)
        invariant retain <= |text| && (retain == 0 || HoldsBack(pats, text, retain))
        invariant forall k, len: nat | 0 <= k < i && EndsInPrefix(pats, text, k, len) :: len <= retain
        invariant forall len: nat | len < prefixLen && EndsInPrefix(pats, text, i, len) :: len <= retain
      {
        if EndsWith(text, pats[i][..prefixLen]) {
          assert EndsInPrefix(pats, text, i, prefixLen);
          retain := Max(retain, prefixLen);
        }
      }
    }
    RetainIs(pats, text, retain);
  }

  method AnyPatternEnds(pats: Patterns, text: ByteString) returns (found: bool)
    ensures found == EndsWithPattern(pats, text)
  {
    for i := 0 to |pats|
      invariant forall k | 0 <= k < i :: !EndsWith(text, pats[k])
    {
      if EndsWith(text, pats[i]) { return true; }
    }
    return false;
  }

  method StepBack(text: ByteString, start: nat) returns (splitAt: nat)
    requires start <= |text|
    ensures splitAt == BackToBoundary(text, start)
  {
    splitAt := start;
    while splitAt > 0 && !IsBoundary(text, splitAt)
      invariant splitAt <= start && BackToBoundary(text, splitAt) == BackToBoundary(text, start)
    {
      splitAt := splitAt - 1;
    }
  }

  method SafeCut(pats: Patterns, text: ByteString) returns (cut: nat)
    ensures cut == SafeLen(pats, text)
  {
    if text == [] || |text| <= MaxLen(pats) { return 0; }
    var ends := AnyPatternEnds(pats, text);
    if ends { return |text|; }
    var retain := LongestRetain(pats, text);
    if retain == 0 { return |text|; }
    cut := StepBack(text, |text| - retain);
  }

  method DetermineSafeBoundary(pats: Patterns, text: ByteString) returns (safe: ByteString, tail: ByteString)
    ensures safe + tail == text && |safe| == SafeLen(pats, text)
  {
    var cut := SafeCut(pats, text);
    safe, tail := text[..cut], text[cut..];
  }

  // ---- The streaming redactor ----------------------------------------------------------------

  datatype Error = BufferLimitExceeded | InvalidUtf8

  datatype Result<+T> = Ok(value: T) | Err(error: Error)

  /** State after a call, and the call's result. */
  datatype Outcome = Outcome(pending: ByteString, result: Result<seq<Segment>>)

  function ProcessSource(e: Engine, capacity: nat, source: ByteString, flushAll: bool): Outcome
    requires Usable(e)
  {
    if Check(source).Malformed? then Outcome([], Err(InvalidUtf8))
    else
      var validLen := ValidLen(source);
      if flushAll && validLen != |source| then Outcome([], Err(InvalidUtf8))
      else
        var safeLen := if flushAll then validLen else SafeLen(e.patterns, source[..validLen]);
        var pending := source[safeLen..];
        if |pending| > capacity then Outcome(pending, Err(BufferLimitExceeded))
        else Outcome(pending, Ok(Redacted(e, source[..safeLen])))
  }

  function Pushed(e: Engine, capacity: nat, pending: ByteString, chunk: ByteString): Outcome
    requires Usable(e)
  {
    if chunk == [] then Outcome(pending, Ok([])) else ProcessSource(e, capacity, pending + chunk, false)
  }

  function Finished(e: Engine, capacity: nat, pending: ByteString): Outcome
    requires Usable(e)
  {
    if pending == [] then Outcome([], Ok([])) else ProcessSource(e, capacity, pending, true)
  }

  /** The bytes kept for the next call: the withheld text, then a cut-off character. */
  method Held(source: ByteString, safeLen: nat, validLen: nat, flushAll: bool) returns (pending: ByteString)
    requires safeLen <= validLen <= |source| && (flushAll ==> validLen == |source|)
    ensures pending == source[safeLen..]
  {
    pending := [];
    var retainedEnd := if flushAll then |source| else validLen;
    if safeLen < retainedEnd {
      pending := pending + source[safeLen..retainedEnd];
    }
    if !flushAll && validLen < |source| {
      pending := pending + source[validLen..];
    }
  }

  class StreamRedactor {
    const engine: Engine
    const maxCapacity: nat
    var pending: ByteString

    constructor (engine: Engine, maxCapacity: nat)
      requires maxCapacity > 0
      ensures this.engine == engine && this.maxCapacity == maxCapacity && pending == []
    {
      this.engine := engine;
      this.maxCapacity := maxCapacity;
      pending := [];
    }

    method Push(chunk: ByteString) returns (r: Result<seq<Segment>>)
      requires Usable(engine)
      modifies this
      ensures Outcome(pending, r) == Pushed(engine, maxCapacity, old(pending), chunk)
    {
      if chunk == [] { return Ok([]); }
      var source;
      if pending == [] {
        source := chunk;
        assert pending + chunk == chunk;
      } else {
        source := pending + chunk;
        pending := [];
      }
      r := Process(source, false);
    }

    method Finish() returns (r: Result<seq<Segment>>)
      requires Usable(engine)
      modifies this
      ensures Outcome(pending, r) == Finished(engine, maxCapacity, old(pending))
    {
      if pending == [] { return Ok([]); }
      var source := pending;
      pending := [];
      r := Process(source, true);
    }

    method Process(source: ByteString, flushAll: bool) returns (r: Result<seq<Segment>>)
      requires Usable(engine) && pending == []
      modifies this
      ensures Outcome(pending, r) == ProcessSource(engine, maxCapacity, source, flushAll)
    {
      var verdict := Check(source);
      if verdict.Malformed? { return Err(InvalidUtf8); }
      var validLen := ValidLen(source);
      if flushAll && validLen != |source| { return Err(InvalidUtf8); }
      var text := source[..validLen];
      var safeLen := |text|;
      if !flushAll {
        var safe, tail := DetermineSafeBoundary(engine.patterns, text);
        safeLen := |safe|;
      }
      var output := RedactSource(engine, source, safeLen);
      pending := Held(source, safeLen, validLen, flushAll);
      if |pending| > maxCapacity { return Err(BufferLimitExceeded); }
      return Ok(output);
    }
  }
}
