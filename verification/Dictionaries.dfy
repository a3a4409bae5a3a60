/**
  Which dictionaries make piecewise redaction agree with one-shot redaction on every input and
  every chunking. The release rule keeps only the longest pattern prefix the text ends in, and
  compares it case-sensitively, while matching ignores ASCII case.
 */
module Dictionaries {
  import opened Bytes
  import opened Utf8
  import opened Matching
  import opened Redactor
  import opened RedactorRuns
  import opened Fragmentation

  predicate IsLetter(b: Byte) {
    65 <= b <= 90 || 97 <= b <= 122
  }

  /** No A-Z. */
  predicate Lowercase(s: ByteString) {
    forall i | 0 <= i < |s| :: Lower(s[i]) == s[i]
  }

  /** The last `n` bytes of `a` and the first `n` bytes of `b` agree up to case, and neither is whole. */
  predicate Overlap(a: ByteString, b: ByteString, n: nat) {
    1 <= n < |a| && n < |b| && Fold(a[|a| - n..]) == Fold(b[..n])
  }

  /** No nonempty proper suffix of a pattern is a proper prefix of a pattern. */
  ghost predicate OverlapFree(pats: Patterns) {
    forall i, j, n: nat | 0 <= i < |pats| && 0 <= j < |pats| :: !Overlap(pats[i], pats[j], n)
  }

  predicate LettersOnlyLast(p: ByteString) {
    forall i | 0 <= i < |p| - 1 :: !IsLetter(p[i])
  }

  /** Up to case and exactly are the same thing for the text `w`. */
  predicate CaseExact(pats: Patterns, w: ByteString) {
    || (Lowercase(w) && forall k | 0 <= k < |pats| :: Lowercase(pats[k]))
    || (forall k | 0 <= k < |pats| :: LettersOnlyLast(pats[k]))
  }

  // ---- Enough for every input ----------------------------------------------------------------

  lemma ExactPrefix(pats: Patterns, w: ByteString, m: Match, to: nat)
    requires CaseExact(pats, w) && Occurs(pats, w, m) && m.start < to < m.end
    ensures w[m.start..to] == pats[m.pattern][..to - m.start]
  {
    var p := pats[m.pattern];
    forall i | 0 <= i < to - m.start ensures w[m.start..to][i] == p[i] {
      assert Fold(w[m.start..m.end])[i] == Fold(p)[i];
      assert w[m.start..m.end][i] == w[m.start + i];
    }
  }

  /** A match that begins before a complete pattern ends, and ends after it, overlaps it. */
  lemma NoMatchPastWholePattern(pats: Patterns, w: ByteString, from: nat, m: Match, k: nat, end: nat)
    requires NonEmpty(pats) && OverlapFree(pats) && IsNext(pats, w, from, m)
    requires k < |pats| && end <= |w| && EndsWith(w[..end], pats[k])
    requires m.start < end
    ensures m.end <= end
  {
    var p := pats[k];
    var whole := Match(k, end - |p|, end);
    assert w[..end][end - |p|..] == w[end - |p|..end];
    assert Occurs(pats, w, whole);
    if m.end > end && m.start > end - |p| {
      var n := end - m.start;
      var q := pats[m.pattern];
      assert w[m.start..end] == p[|p| - n..];
      FoldSlice(w[m.start..m.end], q, n);
      assert w[m.start..m.end][..n] == w[m.start..end];
      assert Overlap(p, q, n);
    }
  }

  lemma FoldSlice(a: ByteString, b: ByteString, n: nat)
    requires Fold(a) == Fold(b) && n <= |a|
    ensures |a| == |b| && Fold(a[..n]) == Fold(b[..n]) && Fold(a[n..]) == Fold(b[n..])
  {
    assert |Fold(a)| == |Fold(b)|;
    forall i | 0 <= i < |a| ensures Lower(a[i]) == Lower(b[i]) {
      assert Fold(a)[i] == Fold(b)[i];
    }
  }

  lemma MatchPastTextIsHeld(pats: Patterns, text: ByteString, w: ByteString, m: Match)
    requires CaseExact(pats, w) && text <= w && |text| > MaxLen(pats) && Occurs(pats, w, m)
    requires m.start < |text| < m.end
    ensures HoldsBack(pats, text, |text| - m.start)
  {
    ExactPrefix(pats, w, m, |text|);
    assert text[m.start..] == w[m.start..|text|];
    assert EndsInPrefix(pats, text, m.pattern, |text| - m.start);
  }

  lemma MatchIntoHoldBackOverlaps(pats: Patterns, text: ByteString, w: ByteString, m: Match, k: nat, r: nat)
    requires text <= w && Occurs(pats, w, m) && k < |pats| && EndsInPrefix(pats, text, k, r)
    requires m.start < |text| - r < m.end <= |text|
    ensures Overlap(pats[m.pattern], pats[k], m.end - (|text| - r))
  {
    var cut := |text| - r;
    var n := m.end - cut;
    assert w[cut..m.end] == text[cut..][..n];
    assert text[cut..][..n] == pats[k][..n];
    FoldSlice(w[m.start..m.end], pats[m.pattern], cut - m.start);
    assert w[m.start..m.end][cut - m.start..] == w[cut..m.end];
  }

  /** A match over the release cut of a hold-back would be an overlap or a longer hold-back. */
  lemma NoMatchOverHoldBack(pats: Patterns, text: ByteString, w: ByteString, m: Match)
    requires NonEmpty(pats) && OverlapFree(pats) && CaseExact(pats, w)
    requires text <= w && |text| > MaxLen(pats) && Occurs(pats, w, m)
    requires m.start < |text| - Retain(pats, text, |text|)
    ensures m.end <= |text| - Retain(pats, text, |text|)
  {
    var r := Retain(pats, text, |text|);
    if m.end > |text| {
      MatchPastTextIsHeld(pats, text, w, m);
    } else if m.end > |text| - r {
      var k :| 0 <= k < |pats| && EndsInPrefix(pats, text, k, r);
      MatchIntoHoldBackOverlaps(pats, text, w, m, k, r);
    }
  }

  /** The hold-back of `text` starts on a character boundary. */
  predicate CharAligned(pats: Patterns, text: ByteString) {
    var r := Retain(pats, text, |text|);
    r > 0 ==> BackToBoundary(text, |text| - r) == |text| - r
  }

  lemma IsNextClearsCut(pats: Patterns, text: ByteString, w: ByteString, from: nat, m: Match)
    requires NonEmpty(pats) && OverlapFree(pats) && CaseExact(pats, w)
    requires text <= w && from <= SafeLen(pats, text) && IsNext(pats, w, from, m) && CharAligned(pats, text)
    ensures m.end <= SafeLen(pats, text) || SafeLen(pats, text) <= m.start
  {
    if |text| > MaxLen(pats) && m.start < SafeLen(pats, text) {
      if EndsWithPattern(pats, text) {
        NoMatchPastEnd(pats, text, w, from, m);
      } else {
        NoMatchOverCut(pats, text, w, m);
      }
    }
  }

  lemma NoMatchPastEnd(pats: Patterns, text: ByteString, w: ByteString, from: nat, m: Match)
    requires NonEmpty(pats) && OverlapFree(pats) && IsNext(pats, w, from, m)
    requires text <= w && EndsWithPattern(pats, text) && m.start < |text|
    ensures m.end <= |text|
  {
    var k :| 0 <= k < |pats| && EndsWith(text, pats[k]);
    assert w[..|text|] == text;
    NoMatchPastWholePattern(pats, w, from, m, k, |text|);
  }

  lemma SafeLenIs(pats: Patterns, text: ByteString)
    requires |text| > MaxLen(pats)
    ensures EndsWithPattern(pats, text) ==> SafeLen(pats, text) == |text|
    ensures var r := Retain(pats, text, |text|);
            !EndsWithPattern(pats, text) ==>
              SafeLen(pats, text) == if r == 0 then |text| else BackToBoundary(text, |text| - r)
  {
  }

  lemma NoMatchOverCut(pats: Patterns, text: ByteString, w: ByteString, m: Match)
    requires NonEmpty(pats) && OverlapFree(pats) && CaseExact(pats, w)
    requires text <= w && |text| > MaxLen(pats) && !EndsWithPattern(pats, text) && Occurs(pats, w, m)
    requires CharAligned(pats, text) && m.start < SafeLen(pats, text)
    ensures m.end <= SafeLen(pats, text)
  {
    SafeLenIs(pats, text);
    NoMatchOverHoldBack(pats, text, w, m);
  }

  lemma {:induction false} NextNeverStraddles(pats: Patterns, text: ByteString, w: ByteString, from: nat)
    requires NonEmpty(pats) && OverlapFree(pats) && CaseExact(pats, w) && CharAligned(pats, text)
    requires text <= w && from <= SafeLen(pats, text)
    ensures !Straddles(pats, w, from, SafeLen(pats, text))
    decreases |w| - from
  {
    var r := Next(pats, w, from);
    if r.Some? {
      NextSpec(pats, w, from);
      IsNextClearsCut(pats, text, w, from, r.value);
      if r.value.end <= SafeLen(pats, text) {
        NextNeverStraddles(pats, text, w, r.value.end);
      }
    }
  }

  /** Overlap-free dictionaries: whatever follows, no match straddles the release cut. */
  lemma CutNeverStraddled(e: Engine, text: ByteString, w: ByteString, from: nat)
    requires Sound(e) && OverlapFree(e.patterns) && CaseExact(e.patterns, w)
    requires text <= w && from <= SafeLen(e.patterns, text)
    ensures !Straddles(e.patterns, w, from, SafeLen(e.patterns, text))
  {
    BoundarySearchNeverMoves(e, text);
    NextNeverStraddles(e.patterns, text, w, from);
  }

  lemma CaseExactSuffix(pats: Patterns, w: ByteString, n: nat)
    requires CaseExact(pats, w) && n <= |w|
    ensures CaseExact(pats, w[n..])
  {
  }

  lemma {:induction false} OverlapFreeCutsClear(e: Engine, pending: ByteString, chunks: seq<ByteString>)
    requires Sound(e) && OverlapFree(e.patterns) && CaseExact(e.patterns, pending + Concat(chunks))
    ensures CutsClear(e, pending, chunks)
    decreases |chunks|
  {
    if chunks != [] {
      var source, more := pending + chunks[0], Concat(chunks[1..]);
      assert pending + Concat(chunks) == source + more;
      if chunks[0] == [] {
        assert source == pending;
        OverlapFreeCutsClear(e, pending, chunks[1..]);
      } else if !Check(source).Malformed? {
        var text := source[..ValidLen(source)];
        assert text <= source + more;
        CutNeverStraddled(e, text, source + more, 0);
        var cut := Cut(e, source);
        CaseExactSuffix(e.patterns, source + more, cut);
        SplitAt(source, cut, more);
        OverlapFreeCutsClear(e, source[cut..], chunks[1..]);
      }
    }
  }

  /**
    Fragmentation equivalence: for an overlap-free dictionary, every well-formed input and every
    chunking, the emitted bytes are the one-shot redaction of the concatenated input.
   */
  lemma FragmentationEquivalence(e: Engine, capacity: nat, chunks: seq<ByteString>)
    requires Sound(e) && capacity >= MaxLen(e.patterns) + 3
    requires OverlapFree(e.patterns) && CaseExact(e.patterns, Concat(chunks))
    requires WellFormed(Concat(chunks))
    ensures Produces(e, Feed(e, capacity, [], Script(chunks)), Concat(chunks))
  {
    assert [] + Concat(chunks) == Concat(chunks);
    OverlapFreeCutsClear(e, [], chunks);
    ClearRunsEqualOneShot(e, capacity, [], chunks);
  }

  // ---- One pattern: exactly which ones are safe ----------------------------------------------

  /** On every well-formed input, or every lowercase one, however chunked, stream and one-shot scan agree. */
  ghost predicate AlwaysAgrees(e: Engine, capacity: nat, lowercaseOnly: bool)
    requires Usable(e)
  {
    forall chunks: seq<ByteString> | WellFormed(Concat(chunks)) && (lowercaseOnly ==> Lowercase(Concat(chunks))) ::
      StreamRanges(e, capacity, [], chunks) == Matches(e.patterns, Concat(chunks), 0)
  }

  /** No proper border, up to case. */
  ghost predicate Unbordered(p: ByteString) {
    forall n: nat :: !Overlap(p, p, n)
  }

  lemma AgreesWhenOverlapFree(e: Engine, capacity: nat, lowercaseOnly: bool)
    requires Sound(e) && capacity >= MaxLen(e.patterns) + 3 && OverlapFree(e.patterns)
    requires forall w: ByteString | (lowercaseOnly ==> Lowercase(w)) :: CaseExact(e.patterns, w)
    ensures AlwaysAgrees(e, capacity, lowercaseOnly)
  {
    forall chunks: seq<ByteString> | WellFormed(Concat(chunks)) && (lowercaseOnly ==> Lowercase(Concat(chunks)))
      ensures StreamRanges(e, capacity, [], chunks) == Matches(e.patterns, Concat(chunks), 0)
    {
      assert [] + Concat(chunks) == Concat(chunks);
      OverlapFreeCutsClear(e, [], chunks);
      AgreesIffCutsClear(e, capacity, [], chunks);
    }
  }

  /** Two chunks whose first release cut is straddled refute agreement. */
  lemma StraddleRefutes(e: Engine, capacity: nat, lowercaseOnly: bool, text: ByteString, rest: ByteString)
    requires Sound(e) && capacity >= MaxLen(e.patterns) + 3
    requires text != [] && WellFormed(text) && WellFormed(rest) && (lowercaseOnly ==> Lowercase(text + rest))
    requires Straddles(e.patterns, text + rest, 0, SafeLen(e.patterns, text))
    ensures !AlwaysAgrees(e, capacity, lowercaseOnly)
  {
    var chunks := [text, rest];
    ConcatOne(rest);
    assert chunks[1..] == [rest];
    assert Concat(chunks) == text + rest;
    assert [] + Concat(chunks) == Concat(chunks);
    WellFormedSum(text, rest);
    ValidIffWellFormed(text);
    assert text[..|text|] == text;
    assert [] + text == text;
    assert !CutsClear(e, [], chunks);
    AgreesIffCutsClear(e, capacity, [], chunks);
  }

  /** A border longer than half the pattern overlaps itself in a shorter border. */
  lemma BorderShrinks(p: ByteString, n: nat)
    requires Overlap(p, p, n) && 2 * n > |p|
    ensures Overlap(p, p, 2 * n - |p|)
  {
    var f, d, m := Fold(p), |p| - n, 2 * n - |p|;
    forall i | 0 <= i < n ensures f[i + d] == f[i] {
      assert Fold(p[d..])[i] == Fold(p[..n])[i];
      assert p[d..][i] == p[i + d] && p[..n][i] == p[i];
    }
    forall i | 0 <= i < m ensures Fold(p[|p| - m..])[i] == Fold(p[..m])[i] {
      assert f[(i + d) + d] == f[i + d];
    }
    assert Fold(p[|p| - m..]) == Fold(p[..m]);
  }

  /** Any border yields one of at most half the length. */
  lemma {:induction false} ShortBorder(p: ByteString, n: nat) returns (s: nat)
    requires Overlap(p, p, n)
    ensures Overlap(p, p, s) && 2 * s <= |p|
    decreases n
  {
    if 2 * n <= |p| {
      s := n;
    } else {
      BorderShrinks(p, n);
      s := ShortBorder(p, 2 * n - |p|);
    }
  }

  /** With a single pattern the scan simply takes the leftmost occurrence. */
  lemma LeftmostIsNext(p: ByteString, w: ByteString, from: nat, at: nat)
    requires |p| > 0 && from <= at <= |w| - |p| && Fold(w[at..at + |p|]) == Fold(p)
    ensures var r := Next([p], w, from);
            r.Some? && r.value.start <= at && r.value.end == r.value.start + |p|
  {
    NextSpec([p], w, from);
    assert Occurs([p], w, Match(0, at, at + |p|));
  }

  lemma TwoInARow(p: ByteString, w: ByteString, at: nat, cut: nat)
    requires |p| > 0 && |p| <= at < cut <= |w| && cut < 2 * |p| && at + |p| <= |w|
    requires Fold(w[..|p|]) == Fold(p) && Fold(w[at..at + |p|]) == Fold(p)
    ensures Straddles([p], w, 0, cut)
  {
    assert w[0..0 + |p|] == w[..|p|];
    LeftmostIsNext(p, w, 0, 0);
    LeftmostIsNext(p, w, |p|, at);
  }

  lemma FoldConcat(a: ByteString, b: ByteString)
    ensures Fold(a + b) == Fold(a) + Fold(b)
  {
  }

  lemma BorderStartsChar(p: ByteString, s: nat)
    requires WellFormed(p) && Overlap(p, p, s)
    ensures !IsTail(p[|p| - s])
  {
    ValidIffWellFormed(p);
    LeadIsNoTail(p);
    assert Fold(p[|p| - s..])[0] == Fold(p[..s])[0];
  }

  /** The halves of a bordered pattern are whole characters. */
  lemma BorderSplitsChars(p: ByteString, s: nat)
    requires WellFormed(p) && Overlap(p, p, s)
    ensures WellFormed(p[..|p| - s]) && WellFormed(p[s..])
  {
    BorderStartsChar(p, s);
    BoundarySplits(p, |p| - s);
    assert WellFormed(p[s..]) by {
      SameFoldSameShape(p[..s], p[|p| - s..]);
      WellFormedSum(p[..s], p[s..]);
      assert p[..s] + p[s..] == p;
    }
  }

  /** A border may be exchanged for the matching prefix, and the other way round. */
  lemma BorderFolds(p: ByteString, s: nat)
    requires Overlap(p, p, s)
    ensures Fold(p[..|p| - s] + p[..s]) == Fold(p)
    ensures Fold(p[|p| - s..] + p[s..]) == Fold(p)
  {
    assert p == p[..|p| - s] + p[|p| - s..];
    assert p == p[..s] + p[s..];
    FoldConcat(p[..|p| - s], p[..s]);
    FoldConcat(p[..|p| - s], p[|p| - s..]);
    FoldConcat(p[|p| - s..], p[s..]);
    FoldConcat(p[..s], p[s..]);
  }

  /** `x p y`, with `p == x s == s y` up to case, holds `p` at the front and again across the end of `x p`. */
  lemma BorderOccurrences(p: ByteString, s: nat)
    requires Overlap(p, p, s) && 2 * s <= |p|
    ensures var w := p[..|p| - s] + p + p[s..];
            var at := 2 * |p| - 2 * s;
            && |w| == at + |p|
            && Fold(w[..|p|]) == Fold(p)
            && Fold(w[at..at + |p|]) == Fold(p)
  {
    var x, y := p[..|p| - s], p[s..];
    var w, at := x + p + y, 2 * |p| - 2 * s;
    assert Fold(w[..|p|]) == Fold(p) by {
      FrontOfThree(x, p, y, s, |p|);
      BorderFolds(p, s);
    }
    assert Fold(w[at..at + |p|]) == Fold(p) by {
      BackOfThree(x, p, y, s, at, at + |p|);
      BorderFolds(p, s);
    }
  }

  lemma FrontOfThree(x: ByteString, p: ByteString, y: ByteString, s: nat, n: nat)
    requires s <= |p| && n == |x| + s
    ensures (x + p + y)[..n] == x + p[..s]
  {
  }

  lemma BackOfThree(x: ByteString, p: ByteString, y: ByteString, s: nat, at: nat, end: nat)
    requires s <= |p| && at == |x| + |p| - s && end == |x| + |p| + |y|
    ensures (x + p + y)[at..end] == p[|p| - s..] + y
  {
  }

  lemma BorderIsMet(p: ByteString, s: nat, x: ByteString, y: ByteString)
    requires Overlap(p, p, s) && 2 * s <= |p| && x == p[..|p| - s] && y == p[s..]
    ensures Straddles([p], x + p + y, 0, |x + p|)
  {
    BorderOccurrences(p, s);
    TwoInARow(p, x + p + y, 2 * |p| - 2 * s, |x + p|);
  }

  /** A bordered pattern, once overlapping itself, pushes the release cut into its next match. */
  lemma BorderStraddles(p: ByteString, s: nat, x: ByteString, y: ByteString)
    requires Overlap(p, p, s) && 2 * s <= |p| && x == p[..|p| - s] && y == p[s..]
    ensures SafeLen([p], x + p) == |x + p| && Straddles([p], x + p + y, 0, SafeLen([p], x + p))
  {
    WholeReleased(p, x + p, x);
    BorderIsMet(p, s, x, y);
  }

  lemma WholeReleased(p: ByteString, text: ByteString, head: ByteString)
    requires head != [] && text == head + p
    ensures SafeLen([p], text) == |text|
  {
    assert text[|text| - |p|..] == p == [p][0];
    assert EndsWithPattern([p], text);
    SafeLenIs([p], text);
  }

  lemma BorderedDisagrees(e: Engine, capacity: nat, lowercaseOnly: bool, p: ByteString)
    requires Sound(e) && capacity >= MaxLen(e.patterns) + 3 && e.patterns == [p] && !Unbordered(p)
    requires lowercaseOnly ==> Lowercase(p)
    ensures !AlwaysAgrees(e, capacity, lowercaseOnly)
  {
    var n: nat :| Overlap(p, p, n);
    var s := ShortBorder(p, n);
    var x, y := p[..|p| - s], p[s..];
    assert e.patterns[0] == p;
    BorderSplitsChars(p, s);
    WellFormedSum(x, p);
    BorderStraddles(p, s, x, y);
    StraddleRefutes(e, capacity, lowercaseOnly, x + p, y);
  }

  /** On lowercase input, a lowercase pattern streams faithfully exactly when it is unbordered. */
  lemma SinglePatternLowercase(e: Engine, capacity: nat, p: ByteString)
    requires Sound(e) && capacity >= MaxLen(e.patterns) + 3 && e.patterns == [p] && Lowercase(p)
    ensures AlwaysAgrees(e, capacity, true) <==> Unbordered(p)
  {
    if Unbordered(p) {
      assert OverlapFree(e.patterns);
      AgreesWhenOverlapFree(e, capacity, true);
    } else {
      BorderedDisagrees(e, capacity, true, p);
    }
  }

  // ---- One pattern, any case -----------------------------------------------------------------

  function Flip(b: Byte): Byte
    requires IsLetter(b)
  {
    if b <= 90 then b + 32 else b - 32
  }

  /** The pattern up to and including its first letter, that letter in the other case. */
  function Flipped(p: ByteString, j: nat): ByteString
    requires j < |p| && IsLetter(p[j])
  {
    p[..j] + [Flip(p[j])]
  }

  lemma FlippedFolds(p: ByteString, j: nat)
    requires j < |p| && IsLetter(p[j])
    ensures Fold(Flipped(p, j)) == Fold(p[..j + 1])
  {
    assert p[..j + 1] == p[..j] + [p[j]];
    FoldConcat(p[..j], [Flip(p[j])]);
    FoldConcat(p[..j], [p[j]]);
  }

  /** Nothing is held back after a prefix in the wrong case. */
  lemma FlippedNotHeld(p: ByteString, j: nat, len: nat)
    requires j < |p| - 1 && IsLetter(p[j]) && (forall i | 0 <= i < j :: !IsLetter(p[i])) && Unbordered(p)
    ensures !HoldsBack([p], p + Flipped(p, j), len)
  {
    var text := p + Flipped(p, j);
    if HoldsBack([p], text, len) {
      assert EndsInPrefix([p], text, 0, len);
      var tail := text[|text| - len..];
      assert tail == p[..len];
      assert tail[len - 1] == text[|text| - 1] == Flip(p[j]);
      if len > j + 1 {
        var n := len - (j + 1);
        assert p[..n] == tail[..n] == p[|p| - n..];
        assert Overlap(p, p, n);
      }
    }
  }

  lemma FlippedStraddles(e: Engine, p: ByteString, j: nat)
    requires Sound(e) && e.patterns == [p] && Unbordered(p)
    requires j < |p| - 1 && IsLetter(p[j]) && (forall i | 0 <= i < j :: !IsLetter(p[i]))
    ensures var text := p + Flipped(p, j);
            SafeLen(e.patterns, text) == |text| && Straddles(e.patterns, text + p[j + 1..], 0, |text|)
  {
    var text := p + Flipped(p, j);
    forall len: nat ensures !HoldsBack(e.patterns, text, len) {
      FlippedNotHeld(p, j, len);
    }
    assert |e.patterns[0]| < |text|;
    RetainIs(e.patterns, text, 0);
    var w := text + p[j + 1..];
    assert w[|p|..|p| + |p|] == Flipped(p, j) + p[j + 1..];
    FlippedFolds(p, j);
    FoldConcat(Flipped(p, j), p[j + 1..]);
    FoldConcat(p[..j + 1], p[j + 1..]);
    assert p[..j + 1] + p[j + 1..] == p;
    assert w[..|p|] == p;
    TwoInARow(p, w, |p|, |text|);
  }

  lemma EarlyLetterDisagrees(e: Engine, capacity: nat, p: ByteString)
    requires Sound(e) && capacity >= MaxLen(e.patterns) + 3 && e.patterns == [p]
    requires Unbordered(p) && !LettersOnlyLast(p)
    ensures !AlwaysAgrees(e, capacity, false)
  {
    var j := FirstLetter(p, 0);
    assert e.patterns[0] == p;
    FlippedStraddles(e, p, j);
    BoundarySplits(p, j + 1) by { AfterAscii(p, j); }
    FlippedFolds(p, j);
    SameFoldSameShape(Flipped(p, j), p[..j + 1]);
    WellFormedSum(p, Flipped(p, j));
    StraddleRefutes(e, capacity, false, p + Flipped(p, j), p[j + 1..]);
  }

  lemma {:induction false} FirstLetter(p: ByteString, from: nat) returns (j: nat)
    requires from <= |p| - 1 && (forall i | 0 <= i < from :: !IsLetter(p[i])) && !LettersOnlyLast(p)
    ensures j < |p| - 1 && IsLetter(p[j]) && (forall i | 0 <= i < j :: !IsLetter(p[i]))
    decreases |p| - from
  {
    if IsLetter(p[from]) && from < |p| - 1 { j := from; } else { j := FirstLetter(p, from + 1); }
  }

  /** An ASCII byte of well-formed text is a whole character. */
  lemma {:induction false} AfterAscii(s: ByteString, i: nat)
    requires WellFormed(s) && i < |s| && s[i] <= 0x7F
    ensures IsBoundary(s, i + 1)
    decreases |s|
  {
    BoundarySplits(s, i);
    ValidIffWellFormed(s[i..]);
    assert HeadOf(s[i..]) == Complete(1);
    if i + 1 < |s| {
      assert Check(s[i..]) == Shifted(Check(s[i..][1..]), 1);
      LeadIsNoTail(s[i..][1..]);
      assert s[i..][1..][0] == s[i + 1];
    }
  }

  /**
    On arbitrary input, a single pattern streams faithfully exactly when it is unbordered and has
    no ASCII letter before its last byte.
   */
  lemma SinglePatternAnyCase(e: Engine, capacity: nat, p: ByteString)
    requires Sound(e) && capacity >= MaxLen(e.patterns) + 3 && e.patterns == [p]
    ensures AlwaysAgrees(e, capacity, false) <==> Unbordered(p) && LettersOnlyLast(p)
  {
    if !Unbordered(p) {
      BorderedDisagrees(e, capacity, false, p);
    } else if !LettersOnlyLast(p) {
      EarlyLetterDisagrees(e, capacity, p);
    } else {
      assert OverlapFree(e.patterns);
      AgreesWhenOverlapFree(e, capacity, false);
    }
  }

  // ---- Two patterns that overlap each other --------------------------------------------------

  /** `ab` and `bcd`. */
  const OVERLAPPING: Patterns := [[97, 98], [98, 99, 100]]

  /** `xxxabc`. */
  const LEAKING: ByteString := [120, 120, 120, 97, 98, 99]

  lemma OverlappingMaxLen()
    ensures MaxLen(OVERLAPPING) == 3
  {
    assert OVERLAPPING[0] == [97, 98] && OVERLAPPING[1] == [98, 99, 100];
  }

  lemma LeakingHoldsTwo()
    ensures Retain(OVERLAPPING, LEAKING, |LEAKING|) == 2
  {
    var p := OVERLAPPING[1];
    assert LEAKING[4..] == [98, 99] == p[..2];
    assert EndsInPrefix(OVERLAPPING, LEAKING, 1, 2);
    RetainIs(OVERLAPPING, LEAKING, 2);
  }

  lemma LeakingEndsInNoPattern(k: nat)
    requires k < |OVERLAPPING|
    ensures !EndsWith(LEAKING, OVERLAPPING[k])
  {
    if k == 0 {
      assert LEAKING[4..][0] == 98 && OVERLAPPING[0][0] == 97;
    } else {
      assert LEAKING[3..][0] == 97 && OVERLAPPING[1][0] == 98;
    }
  }

  lemma LeakingCut()
    ensures SafeLen(OVERLAPPING, LEAKING) == 4
  {
    OverlappingMaxLen();
    LeakingHoldsTwo();
    forall k | 0 <= k < |OVERLAPPING| ensures !EndsWith(LEAKING, OVERLAPPING[k]) {
      LeakingEndsInNoPattern(k);
    }
    assert IsBoundary(LEAKING, 4);
  }

  lemma OccurrenceStarts(w: ByteString, o: Match)
    requires Occurs(OVERLAPPING, w, o) && Lowercase(w)
    ensures w[o.start] == 97 || w[o.start] == 98
    ensures w[o.start] == 97 ==> o.pattern == 0
  {
    assert Fold(w[o.start..o.end])[0] == Fold(OVERLAPPING[o.pattern])[0];
    assert w[o.start..o.end][0] == w[o.start];
  }

  lemma LeakingMatch(w: ByteString)
    requires w == LEAKING + [120]
    ensures IsNext(OVERLAPPING, w, 0, Match(0, 3, 5))
  {
    assert w == [120, 120, 120, 97, 98, 99, 120];
    assert w[3..5] == [97, 98] == OVERLAPPING[0];
    var hit := Match(0, 3, 5);
    forall o | Occurs(OVERLAPPING, w, o) && 0 <= o.start ensures NoLaterThan(hit, o) {
      OccurrenceStarts(w, o);
      assert o.start == 3 || o.start == 4;
    }
  }

  lemma LeakingStraddles()
    ensures Lowercase(LEAKING + [120])
    ensures NonEmpty(OVERLAPPING) && Straddles(OVERLAPPING, LEAKING + [120], 0, 4)
  {
    var w := LEAKING + [120];
    LeakingMatch(w);
    NextIs(OVERLAPPING, w, 0, Match(0, 3, 5));
  }

  lemma LeakingWellFormed()
    ensures WellFormed(LEAKING) && WellFormed([120])
  {
    AsciiWellFormed(LEAKING);
    AsciiWellFormed([120]);
  }

  lemma OverlappingSound(e: Engine)
    requires e.patterns == OVERLAPPING && |e.replacements| == 2
    ensures Sound(e)
  {
    AsciiWellFormed(OVERLAPPING[0]);
    AsciiWellFormed(OVERLAPPING[1]);
  }

  /** `xxxabc` then `x`: holding back `bc` cuts the already complete `ab` in two, and `ab` is leaked. */
  lemma CrossOverlapLeaks(e: Engine, capacity: nat)
    requires e.patterns == OVERLAPPING && |e.replacements| == 2 && capacity >= MaxLen(OVERLAPPING) + 3
    ensures Usable(e) && !AlwaysAgrees(e, capacity, true)
  {
    OverlappingSound(e);
    LeakingWellFormed();
    LeakingCut();
    LeakingStraddles();
    StraddleRefutes(e, capacity, true, LEAKING, [120]);
  }
}
