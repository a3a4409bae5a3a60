/**
  For which texts does piecewise redaction agree with one-shot redaction however they are cut? The
  answer is read off the text and the dictionary alone, without running the redactor.
 */
module ExactCuts {
  import opened Bytes
  import opened Utf8
  import opened Matching
  import opened Redactor
  import opened RedactorRuns
  import opened Fragmentation
  import opened Dictionaries

  /** However `w` is cut into chunks, stream and one-shot scan replace the same ranges. */
  ghost predicate AgreesOn(e: Engine, capacity: nat, w: ByteString)
    requires Usable(e)
  {
    forall chunks: seq<ByteString> | Concat(chunks) == w ::
      StreamRanges(e, capacity, [], chunks) == Matches(e.patterns, w, 0)
  }

  // ---- Any dictionary --------------------------------------------------------------------------

  /** A place where a push can end that the release rule looks at. */
  predicate PushEnd(pats: Patterns, w: ByteString, c: nat) {
    MaxLen(pats) < c <= |w| && IsBoundary(w, c)
  }

  /** No match of the whole scan crosses the release cut of any prefix. */
  ghost predicate PrefixCutsClear(pats: Patterns, w: ByteString)
    requires NonEmpty(pats)
  {
    forall i, c: nat | 0 <= i < |Matches(pats, w, 0)| && PushEnd(pats, w, c) ::
      !Crosses(Matches(pats, w, 0)[i], SafeLen(pats, w[..c]))
  }

  lemma SuffixOfSuffix(w: ByteString, n: nat, c: nat, p: ByteString)
    requires n <= c <= |w| && |p| <= c - n
    ensures EndsWith(w[n..c], p) <==> EndsWith(w[..c], p)
  {
    assert w[n..c][c - n - |p|..] == w[c - |p|..c] == w[..c][c - |p|..];
  }

  lemma SameHoldBack(pats: Patterns, w: ByteString, n: nat, c: nat, len: nat)
    requires n <= c <= |w| && c - n > MaxLen(pats)
    ensures HoldsBack(pats, w[n..c], len) <==> HoldsBack(pats, w[..c], len)
  {
    forall k | 0 <= k < |pats|
      ensures EndsInPrefix(pats, w[n..c], k, len) <==> EndsInPrefix(pats, w[..c], k, len)
    {
      assert |pats[k]| <= MaxLen(pats);
      if 1 <= len < |pats[k]| {
        SuffixOfSuffix(w, n, c, pats[k][..len]);
      }
    }
  }

  lemma SameWholePattern(pats: Patterns, w: ByteString, n: nat, c: nat)
    requires n <= c <= |w| && c - n > MaxLen(pats)
    ensures EndsWithPattern(pats, w[n..c]) <==> EndsWithPattern(pats, w[..c])
  {
    forall k | 0 <= k < |pats| ensures EndsWith(w[n..c], pats[k]) <==> EndsWith(w[..c], pats[k]) {
      SuffixOfSuffix(w, n, c, pats[k]);
    }
  }

  lemma SameRetain(pats: Patterns, w: ByteString, n: nat, c: nat)
    requires n <= c <= |w| && c - n > MaxLen(pats)
    ensures Retain(pats, w[n..c], c - n) == Retain(pats, w[..c], c)
  {
    var r := Retain(pats, w[n..c], c - n);
    forall len: nat ensures HoldsBack(pats, w[n..c], len) <==> HoldsBack(pats, w[..c], len) {
      SameHoldBack(pats, w, n, c, len);
    }
    forall len: nat | HoldsBack(pats, w[..c], len) ensures len <= r {
      HoldBackShort(pats, w[n..c], len);
    }
    RetainIs(pats, w[..c], r);
  }

  lemma HoldBackShort(pats: Patterns, text: ByteString, len: nat)
    requires HoldsBack(pats, text, len)
    ensures len < |text|
  {
    var k :| 0 <= k < |pats| && EndsInPrefix(pats, text, k, len);
  }

  /** Where the release rule cuts depends on the last bytes only: what was released before is irrelevant. */
  predicate CutMoves(pats: Patterns, w: ByteString, n: nat, c: nat)
    requires n + c <= |w|
  {
    n + SafeLen(pats, w[n..n + c]) == SafeLen(pats, w[..n + c])
  }

  lemma SoundIsAligned(e: Engine, text: ByteString)
    requires Sound(e)
    ensures CharAligned(e.patterns, text)
  {
    BoundarySearchNeverMoves(e, text);
  }

  lemma SameCut(e: Engine, w: ByteString, n: nat, c: nat)
    requires Sound(e) && MaxLen(e.patterns) < c && n + c <= |w|
    ensures CutMoves(e.patterns, w, n, c)
  {
    SoundIsAligned(e, w[n..n + c]);
    SoundIsAligned(e, w[..n + c]);
    SameAlignedCut(e.patterns, w, n, n + c, w[n..n + c], w[..n + c]);
  }

  lemma SameAlignedCut(pats: Patterns, w: ByteString, n: nat, c: nat, tail: ByteString, text: ByteString)
    requires n <= c <= |w| && c - n > MaxLen(pats) && tail == w[n..c] && text == w[..c]
    requires CharAligned(pats, tail) && CharAligned(pats, text)
    ensures n + SafeLen(pats, tail) == SafeLen(pats, text)
  {
    SameWholePattern(pats, w, n, c);
    SameRetain(pats, w, n, c);
    CutFrom(pats, tail);
    CutFrom(pats, text);
  }

  lemma CutFrom(pats: Patterns, text: ByteString)
    requires |text| > MaxLen(pats) && CharAligned(pats, text)
    ensures SafeLen(pats, text) == if EndsWithPattern(pats, text) then |text| else |text| - Retain(pats, text, |text|)
  {
    SafeLenIs(pats, text);
  }

  /** The matches behind an unstraddled cut are those of the rest, moved. */
  lemma MatchesBehind(pats: Patterns, w: ByteString, n: nat, i: nat)
    requires NonEmpty(pats) && n <= |w| && !Straddles(pats, w, 0, n) && i < |Matches(pats, w[n..], 0)|
    ensures |Matches(pats, w[..n], 0)| + i < |Matches(pats, w, 0)|
    ensures Matches(pats, w, 0)[|Matches(pats, w[..n], 0)| + i] == Moved(Matches(pats, w[n..], 0)[i], n)
  {
    MatchesAcrossCut(pats, w, 0, n);
    assert w[..n] + w[n..] == w;
    MatchesShifted(pats, w[..n], w[n..], 0);
  }

  lemma NoCrossingMoved(pats: Patterns, w: ByteString, n: nat, i: nat, c: nat)
    requires NonEmpty(pats) && PrefixCutsClear(pats, w) && n <= |w| && !Straddles(pats, w, 0, n)
    requires i < |Matches(pats, w[n..], 0)| && PushEnd(pats, w[n..], c) && CutMoves(pats, w, n, c)
    ensures !Crosses(Matches(pats, w[n..], 0)[i], SafeLen(pats, w[n..][..c]))
  {
    MatchesBehind(pats, w, n, i);
    assert PushEnd(pats, w, n + c);
    assert w[n..][..c] == w[n..n + c];
  }

  ghost predicate AllCutsMove(pats: Patterns, w: ByteString, n: nat) {
    forall c: nat | MaxLen(pats) < c && n + c <= |w| :: CutMoves(pats, w, n, c)
  }

  lemma CutsMove(e: Engine, w: ByteString, n: nat)
    requires Sound(e)
    ensures AllCutsMove(e.patterns, w, n)
  {
    forall c: nat | MaxLen(e.patterns) < c && n + c <= |w| ensures CutMoves(e.patterns, w, n, c) {
      SameCut(e, w, n, c);
    }
  }

  lemma PrefixClearMoved(pats: Patterns, w: ByteString, n: nat)
    requires NonEmpty(pats) && PrefixCutsClear(pats, w) && n <= |w| && !Straddles(pats, w, 0, n)
    requires AllCutsMove(pats, w, n)
    ensures PrefixCutsClear(pats, w[n..])
  {
    forall i: nat, c: nat | i < |Matches(pats, w[n..], 0)| && PushEnd(pats, w[n..], c)
      ensures !Crosses(Matches(pats, w[n..], 0)[i], SafeLen(pats, w[n..][..c]))
    {
      assert CutMoves(pats, w, n, c);
      NoCrossingMoved(pats, w, n, i, c);
    }
  }

  lemma PrefixClearSuffix(e: Engine, w: ByteString, n: nat)
    requires Sound(e) && PrefixCutsClear(e.patterns, w) && n <= |w| && !Straddles(e.patterns, w, 0, n)
    ensures PrefixCutsClear(e.patterns, w[n..])
  {
    CutsMove(e, w, n);
    PrefixClearMoved(e.patterns, w, n);
  }

  /** A match on both sides of the cut is met by the scan. */
  lemma {:induction false} CrossingStraddles(pats: Patterns, w: ByteString, from: nat, cut: nat, i: nat)
    requires NonEmpty(pats) && from <= cut <= |w| && i < |Matches(pats, w, from)|
    requires Crosses(Matches(pats, w, from)[i], cut)
    ensures Straddles(pats, w, from, cut)
    decreases i
  {
    var m := Next(pats, w, from).value;
    if i > 0 {
      MatchesInside(pats, w, m.end, i - 1);
      CrossingStraddles(pats, w, m.end, cut, i - 1);
    }
  }

  lemma ClearMeansUnstraddled(pats: Patterns, w: ByteString, c: nat)
    requires NonEmpty(pats) && PrefixCutsClear(pats, w) && PushEnd(pats, w, c)
    ensures !Straddles(pats, w, 0, SafeLen(pats, w[..c]))
  {
    if Straddles(pats, w, 0, SafeLen(pats, w[..c])) {
      var i := StraddlesHasWitness(pats, w, 0, SafeLen(pats, w[..c]));
    }
  }

  /** The readable part of a source ends on a character boundary of the whole. */
  lemma ValidEndIsBoundary(source: ByteString, more: ByteString)
    requires WellFormed(source + more) && !Check(source).Malformed?
    ensures IsBoundary(source + more, ValidLen(source))
  {
    var n, w := ValidLen(source), source + more;
    ValidPrefixWellFormed(source);
    SplitAt(source, n, more);
    WellFormedSum(w[..n], w[n..]);
    if n < |w| {
      ValidIffWellFormed(w[n..]);
      LeadIsNoTail(w[n..]);
    }
  }

  lemma CutUnstraddled(e: Engine, source: ByteString, more: ByteString)
    requires Sound(e) && WellFormed(source + more) && !Check(source).Malformed? && PrefixCutsClear(e.patterns, source + more)
    ensures !Straddles(e.patterns, source + more, 0, Cut(e, source))
  {
    var n, w := ValidLen(source), source + more;
    assert w[..n] == source[..n];
    if n > MaxLen(e.patterns) {
      ValidEndIsBoundary(source, more);
      ClearMeansUnstraddled(e.patterns, w, n);
    } else {
      NextSpec(e.patterns, w, 0);
    }
  }

  lemma {:induction false} ClearPrefixesClearRuns(e: Engine, pending: ByteString, chunks: seq<ByteString>)
    requires Sound(e) && WellFormed(pending + Concat(chunks)) && PrefixCutsClear(e.patterns, pending + Concat(chunks))
    ensures CutsClear(e, pending, chunks)
    decreases |chunks|
  {
    if chunks != [] {
      var source, more := pending + chunks[0], Concat(chunks[1..]);
      Reassociate(pending, chunks[0], more);
      if chunks[0] == [] {
        assert source == pending;
        ClearPrefixesClearRuns(e, pending, chunks[1..]);
      } else if !Check(source).Malformed? {
        var cut := Cut(e, source);
        CutUnstraddled(e, source, more);
        PrefixClearSuffix(e, source + more, cut);
        SplitAt(source, cut, more);
        ReleasedPrefixIrrelevant(e, source, more);
        ClearPrefixesClearRuns(e, source[cut..], chunks[1..]);
      }
    }
  }

  lemma FirstCutNotClear(e: Engine, text: ByteString, rest: ByteString)
    requires Usable(e) && text != [] && Check(text).Valid?
    requires Straddles(e.patterns, text + rest, 0, SafeLen(e.patterns, text))
    ensures !CutsClear(e, [], [text, rest])
  {
    ConcatOne(rest);
    assert [text, rest][1..] == [rest] && [] + text == text && text[..|text|] == text;
  }

  lemma NotClearDisagrees(e: Engine, capacity: nat, w: ByteString, text: ByteString, rest: ByteString)
    requires Sound(e) && capacity >= MaxLen(e.patterns) + 3 && WellFormed(w) && w == text + rest
    requires !CutsClear(e, [], [text, rest])
    ensures Concat([text, rest]) == w && StreamRanges(e, capacity, [], [text, rest]) != Matches(e.patterns, w, 0)
  {
    TwoChunks(text, rest);
    assert [] + w == w;
    AgreesIffCutsClear(e, capacity, [], [text, rest]);
  }

  lemma PrefixIsValid(w: ByteString, c: nat)
    requires WellFormed(w) && c <= |w| && IsBoundary(w, c)
    ensures Check(w[..c]).Valid? && w[..c] + w[c..] == w
  {
    BoundarySplits(w, c);
    ValidIffWellFormed(w[..c]);
  }

  /** Two chunks whose first release cut is straddled. */
  lemma StraddleDisagrees(e: Engine, capacity: nat, w: ByteString, c: nat)
    requires Sound(e) && capacity >= MaxLen(e.patterns) + 3 && WellFormed(w) && PushEnd(e.patterns, w, c)
    requires Straddles(e.patterns, w, 0, SafeLen(e.patterns, w[..c]))
    ensures Concat([w[..c], w[c..]]) == w
    ensures StreamRanges(e, capacity, [], [w[..c], w[c..]]) != Matches(e.patterns, w, 0)
  {
    PrefixIsValid(w, c);
    FirstCutNotClear(e, w[..c], w[c..]);
    NotClearDisagrees(e, capacity, w, w[..c], w[c..]);
  }

  lemma TwoChunks(a: ByteString, b: ByteString)
    ensures Concat([a, b]) == a + b
  {
    ConcatOne(b);
    assert [a, b][1..] == [b];
  }

  /**
    Any dictionary, any well-formed text: stream and one-shot scan agree on every chunking if and only
    if no match of the one-shot scan crosses the release cut of a prefix.
   */
  lemma AgreesOnIff(e: Engine, capacity: nat, w: ByteString)
    requires Sound(e) && capacity >= MaxLen(e.patterns) + 3 && WellFormed(w)
    ensures AgreesOn(e, capacity, w) <==> PrefixCutsClear(e.patterns, w)
  {
    if PrefixCutsClear(e.patterns, w) {
      forall chunks: seq<ByteString> | Concat(chunks) == w
        ensures StreamRanges(e, capacity, [], chunks) == Matches(e.patterns, w, 0)
      {
        assert [] + Concat(chunks) == w;
        ClearPrefixesClearRuns(e, [], chunks);
        AgreesIffCutsClear(e, capacity, [], chunks);
      }
    } else {
      var i, c: nat :| 0 <= i < |Matches(e.patterns, w, 0)| && PushEnd(e.patterns, w, c)
        && Crosses(Matches(e.patterns, w, 0)[i], SafeLen(e.patterns, w[..c]));
      CrossingStraddles(e.patterns, w, 0, SafeLen(e.patterns, w[..c]), i);
      StraddleDisagrees(e, capacity, w, c);
    }
  }

  // ---- Overlap-free dictionaries ---------------------------------------------------------------

  /** At `c` the bytes from somewhere up to `start` on are a pattern prefix, letter case included. */
  ghost predicate HeldFrom(pats: Patterns, w: ByteString, start: nat, c: nat)
    requires c <= |w|
  {
    exists len: nat :: HoldsBack(pats, w[..c], len) && c - start <= len
  }

  /** Wherever a push can end inside a match, the bytes of the match so far are held back. */
  ghost predicate MatchesHeld(pats: Patterns, w: ByteString)
    requires NonEmpty(pats)
  {
    forall i, c: nat | 0 <= i < |Matches(pats, w, 0)| && PushEnd(pats, w, c) && Crosses(Matches(pats, w, 0)[i], c) ::
      HeldFrom(pats, w, Matches(pats, w, 0)[i].start, c)
  }

  /** A match of a scan is also what the searcher reports when it resumes right at its start. */
  lemma {:induction false} MatchIsNext(pats: Patterns, w: ByteString, from: nat, i: nat)
    requires NonEmpty(pats) && from <= |w| && i < |Matches(pats, w, from)|
    ensures var m := Matches(pats, w, from)[i];
            IsNext(pats, w, m.start, m)
    decreases i
  {
    NextSpec(pats, w, from);
    if i > 0 {
      MatchIsNext(pats, w, Next(pats, w, from).value.end, i - 1);
    }
  }

  lemma HeldIffRetained(pats: Patterns, w: ByteString, start: nat, c: nat)
    requires start < c <= |w|
    ensures HeldFrom(pats, w, start, c) <==> c - start <= Retain(pats, w[..c], c)
  {
    var r := Retain(pats, w[..c], c);
    if HeldFrom(pats, w, start, c) {
      var len: nat :| HoldsBack(pats, w[..c], len) && c - start <= len;
      HoldBackShort(pats, w[..c], len);
    }
  }

  /** One match and one push end: the cut falls inside the match exactly when the match is not held back. */
  lemma CrossedIffNotHeld(pats: Patterns, w: ByteString, m: Match, c: nat)
    requires NonEmpty(pats) && OverlapFree(pats) && IsNext(pats, w, m.start, m)
    requires MaxLen(pats) < c <= |w| && CharAligned(pats, w[..c])
    ensures Crosses(m, SafeLen(pats, w[..c])) <==> Crosses(m, c) && !HeldFrom(pats, w, m.start, c)
  {
    var text := w[..c];
    var r := Retain(pats, text, c);
    CutFrom(pats, text);
    if m.start < c {
      HeldIffRetained(pats, w, m.start, c);
      if EndsWithPattern(pats, text) {
        NoMatchPastEnd(pats, text, w, m.start, m);
      } else if r > 0 && m.start < c - r < m.end <= c {
        var k :| 0 <= k < |pats| && EndsInPrefix(pats, text, k, r);
        MatchIntoHoldBackOverlaps(pats, text, w, m, k, r);
      }
    }
  }

  /** Crossed and not held are the same thing, for every match and every push end. */
  ghost predicate CrossedUnlessHeld(pats: Patterns, w: ByteString)
    requires NonEmpty(pats)
  {
    forall i, c: nat | 0 <= i < |Matches(pats, w, 0)| && PushEnd(pats, w, c) ::
      Crosses(Matches(pats, w, 0)[i], SafeLen(pats, w[..c]))
      <==> Crosses(Matches(pats, w, 0)[i], c) && !HeldFrom(pats, w, Matches(pats, w, 0)[i].start, c)
  }

  lemma CrossesUnlessHeld(e: Engine, w: ByteString)
    requires Sound(e) && OverlapFree(e.patterns)
    ensures CrossedUnlessHeld(e.patterns, w)
  {
    forall i, c: nat | 0 <= i < |Matches(e.patterns, w, 0)| && PushEnd(e.patterns, w, c)
      ensures Crosses(Matches(e.patterns, w, 0)[i], SafeLen(e.patterns, w[..c]))
         <==> Crosses(Matches(e.patterns, w, 0)[i], c) && !HeldFrom(e.patterns, w, Matches(e.patterns, w, 0)[i].start, c)
    {
      MatchIsNext(e.patterns, w, 0, i);
      BoundarySearchNeverMoves(e, w[..c]);
      CrossedIffNotHeld(e.patterns, w, Matches(e.patterns, w, 0)[i], c);
    }
  }

  lemma ClearIffHeld(pats: Patterns, w: ByteString)
    requires NonEmpty(pats) && CrossedUnlessHeld(pats, w)
    ensures PrefixCutsClear(pats, w) <==> MatchesHeld(pats, w)
  {
    if MatchesHeld(pats, w) {
      forall i, c: nat | 0 <= i < |Matches(pats, w, 0)| && PushEnd(pats, w, c)
        ensures !Crosses(Matches(pats, w, 0)[i], SafeLen(pats, w[..c]))
      {
        assert Crosses(Matches(pats, w, 0)[i], c) ==> HeldFrom(pats, w, Matches(pats, w, 0)[i].start, c);
      }
    }
    if PrefixCutsClear(pats, w) {
      forall i, c: nat | 0 <= i < |Matches(pats, w, 0)| && PushEnd(pats, w, c) && Crosses(Matches(pats, w, 0)[i], c)
        ensures HeldFrom(pats, w, Matches(pats, w, 0)[i].start, c)
      {
        assert !Crosses(Matches(pats, w, 0)[i], SafeLen(pats, w[..c]));
      }
    }
  }

  /**
    Overlap-free dictionaries: all chunkings of a text agree with the one-shot scan if and only if,
    wherever a push can end inside a match, the match so far is a pattern prefix in the same letter case.
   */
  lemma OverlapFreeIff(e: Engine, capacity: nat, w: ByteString)
    requires Sound(e) && capacity >= MaxLen(e.patterns) + 3 && OverlapFree(e.patterns) && WellFormed(w)
    ensures AgreesOn(e, capacity, w) <==> MatchesHeld(e.patterns, w)
  {
    AgreesOnIff(e, capacity, w);
    CrossesUnlessHeld(e, w);
    ClearIffHeld(e.patterns, w);
  }

  // ---- Lowercase dictionaries --------------------------------------------------------------------

  predicate AllLowercase(pats: Patterns) {
    forall k | 0 <= k < |pats| :: Lowercase(pats[k])
  }

  /** Wherever a push can end inside a match, the match so far has no A-Z. */
  ghost predicate LowercaseUpToCuts(pats: Patterns, w: ByteString)
    requires NonEmpty(pats)
  {
    forall i, c: nat | 0 <= i < |Matches(pats, w, 0)| && PushEnd(pats, w, c) && Crosses(Matches(pats, w, 0)[i], c) ::
      Lowercase(w[Matches(pats, w, 0)[i].start..c])
  }

  lemma LowercasePartIsPrefix(pats: Patterns, w: ByteString, m: Match, c: nat)
    requires AllLowercase(pats) && Occurs(pats, w, m) && Crosses(m, c) && c <= |w| && Lowercase(w[m.start..c])
    ensures w[m.start..c] == pats[m.pattern][..c - m.start]
  {
    var p := pats[m.pattern];
    forall i | 0 <= i < c - m.start ensures w[m.start..c][i] == p[i] {
      assert Fold(w[m.start..m.end])[i] == Fold(p)[i];
      assert w[m.start..m.end][i] == w[m.start..c][i];
    }
  }

  lemma HeldPartIsLowercase(pats: Patterns, w: ByteString, start: nat, c: nat)
    requires AllLowercase(pats) && start < c <= |w| && HeldFrom(pats, w, start, c)
    ensures Lowercase(w[start..c])
  {
    var len: nat :| HoldsBack(pats, w[..c], len) && c - start <= len;
    var k :| 0 <= k < |pats| && EndsInPrefix(pats, w[..c], k, len);
    var tail := w[..c][c - len..];
    forall i | 0 <= i < c - start ensures Lower(w[start..c][i]) == w[start..c][i] {
      assert w[start..c][i] == tail[start - (c - len) + i] == pats[k][..len][start - (c - len) + i];
    }
  }

  lemma HeldIffLowercase(pats: Patterns, w: ByteString, m: Match, c: nat)
    requires AllLowercase(pats) && Occurs(pats, w, m) && Crosses(m, c) && MaxLen(pats) < c <= |w|
    ensures HeldFrom(pats, w, m.start, c) <==> Lowercase(w[m.start..c])
  {
    if HeldFrom(pats, w, m.start, c) {
      HeldPartIsLowercase(pats, w, m.start, c);
    }
    if Lowercase(w[m.start..c]) {
      LowercasePartIsPrefix(pats, w, m, c);
      assert w[..c][m.start..] == w[m.start..c];
      assert EndsInPrefix(pats, w[..c], m.pattern, c - m.start);
      assert HoldsBack(pats, w[..c], c - m.start);
    }
  }

  /**
    Lowercase, overlap-free dictionaries: all chunkings of a text agree with the one-shot scan if and
    only if no push can end inside a match behind a capital letter of that match.
   */
  lemma LowercaseIff(e: Engine, capacity: nat, w: ByteString)
    requires Sound(e) && capacity >= MaxLen(e.patterns) + 3 && OverlapFree(e.patterns) && AllLowercase(e.patterns)
    requires WellFormed(w)
    ensures AgreesOn(e, capacity, w) <==> LowercaseUpToCuts(e.patterns, w)
  {
    OverlapFreeIff(e, capacity, w);
    forall i: nat, c: nat
      | i < |Matches(e.patterns, w, 0)| && PushEnd(e.patterns, w, c) && Crosses(Matches(e.patterns, w, 0)[i], c)
      ensures var m := Matches(e.patterns, w, 0)[i];
              HeldFrom(e.patterns, w, m.start, c) <==> Lowercase(w[m.start..c])
    {
      MatchesInside(e.patterns, w, 0, i);
      HeldIffLowercase(e.patterns, w, Matches(e.patterns, w, 0)[i], c);
    }
  }

  /** Agreement of the ranges is agreement of the bytes. */
  lemma AgreementIsOneShot(e: Engine, capacity: nat, chunks: seq<ByteString>)
    requires Sound(e) && capacity >= MaxLen(e.patterns) + 3 && WellFormed(Concat(chunks))
    requires AgreesOn(e, capacity, Concat(chunks))
    ensures Produces(e, Feed(e, capacity, [], Script(chunks)), Concat(chunks))
  {
    assert [] + Concat(chunks) == Concat(chunks);
    AgreesIffCutsClear(e, capacity, [], chunks);
    ClearRunsEqualOneShot(e, capacity, [], chunks);
  }
}
