/**
  Does redacting a stream piecewise find what redacting the whole text finds?
  The streaming redactor restarts its scan at every release cut, so everything hinges on whether a
  match of the whole-text scan straddles a cut.
 */
module Fragmentation {
  import opened Bytes
  import opened Utf8
  import opened Matching
  import opened Redactor
  import opened RedactorRuns

  // ---- Source ranges replaced by a run -------------------------------------------------------

  /** Positions of the replaced pieces in the source, the first piece starting at `at`. */
  function Ranges(pieces: seq<Piece>, at: nat): seq<Match> {
    if pieces == [] then []
    else
      var p := pieces[0];
      var rest := Ranges(pieces[1..], at + |p.source|);
      if p.Kept? then rest else [Match(p.pattern, at, at + |p.source|)] + rest
  }

  lemma {:induction false} RangesSplit(a: seq<Piece>, b: seq<Piece>, at: nat)
    ensures Ranges(a + b, at) == Ranges(a, at) + Ranges(b, at + |SourceOf(a)|)
  {
    if a == [] {
      assert a + b == b;
    } else {
      assert (a + b)[1..] == a[1..] + b;
      RangesSplit(a[1..], b, at + |a[0].source|);
    }
  }

  lemma {:induction false} RangesMoved(pieces: seq<Piece>, at: nat, n: nat)
    ensures Ranges(pieces, at + n) == MovedAll(Ranges(pieces, at), n)
  {
    if pieces != [] {
      RangesMoved(pieces[1..], at + |pieces[0].source|, n);
      assert at + n + |pieces[0].source| == at + |pieces[0].source| + n;
    }
  }

  /** The pieces of a text record exactly the matches of its scan. */
  lemma {:induction false} RangesOfPieces(pats: Patterns, w: ByteString, from: nat)
    requires NonEmpty(pats) && from <= |w|
    ensures Ranges(Pieces(pats, w, from), from) == Matches(pats, w, from)
    decreases |w| - from
  {
    match Next(pats, w, from)
    case None =>
      RangesOfKept(w[from..], from);
    case Some(m) =>
      var kept, hit := w[from..m.start], Replaced(w[m.start..m.end], m.pattern);
      RangesOfPieces(pats, w, m.end);
      RangesOfKept(kept, from);
      RangesSplit(KeptUnlessEmpty(kept), [hit], from);
      SourceOfKept(kept);
      assert [hit][1..] == [];
      SourceSplits(KeptUnlessEmpty(kept), [hit]);
      RangesSplit(KeptUnlessEmpty(kept) + [hit], Pieces(pats, w, m.end), from);
  }

  lemma RangesOfKept(s: ByteString, at: nat)
    ensures Ranges(KeptUnlessEmpty(s), at) == []
  {
  }

  /** Where, in the concatenated input, a run of the redactor replaced something. */
  ghost function StreamRanges(e: Engine, capacity: nat, pending: ByteString, chunks: seq<ByteString>): seq<Match>
    requires Usable(e)
  {
    Ranges(FeedPieces(e, capacity, pending, Script(chunks)), 0)
  }

  /** No release cut of the run falls inside a match of the whole-text scan. */
  predicate CutsClear(e: Engine, pending: ByteString, chunks: seq<ByteString>)
    requires Usable(e)
    decreases |chunks|
  {
    if chunks == [] then true
    else
      var source := pending + chunks[0];
      if chunks[0] == [] then CutsClear(e, pending, chunks[1..])
      else if Check(source).Malformed? then true
      else
        var cut := Cut(e, source);
        && !Straddles(e.patterns, source + Concat(chunks[1..]), 0, cut)
        && CutsClear(e, source[cut..], chunks[1..])
  }

  // ---- The exact condition -------------------------------------------------------------------

  lemma PiecesStep(e: Engine, capacity: nat, pending: ByteString, chunks: seq<ByteString>)
    requires Sound(e) && capacity >= MaxLen(e.patterns) + 3
    requires chunks != [] && chunks[0] != [] && !Check(pending + chunks[0]).Malformed?
    ensures var source := pending + chunks[0];
            FeedPieces(e, capacity, pending, Script(chunks))
            == Pieces(e.patterns, source[..Cut(e, source)], 0)
               + FeedPieces(e, capacity, source[Cut(e, source)..], Script(chunks[1..]))
  {
    PushOutcome(e, capacity, pending + chunks[0]);
    assert Script(chunks)[1..] == Script(chunks[1..]);
  }

  lemma StreamStep(e: Engine, capacity: nat, pending: ByteString, chunks: seq<ByteString>)
    requires Sound(e) && capacity >= MaxLen(e.patterns) + 3
    requires chunks != [] && chunks[0] != [] && !Check(pending + chunks[0]).Malformed?
    ensures var source := pending + chunks[0];
            var cut := Cut(e, source);
            StreamRanges(e, capacity, pending, chunks)
            == Matches(e.patterns, source[..cut], 0)
               + MovedAll(StreamRanges(e, capacity, source[cut..], chunks[1..]), cut)
  {
    var source := pending + chunks[0];
    var cut := Cut(e, source);
    PiecesStep(e, capacity, pending, chunks);
    RangesJoin(e.patterns, source[..cut], FeedPieces(e, capacity, source[cut..], Script(chunks[1..])));
  }

  lemma RangesJoin(pats: Patterns, w: ByteString, later: seq<Piece>)
    requires NonEmpty(pats)
    ensures Ranges(Pieces(pats, w, 0) + later, 0) == Matches(pats, w, 0) + MovedAll(Ranges(later, 0), |w|)
  {
    RangesSplit(Pieces(pats, w, 0), later, 0);
    PiecesCover(pats, w, 0);
    RangesOfPieces(pats, w, 0);
    RangesMoved(later, 0, |w|);
  }

  lemma StreamEmptyStep(e: Engine, capacity: nat, pending: ByteString, chunks: seq<ByteString>)
    requires Usable(e) && chunks != [] && chunks[0] == [] && !Check(pending).Malformed?
    ensures StreamRanges(e, capacity, pending, chunks) == StreamRanges(e, capacity, pending, chunks[1..])
  {
    assert Script(chunks)[1..] == Script(chunks[1..]);
    var later := FeedPieces(e, capacity, pending, Script(chunks[1..]));
    assert FeedPieces(e, capacity, pending, Script(chunks)) == [] + later == later;
  }

  lemma StreamEnd(e: Engine, capacity: nat, pending: ByteString)
    requires Usable(e) && WellFormed(pending)
    ensures StreamRanges(e, capacity, pending, []) == Matches(e.patterns, pending, 0)
  {
    ValidIffWellFormed(pending);
    assert Script([])[1..] == [];
    assert pending[..|pending|] == pending;
    assert FeedPieces(e, capacity, pending, Script([])) == Pieces(e.patterns, pending, 0) + [];
    assert Pieces(e.patterns, pending, 0) + [] == Pieces(e.patterns, pending, 0);
    RangesOfPieces(e.patterns, pending, 0);
  }

  lemma MovedInjective(a: seq<Match>, b: seq<Match>, n: nat)
    requires MovedAll(a, n) == MovedAll(b, n)
    ensures a == b
  {
    assert |MovedAll(a, n)| == |MovedAll(b, n)|;
    forall i | 0 <= i < |a| ensures a[i] == b[i] {
      assert MovedAll(a, n)[i] == MovedAll(b, n)[i];
    }
  }

  /** The whole scan, split at an unstraddled cut. */
  lemma ScanSplits(pats: Patterns, w: ByteString, cut: nat)
    requires NonEmpty(pats) && cut <= |w| && !Straddles(pats, w, 0, cut)
    ensures Matches(pats, w, 0) == Matches(pats, w[..cut], 0) + MovedAll(Matches(pats, w[cut..], 0), cut)
  {
    MatchesAcrossCut(pats, w, 0, cut);
    assert w[..cut] + w[cut..] == w;
    MatchesShifted(pats, w[..cut], w[cut..], 0);
  }

  /** A straddling match cannot be among ranges that stop at the cut or start there. */
  lemma StraddleIsLost(pats: Patterns, w: ByteString, cut: nat, later: seq<Match>)
    requires NonEmpty(pats) && cut <= |w| && Straddles(pats, w, 0, cut)
    ensures Matches(pats, w, 0) != Matches(pats, w[..cut], 0) + MovedAll(later, cut)
  {
    var i := StraddlesHasWitness(pats, w, 0, cut);
    var here := Matches(pats, w[..cut], 0);
    if i < |here| {
      MatchesInside(pats, w[..cut], 0, i);
    }
  }

  /** One push agrees with the whole scan exactly when its cut is clear and the rest agrees. */
  lemma StepAgrees(e: Engine, capacity: nat, pending: ByteString, chunks: seq<ByteString>)
    requires Sound(e) && capacity >= MaxLen(e.patterns) + 3
    requires chunks != [] && chunks[0] != [] && !Check(pending + chunks[0]).Malformed?
    ensures var source := pending + chunks[0];
            var cut := Cut(e, source);
            var w := source + Concat(chunks[1..]);
            StreamRanges(e, capacity, pending, chunks) == Matches(e.patterns, w, 0)
            <==> && !Straddles(e.patterns, w, 0, cut)
                 && StreamRanges(e, capacity, source[cut..], chunks[1..])
                    == Matches(e.patterns, source[cut..] + Concat(chunks[1..]), 0)
  {
    var source, more := pending + chunks[0], Concat(chunks[1..]);
    var w, cut := source + more, Cut(e, source);
    StreamStep(e, capacity, pending, chunks);
    SplitAt(source, cut, more);
    SplitAgrees(e.patterns, w, cut, StreamRanges(e, capacity, source[cut..], chunks[1..]));
  }

  lemma SplitAgrees(pats: Patterns, w: ByteString, cut: nat, later: seq<Match>)
    requires NonEmpty(pats) && cut <= |w|
    ensures Matches(pats, w[..cut], 0) + MovedAll(later, cut) == Matches(pats, w, 0)
       <==> !Straddles(pats, w, 0, cut) && later == Matches(pats, w[cut..], 0)
  {
    if Straddles(pats, w, 0, cut) {
      StraddleIsLost(pats, w, cut, later);
    } else {
      ScanSplits(pats, w, cut);
      SameTail(Matches(pats, w[..cut], 0), later, Matches(pats, w[cut..], 0), cut);
    }
  }

  /**
    For every dictionary and every well-formed input: the stream replaces exactly the ranges the
    one-shot scan replaces if and only if no one-shot match straddles a release cut.
   */
  lemma {:induction false} AgreesIffCutsClear(e: Engine, capacity: nat, pending: ByteString, chunks: seq<ByteString>)
    requires Sound(e) && capacity >= MaxLen(e.patterns) + 3
    requires WellFormed(pending + Concat(chunks))
    ensures StreamRanges(e, capacity, pending, chunks) == Matches(e.patterns, pending + Concat(chunks), 0)
       <==> CutsClear(e, pending, chunks)
    decreases |chunks|
  {
    var w := pending + Concat(chunks);
    if chunks == [] {
      assert w == pending;
      StreamEnd(e, capacity, pending);
    } else {
      var source, more := pending + chunks[0], Concat(chunks[1..]);
      assert w == source + more;
      NotMalformed(source, more);
      if chunks[0] == [] {
        assert source == pending;
        StreamEmptyStep(e, capacity, pending, chunks);
        AgreesIffCutsClear(e, capacity, pending, chunks[1..]);
      } else {
        StepAgrees(e, capacity, pending, chunks);
        ReleasedPrefixIrrelevant(e, source, more);
        AgreesIffCutsClear(e, capacity, source[Cut(e, source)..], chunks[1..]);
      }
    }
  }

  lemma SameTail(head: seq<Match>, a: seq<Match>, b: seq<Match>, n: nat)
    ensures head + MovedAll(a, n) == head + MovedAll(b, n) <==> a == b
  {
    if head + MovedAll(a, n) == head + MovedAll(b, n) {
      assert MovedAll(a, n) == (head + MovedAll(a, n))[|head|..];
      assert MovedAll(b, n) == (head + MovedAll(b, n))[|head|..];
      MovedInjective(a, b, n);
    }
  }

  lemma NotMalformed(source: ByteString, more: ByteString)
    requires WellFormed(source + more)
    ensures !Check(source).Malformed?
  {
    MalformedIffHopeless(source);
  }

  // ---- Agreement of the bytes ----------------------------------------------------------------

  lemma {:induction false} OneShotShifted(e: Engine, a: ByteString, w: ByteString, from: nat)
    requires Usable(e) && from <= |w|
    ensures OneShot(e, a + w, |a| + from) == OneShot(e, w, from)
    decreases |w| - from
  {
    NextShifted(e.patterns, a, w, from);
    match Next(e.patterns, w, from)
    case None =>
      assert (a + w)[|a| + from..] == w[from..];
    case Some(m) =>
      assert (a + w)[|a| + from..|a| + m.start] == w[from..m.start];
      OneShotShifted(e, a, w, m.end);
  }

  lemma OneShotBeyondCut(e: Engine, w: ByteString, from: nat, cut: nat)
    requires Usable(e) && from <= cut <= |w|
    requires var r := Next(e.patterns, w, from);
             r.Some? ==> cut <= r.value.start
    ensures OneShot(e, w, from) == w[from..cut] + OneShot(e, w, cut)
  {
    NextPastCut(e.patterns, w, from, cut);
    match Next(e.patterns, w, from)
    case None =>
      assert w[from..] == w[from..cut] + w[cut..];
    case Some(m) =>
      assert w[from..m.start] == w[from..cut] + w[cut..m.start];
  }

  lemma {:induction false} OneShotAcrossCut(e: Engine, w: ByteString, from: nat, cut: nat)
    requires Usable(e) && from <= cut <= |w| && !Straddles(e.patterns, w, from, cut)
    ensures OneShot(e, w, from) == OneShot(e, w[..cut], from) + OneShot(e, w, cut)
    decreases cut - from
  {
    NextInPrefix(e.patterns, w, cut, from);
    var r := Next(e.patterns, w, from);
    if r.Some? && r.value.end <= cut {
      assert w[..cut][from..r.value.start] == w[from..r.value.start];
      OneShotAcrossCut(e, w, r.value.end, cut);
      Reassociate(w[from..r.value.start] + e.replacements[r.value.pattern], OneShot(e, w[..cut], r.value.end), OneShot(e, w, cut));
    } else {
      assert w[..cut][from..] == w[from..cut];
      OneShotBeyondCut(e, w, from, cut);
    }
  }

  lemma OneShotSplits(e: Engine, w: ByteString, cut: nat)
    requires Usable(e) && cut <= |w| && !Straddles(e.patterns, w, 0, cut)
    ensures OneShot(e, w, 0) == OneShot(e, w[..cut], 0) + OneShot(e, w[cut..], 0)
  {
    OneShotAcrossCut(e, w, 0, cut);
    assert OneShot(e, w, cut) == OneShot(e, w[cut..], 0) by {
      assert w[..cut] + w[cut..] == w;
      OneShotShifted(e, w[..cut], w[cut..], 0);
    }
  }

  /** The segments of a text, flattened, are its one-shot redaction. */
  lemma {:induction false} FlattenedIsOneShot(e: Engine, w: ByteString, from: nat)
    requires Usable(e) && from <= |w|
    ensures Flatten(RedactedFrom(e, w, from)) == OneShot(e, w, from)
    decreases |w| - from
  {
    match Next(e.patterns, w, from)
    case None =>
      FlattenInput(w[from..]);
    case Some(m) =>
      var head := InputUnlessEmpty(w[from..m.start]);
      var rep := Replacement(e.replacements[m.pattern]);
      FlattenInput(w[from..m.start]);
      FlattenedIsOneShot(e, w, m.end);
      assert [rep][1..] == [];
      FlattenSplits(head, [rep]);
      FlattenSplits(head + [rep], RedactedFrom(e, w, m.end));
  }

  lemma FlattenInput(s: ByteString)
    ensures Flatten(InputUnlessEmpty(s)) == s
  {
    if s != [] {
      assert [Input(s)][1..] == [];
    }
  }

  lemma FinishFlattens(e: Engine, capacity: nat, pending: ByteString)
    requires Usable(e) && WellFormed(pending)
    ensures var o := Finished(e, capacity, pending).result;
            o.Ok? && Flatten(o.value) == OneShot(e, pending, 0)
  {
    ValidIffWellFormed(pending);
    assert pending[..|pending|] == pending;
    if pending == [] {
      NextSpec(e.patterns, [], 0);
    } else {
      FlattenedIsOneShot(e, pending, 0);
    }
  }

  /** The run produced exactly the one-shot redaction of `w`. */
  ghost predicate Produces(e: Engine, o: Outcome, w: ByteString)
    requires Usable(e)
  {
    o.result.Ok? && Flatten(o.result.value) == OneShot(e, w, 0)
  }

  lemma JoinProduced(e: Engine, w: ByteString, cut: nat, later: Outcome)
    requires Usable(e) && cut <= |w| && !Straddles(e.patterns, w, 0, cut) && Produces(e, later, w[cut..])
    ensures Produces(e, After(Redacted(e, w[..cut]), later), w)
  {
    FlattenSplits(Redacted(e, w[..cut]), later.result.value);
    FlattenedIsOneShot(e, w[..cut], 0);
    OneShotSplits(e, w, cut);
  }

  lemma PushProduces(e: Engine, capacity: nat, pending: ByteString, chunks: seq<ByteString>)
    requires Sound(e) && capacity >= MaxLen(e.patterns) + 3 && chunks != [] && chunks[0] != []
    requires var source := pending + chunks[0];
             && !Check(source).Malformed?
             && !Straddles(e.patterns, source + Concat(chunks[1..]), 0, Cut(e, source))
             && Produces(e, Feed(e, capacity, source[Cut(e, source)..], Script(chunks[1..])),
                         source[Cut(e, source)..] + Concat(chunks[1..]))
    ensures Produces(e, Feed(e, capacity, pending, Script(chunks)), pending + chunks[0] + Concat(chunks[1..]))
  {
    var source, more := pending + chunks[0], Concat(chunks[1..]);
    var cut := Cut(e, source);
    assert chunks[0..] == chunks;
    ScriptStep(e, capacity, pending, chunks, 0);
    PushOutcome(e, capacity, source);
    SplitAt(source, cut, more);
    JoinProduced(e, source + more, cut, Feed(e, capacity, source[cut..], Script(chunks[1..])));
  }

  lemma EmptyPushProduces(e: Engine, capacity: nat, pending: ByteString, chunks: seq<ByteString>)
    requires Usable(e) && chunks != [] && chunks[0] == []
    ensures Feed(e, capacity, pending, Script(chunks)) == Feed(e, capacity, pending, Script(chunks[1..]))
  {
    assert chunks[0..] == chunks;
    ScriptStep(e, capacity, pending, chunks, 0);
    AfterAfter([], [], Feed(e, capacity, pending, Script(chunks[1..])));
  }

  /** With clear cuts, a run emits exactly the bytes of the one-shot redaction. */
  lemma {:induction false} ClearRunsEqualOneShot(e: Engine, capacity: nat, pending: ByteString, chunks: seq<ByteString>)
    requires Sound(e) && capacity >= MaxLen(e.patterns) + 3
    requires WellFormed(pending + Concat(chunks)) && CutsClear(e, pending, chunks)
    ensures Produces(e, Feed(e, capacity, pending, Script(chunks)), pending + Concat(chunks))
    decreases |chunks|
  {
    if chunks == [] {
      assert pending + Concat(chunks) == pending;
      FinishFlattens(e, capacity, pending);
      FinishStep(e, capacity, pending);
    } else {
      var source, more := pending + chunks[0], Concat(chunks[1..]);
      Reassociate(pending, chunks[0], more);
      if chunks[0] == [] {
        assert source == pending;
        ClearRunsEqualOneShot(e, capacity, pending, chunks[1..]);
        EmptyPushProduces(e, capacity, pending, chunks);
      } else {
        NotMalformed(source, more);
        ReleasedPrefixIrrelevant(e, source, more);
        ClearRunsEqualOneShot(e, capacity, source[Cut(e, source)..], chunks[1..]);
        PushProduces(e, capacity, pending, chunks);
      }
    }
  }
}
