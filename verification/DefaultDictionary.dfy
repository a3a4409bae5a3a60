/**
  The built-in dictionary: exactly which texts it redacts the same way however they are cut, and a
  stream on which it lets a password through.
 */
module DefaultDictionary {
  import opened Bytes
  import opened Utf8
  import opened Matching
  import opened Redactor
  import opened RedactorRuns
  import opened Fragmentation
  import opened Dictionaries
  import opened ExactCuts

  const DEFAULT_PATTERNS: Patterns := [Ascii("password"), Ascii("secret"), Ascii("ssn")]

  /** An overlap puts the last byte of `a` inside `b`, before its end. */
  lemma OverlapMeetsLast(a: ByteString, b: ByteString, n: nat)
    requires Overlap(a, b, n)
    ensures Lower(b[n - 1]) == Lower(a[|a| - 1])
  {
    assert Fold(a[|a| - n..])[n - 1] == Fold(b[..n])[n - 1];
    assert a[|a| - n..][n - 1] == a[|a| - 1] && b[..n][n - 1] == b[n - 1];
  }

  lemma DefaultIsLowercaseAscii(k: nat)
    requires k < |DEFAULT_PATTERNS|
    ensures forall i | 0 <= i < |DEFAULT_PATTERNS[k]| :: 97 <= DEFAULT_PATTERNS[k][i] <= 122
  {
    assert |DEFAULT_PATTERNS| == 3;
    var password, secret, ssn := "password", "secret", "ssn";
    assert forall i | 0 <= i < |password| :: 97 <= password[i] as int <= 122;
    assert forall i | 0 <= i < |secret| :: 97 <= secret[i] as int <= 122;
    assert forall i | 0 <= i < |ssn| :: 97 <= ssn[i] as int <= 122;
  }

  lemma DefaultLastByteUnique(j: nat)
    requires j < |DEFAULT_PATTERNS|
    ensures forall i | 0 <= i < |DEFAULT_PATTERNS[j]| - 1 ::
              DEFAULT_PATTERNS[j][i] != 'd' as int && DEFAULT_PATTERNS[j][i] != 't' as int && DEFAULT_PATTERNS[j][i] != 'n' as int
  {
    assert |DEFAULT_PATTERNS| == 3;
    var password, secret, ssn := "password", "secret", "ssn";
    assert forall i | 0 <= i < |password| - 1 :: password[i] != 'd' && password[i] != 't' && password[i] != 'n';
    assert forall i | 0 <= i < |secret| - 1 :: secret[i] != 'd' && secret[i] != 't' && secret[i] != 'n';
    assert forall i | 0 <= i < |ssn| - 1 :: ssn[i] != 'd' && ssn[i] != 't' && ssn[i] != 'n';
  }

  lemma DefaultOverlapFree()
    ensures OverlapFree(DEFAULT_PATTERNS)
  {
    forall i, j, n: nat | 0 <= i < |DEFAULT_PATTERNS| && 0 <= j < |DEFAULT_PATTERNS|
      ensures !Overlap(DEFAULT_PATTERNS[i], DEFAULT_PATTERNS[j], n)
    {
      var a, b := DEFAULT_PATTERNS[i], DEFAULT_PATTERNS[j];
      DefaultIsLowercaseAscii(j);
      DefaultLastByteUnique(j);
      assert a[|a| - 1] == 'd' as int || a[|a| - 1] == 't' as int || a[|a| - 1] == 'n' as int;
      if Overlap(a, b, n) {
        OverlapMeetsLast(a, b, n);
      }
    }
  }

  lemma DefaultSound(replacements: seq<ByteString>)
    requires |replacements| == 3
    ensures var e := Engine(DEFAULT_PATTERNS, replacements);
            Sound(e) && Usable(e) && AllLowercase(e.patterns) && MaxLen(e.patterns) == 8
  {
    forall k | 0 <= k < |DEFAULT_PATTERNS| ensures WellFormed(DEFAULT_PATTERNS[k]) && Lowercase(DEFAULT_PATTERNS[k]) {
      DefaultIsLowercaseAscii(k);
      AsciiWellFormed(DEFAULT_PATTERNS[k]);
    }
    assert |DEFAULT_PATTERNS[0]| == 8;
  }

  /**
    The built-in dictionary redacts a text the same way however it is cut if and only if no push can
    end inside a match behind a capital letter of that match.
   */
  lemma DefaultDictionaryIff(replacements: seq<ByteString>, capacity: nat, w: ByteString)
    requires |replacements| == 3 && capacity >= 11 && WellFormed(w)
    ensures var e := Engine(DEFAULT_PATTERNS, replacements);
            Usable(e) && (AgreesOn(e, capacity, w) <==> LowercaseUpToCuts(DEFAULT_PATTERNS, w))
  {
    DefaultSound(replacements);
    DefaultOverlapFree();
    LowercaseIff(Engine(DEFAULT_PATTERNS, replacements), capacity, w);
  }

  /** In particular every stream whose matches have no capitals, lowercase streams among them, comes out as in one piece. */
  lemma DefaultDictionaryStreams(replacements: seq<ByteString>, capacity: nat, chunks: seq<ByteString>)
    requires |replacements| == 3 && capacity >= 11 && WellFormed(Concat(chunks))
    requires NonEmpty(DEFAULT_PATTERNS) && LowercaseUpToCuts(DEFAULT_PATTERNS, Concat(chunks))
    ensures Usable(Engine(DEFAULT_PATTERNS, replacements))
    ensures var e := Engine(DEFAULT_PATTERNS, replacements);
            Produces(e, Feed(e, capacity, [], Script(chunks)), Concat(chunks))
  {
    var e := Engine(DEFAULT_PATTERNS, replacements);
    DefaultSound(replacements);
    DefaultDictionaryIff(replacements, capacity, Concat(chunks));
    AgreementIsOneShot(e, capacity, chunks);
  }

  lemma LowercaseTextIsClear(pats: Patterns, w: ByteString)
    requires NonEmpty(pats) && Lowercase(w)
    ensures LowercaseUpToCuts(pats, w)
  {
  }

  // ---- A capital letter lets a password through --------------------------------------------------

  /** `xxxxxxxxxPASS`. */
  const FIRST_HALF: ByteString := Ascii("xxxxxxxxxPASS")

  /** `WORD`. */
  const SECOND_HALF: ByteString := Ascii("WORD")

  /** An occurrence ends in one of the three last letters. */
  lemma OccurrenceEnds(w: ByteString, o: Match)
    requires Occurs(DEFAULT_PATTERNS, w, o)
    ensures o.start < o.end && (o.pattern == 0 || o.pattern == 1 || o.pattern == 2)
    ensures Lower(w[o.end - 1]) == if o.pattern == 0 then 'd' as int else if o.pattern == 1 then 't' as int else 'n' as int
  {
    var p := DEFAULT_PATTERNS[o.pattern];
    assert |p| > 0;
    var n := |p| - 1;
    assert Fold(w[o.start..o.end])[n] == Fold(p)[n];
    assert w[o.start..o.end][n] == w[o.end - 1];
    assert p[n] == if o.pattern == 0 then 'd' as int else if o.pattern == 1 then 't' as int else 'n' as int;
  }

  lemma FirstHalfLetters()
    ensures |FIRST_HALF| == 13 && FIRST_HALF[12] == 'S' as int
    ensures forall i | 0 <= i < 13 :: FIRST_HALF[i] == 'x' as int || FIRST_HALF[i] == 'P' as int
                                      || FIRST_HALF[i] == 'A' as int || FIRST_HALF[i] == 'S' as int
  {
    var s := "xxxxxxxxxPASS";
    assert forall i | 0 <= i < |s| :: s[i] == 'x' || s[i] == 'P' || s[i] == 'A' || s[i] == 'S';
  }

  lemma SecondHalfLetters()
    ensures SECOND_HALF == ['W' as int, 'O' as int, 'R' as int, 'D' as int]
  {
  }

  lemma FirstHalfIsClean()
    ensures NonEmpty(DEFAULT_PATTERNS) && Next(DEFAULT_PATTERNS, FIRST_HALF, 0) == None
  {
    assert NonEmpty(DEFAULT_PATTERNS);
    FirstHalfLetters();
    NextSpec(DEFAULT_PATTERNS, FIRST_HALF, 0);
    if Next(DEFAULT_PATTERNS, FIRST_HALF, 0).Some? {
      OccurrenceEnds(FIRST_HALF, Next(DEFAULT_PATTERNS, FIRST_HALF, 0).value);
    }
  }

  lemma SecondHalfIsClean()
    ensures NonEmpty(DEFAULT_PATTERNS) && Next(DEFAULT_PATTERNS, SECOND_HALF, 0) == None
  {
    assert NonEmpty(DEFAULT_PATTERNS);
    SecondHalfLetters();
    assert |DEFAULT_PATTERNS[0]| == 8;
    NextSpec(DEFAULT_PATTERNS, SECOND_HALF, 0);
    if Next(DEFAULT_PATTERNS, SECOND_HALF, 0).Some? {
      OccurrenceEnds(SECOND_HALF, Next(DEFAULT_PATTERNS, SECOND_HALF, 0).value);
    }
  }

  /** A capital at the end of the text: nothing is held back. */
  lemma FirstHalfIsReleased()
    ensures SafeLen(DEFAULT_PATTERNS, FIRST_HALF) == 13
  {
    FirstHalfLetters();
    DefaultSound([[], [], []]);
    forall k: nat, p: ByteString | k < |DEFAULT_PATTERNS| && p <= DEFAULT_PATTERNS[k] && p != []
      ensures !EndsWith(FIRST_HALF, p)
    {
      DefaultIsLowercaseAscii(k);
      assert |p| <= 13 ==> FIRST_HALF[13 - |p|..][|p| - 1] == 'S' as int;
    }
    forall len: nat ensures !HoldsBack(DEFAULT_PATTERNS, FIRST_HALF, len) {
      forall k: nat | k < |DEFAULT_PATTERNS| ensures !EndsInPrefix(DEFAULT_PATTERNS, FIRST_HALF, k, len) {
        assert 1 <= len < |DEFAULT_PATTERNS[k]| ==> DEFAULT_PATTERNS[k][..len] <= DEFAULT_PATTERNS[k];
      }
    }
    RetainIs(DEFAULT_PATTERNS, FIRST_HALF, 0);
    SafeLenIs(DEFAULT_PATTERNS, FIRST_HALF);
  }

  lemma PasswordFolds()
    ensures var w := FIRST_HALF + SECOND_HALF;
            |w| == 17 && Fold(w[9..17]) == Fold(DEFAULT_PATTERNS[0])
  {
    var w, p := FIRST_HALF + SECOND_HALF, DEFAULT_PATTERNS[0];
    var first, second, password := "xxxxxxxxxPASS", "WORD", "password";
    assert |first| == 13 && |second| == 4 && |password| == 8;
    forall i | 0 <= i < 8 ensures Lower(w[9..17][i]) == Lower(p[i]) {
      assert w[9..17][i] == if i < 4 then FIRST_HALF[9 + i] else SECOND_HALF[i - 4];
      assert i < 4 ==> first[9 + i] as int + 32 == password[i] as int;
      assert i >= 4 ==> second[i - 4] as int + 32 == password[i] as int;
    }
  }

  lemma OnlyPassword(o: Match)
    requires Occurs(DEFAULT_PATTERNS, FIRST_HALF + SECOND_HALF, o)
    ensures o == Match(0, 9, 17)
  {
    FirstHalfLetters();
    SecondHalfLetters();
    OccurrenceEnds(FIRST_HALF + SECOND_HALF, o);
    assert |DEFAULT_PATTERNS[0]| == 8;
  }

  lemma PasswordIsFound()
    ensures NonEmpty(DEFAULT_PATTERNS)
    ensures Next(DEFAULT_PATTERNS, FIRST_HALF + SECOND_HALF, 0) == Some(Match(0, 9, 17))
  {
    var w := FIRST_HALF + SECOND_HALF;
    assert NonEmpty(DEFAULT_PATTERNS) && |DEFAULT_PATTERNS[0]| == 8;
    PasswordFolds();
    assert Occurs(DEFAULT_PATTERNS, w, Match(0, 9, 17));
    forall o | Occurs(DEFAULT_PATTERNS, w, o) && 0 <= o.start ensures NoLaterThan(Match(0, 9, 17), o) {
      OnlyPassword(o);
    }
    NextIs(DEFAULT_PATTERNS, w, 0, Match(0, 9, 17));
  }

  lemma HalvesWellFormed()
    ensures WellFormed(FIRST_HALF) && WellFormed(SECOND_HALF) && WellFormed(FIRST_HALF + SECOND_HALF)
  {
    FirstHalfLetters();
    SecondHalfLetters();
    AsciiWellFormed(FIRST_HALF);
    AsciiWellFormed(SECOND_HALF);
    WellFormedSum(FIRST_HALF, SECOND_HALF);
  }

  /** The capitals of the match come before the end of the first chunk. */
  lemma CapitalsBeforeCut()
    ensures NonEmpty(DEFAULT_PATTERNS) && !LowercaseUpToCuts(DEFAULT_PATTERNS, FIRST_HALF + SECOND_HALF)
  {
    var w := FIRST_HALF + SECOND_HALF;
    PasswordIsFound();
    FirstHalfLetters();
    SecondHalfLetters();
    DefaultSound([[], [], []]);
    assert Matches(DEFAULT_PATTERNS, w, 0)[0] == Match(0, 9, 17);
    assert PushEnd(DEFAULT_PATTERNS, w, 13);
    assert w[9..13][3] == 'S' as int;
    assert !Lowercase(w[9..13]);
  }

  lemma CleanTextStays(e: Engine, text: ByteString)
    requires Usable(e) && Next(e.patterns, text, 0) == None
    ensures Flatten(Redacted(e, text)) == text
  {
    FlattenedIsOneShot(e, text, 0);
    assert text[0..] == text;
  }

  lemma HalfLengths()
    ensures |FIRST_HALF| == 13 && |SECOND_HALF| == 4 && MaxLen(DEFAULT_PATTERNS) == 8
  {
    DefaultSound([[], [], []]);
  }

  lemma HalvesComeThrough(e: Engine, capacity: nat)
    requires Sound(e) && e.patterns == DEFAULT_PATTERNS && capacity >= MaxLen(e.patterns) + 3
    ensures var o := Feed(e, capacity, [], Script([FIRST_HALF, SECOND_HALF]));
            o.result.Ok? && Flatten(o.result.value) == FIRST_HALF + SECOND_HALF
  {
    var chunks := [FIRST_HALF, SECOND_HALF];
    assert chunks[0..] == chunks && chunks[2..] == [];
    HalvesWellFormed();
    HalfLengths();
    ScriptStep(e, capacity, [], chunks, 0);
    FirstHalfIsReleased();
    PushReleasesAll(e, capacity, FIRST_HALF);
    ScriptStep(e, capacity, [], chunks, 1);
    PushHoldsAll(e, capacity, SECOND_HALF);
    FinishStep(e, capacity, SECOND_HALF);
    FinishReleasesAll(e, capacity, SECOND_HALF);
    FlattenSplits(Redacted(e, FIRST_HALF), [] + Redacted(e, SECOND_HALF));
    assert [] + Redacted(e, SECOND_HALF) == Redacted(e, SECOND_HALF);
    FirstHalfIsClean();
    SecondHalfIsClean();
    CleanTextStays(e, FIRST_HALF);
    CleanTextStays(e, SECOND_HALF);
  }

  lemma PushReleasesAll(e: Engine, capacity: nat, text: ByteString)
    requires Sound(e) && capacity >= MaxLen(e.patterns) + 3 && WellFormed(text) && text != []
    requires SafeLen(e.patterns, text) == |text|
    ensures Pushed(e, capacity, [], text) == Outcome([], Ok(Redacted(e, text)))
  {
    ValidIffWellFormed(text);
    assert [] + text == text && text[..|text|] == text && text[|text|..] == [];
    PushOutcome(e, capacity, text);
  }

  lemma PushHoldsAll(e: Engine, capacity: nat, text: ByteString)
    requires Sound(e) && capacity >= MaxLen(e.patterns) + 3 && WellFormed(text) && 0 < |text| <= MaxLen(e.patterns)
    ensures Pushed(e, capacity, [], text) == Outcome(text, Ok([]))
  {
    ValidIffWellFormed(text);
    assert [] + text == text && text[..|text|] == text && text[..0] == [] && text[0..] == text;
    PushOutcome(e, capacity, text);
    NextSpec(e.patterns, [], 0);
  }

  lemma FinishReleasesAll(e: Engine, capacity: nat, text: ByteString)
    requires Sound(e) && WellFormed(text) && text != []
    ensures Finished(e, capacity, text) == Outcome([], Ok(Redacted(e, text)))
  {
    ValidIffWellFormed(text);
    assert text[..|text|] == text && text[|text|..] == [];
  }

  /**
    `xxxxxxxxxPASS` and then `WORD`: one-shot redaction replaces the password, the stream sends it on
    in clear.
   */
  lemma DefaultDictionaryLeaks(replacements: seq<ByteString>, capacity: nat)
    requires |replacements| == 3 && capacity >= 11
    ensures var (e, w) := (Engine(DEFAULT_PATTERNS, replacements), FIRST_HALF + SECOND_HALF);
            && Usable(e) && |w| == 17 && WellFormed(w)
            && OneShot(e, w, 0) == w[..9] + replacements[0]
            && Feed(e, capacity, [], Script([FIRST_HALF, SECOND_HALF])).result.Ok?
            && Flatten(Feed(e, capacity, [], Script([FIRST_HALF, SECOND_HALF])).result.value) == w
            && !AgreesOn(e, capacity, w)
  {
    var e, w := Engine(DEFAULT_PATTERNS, replacements), FIRST_HALF + SECOND_HALF;
    DefaultSound(replacements);
    HalvesWellFormed();
    PasswordFolds();
    PasswordIsFound();
    PasswordReplaced(e, w);
    HalvesComeThrough(e, capacity);
    CapitalsBeforeCut();
    DefaultDictionaryIff(replacements, capacity, w);
  }

  lemma PasswordReplaced(e: Engine, w: ByteString)
    requires Usable(e) && |e.patterns| == 3 && |w| == 17 && Next(e.patterns, w, 0) == Some(Match(0, 9, 17))
    ensures OneShot(e, w, 0) == w[..9] + e.replacements[0]
  {
    NextSpec(e.patterns, w, 17);
    assert OneShot(e, w, 17) == [];
    assert w[0..9] == w[..9] && w[17..] == [];
  }
}
