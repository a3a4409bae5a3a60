/**
  What a push holds back, said without the functions that compute it: everything while the text is no
  longer than a pattern, nothing behind a complete pattern, and otherwise the longest ending of the text
  that begins a pattern.
 */
module ReleaseRule {
  import opened Bytes
  import opened Utf8
  import opened Matching
  import opened Redactor
  import opened RedactorRuns
  import opened Fragmentation
  import opened Dictionaries
  import opened ExactCuts

  /** Some pattern is at least as long as the text. */
  predicate Short(pats: Patterns, text: ByteString) {
    exists k | 0 <= k < |pats| :: |text| <= |pats[k]|
  }

  /** The text ends in a complete pattern. */
  predicate Closed(pats: Patterns, text: ByteString) {
    exists k | 0 <= k < |pats| :: EndsWith(text, pats[k])
  }

  /** The bytes are the beginning of a pattern, and not all of it. */
  predicate Begins(pats: Patterns, bytes: ByteString) {
    exists k | 0 <= k < |pats| :: bytes <= pats[k] && bytes != pats[k]
  }

  function Ending(text: ByteString, m: nat): ByteString
    requires m <= |text|
  {
    text[|text| - m..]
  }

  /** No ending of the text of more than `n` bytes begins a pattern. */
  predicate NoneLonger(pats: Patterns, text: ByteString, n: nat) {
    forall m: nat | n < m <= |text| :: !Begins(pats, Ending(text, m))
  }

  /** `kept` is what must be held back of `text`. */
  predicate Keeps(pats: Patterns, text: ByteString, kept: ByteString) {
    && EndsWith(text, kept)
    && if text == [] || Short(pats, text) then kept == text
       else if Closed(pats, text) then kept == []
       else (kept == [] || Begins(pats, kept)) && NoneLonger(pats, text, |kept|)
  }

  /** The rule says exactly one thing about every text. */
  lemma KeepsIsUnique(pats: Patterns, text: ByteString, a: ByteString, b: ByteString)
    requires Keeps(pats, text, a) && Keeps(pats, text, b)
    ensures a == b
  {
    NotLonger(pats, text, a, b);
    NotLonger(pats, text, b, a);
    assert a == Ending(text, |a|) == b;
  }

  lemma NotLonger(pats: Patterns, text: ByteString, a: ByteString, b: ByteString)
    requires Keeps(pats, text, a) && Keeps(pats, text, b)
    ensures |a| >= |b|
  {
    assert b == Ending(text, |b|);
    if text != [] && !Short(pats, text) && !Closed(pats, text) && b != [] {
      assert Begins(pats, Ending(text, |b|));
    }
  }

  lemma ShortIffMaxLen(pats: Patterns, text: ByteString)
    requires text != []
    ensures Short(pats, text) <==> |text| <= MaxLen(pats)
  {
    if |text| <= MaxLen(pats) {
      var k :| 0 <= k < |pats| && |pats[k]| == MaxLen(pats);
    }
  }

  /** A nonempty ending of a long text begins a pattern exactly if the retention loops count it. */
  lemma BeginsIffHeld(pats: Patterns, text: ByteString, m: nat)
    requires 1 <= m <= |text| && |text| > MaxLen(pats)
    ensures Begins(pats, Ending(text, m)) <==> HoldsBack(pats, text, m)
  {
    var bytes := Ending(text, m);
    forall k | 0 <= k < |pats| ensures (bytes <= pats[k] && bytes != pats[k]) <==> EndsInPrefix(pats, text, k, m) {
      assert |pats[k]| <= MaxLen(pats);
      BeginsOne(pats[k], bytes);
    }
  }

  lemma BeginsOne(p: ByteString, bytes: ByteString)
    ensures bytes <= p && bytes != p <==> |bytes| < |p| && p[..|bytes|] == bytes
  {
  }

  lemma RetainKeeps(pats: Patterns, text: ByteString, r: nat)
    requires |text| > MaxLen(pats) && r == Retain(pats, text, |text|)
    ensures r == 0 || Begins(pats, Ending(text, r))
    ensures NoneLonger(pats, text, r)
  {
    if r > 0 {
      BeginsIffHeld(pats, text, r);
    }
    forall m: nat | r < m <= |text| ensures !Begins(pats, Ending(text, m)) {
      BeginsIffHeld(pats, text, m);
    }
  }

  lemma LongTextKeeps(pats: Patterns, text: ByteString, cut: nat, r: nat)
    requires |text| > MaxLen(pats) && r <= |text| && cut == if EndsWithPattern(pats, text) then |text| else |text| - r
    requires (r == 0 || Begins(pats, Ending(text, r))) && NoneLonger(pats, text, r)
    ensures Keeps(pats, text, text[cut..])
  {
    ShortIffMaxLen(pats, text);
    assert text[|text|..] == [];
    assert Ending(text, r) == text[|text| - r..];
  }

  lemma CutKeeps(e: Engine, text: ByteString, cut: nat)
    requires Sound(e) && cut == SafeLen(e.patterns, text)
    ensures Keeps(e.patterns, text, text[cut..])
  {
    if |text| > MaxLen(e.patterns) {
      SoundIsAligned(e, text);
      CutFrom(e.patterns, text);
      var r := Retain(e.patterns, text, |text|);
      RetainKeeps(e.patterns, text, r);
      LongTextKeeps(e.patterns, text, cut, r);
    } else {
      assert text[0..] == text;
      if text != [] {
        ShortIffMaxLen(e.patterns, text);
      }
    }
  }

  lemma PushCuts(e: Engine, capacity: nat, pending: ByteString, chunk: ByteString, source: ByteString, text: ByteString, cut: nat)
    requires Sound(e) && capacity >= MaxLen(e.patterns) + 3 && chunk != []
    requires source == pending + chunk && !Check(source).Malformed? && text == source[..ValidLen(source)]
    requires cut == SafeLen(e.patterns, text)
    ensures var o := Pushed(e, capacity, pending, chunk);
            && o.pending == source[cut..]
            && o.result.Ok? && Flatten(o.result.value) == OneShot(e, source[..cut], 0)
  {
    PushOutcome(e, capacity, source);
    FlattenedIsOneShot(e, source[..cut], 0);
  }

  /**
    Every push that does not fail on malformed input cuts the complete characters read so far, `n` bytes,
    where the rule says; everything behind the cut stays, a cut-off character included, and what is
    emitted is the one-shot redaction of what is in front of it.
   */
  lemma PushKeeps(e: Engine, capacity: nat, pending: ByteString, chunk: ByteString, source: ByteString) returns (n: nat, cut: nat)
    requires Sound(e) && capacity >= MaxLen(e.patterns) + 3 && chunk != []
    requires source == pending + chunk && !Check(source).Malformed?
    ensures n == ValidLen(source) && cut <= n && Keeps(e.patterns, source[..n], source[..n][cut..])
    ensures var o := Pushed(e, capacity, pending, chunk);
            && o.pending == source[cut..]
            && o.result.Ok? && Flatten(o.result.value) == OneShot(e, source[..cut], 0)
  {
    n := ValidLen(source);
    cut := Cut(e, source);
    assert Keeps(e.patterns, source[..n], source[..n][cut..]) by {
      CutKeeps(e, source[..n], cut);
    }
    PushCuts(e, capacity, pending, chunk, source, source[..n], cut);
  }

  /** A text that ends in a complete pattern, whichever it is, is released and redacted whole. */
  lemma WholePatternIsReleased(e: Engine, capacity: nat, w: ByteString, k: nat)
    requires Sound(e) && capacity >= MaxLen(e.patterns) + 3 && WellFormed(w) && |w| > MaxLen(e.patterns)
    requires k < |e.patterns| && EndsWith(w, e.patterns[k])
    ensures var o := Pushed(e, capacity, [], w);
            o.pending == [] && o.result.Ok? && Flatten(o.result.value) == OneShot(e, w, 0)
  {
    ValidIffWellFormed(w);
    assert [] + w == w && w[..|w|] == w && w[|w|..] == [];
    var n, cut := PushKeeps(e, capacity, [], w, w);
    NothingKept(e.patterns, w, w[cut..], k);
    assert w[..cut] == w;
  }

  lemma NothingKept(pats: Patterns, text: ByteString, kept: ByteString, k: nat)
    requires |text| > MaxLen(pats) && Keeps(pats, text, kept) && k < |pats| && EndsWith(text, pats[k])
    ensures kept == []
  {
    ShortIffMaxLen(pats, text);
    assert Closed(pats, text);
  }
}
