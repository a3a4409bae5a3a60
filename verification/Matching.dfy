/**
  The dictionary scan behind redaction: the non-overlapping `find_iter` of an ASCII-case-insensitive
  multi-pattern searcher with standard match semantics. The next match is the occurrence with the
  earliest end among those that start at or after the previous match end; ties go to the longest
  pattern, then to the lowest pattern index.
 */
module Matching {
  import opened Bytes

  /** `u8::to_ascii_lowercase`. */
  function Lower(b: Byte): Byte {
    if 65 <= b <= 90 then b + 32 else b
  }

  function Fold(s: ByteString): (r: ByteString)
    ensures |r| == |s|
    ensures forall i | 0 <= i < |s| :: r[i] == Lower(s[i])
  {
    seq(|s|, i requires 0 <= i < |s| => Lower(s[i]))
  }

  type Patterns = seq<ByteString>

  predicate NonEmpty(pats: Patterns) {
    forall k | 0 <= k < |pats| :: |pats[k]| > 0
  }

  datatype Match = Match(pattern: nat, start: nat, end: nat)

  predicate Occurs(pats: Patterns, w: ByteString, m: Match) {
    && m.pattern < |pats|
    && m.start <= m.end <= |w|
    && m.end - m.start == |pats[m.pattern]|
    && Fold(w[m.start..m.end]) == Fold(pats[m.pattern])
  }

  /** Earlier end, then earlier start (the longer pattern), then lower index. */
  predicate NoLaterThan(a: Match, b: Match) {
    || a.end < b.end
    || (a.end == b.end && a.start < b.start)
    || (a.end == b.end && a.start == b.start && a.pattern <= b.pattern)
  }

  /** `m` is what the searcher reports next when it resumes at `from`. */
  ghost predicate IsNext(pats: Patterns, w: ByteString, from: nat, m: Match) {
    && Occurs(pats, w, m)
    && from <= m.start
    && forall o | Occurs(pats, w, o) && from <= o.start :: NoLaterThan(m, o)
  }

  ghost predicate NoOccurrence(pats: Patterns, w: ByteString, from: nat) {
    forall o | Occurs(pats, w, o) :: o.start < from
  }

  function FirstPattern(pats: Patterns, w: ByteString, k: nat): (r: Option<nat>)
    requires k <= |pats|
    ensures r.Some? ==> k <= r.value < |pats| && |pats[r.value]| == |w|
    decreases |pats| - k
  {
    if k == |pats| then None
    else if Fold(pats[k]) == Fold(w) then Some(k)
    else FirstPattern(pats, w, k + 1)
  }

  /** The best occurrence that starts at or after `from` and ends exactly at `end`. */
  function FindEndingAt(pats: Patterns, w: ByteString, from: nat, end: nat): (r: Option<Match>)
    requires end <= |w|
    ensures r.Some? ==> r.value.pattern < |pats| && from <= r.value.start < r.value.end == end
    decreases end - from
  {
    if from >= end then None
    else match FirstPattern(pats, w[from..end], 0)
      case Some(k) => Some(Match(k, from, end))
      case None => FindEndingAt(pats, w, from + 1, end)
  }

  function FindFrom(pats: Patterns, w: ByteString, from: nat, end: nat): (r: Option<Match>)
    requires end <= |w| + 1
    ensures r.Some? ==> r.value.pattern < |pats| && from <= r.value.start < r.value.end <= |w|
    decreases |w| + 1 - end
  {
    if end > |w| then None
    else match FindEndingAt(pats, w, from, end)
      case Some(m) => Some(m)
      case None => FindFrom(pats, w, from, end + 1)
  }

  /** The next match at or after `from`, if any. */
  function Next(pats: Patterns, w: ByteString, from: nat): (r: Option<Match>)
    requires NonEmpty(pats) && from <= |w|
    ensures r.Some? ==> r.value.pattern < |pats| && from <= r.value.start < r.value.end <= |w|
  {
    FindFrom(pats, w, from, from)
  }

  lemma {:induction false} FirstPatternSpec(pats: Patterns, w: ByteString, k: nat)
    requires k <= |pats|
    ensures match FirstPattern(pats, w, k)
            case Some(i) => Fold(pats[i]) == Fold(w) && forall j | k <= j < i :: Fold(pats[j]) != Fold(w)
            case None => forall j | k <= j < |pats| :: Fold(pats[j]) != Fold(w)
    decreases |pats| - k
  {
    if k < |pats| && Fold(pats[k]) != Fold(w) {
      FirstPatternSpec(pats, w, k + 1);
    }
  }

  ghost predicate IsBestEndingAt(pats: Patterns, w: ByteString, from: nat, end: nat, m: Match) {
    && Occurs(pats, w, m) && from <= m.start && m.end == end
    && forall o | Occurs(pats, w, o) && from <= o.start && o.end == end :: NoLaterThan(m, o)
  }

  ghost predicate NoneEndsAt(pats: Patterns, w: ByteString, from: nat, end: nat) {
    forall o | Occurs(pats, w, o) && from <= o.start :: o.end != end
  }

  lemma {:induction false} FindEndingAtSpec(pats: Patterns, w: ByteString, from: nat, end: nat)
    requires NonEmpty(pats) && end <= |w|
    ensures match FindEndingAt(pats, w, from, end)
            case Some(m) => IsBestEndingAt(pats, w, from, end, m)
            case None => NoneEndsAt(pats, w, from, end)
    decreases end - from
  {
    if from < end {
      FirstPatternSpec(pats, w[from..end], 0);
      if FirstPattern(pats, w[from..end], 0).None? {
        FindEndingAtSpec(pats, w, from + 1, end);
      }
    }
  }

  lemma {:induction false} FindFromSpec(pats: Patterns, w: ByteString, from: nat, end: nat)
    requires NonEmpty(pats) && end <= |w| + 1
    requires forall o | Occurs(pats, w, o) && from <= o.start :: end <= o.end
    ensures match FindFrom(pats, w, from, end)
            case Some(m) => IsNext(pats, w, from, m)
            case None => NoOccurrence(pats, w, from)
    decreases |w| + 1 - end
  {
    if end <= |w| {
      FindEndingAtSpec(pats, w, from, end);
      if FindEndingAt(pats, w, from, end).None? {
        FindFromSpec(pats, w, from, end + 1);
      }
    }
  }

  /** `Next` computes exactly the specified match. */
  lemma NextSpec(pats: Patterns, w: ByteString, from: nat)
    requires NonEmpty(pats) && from <= |w|
    ensures match Next(pats, w, from)
            case Some(m) => IsNext(pats, w, from, m)
            case None => NoOccurrence(pats, w, from)
  {
    FindFromSpec(pats, w, from, from);
  }

  /** `find_iter`, resumed at `from`. */
  function Matches(pats: Patterns, w: ByteString, from: nat): seq<Match>
    requires NonEmpty(pats) && from <= |w|
    decreases |w| - from
  {
    match Next(pats, w, from)
    case None => []
    case Some(m) => [m] + Matches(pats, w, m.end)
  }

  // ---- The scan is determined by its specification ------------------------------------------

  lemma NextIs(pats: Patterns, w: ByteString, from: nat, m: Match)
    requires NonEmpty(pats) && from <= |w| && IsNext(pats, w, from, m)
    ensures Next(pats, w, from) == Some(m)
  {
    NextSpec(pats, w, from);
    var r := Next(pats, w, from);
    assert r.Some? && NoLaterThan(r.value, m) && NoLaterThan(m, r.value);
  }

  lemma NextNone(pats: Patterns, w: ByteString, from: nat)
    requires NonEmpty(pats) && from <= |w| && NoOccurrence(pats, w, from)
    ensures Next(pats, w, from) == None
  {
    NextSpec(pats, w, from);
  }

  // ---- Truncating and shifting the haystack --------------------------------------------------

  lemma OccursInPrefix(pats: Patterns, w: ByteString, n: nat, m: Match)
    requires n <= |w|
    ensures Occurs(pats, w[..n], m) <==> Occurs(pats, w, m) && m.end <= n
  {
    if m.start <= m.end <= n {
      assert w[..n][m.start..m.end] == w[m.start..m.end];
    }
  }

  /** Earliest-end matching does not look ahead: a truncated haystack reports the same next match. */
  lemma NextInPrefix(pats: Patterns, w: ByteString, n: nat, from: nat)
    requires NonEmpty(pats) && from <= n <= |w|
    ensures var r := Next(pats, w, from);
            Next(pats, w[..n], from) == if r.Some? && r.value.end <= n then r else None
  {
    NextSpec(pats, w, from);
    var r := Next(pats, w, from);
    forall o: Match ensures Occurs(pats, w[..n], o) <==> Occurs(pats, w, o) && o.end <= n {
      OccursInPrefix(pats, w, n, o);
    }
    if r.Some? && r.value.end <= n {
      NextIs(pats, w[..n], from, r.value);
    } else {
      NextNone(pats, w[..n], from);
    }
  }

  function Moved(m: Match, n: nat): Match {
    Match(m.pattern, m.start + n, m.end + n)
  }

  function MovedAll(ms: seq<Match>, n: nat): (r: seq<Match>)
    ensures |r| == |ms|
    ensures forall i | 0 <= i < |ms| :: r[i] == Moved(ms[i], n)
  {
    seq(|ms|, i requires 0 <= i < |ms| => Moved(ms[i], n))
  }

  lemma OccursShifted(pats: Patterns, a: ByteString, w: ByteString, m: Match)
    ensures Occurs(pats, a + w, Moved(m, |a|)) <==> Occurs(pats, w, m)
  {
    if m.start <= m.end <= |w| {
      assert (a + w)[m.start + |a|..m.end + |a|] == w[m.start..m.end];
    }
  }

  function MovedBack(m: Match, n: nat): Match
    requires n <= m.start <= m.end
  {
    Match(m.pattern, m.start - n, m.end - n)
  }

  lemma OccursBack(pats: Patterns, a: ByteString, w: ByteString, o: Match)
    requires Occurs(pats, a + w, o) && |a| <= o.start
    ensures Occurs(pats, w, MovedBack(o, |a|))
  {
    OccursShifted(pats, a, w, MovedBack(o, |a|));
    assert Moved(MovedBack(o, |a|), |a|) == o;
  }

  lemma IsNextShifted(pats: Patterns, a: ByteString, w: ByteString, from: nat, m: Match)
    requires IsNext(pats, w, from, m)
    ensures IsNext(pats, a + w, |a| + from, Moved(m, |a|))
  {
    OccursShifted(pats, a, w, m);
    forall o: Match | Occurs(pats, a + w, o) && |a| + from <= o.start
      ensures NoLaterThan(Moved(m, |a|), o)
    {
      OccursBack(pats, a, w, o);
    }
  }

  /** Scanning from inside a haystack is scanning the rest of it. */
  lemma NextShifted(pats: Patterns, a: ByteString, w: ByteString, from: nat)
    requires NonEmpty(pats) && from <= |w|
    ensures var r := Next(pats, w, from);
            Next(pats, a + w, |a| + from) == if r.Some? then Some(Moved(r.value, |a|)) else None
  {
    NextSpec(pats, w, from);
    var r := Next(pats, w, from);
    if r.Some? {
      IsNextShifted(pats, a, w, from, r.value);
      NextIs(pats, a + w, |a| + from, Moved(r.value, |a|));
    } else {
      forall o: Match | Occurs(pats, a + w, o) ensures o.start < |a| + from {
        if |a| <= o.start { OccursBack(pats, a, w, o); }
      }
      NextNone(pats, a + w, |a| + from);
    }
  }

  lemma {:induction false} MatchesShifted(pats: Patterns, a: ByteString, w: ByteString, from: nat)
    requires NonEmpty(pats) && from <= |w|
    ensures Matches(pats, a + w, |a| + from) == MovedAll(Matches(pats, w, from), |a|)
    decreases |w| - from
  {
    NextShifted(pats, a, w, from);
    var r := Next(pats, w, from);
    if r.Some? {
      MatchesShifted(pats, a, w, r.value.end);
    }
  }

  // ---- Cutting the haystack ------------------------------------------------------------------

  /** Some match of the scan resumed at `from` begins before `cut` and ends after it. */
  predicate Straddles(pats: Patterns, w: ByteString, from: nat, cut: nat)
    requires NonEmpty(pats) && from <= cut <= |w|
    decreases cut - from
  {
    var r := Next(pats, w, from);
    r.Some? && if r.value.end <= cut then Straddles(pats, w, r.value.end, cut) else r.value.start < cut
  }

  lemma NextPastCut(pats: Patterns, w: ByteString, from: nat, cut: nat)
    requires NonEmpty(pats) && from <= cut <= |w|
    requires Next(pats, w, from).Some? ==> cut <= Next(pats, w, from).value.start
    ensures Next(pats, w, cut) == Next(pats, w, from)
  {
    NextSpec(pats, w, from);
    var r := Next(pats, w, from);
    if r.Some? {
      NextIs(pats, w, cut, r.value);
    } else {
      NextNone(pats, w, cut);
    }
  }

  /** Without a straddling match, the two sides of the cut can be scanned separately. */
  lemma {:induction false} MatchesAcrossCut(pats: Patterns, w: ByteString, from: nat, cut: nat)
    requires NonEmpty(pats) && from <= cut <= |w|
    requires !Straddles(pats, w, from, cut)
    ensures Matches(pats, w, from) == Matches(pats, w[..cut], from) + Matches(pats, w, cut)
    decreases cut - from
  {
    NextInPrefix(pats, w, cut, from);
    var r := Next(pats, w, from);
    if r.Some? && r.value.end <= cut {
      MatchesAcrossCut(pats, w, r.value.end, cut);
    } else {
      NextPastCut(pats, w, from, cut);
    }
  }

  predicate Crosses(m: Match, cut: nat) {
    m.start < cut < m.end
  }

  lemma {:induction false} StraddlesHasWitness(pats: Patterns, w: ByteString, from: nat, cut: nat) returns (i: nat)
    requires NonEmpty(pats) && from <= cut <= |w|
    requires Straddles(pats, w, from, cut)
    ensures i < |Matches(pats, w, from)| && Crosses(Matches(pats, w, from)[i], cut)
    decreases cut - from
  {
    var m := Next(pats, w, from).value;
    if m.end <= cut {
      var j := StraddlesHasWitness(pats, w, m.end, cut);
      i := j + 1;
    } else {
      i := 0;
    }
  }

  lemma {:induction false} MatchesInside(pats: Patterns, w: ByteString, from: nat, i: nat)
    requires NonEmpty(pats) && from <= |w| && i < |Matches(pats, w, from)|
    ensures Occurs(pats, w, Matches(pats, w, from)[i]) && from <= Matches(pats, w, from)[i].start
    decreases |w| - from
  {
    NextSpec(pats, w, from);
    var m := Next(pats, w, from).value;
    if i > 0 {
      MatchesInside(pats, w, m.end, i - 1);
    }
  }

  // ---- What the definitions amount to --------------------------------------------------------------

  /** Two bytes match if they are equal, or the same ASCII letter in different cases, and only then. */
  lemma LowerAlikeIff(a: Byte, b: Byte)
    ensures Lower(a) == Lower(b) <==>
            a == b || (65 <= a <= 90 && b == a + 32) || (65 <= b <= 90 && a == b + 32)
  {
  }

  lemma FirstByteMatches(pats: Patterns, w: ByteString, o: Match)
    requires NonEmpty(pats) && Occurs(pats, w, o)
    ensures o.start < |w| && Lower(w[o.start]) == Lower(pats[o.pattern][0])
  {
    assert Fold(w[o.start..o.end])[0] == Fold(pats[o.pattern])[0];
    assert w[o.start..o.end][0] == w[o.start];
  }

  /** `b` and `ab` in `ab`: both end at the same place, the longer one is reported. */
  lemma LongestWins()
    ensures var pats: Patterns := [[98], [97, 98]];
            NonEmpty(pats) && Next(pats, [97, 98], 0) == Some(Match(1, 0, 2))
  {
    var pats: Patterns, w: ByteString := [[98], [97, 98]], [97, 98];
    assert w[0..2] == pats[1];
    forall o | Occurs(pats, w, o) && 0 <= o.start ensures NoLaterThan(Match(1, 0, 2), o) {
      FirstByteMatches(pats, w, o);
      assert o.start == if o.pattern == 0 then 1 else 0;
    }
    NextIs(pats, w, 0, Match(1, 0, 2));
  }

  /** `a` and `A` in `a`: the same length, the pattern listed first is reported. */
  lemma FirstListedWins()
    ensures var pats: Patterns := [[97], [65]];
            NonEmpty(pats) && Next(pats, [97], 0) == Some(Match(0, 0, 1))
  {
    var pats: Patterns, w: ByteString := [[97], [65]], [97];
    assert w[0..1] == pats[0];
    NextIs(pats, w, 0, Match(0, 0, 1));
  }

  /** `abcd` and `bc` in `abcd`: the one that ends first is reported, although the other begins first. */
  lemma EarliestEndWins()
    ensures var pats: Patterns := [[97, 98, 99, 100], [98, 99]];
            NonEmpty(pats) && Next(pats, [97, 98, 99, 100], 0) == Some(Match(1, 1, 3))
  {
    var pats: Patterns, w: ByteString := [[97, 98, 99, 100], [98, 99]], [97, 98, 99, 100];
    assert w[1..3] == pats[1];
    forall o | Occurs(pats, w, o) && 0 <= o.start ensures NoLaterThan(Match(1, 1, 3), o) {
      FirstByteMatches(pats, w, o);
      assert o.start == if o.pattern == 0 then 0 else 1;
    }
    NextIs(pats, w, 0, Match(1, 1, 3));
  }
}
