/**
  UTF-8 acceptance as `std::str::from_utf8` reports it: fully valid, valid up to a position after
  which the input merely stops inside a character, or malformed.
  The reference is the grammar of section 4 of RFC 3629.
 */
module Utf8 {
  import opened Bytes

  predicate IsTail(b: Byte) {
    0x80 <= b <= 0xBF
  }

  /** The bytes that may follow a lead byte of a three or four byte character. */
  predicate SecondFits(lead: Byte, b: Byte) {
    if lead == 0xE0 then 0xA0 <= b <= 0xBF
    else if lead == 0xED then 0x80 <= b <= 0x9F
    else if lead == 0xF0 then 0x90 <= b <= 0xBF
    else if lead == 0xF4 then 0x80 <= b <= 0x8F
    else IsTail(b)
  }

  /** Section 4 of RFC 3629: UTF8-char = UTF8-1 / UTF8-2 / UTF8-3 / UTF8-4. */
  predicate IsChar(c: ByteString) {
    || (|c| == 1 && c[0] <= 0x7F)
    || (|c| == 2 && 0xC2 <= c[0] <= 0xDF && IsTail(c[1]))
    || (|c| == 3 && 0xE0 <= c[0] <= 0xEF && SecondFits(c[0], c[1]) && IsTail(c[2]))
    || (|c| == 4 && 0xF0 <= c[0] <= 0xF4 && SecondFits(c[0], c[1]) && IsTail(c[2]) && IsTail(c[3]))
  }

  predicate AllChars(chars: seq<ByteString>) {
    forall i | 0 <= i < |chars| :: IsChar(chars[i])
  }

  /** Section 4 of RFC 3629: UTF8-octets = *( UTF8-char ). */
  ghost predicate WellFormed(s: ByteString) {
    exists chars: seq<ByteString> :: AllChars(chars) && Concat(chars) == s
  }

  datatype Head = Complete(len: nat) | Incomplete | Invalid

  /** What the first character of `s` looks like: complete, cut off by the end of input, or wrong. */
  function HeadOf(s: ByteString): (h: Head)
    requires |s| > 0
    ensures h.Complete? ==> 1 <= h.len <= 4 && h.len <= |s| && IsChar(s[..h.len])
  {
    var b := s[0];
    if b <= 0x7F then Complete(1)
    else if 0xC2 <= b <= 0xDF then
      if |s| < 2 then Incomplete
      else if !IsTail(s[1]) then Invalid
      else Complete(2)
    else if 0xE0 <= b <= 0xEF then
      if |s| < 2 then Incomplete
      else if !SecondFits(b, s[1]) then Invalid
      else if |s| < 3 then Incomplete
      else if !IsTail(s[2]) then Invalid
      else Complete(3)
    else if 0xF0 <= b <= 0xF4 then
      if |s| < 2 then Incomplete
      else if !SecondFits(b, s[1]) then Invalid
      else if |s| < 3 then Incomplete
      else if !IsTail(s[2]) then Invalid
      else if |s| < 4 then Incomplete
      else if !IsTail(s[3]) then Invalid
      else Complete(4)
    else Invalid
  }

  datatype Verdict = Valid | Truncated(validUpTo: nat) | Malformed

  function Shifted(v: Verdict, n: nat): Verdict {
    if v.Truncated? then Truncated(n + v.validUpTo) else v
  }

  /** `from_utf8`: `Valid` is `Ok`, `Truncated` is an error with `error_len() == None`. */
  function Check(s: ByteString): (v: Verdict)
    ensures v.Truncated? ==> v.validUpTo < |s| <= v.validUpTo + 3
    decreases |s|
  {
    if s == [] then Valid
    else match HeadOf(s)
      case Complete(n) => Shifted(Check(s[n..]), n)
      case Incomplete => Truncated(0)
      case Invalid => Malformed
  }

  /** Length of the accepted part, `valid_up_to()` of the error or the whole text. */
  function ValidLen(s: ByteString): (n: nat)
    requires Check(s) != Malformed
    ensures n <= |s| <= n + 3
  {
    match Check(s)
    case Valid => |s|
    case Truncated(k) => k
  }

  /** `str::is_char_boundary`. */
  predicate IsBoundary(s: ByteString, i: nat)
    requires i <= |s|
  {
    i == 0 || i == |s| || !IsTail(s[i])
  }

  // ---- The scanner accepts exactly the grammar -------------------------------------------

  lemma HeadIsFirstChar(c: ByteString, rest: ByteString)
    requires IsChar(c)
    ensures |c + rest| > 0 && HeadOf(c + rest) == Complete(|c|)
  {
    var s := c + rest;
    assert forall i | 0 <= i < |c| :: s[i] == c[i];
  }

  lemma CheckPastChar(c: ByteString, rest: ByteString)
    requires IsChar(c)
    ensures Check(c + rest) == Shifted(Check(rest), |c|)
  {
    HeadIsFirstChar(c, rest);
    assert (c + rest)[|c|..] == rest;
  }

  lemma {:induction false} GrammarChecks(chars: seq<ByteString>, rest: ByteString)
    requires AllChars(chars)
    ensures Check(Concat(chars) + rest) == Shifted(Check(rest), |Concat(chars)|)
  {
    if |chars| == 0 {
      assert Concat(chars) + rest == rest;
    } else {
      var c, tail := chars[0], Concat(chars[1..]);
      GrammarChecks(chars[1..], rest);
      CheckPastChar(c, tail + rest);
      Reassociate(c, tail, rest);
    }
  }

  /** The accepted prefix, split into characters. */
  ghost function CharsOf(s: ByteString): (chars: seq<ByteString>)
    requires Check(s) != Malformed
    ensures AllChars(chars)
    ensures Concat(chars) == s[..ValidLen(s)]
    decreases |s|
  {
    if s == [] then []
    else match HeadOf(s)
      case Complete(n) =>
        var rest := CharsOf(s[n..]);
        var chars := [s[..n]] + rest;
        assert chars[1..] == rest;
        TakeSplits(s, n, ValidLen(s[n..]));
        chars
      case Incomplete => []
  }

  /** `from_utf8` returns `Ok` exactly on the well-formed strings. */
  lemma {:induction false} ValidIffWellFormed(s: ByteString)
    ensures Check(s).Valid? <==> WellFormed(s)
  {
    if Check(s).Valid? {
      assert Concat(CharsOf(s)) == s[..|s|] == s;
    }
    if WellFormed(s) {
      var chars: seq<ByteString> :| AllChars(chars) && Concat(chars) == s;
      GrammarChecks(chars, []);
      assert s + [] == s;
    }
  }

  /** The reported position really ends a well-formed prefix. */
  lemma ValidPrefixWellFormed(s: ByteString)
    requires Check(s) != Malformed
    ensures WellFormed(s[..ValidLen(s)])
  {
    assert Concat(CharsOf(s)) == s[..ValidLen(s)];
  }

  /** Checking may resume after any well-formed prefix. */
  lemma CheckAfter(a: ByteString, b: ByteString)
    requires WellFormed(a)
    ensures Check(a + b) == Shifted(Check(b), |a|)
  {
    var chars: seq<ByteString> :| AllChars(chars) && Concat(chars) == a;
    GrammarChecks(chars, b);
  }

  lemma WellFormedSum(a: ByteString, b: ByteString)
    requires WellFormed(a)
    ensures WellFormed(a + b) <==> WellFormed(b)
  {
    CheckAfter(a, b);
    ValidIffWellFormed(b);
    ValidIffWellFormed(a + b);
  }

  // ---- Streaming facts ---------------------------------------------------------------------

  /** A malformed head stays malformed, an incomplete one can still turn out either way. */
  lemma HeadGrows(s: ByteString, more: ByteString)
    requires |s| > 0
    ensures HeadOf(s).Invalid? ==> HeadOf(s + more).Invalid?
    ensures HeadOf(s).Complete? ==> HeadOf(s + more) == HeadOf(s)
  {
    assert forall i | 0 <= i < |s| :: (s + more)[i] == s[i];
  }

  /** Rejection is final: no further bytes can repair malformed input. */
  lemma {:induction false} MalformedIsFinal(s: ByteString, more: ByteString)
    requires Check(s).Malformed?
    ensures Check(s + more).Malformed?
    decreases |s|
  {
    HeadGrows(s, more);
    if HeadOf(s).Complete? {
      var n := HeadOf(s).len;
      assert (s + more)[n..] == s[n..] + more;
      MalformedIsFinal(s[n..], more);
    }
  }

  /** A cut-off character can always be completed. */
  ghost function Completion(s: ByteString): (more: ByteString)
    requires |s| > 0 && HeadOf(s).Incomplete?
    ensures IsChar(s + more)
  {
    var b := s[0];
    var second := if b == 0xE0 || b == 0xF0 then 0xA0 else 0x80;
    if 0xC2 <= b <= 0xDF then [0x80]
    else if b <= 0xEF then (if |s| == 1 then [second, 0x80] else [0x80])
    else if |s| == 1 then [second, 0x80, 0x80]
    else if |s| == 2 then [0x80, 0x80]
    else [0x80]
  }

  lemma {:induction false} RepairableUnlessMalformed(s: ByteString) returns (more: ByteString)
    requires !Check(s).Malformed?
    ensures WellFormed(s + more)
    decreases |s|
  {
    if s == [] {
      more := [];
      assert AllChars([]) && Concat([]) == s + more;
    } else if HeadOf(s).Complete? {
      var n := HeadOf(s).len;
      more := RepairableUnlessMalformed(s[n..]);
      CharWellFormed(s[..n]);
      WellFormedSum(s[..n], s[n..] + more);
      SplitAt(s, n, more);
    } else {
      more := Completion(s);
      ConcatOne(s + more);
      assert AllChars([s + more]);
    }
  }

  /** `Malformed` is exactly "no continuation of this input is well-formed". */
  lemma MalformedIffHopeless(s: ByteString)
    ensures Check(s).Malformed? <==> forall more: ByteString :: !WellFormed(s + more)
  {
    if Check(s).Malformed? {
      forall more: ByteString ensures !WellFormed(s + more) {
        MalformedIsFinal(s, more);
        ValidIffWellFormed(s + more);
      }
    } else {
      var more := RepairableUnlessMalformed(s);
    }
  }

  // ---- Boundaries --------------------------------------------------------------------------

  lemma LeadIsNoTail(s: ByteString)
    requires |s| > 0 && !Check(s).Malformed?
    ensures !IsTail(s[0])
  {
  }

  /** Cutting well-formed text where `is_char_boundary` holds leaves two well-formed halves. */
  lemma {:induction false} BoundarySplits(s: ByteString, i: nat)
    requires WellFormed(s) && i <= |s| && IsBoundary(s, i)
    ensures WellFormed(s[..i]) && WellFormed(s[i..])
    decreases |s|
  {
    EmptyWellFormed();
    if i == 0 {
      assert s[..i] == [] && s[i..] == s;
    } else if i == |s| {
      assert s[..i] == s && s[i..] == [];
    } else {
      ValidIffWellFormed(s);
      var n := HeadOf(s).len;
      BoundaryPastHead(s, i);
      HeadPeels(s);
      BoundarySplits(s[n..], i - n);
      HeadJoins(s, n, i);
    }
  }

  lemma HeadPeels(s: ByteString)
    requires WellFormed(s) && |s| > 0 && HeadOf(s).Complete?
    ensures WellFormed(s[HeadOf(s).len..])
  {
    var n := HeadOf(s).len;
    CharWellFormed(s[..n]);
    WellFormedSum(s[..n], s[n..]);
    assert s[..n] + s[n..] == s;
  }

  lemma HeadJoins(s: ByteString, n: nat, i: nat)
    requires n <= i <= |s| && IsChar(s[..n]) && WellFormed(s[n..][..i - n]) && WellFormed(s[n..][i - n..])
    ensures WellFormed(s[..i]) && WellFormed(s[i..])
  {
    CharWellFormed(s[..n]);
    WellFormedSum(s[..n], s[n..][..i - n]);
    assert s[..n] + s[n..][..i - n] == s[..i];
    assert s[n..][i - n..] == s[i..];
  }

  lemma EmptyWellFormed()
    ensures WellFormed([])
  {
    assert AllChars([]) && Concat([]) == [];
  }

  lemma CharWellFormed(c: ByteString)
    requires IsChar(c)
    ensures WellFormed(c)
  {
    ConcatOne(c);
    assert AllChars([c]);
  }

  lemma BoundaryPastHead(s: ByteString, i: nat)
    requires 0 < i < |s| && HeadOf(s).Complete? && !IsTail(s[i])
    ensures HeadOf(s).len <= i && IsBoundary(s[HeadOf(s).len..], i - HeadOf(s).len)
  {
  }
}
