/**
  Reading the head of a CONNECT request: bytes are taken one at a time until the blank line that
  ends the head (section 2.1 of RFC 9112), with a limit on the head's length.
 */
module ConnectHead {
  import opened Bytes

  const MAX_CONNECT_HEADERS: nat := 4096
  const TERMINATOR: ByteString := [13, 10, 13, 10]

  datatype HeadResult = Head(bytes: ByteString) | TooLong | ReadFailed

  /** The terminator ends exactly at `end`, and none ends before it. */
  ghost predicate FirstEnd(s: ByteString, end: nat) {
    && end <= |s| && EndsWith(s[..end], TERMINATOR)
    && forall e | 0 <= e < end :: !EndsWith(s[..e], TERMINATOR)
  }

  ghost predicate NoEndWithin(s: ByteString, limit: nat) {
    forall e | 0 <= e <= Min(limit, |s|) :: !EndsWith(s[..e], TERMINATOR)
  }

  /** `state` is the longest proper prefix of the terminator that `w` ends in. */
  ghost predicate Follows(state: nat, w: ByteString) {
    && state <= 3 && EndsWith(w, TERMINATOR[..state])
    && (state < 1 ==> !EndsWith(w, TERMINATOR[..1]))
    && (state < 2 ==> !EndsWith(w, TERMINATOR[..2]))
    && (state < 3 ==> !EndsWith(w, TERMINATOR[..3]))
  }

  function Advance(state: nat, b: Byte): nat {
    if state == 0 && b == 13 then 1
    else if state == 1 && b == 10 then 2
    else if state == 2 && b == 13 then 3
    else if b == 13 then 1
    else 0
  }

  lemma EndsWithByte(w: ByteString, b: Byte, k: nat)
    requires 1 <= k <= 4
    ensures EndsWith(w + [b], TERMINATOR[..k]) <==> EndsWith(w, TERMINATOR[..k - 1]) && b == TERMINATOR[k - 1]
  {
    var v := w + [b];
    var t := TERMINATOR[..k];
    assert t == TERMINATOR[..k - 1] + [TERMINATOR[k - 1]];
    if k <= |v| {
      assert v[|v| - k..] == w[|w| - (k - 1)..] + [b];
    }
  }

  /** The four-state machine recognises the terminator wherever it ends. */
  lemma AdvanceFollows(state: nat, w: ByteString, b: Byte)
    requires Follows(state, w)
    ensures EndsWith(w + [b], TERMINATOR) <==> state == 3 && b == 10
    ensures !(state == 3 && b == 10) ==> Follows(Advance(state, b), w + [b])
  {
    PrefixOfPrefix(w, state);
    assert EndsWith(w + [b], TERMINATOR) <==> state == 3 && b == 10 by {
      EndsWithByte(w, b, 4);
      assert TERMINATOR[..4] == TERMINATOR;
    }
    assert EndsWith(w + [b], TERMINATOR[..1]) <==> b == 13 by { EndsWithByte(w, b, 1); }
    assert EndsWith(w + [b], TERMINATOR[..2]) <==> (state == 1 || state == 3) && b == 10 by { EndsWithByte(w, b, 2); }
    assert EndsWith(w + [b], TERMINATOR[..3]) <==> state == 2 && b == 13 by { EndsWithByte(w, b, 3); }
    assert EndsWith(w + [b], TERMINATOR[..0]) by { assert (w + [b])[|w + [b]|..] == []; }
  }

  /** Ending in a longer prefix of the terminator says which shorter ones the text ends in. */
  lemma PrefixOfPrefix(w: ByteString, state: nat)
    requires state <= 3 && EndsWith(w, TERMINATOR[..state])
    ensures EndsWith(w, TERMINATOR[..0])
    ensures state == 3 ==> EndsWith(w, TERMINATOR[..1]) && !EndsWith(w, TERMINATOR[..2])
    ensures state == 2 ==> !EndsWith(w, TERMINATOR[..1])
  {
    assert w[|w|..] == [];
    if state >= 2 {
      assert w[|w| - state..][state - 1] == TERMINATOR[state - 1] == w[|w| - 1];
      assert w[|w| - 1..] == [w[|w| - 1]];
      assert |w| >= 2 ==> w[|w| - 2..][1] == w[|w| - 1];
    }
  }

  /** What each result says about the readable bytes. */
  ghost predicate Explains(input: ByteString, r: HeadResult) {
    match r
    case Head(bytes) => |bytes| <= MAX_CONNECT_HEADERS && bytes <= input && FirstEnd(input, |bytes|)
    case TooLong => |input| >= MAX_CONNECT_HEADERS && NoEndWithin(input, MAX_CONNECT_HEADERS)
    case ReadFailed => |input| < MAX_CONNECT_HEADERS && NoEndWithin(input, MAX_CONNECT_HEADERS)
  }

  /**
    Stops exactly at the end of the first terminator; reports an over-long head when 4096 bytes are
    readable and no terminator ends within them; fails when the input ends first.
   */
  method ReadConnectHead(input: ByteString) returns (r: HeadResult)
    ensures Explains(input, r)
  {
    var handshake: ByteString := [];
    var state := 0;
    while true
      invariant |handshake| <= MAX_CONNECT_HEADERS && handshake <= input
      invariant Follows(state, handshake) && NoEndWithin(input, |handshake|)
      decreases |input| - |handshake|
    {
      if |handshake| == MAX_CONNECT_HEADERS { return TooLong; }
      if |handshake| == |input| { return ReadFailed; }
      var b := input[|handshake|];
      NextByte(input, handshake, b, state);
      handshake := handshake + [b];
      if state == 3 && b == 10 { return Head(handshake); }
      state := Advance(state, b);
    }
  }

  lemma NextByte(input: ByteString, seen: ByteString, b: Byte, state: nat)
    requires seen < input && b == input[|seen|] && Follows(state, seen) && NoEndWithin(input, |seen|)
    ensures seen + [b] <= input
    ensures state == 3 && b == 10 ==> FirstEnd(input, |seen| + 1)
    ensures !(state == 3 && b == 10) ==> Follows(Advance(state, b), seen + [b]) && NoEndWithin(input, |seen| + 1)
  {
    AdvanceFollows(state, seen, b);
    assert input[..|seen| + 1] == seen + [b];
    OneByteFurther(input, |seen|);
  }

  lemma OneByteFurther(input: ByteString, n: nat)
    requires n < |input| && NoEndWithin(input, n)
    ensures if EndsWith(input[..n + 1], TERMINATOR) then FirstEnd(input, n + 1) else NoEndWithin(input, n + 1)
  {
  }

  /** No two results explain the same input, so each condition holds exactly when its result is returned. */
  lemma ResultIsDetermined(input: ByteString, r: HeadResult, q: HeadResult)
    requires Explains(input, r) && Explains(input, q)
    ensures r == q
  {
    if r.Head? && q.Head? {
      assert r.bytes == input[..|r.bytes|] && q.bytes == input[..|q.bytes|];
      assert |r.bytes| == |q.bytes|;
    }
  }
}
