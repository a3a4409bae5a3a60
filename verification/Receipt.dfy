/**
  The canonical byte string a receipt signature covers: seven fields, each behind its length as
  eight big-endian bytes. The proxy and the verification script build it independently.
 */
module Receipt {
  import opened Bytes

  /** The signed fields, named as in the receipt. */
  datatype Fields = Fields(
    requestId: ByteString, tenantId: ByteString, upstreamUrl: ByteString, requestHash: ByteString,
    policyDigest: ByteString, pcr0: ByteString, payloadHash: ByteString)

  /** The order in which the proxy hashes its arguments. */
  function ProxyOrder(f: Fields): seq<ByteString> {
    [f.requestId, f.tenantId, f.upstreamUrl, f.requestHash, f.policyDigest, f.pcr0, f.payloadHash]
  }

  /** The order in which the script reads the receipt. */
  function ScriptOrder(f: Fields): seq<ByteString> {
    [f.requestId, f.tenantId, f.upstreamUrl, f.requestHash, f.policyDigest, f.pcr0, f.payloadHash]
  }

  /** 256 to the power `width`. */
  function Limit(width: nat): nat {
    if width == 0 then 1 else 256 * Limit(width - 1)
  }

  predicate Encodable(fields: seq<ByteString>) {
    forall i | 0 <= i < |fields| :: |fields[i]| < Limit(8)
  }

  // ---- Numbers as bytes ----------------------------------------------------------------------

  function BigEndian(n: nat, width: nat): (r: ByteString)
    ensures |r| == width
  {
    if width == 0 then [] else BigEndian(n / 256, width - 1) + [n % 256]
  }

  function FromBigEndian(s: ByteString): (n: nat)
    ensures n < Limit(|s|)
  {
    if s == [] then 0
    else
      var high := FromBigEndian(s[..|s| - 1]);
      256 * high + s[|s| - 1]
  }

  lemma {:induction false} NumberRoundTrip(n: nat, width: nat)
    requires n < Limit(width)
    ensures FromBigEndian(BigEndian(n, width)) == n
    decreases width
  {
    if width > 0 {
      NumberRoundTrip(n / 256, width - 1);
      assert BigEndian(n, width)[..width - 1] == BigEndian(n / 256, width - 1);
    }
  }

  lemma {:induction false} BytesRoundTrip(s: ByteString)
    ensures BigEndian(FromBigEndian(s), |s|) == s
  {
    if s != [] {
      BytesRoundTrip(s[..|s| - 1]);
      assert s == s[..|s| - 1] + [s[|s| - 1]];
    }
  }

  /** `n >> (8 * k)`. */
  function ShiftRight(n: nat, k: nat): nat {
    if k == 0 then n else ShiftRight(n / 256, k - 1)
  }

  /** `u64::to_be_bytes`: byte `i` is the number shifted right by `7 - i` bytes, truncated. */
  function ToBeBytes(n: nat): ByteString {
    seq(8, i requires 0 <= i < 8 => ShiftRight(n, 7 - i) % 256)
  }

  lemma {:induction false} BigEndianByte(n: nat, width: nat, i: nat)
    requires i < width
    ensures BigEndian(n, width)[i] == ShiftRight(n, width - 1 - i) % 256
    decreases width
  {
    if i < width - 1 {
      BigEndianByte(n / 256, width - 1, i);
    }
  }

  lemma ToBeBytesIs(n: nat)
    ensures ToBeBytes(n) == BigEndian(n, 8)
  {
    forall i | 0 <= i < 8 ensures ToBeBytes(n)[i] == BigEndian(n, 8)[i] {
      BigEndianByte(n, 8, i);
    }
  }

  /** `int.to_bytes(8, "big")`: peel off the low byte, width times. */
  method ToBytesBig(n: nat, width: nat) returns (r: ByteString)
    ensures r == BigEndian(n, width)
  {
    r := [];
    var rest := n;
    for i := 0 to width
      invariant BigEndian(rest, width - i) + r == BigEndian(n, width)
    {
      r := [rest % 256] + r;
      rest := rest / 256;
    }
  }

  // ---- The canonical string ------------------------------------------------------------------

  function Canonical(fields: seq<ByteString>): ByteString {
    if fields == [] then []
    else BigEndian(|fields[0]|, 8) + fields[0] + Canonical(fields[1..])
  }

  lemma {:induction false} CanonicalSnoc(fields: seq<ByteString>, f: ByteString)
    ensures Canonical(fields + [f]) == Canonical(fields) + (BigEndian(|f|, 8) + f)
  {
    if fields == [] {
      assert fields + [f] == [f] && [f][1..] == [];
    } else {
      assert (fields + [f])[1..] == fields[1..] + [f];
      CanonicalSnoc(fields[1..], f);
    }
  }

  /** The proxy's encoder. */
  method ProxyCanonical(f: Fields) returns (canonical: ByteString)
    ensures canonical == Canonical(ProxyOrder(f))
  {
    var fields := ProxyOrder(f);
    canonical := [];
    for i := 0 to |fields|
      invariant canonical == Canonical(fields[..i])
    {
      var bytes := fields[i];
      ToBeBytesIs(|bytes|);
      CanonicalSnoc(fields[..i], bytes);
      assert fields[..i + 1] == fields[..i] + [bytes];
      canonical := canonical + ToBeBytes(|bytes|);
      canonical := canonical + bytes;
    }
    assert fields[..|fields|] == fields;
  }

  /** The verification script's encoder: the same bytes for the same receipt. */
  method ScriptCanonical(f: Fields) returns (canonical: ByteString)
    requires Encodable(ScriptOrder(f))
    ensures canonical == Canonical(ProxyOrder(f))
  {
    var fields := ScriptOrder(f);
    canonical := [];
    for i := 0 to |fields|
      invariant canonical == Canonical(fields[..i])
    {
      var encoded := fields[i];
      CanonicalSnoc(fields[..i], encoded);
      assert fields[..i + 1] == fields[..i] + [encoded];
      var length := ToBytesBig(|encoded|, 8);
      canonical := canonical + length;
      canonical := canonical + encoded;
    }
    assert fields[..|fields|] == fields;
  }

  // ---- Decoding ------------------------------------------------------------------------------

  /** Reads `count` fields that together make up all of `s`. */
  function Decode(s: ByteString, count: nat): (r: Option<seq<ByteString>>)
    ensures r.Some? ==> |r.value| == count
    decreases count
  {
    if count == 0 then (if s == [] then Some([]) else None)
    else if |s| < 8 then None
    else
      var n := FromBigEndian(s[..8]);
      if |s| - 8 < n then None
      else
        var rest := Decode(s[8 + n..], count - 1);
        if rest.None? then None else Some([s[8..8 + n]] + rest.value)
  }

  /** Decoding undoes encoding, for all fields shorter than 2^64 bytes. */
  lemma {:induction false} CanonicalRoundTrip(fields: seq<ByteString>)
    requires Encodable(fields)
    ensures Decode(Canonical(fields), |fields|) == Some(fields)
  {
    if fields != [] {
      var f, rest := fields[0], Canonical(fields[1..]);
      var s := Canonical(fields);
      CanonicalRoundTrip(fields[1..]);
      NumberRoundTrip(|f|, 8);
      assert s[..8] == BigEndian(|f|, 8);
      assert s[8..8 + |f|] == f;
      assert s[8 + |f|..] == rest;
      assert [f] + fields[1..] == fields;
    }
  }

  lemma PeelField(f: ByteString, rest: seq<ByteString>)
    ensures Canonical([f] + rest) == BigEndian(|f|, 8) + f + Canonical(rest)
  {
    assert ([f] + rest)[1..] == rest;
  }

  lemma FieldJoins(s: ByteString, n: nat, rest: seq<ByteString>)
    requires 8 + n <= |s| && n == FromBigEndian(s[..8]) && Canonical(rest) == s[8 + n..]
    ensures Canonical([s[8..8 + n]] + rest) == s
  {
    BytesRoundTrip(s[..8]);
    PeelField(s[8..8 + n], rest);
    assert s[..8] + s[8..8 + n] + s[8 + n..] == s;
  }

  /** Whatever decodes is the encoding of what it decodes to. */
  lemma {:induction false} DecodeRoundTrip(s: ByteString, count: nat)
    requires Decode(s, count).Some?
    ensures Canonical(Decode(s, count).value) == s && Encodable(Decode(s, count).value)
    decreases count
  {
    if count > 0 {
      var n := FromBigEndian(s[..8]);
      DecodeRoundTrip(s[8 + n..], count - 1);
      FieldJoins(s, n, Decode(s[8 + n..], count - 1).value);
    }
  }

  /** Two receipts with the same canonical string have the same seven fields. */
  lemma CanonicalInjective(a: Fields, b: Fields)
    requires Encodable(ProxyOrder(a)) && Encodable(ProxyOrder(b))
    requires Canonical(ProxyOrder(a)) == Canonical(ScriptOrder(b))
    ensures a == b
  {
    CanonicalRoundTrip(ProxyOrder(a));
    CanonicalRoundTrip(ProxyOrder(b));
    var x, y := ProxyOrder(a), ProxyOrder(b);
    assert x == y;
    assert a == Fields(x[0], x[1], x[2], x[3], x[4], x[5], x[6]);
    assert b == Fields(y[0], y[1], y[2], y[3], y[4], y[5], y[6]);
  }
}
