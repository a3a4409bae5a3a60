/**
  UTF-8 as arithmetic (section 3 of RFC 3629): the byte sequences the grammar calls characters are
  exactly the encodings of the Unicode scalar values, each by one sequence only.
 */
module Scalars {
  import opened Bytes
  import opened Utf8

  /** U+0000 to U+10FFFF without the surrogates. */
  predicate IsScalar(n: int) {
    0 <= n < 0xD800 || 0xE000 <= n <= 0x10FFFF
  }

  function Encoding(n: int): (r: ByteString)
    requires IsScalar(n)
  {
    if n < 0x80 then [n]
    else if n < 0x800 then [0xC0 + n / 64, 0x80 + n % 64]
    else if n < 0x10000 then [0xE0 + n / 4096, 0x80 + n / 64 % 64, 0x80 + n % 64]
    else [0xF0 + n / 262144, 0x80 + n / 4096 % 64, 0x80 + n / 64 % 64, 0x80 + n % 64]
  }

  /** The payload of one byte, above the marker bits `base`. */
  function Bits(b: Byte, base: int): int {
    b as int - base
  }

  /** The payload bits of a character, put together. */
  function Decoding(c: ByteString): int
    requires 1 <= |c| <= 4
  {
    if |c| == 1 then c[0] as int
    else if |c| == 2 then Bits(c[0], 0xC0) * 64 + Bits(c[1], 0x80)
    else if |c| == 3 then Bits(c[0], 0xE0) * 4096 + Bits(c[1], 0x80) * 64 + Bits(c[2], 0x80)
    else Bits(c[0], 0xF0) * 262144 + Bits(c[1], 0x80) * 4096 + Bits(c[2], 0x80) * 64 + Bits(c[3], 0x80)
  }

  lemma TwoBytes(n: int)
    requires 0x80 <= n < 0x800
    ensures IsChar(Encoding(n)) && Decoding(Encoding(n)) == n
  {
  }

  lemma ThreeBytes(n: int)
    requires 0x800 <= n < 0x10000 && IsScalar(n)
    ensures IsChar(Encoding(n)) && Decoding(Encoding(n)) == n
  {
    var (high, middle) := (n / 4096, n / 64);
    assert middle / 64 == high && middle % 64 == middle - 64 * high;
  }

  lemma FourBytes(n: int)
    requires 0x10000 <= n <= 0x10FFFF
    ensures IsChar(Encoding(n)) && Decoding(Encoding(n)) == n
  {
    var (top, high, middle) := (n / 262144, n / 4096, n / 64);
    assert high / 64 == top && high % 64 == high - 64 * top;
    assert middle / 64 == high && middle % 64 == middle - 64 * high;
  }

  /** Every scalar value is encoded as a character of the grammar, and can be read back. */
  lemma EncodingIsChar(n: int)
    requires IsScalar(n)
    ensures IsChar(Encoding(n)) && Decoding(Encoding(n)) == n
  {
    if 0x80 <= n < 0x800 {
      TwoBytes(n);
    } else if 0x800 <= n < 0x10000 {
      ThreeBytes(n);
    } else if 0x10000 <= n {
      FourBytes(n);
    }
  }

  /** Every character of the grammar encodes a scalar value, and is the only encoding of it. */
  lemma CharIsEncoding(c: ByteString)
    requires IsChar(c)
    ensures IsScalar(Decoding(c)) && Encoding(Decoding(c)) == c
  {
    var n := Decoding(c);
    if |c| == 3 {
      assert n / 64 == Bits(c[0], 0xE0) * 64 + Bits(c[1], 0x80) && n / 4096 == Bits(c[0], 0xE0);
    } else if |c| == 4 {
      assert n / 64 == Bits(c[0], 0xF0) * 4096 + Bits(c[1], 0x80) * 64 + Bits(c[2], 0x80);
      assert n / 4096 == Bits(c[0], 0xF0) * 64 + Bits(c[1], 0x80) && n / 262144 == Bits(c[0], 0xF0);
    }
  }

  /** The grammar's characters are exactly the encodings of the scalar values. */
  lemma CharIffScalar(c: ByteString)
    ensures IsChar(c) <==> exists n: int :: IsScalar(n) && Encoding(n) == c
  {
    if IsChar(c) {
      CharIsEncoding(c);
    }
    if n: int :| IsScalar(n) && Encoding(n) == c {
      EncodingIsChar(n);
    }
  }

  // ---- Strings -------------------------------------------------------------------------------------

  function EncodeChar(c: char): (r: ByteString)
    ensures IsChar(r)
  {
    EncodingIsChar(c as int);
    Encoding(c as int)
  }

  function Encode(s: string): (r: ByteString)
    ensures s != [] ==> r != []
  {
    if s == [] then [] else EncodeChar(s[0]) + Encode(s[1..])
  }

  lemma {:induction false} EncodeWellFormed(s: string)
    ensures WellFormed(Encode(s))
  {
    if s == [] {
      EmptyWellFormed();
    } else {
      CharWellFormed(EncodeChar(s[0]));
      EncodeWellFormed(s[1..]);
      WellFormedSum(EncodeChar(s[0]), Encode(s[1..]));
    }
  }

  lemma FirstCharSame(c: char, d: char, a: ByteString, b: ByteString)
    requires EncodeChar(c) + a == EncodeChar(d) + b
    ensures c == d && a == b
  {
    var x, y := EncodeChar(c), EncodeChar(d);
    HeadIsFirstChar(x, a);
    HeadIsFirstChar(y, b);
    assert x == (x + a)[..|x|] && y == (y + b)[..|y|] && a == (x + a)[|x|..] && b == (y + b)[|y|..];
    EncodingIsChar(c as int);
    EncodingIsChar(d as int);
  }

  /** Different texts have different encodings. */
  lemma {:induction false} EncodeInjective(s: string, t: string)
    requires Encode(s) == Encode(t)
    ensures s == t
  {
    if s != [] && t != [] {
      FirstCharSame(s[0], t[0], Encode(s[1..]), Encode(t[1..]));
      EncodeInjective(s[1..], t[1..]);
      assert s == [s[0]] + s[1..] && t == [t[0]] + t[1..];
    }
  }
}
