/** Byte strings and the few operations every part of the streaming path shares. */
module Bytes {

  type Byte = b: int | 0 <= b < 256

  type ByteString = seq<Byte>

  datatype Option<+T> = None | Some(value: T)

  /** The bytes of an ASCII literal, as in `b"..."`. */
  function Ascii(s: string): (r: ByteString)
    requires forall i | 0 <= i < |s| :: s[i] as int < 128
    ensures |r| == |s|
    ensures forall i | 0 <= i < |s| :: r[i] == s[i] as int
  {
    seq(|s|, i requires 0 <= i < |s| => s[i] as int)
  }

  function Min(a: int, b: int): int {
    if a <= b then a else b
  }

  function Max(a: int, b: int): int {
    if a <= b then b else a
  }

  /** All parts, one after the other. */
  function Concat(parts: seq<ByteString>): ByteString {
    if |parts| == 0 then [] else parts[0] + Concat(parts[1..])
  }

  lemma {:induction false} ConcatSplits(a: seq<ByteString>, b: seq<ByteString>)
    ensures Concat(a + b) == Concat(a) + Concat(b)
  {
    if |a| == 0 {
      assert a + b == b;
    } else {
      assert (a + b)[1..] == a[1..] + b;
      ConcatSplits(a[1..], b);
    }
  }

  lemma ConcatOne(a: ByteString)
    ensures Concat([a]) == a
  {
    assert [a][1..] == [];
  }

  lemma Reassociate(a: ByteString, b: ByteString, c: ByteString)
    ensures a + (b + c) == (a + b) + c
  {
  }

  lemma SplitAt(s: ByteString, n: nat, more: ByteString)
    requires n <= |s|
    ensures s + more == s[..n] + (s[n..] + more)
    ensures (s + more)[..n] == s[..n] && (s + more)[n..] == s[n..] + more
  {
  }

  lemma TakeSplits(s: ByteString, n: nat, k: nat)
    requires n + k <= |s|
    ensures s[..n] + s[n..][..k] == s[..n + k]
  {
  }

  lemma SliceOfSlice(s: ByteString, from: nat, to: nat, i: nat, j: nat)
    requires from <= to <= |s| && i <= j <= to - from
    ensures s[from..to][i..j] == s[from + i..from + j]
  {
    forall k | 0 <= k < j - i ensures s[from..to][i..j][k] == s[from + i..from + j][k] {
    }
  }

  predicate EndsWith(text: ByteString, tail: ByteString) {
    |tail| <= |text| && text[|text| - |tail|..] == tail
  }

  /** `needle` sits in `text` at position `at`. */
  predicate OccursAt(text: ByteString, needle: ByteString, at: int) {
    0 <= at <= at + |needle| <= |text| && text[at..at + |needle|] == needle
  }

  predicate Contains(text: ByteString, needle: ByteString) {
    exists at | 0 <= at <= |text| :: OccursAt(text, needle, at)
  }

  /** Leftmost position of `needle` at or after `from`: `windows(n).position(..)`, `bytes.find`. */
  function Find(text: ByteString, needle: ByteString, from: nat := 0): (r: Option<nat>)
    requires from <= |text|
    ensures r.Some? ==> from <= r.value && OccursAt(text, needle, r.value)
    ensures r.Some? ==> forall at | from <= at < r.value :: !OccursAt(text, needle, at)
    ensures r.None? ==> forall at | from <= at :: !OccursAt(text, needle, at)
    decreases |text| - from
  {
    if OccursAt(text, needle, from) then Some(from)
    else if from == |text| then None
    else Find(text, needle, from + 1)
  }
}
