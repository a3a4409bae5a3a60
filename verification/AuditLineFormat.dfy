/**
  The data line of an audit frame, read back as the script reads it: find the receipt's value, let a JSON
  decoder say how long it is, and take the signature behind it. The decoder is any function that finds
  the end of a value it is given at the front.
 */
module AuditLineFormat {
  import opened Bytes
  import opened Verifier

  const QUOTE: Byte := 34
  const COLON: Byte := 58
  const KEY: ByteString := Ascii("\"receipt\"")
  const JOINT: ByteString := Ascii(", \"signature\": \"")
  const HEAD: ByteString := Ascii("data: {\"receipt\": ")

  /** `bytes.isspace`. */
  predicate IsSpace(b: Byte) {
    9 <= b <= 13 || b == 32
  }

  /** The first position from `i` on that is not whitespace. */
  function SkipSpaces(line: ByteString, i: nat): (r: nat)
    requires i <= |line|
    ensures i <= r <= |line|
    decreases |line| - i
  {
    if i < |line| && IsSpace(line[i]) then SkipSpaces(line, i + 1) else i
  }

  /** Where the value of the `receipt` key begins. */
  function ValueStart(line: ByteString): (r: Option<nat>)
    ensures r.Some? ==> r.value <= |line|
  {
    if |line| < |DATA_PREFIX| then None
    else match Find(line[|DATA_PREFIX|..], KEY)
      case None => None
      case Some(key) =>
        match Find(line, [COLON], |DATA_PREFIX| + key + |KEY|)
        case None => None
        case Some(colon) => Some(SkipSpaces(line, colon + 1))
  }

  /** From the front of the bytes, how long the JSON value there is. */
  type Decoder = ByteString -> Option<nat>

  datatype Read = Read(json: ByteString, signature: ByteString)

  function ReadBack(line: ByteString, decoder: Decoder): Option<Read> {
    match ValueStart(line)
    case None => None
    case Some(start) =>
      match decoder(line[start..])
      case None => None
      case Some(n) =>
        var end := start + n;
        if end > |line| || !OccursAt(line, JOINT, end) then None
        else match Find(line, [QUOTE], end + |JOINT|)
          case None => None
          case Some(quote) => Some(Read(line[start..end], line[end + |JOINT|..quote]))
  }

  // ---- Reading back what was written -----------------------------------------------------------------

  lemma KeyIsFound(rest: ByteString)
    ensures ValueStart(HEAD + rest) == Some(SkipSpaces(HEAD + rest, 17)) && |HEAD| == 18
  {
    var head := "data: {\"receipt\": ";
    var line := HEAD + rest;
    assert |head| == 18 && head[5] == ' ' && head[6] == '{' && head[16] == ':';
    var key := "\"receipt\"";
    assert |key| == 9 && key[0] == '\"';
    assert forall i | 0 <= i < 9 :: head[7 + i] == key[i];
    assert |DATA_PREFIX| == 5;
    assert OccursAt(line[5..], KEY, 2) by {
      assert forall i | 0 <= i < 9 :: line[5..][2 + i] == KEY[i];
    }
    assert !OccursAt(line[5..], KEY, 0) by { assert line[5..][0] == ' ' as int; }
    assert !OccursAt(line[5..], KEY, 1) by { assert line[5..][1] == '{' as int; }
    assert Find(line[5..], KEY) == Some(2);
    assert line[16..17] == [COLON];
    assert OccursAt(line, [COLON], 16);
    assert Find(line, [COLON], 16) == Some(16);
  }

  lemma SpaceIsSkipped(rest: ByteString)
    requires rest != [] && !IsSpace(rest[0])
    ensures SkipSpaces(HEAD + rest, 17) == 18
  {
    var head := "data: {\"receipt\": ";
    assert |head| == 18 && head[17] == ' ';
    assert (HEAD + rest)[17] == 32 && (HEAD + rest)[18] == rest[0];
  }

  lemma ByteIsFound(line: ByteString, b: Byte, from: nat, n: nat)
    requires from <= n < |line| && line[n] == b && forall i | from <= i < n :: line[i] != b
    ensures Find(line, [b], from) == Some(n)
  {
    forall i | from <= i < |line| ensures OccursAt(line, [b], i) <==> line[i] == b {
      assert line[i..i + 1] == [line[i]];
    }
  }

  lemma QuoteIsFound(line: ByteString, front: ByteString, signature: ByteString, rest: ByteString)
    requires QUOTE !in signature && line == front + signature + ([QUOTE] + rest)
    ensures Find(line, [QUOTE], |front|) == Some(|front| + |signature|)
  {
    var n := |front| + |signature|;
    forall i | |front| <= i < n ensures line[i] != QUOTE {
      assert line[i] == signature[i - |front|];
    }
    assert line[n] == QUOTE;
    ByteIsFound(line, QUOTE, |front|, n);
  }

  lemma JointIsNext(front: ByteString, rest: ByteString)
    ensures OccursAt(front + JOINT + rest, JOINT, |front|)
  {
    assert (front + JOINT + rest)[|front|..|front| + |JOINT|] == JOINT;
  }

  lemma LineShape(json: ByteString, signature: ByteString)
    ensures var tail := Ascii("}") + [LF];
            AuditLine(json, signature) + [LF] == HEAD + json + JOINT + signature + ([QUOTE] + tail)
  {
    var end := "\"}";
    assert |end| == 2 && end[0] == '\"' && end[1] == '}';
    assert Ascii("\"}") == [QUOTE] + Ascii("}");
  }

  /** The JSON and the signature the proxy put into the line are what the script takes out of it. */
  lemma AuditLineReadsBack(json: ByteString, signature: ByteString, decoder: Decoder)
    requires json != [] && !IsSpace(json[0]) && QUOTE !in signature
    requires forall rest: ByteString :: decoder(json + rest) == Some(|json|)
    ensures ReadBack(AuditLine(json, signature) + [LF], decoder) == Some(Read(json, signature))
  {
    var tail := Ascii("}") + [LF];
    var line := AuditLine(json, signature) + [LF];
    LineShape(json, signature);
    LineReadsBack(line, json, signature, tail, decoder);
  }

  lemma StartIs(line: ByteString, rest: ByteString)
    requires line == HEAD + rest && rest != [] && !IsSpace(rest[0])
    ensures ValueStart(line) == Some(18) && |HEAD| == 18
  {
    KeyIsFound(rest);
    SpaceIsSkipped(rest);
  }

  lemma Slices(line: ByteString, a: ByteString, json: ByteString, b: ByteString, signature: ByteString, rest: ByteString)
    requires line == a + json + b + signature + rest
    ensures line[|a|..] == json + (b + signature + rest)
    ensures line == a + (json + (b + signature + rest)) && line == (a + json) + b + (signature + rest)
    ensures line[|a|..|a| + |json|] == json
    ensures line[|a| + |json| + |b|..|a| + |json| + |b| + |signature|] == signature
  {
  }

  lemma PartsReadBack(line: ByteString, start: nat, n: nat, from: nat, quote: nat, decoder: Decoder)
    requires ValueStart(line) == Some(start) && start <= |line| && decoder(line[start..]) == Some(n) && start + n <= |line|
    requires OccursAt(line, JOINT, start + n) && from == start + n + |JOINT| <= |line| && Find(line, [QUOTE], from) == Some(quote)
    requires from <= quote <= |line|
    ensures ReadBack(line, decoder) == Some(Read(line[start..start + n], line[from..quote]))
  {
  }

  lemma LineReadsBack(line: ByteString, json: ByteString, signature: ByteString, tail: ByteString, decoder: Decoder)
    requires line == HEAD + json + JOINT + signature + ([QUOTE] + tail)
    requires json != [] && !IsSpace(json[0]) && QUOTE !in signature
    requires forall rest: ByteString :: decoder(json + rest) == Some(|json|)
    ensures ReadBack(line, decoder) == Some(Read(json, signature))
  {
    var after := JOINT + signature + ([QUOTE] + tail);
    var n, quote := |HEAD| + |json| + |JOINT|, |HEAD| + |json| + |JOINT| + |signature|;
    Slices(line, HEAD, json, JOINT, signature, [QUOTE] + tail);
    assert ValueStart(line) == Some(|HEAD|) by {
      assert (json + after)[0] == json[0];
      StartIs(line, json + after);
    }
    assert OccursAt(line, JOINT, |HEAD| + |json|) by {
      JointIsNext(HEAD + json, signature + ([QUOTE] + tail));
    }
    assert Find(line, [QUOTE], n) == Some(quote) by {
      QuoteIsFound(line, HEAD + json + JOINT, signature, tail);
    }
    PartsReadBack(line, |HEAD|, |json|, n, quote, decoder);
  }
}
