/**
  The end-of-stream detector: it watches the redacted chunks for `data: [DONE]`, keeps the last
  eleven bytes back so that a split marker is still seen, feeds the payload hash, and puts the
  signed audit receipt in front of the marker it finds.
  The running hash is modelled as the bytes fed to it, the receipt as an arbitrary function of them.
 */
module Detector {
  import opened Bytes

  const MARKER: ByteString := Ascii("data: [DONE]")
  const KEEP: nat := 11
  const SHUTDOWN_TEXT: ByteString := Ascii("data: [ERROR: KILLED BY SHUTDOWN]\n\n")

  datatype Event = Data(bytes: ByteString) | AuditReceipt(bytes: ByteString) | DoneMarker(bytes: ByteString)

  /** From the bytes hashed so far to the audit frame that certifies them. */
  type Signer = ByteString -> ByteString

  /** The detector together with the hash it feeds. */
  datatype State = State(trailing: ByteString, completed: bool, hashed: ByteString)

  const INITIAL := State([], false, [])

  predicate Valid(s: State) {
    |s.trailing| <= KEEP && (s.completed ==> s.trailing == [])
  }

  datatype Reply = Reply(state: State, events: seq<Event>)

  function DataUnlessEmpty(bytes: ByteString): seq<Event> {
    if bytes == [] then [] else [Data(bytes)]
  }

  /** The carry and as much of the chunk as could complete a marker begun in it. */
  function Probe(trailing: ByteString, bytes: ByteString): ByteString {
    trailing + bytes[..Min(|bytes|, KEEP)]
  }

  function Straddling(trailing: ByteString, bytes: ByteString): (r: Option<nat>)
    requires |trailing| <= KEEP
    ensures r.Some? ==> OccursAt(Probe(trailing, bytes), MARKER, r.value)
    ensures r.Some? ==> r.value < |trailing| <= r.value + |MARKER| <= |trailing| + |bytes|
  {
    if trailing == [] then None else Find(Probe(trailing, bytes), MARKER)
  }

  function ReceiptEvents(hashed: ByteString, done: ByteString, sign: Signer): seq<Event> {
    [AuditReceipt(sign(hashed)), DoneMarker(done)]
  }

  function FoundInside(s: State, bytes: ByteString, start: nat, sign: Signer): Reply
    requires start <= |bytes|
  {
    var hashed := s.hashed + s.trailing + bytes[..start];
    Reply(State([], true, hashed),
          DataUnlessEmpty(s.trailing) + DataUnlessEmpty(bytes[..start]) + ReceiptEvents(hashed, bytes[start..], sign))
  }

  function FoundStraddling(s: State, bytes: ByteString, start: nat, sign: Signer): Reply
    requires start < |s.trailing| <= start + |MARKER| <= |s.trailing| + |bytes|
    requires OccursAt(Probe(s.trailing, bytes), MARKER, start)
  {
    var currentStart := |MARKER| - (|s.trailing| - start);
    var hashed := s.hashed + s.trailing[..start];
    var marker := Probe(s.trailing, bytes)[start..start + |MARKER|];
    Reply(State([], true, hashed),
          DataUnlessEmpty(s.trailing[..start]) + ReceiptEvents(hashed, marker, sign)
          + DataUnlessEmpty(bytes[currentStart..]))
  }

  /** A chunk of at least eleven bytes replaces the carry; the old carry is emitted but not hashed. */
  function LongChunk(s: State, bytes: ByteString): Reply
    requires |bytes| >= KEEP
  {
    var emit := |bytes| - KEEP;
    Reply(State(bytes[emit..], false, s.hashed + bytes[..emit]),
          DataUnlessEmpty(s.trailing) + DataUnlessEmpty(bytes[..emit]))
  }

  function ShortChunk(s: State, bytes: ByteString): Reply {
    var held := s.trailing + bytes;
    var emit := Max(0, |held| - KEEP);
    Reply(State(held[emit..], false, s.hashed + held[..emit]), DataUnlessEmpty(held[..emit]))
  }

  function Inspected(s: State, bytes: ByteString, sign: Signer): Reply
    requires Valid(s)
  {
    if s.completed then Reply(s, [Data(bytes)])
    else match Find(bytes, MARKER)
      case Some(start) => FoundInside(s, bytes, start, sign)
      case None =>
        match Straddling(s.trailing, bytes)
        case Some(start) => FoundStraddling(s, bytes, start, sign)
        case None => if |bytes| >= KEEP then LongChunk(s, bytes) else ShortChunk(s, bytes)
  }

  function Flushed(s: State): Reply {
    Reply(State([], s.completed, s.hashed + s.trailing), DataUnlessEmpty(s.trailing))
  }

  function ShutDown(s: State, sign: Signer): Reply {
    if s.completed then Reply(s, [])
    else
      var hashed := s.hashed + s.trailing;
      Reply(State([], true, hashed), DataUnlessEmpty(s.trailing) + ReceiptEvents(hashed, SHUTDOWN_TEXT, sign))
  }

  // ---- The detector object -------------------------------------------------------------------

  class Hasher {
    var fed: ByteString

    constructor ()
      ensures fed == []
    {
      fed := [];
    }

    method Update(bytes: ByteString)
      modifies this
      ensures fed == old(fed) + bytes
    {
      fed := fed + bytes;
    }
  }

  class DoneDetector {
    var trailing: ByteString
    var completed: bool

    constructor ()
      ensures trailing == [] && !completed
    {
      trailing, completed := [], false;
    }

    ghost function View(h: Hasher): State
      reads this, h
    {
      State(trailing, completed, h.fed)
    }

    method Inspect(bytes: ByteString, sign: Signer, h: Hasher) returns (events: seq<Event>)
      requires Valid(View(h))
      modifies this, h
      ensures Reply(View(h), events) == Inspected(old(View(h)), bytes, sign)
    {
      if completed { return [Data(bytes)]; }
      var inside := Find(bytes, MARKER);
      if inside.Some? {
        events := InspectInside(bytes, inside.value, sign, h);
        return;
      }
      var straddling := ProbeForMarker(bytes);
      if straddling.Some? {
        events := InspectStraddling(bytes, straddling.value, sign, h);
        return;
      }
      if |bytes| >= KEEP {
        events := InspectLong(bytes, h);
      } else {
        events := InspectShort(bytes, h);
      }
    }

    method InspectInside(bytes: ByteString, start: nat, sign: Signer, h: Hasher) returns (events: seq<Event>)
      requires start <= |bytes|
      modifies this, h
      ensures Reply(View(h), events) == FoundInside(old(View(h)), bytes, start, sign)
    {
      events := [];
      ghost var s := View(h);
      if trailing != [] {
        h.Update(trailing);
        events := events + [Data(trailing)];
      }
      trailing := [];
      var before := bytes[..start];
      if before != [] {
        h.Update(before);
        events := events + [Data(before)];
      }
      assert h.fed == s.hashed + s.trailing + before;
      assert events == DataUnlessEmpty(s.trailing) + DataUnlessEmpty(before);
      var receipt := Receipt(bytes[start..], sign, h);
      events := events + receipt;
    }

    /** The fixed buffer of twice the marker length: every index written or read is inside it. */
    method ProbeForMarker(bytes: ByteString) returns (start: Option<nat>)
      requires |trailing| <= KEEP
      ensures start == Straddling(trailing, bytes)
    {
      if trailing == [] { return None; }
      var probeLen := Min(|bytes|, KEEP);
      var probe := new Byte[2 * |MARKER|](_ => 0);
      var trailingLen := |trailing|;
      forall i | 0 <= i < trailingLen { probe[i] := trailing[i]; }
      forall i | 0 <= i < probeLen { probe[trailingLen + i] := bytes[i]; }
      assert probe[..trailingLen + probeLen] == Probe(trailing, bytes);
      start := Find(probe[..trailingLen + probeLen], MARKER);
    }

    method InspectStraddling(bytes: ByteString, start: nat, sign: Signer, h: Hasher) returns (events: seq<Event>)
      requires start < |trailing| <= start + |MARKER| <= |trailing| + |bytes|
      requires OccursAt(Probe(trailing, bytes), MARKER, start)
      modifies this, h
      ensures Reply(View(h), events) == FoundStraddling(old(View(h)), bytes, start, sign)
    {
      var currentStart := |MARKER| - (|trailing| - start);
      var before := trailing[..start];
      var marker := Probe(trailing, bytes)[start..start + |MARKER|];
      trailing := [];
      events := [];
      if before != [] {
        h.Update(before);
        events := events + [Data(before)];
      }
      assert h.fed == old(h.fed) + before && events == DataUnlessEmpty(before);
      var receipt := Receipt(marker, sign, h);
      events := events + receipt;
      if currentStart < |bytes| {
        events := events + [Data(bytes[currentStart..])];
      }
    }

    method InspectLong(bytes: ByteString, h: Hasher) returns (events: seq<Event>)
      requires |bytes| >= KEEP && !completed
      modifies this, h
      ensures Reply(View(h), events) == LongChunk(old(View(h)), bytes)
    {
      var held := None;
      if trailing != [] {
        held := Some(trailing);
        trailing := [];
      }
      // The hash update of the held bytes is guarded by a carry that was just taken away.
      if trailing != [] { assert false; }
      var emitLen := |bytes| - KEEP;
      var data := bytes[..emitLen];
      if data != [] {
        h.Update(data);
      }
      trailing := trailing + bytes[emitLen..];
      events := [];
      if held.Some? {
        events := events + [Data(held.value)];
      }
      if data != [] {
        events := events + [Data(data)];
      }
    }

    method InspectShort(bytes: ByteString, h: Hasher) returns (events: seq<Event>)
      requires !completed
      modifies this, h
      ensures Reply(View(h), events) == ShortChunk(old(View(h)), bytes)
    {
      var held := trailing + bytes;
      trailing := [];
      var emitLen := Max(0, |held| - KEEP);
      if emitLen == 0 {
        trailing := trailing + held;
        events := [];
        assert held[0..] == held && h.fed + [] == h.fed;
      } else {
        var data := held[..emitLen];
        h.Update(data);
        trailing := trailing + held[emitLen..];
        events := [Data(data)];
      }
    }

    method Receipt(done: ByteString, sign: Signer, h: Hasher) returns (events: seq<Event>)
      modifies this`completed
      ensures completed && events == ReceiptEvents(h.fed, done, sign)
    {
      var audit := sign(h.fed);
      completed := true;
      events := [AuditReceipt(audit), DoneMarker(done)];
    }

    method Finish(h: Hasher) returns (events: seq<Event>)
      modifies this, h
      ensures Reply(View(h), events) == Flushed(old(View(h)))
    {
      if trailing == [] {
        assert h.fed + [] == h.fed;
        return [];
      }
      var carry := trailing;
      trailing := [];
      h.Update(carry);
      events := [Data(carry)];
    }

    method ShutdownEvents(sign: Signer, h: Hasher) returns (events: seq<Event>)
      modifies this, h
      ensures Reply(View(h), events) == ShutDown(old(View(h)), sign)
    {
      if completed { return []; }
      events := [];
      ghost var s := View(h);
      if trailing != [] {
        h.Update(trailing);
        events := events + [Data(trailing)];
        trailing := [];
      }
      assert h.fed == s.hashed + s.trailing;
      var receipt := Receipt(SHUTDOWN_TEXT, sign, h);
      events := events + receipt;
    }
  }
}
