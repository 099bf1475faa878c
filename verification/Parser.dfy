/**
 * The incremental frame extractor: one turn of its loop as a function, a whole call as a
 * function, and the class that edits its buffer step by step.
 */
module Parser {
  import opened Bytes
  import opened Codec
  import opened Wrappers

  /** Digits a plausible BodyLength may have: those of MAX_BODY_LENGTH and two more. */
  const MAX_BODYLEN_DIGITS := 9

  datatype FrameError = MissingBodyLength | BodyLengthTooLong | BodyLengthNotANumber | ImplausibleBodyLength

  predicate MarkerAt(buf: seq<byte>, k: int) {
    0 <= k && k + 2 <= |buf| && buf[k] == MARKER[0] && buf[k + 1] == MARKER[1]
  }

  /** `buf.find(b"8=")`. */
  function FindMarker(buf: seq<byte>): (r: Option<nat>)
    ensures r.Some? ==> MarkerAt(buf, r.value)
    ensures forall k :: 0 <= k && MarkerAt(buf, k) ==> r.Some? && r.value <= k
  {
    if |buf| < 2 then None
    else if MarkerAt(buf, 0) then Some(0)
    else
      assert forall k :: 1 <= k && MarkerAt(buf, k) ==> MarkerAt(buf[1..], k - 1);
      match FindMarker(buf[1..])
      case None => None
      case Some(at) => Some(at + 1)
  }

  /**
   * What one turn of the loop does: stop and wait for more bytes, drop bytes and go round
   * again, drop bytes and raise, hand over a frame, or hang inside `decode` (whose field
   * loop goes round forever).
   */
  datatype Turn =
    | Wait(rest: seq<byte>)
    | Skip(rest: seq<byte>)
    | Raise(error: FrameError, rest: seq<byte>)
    | Deliver(message: seq<Field>, rest: seq<byte>)
    | Hang

  function Iterate(buf: seq<byte>): Turn {
    match FindMarker(buf)
    case None => Wait(if |buf| > 1 then buf[|buf| - 1..] else buf)
    case Some(start) => AtMarker(buf[start..])
  }

  /** The rest of a turn, for a buffer that begins with the marker "8=". */
  function AtMarker(buf: seq<byte>): Turn
    requires |buf| >= 2
  {
    var n, hlen := |buf|, |HEADER|;
    if n < hlen then
      if StartsWith(HEADER, buf) then Wait(buf) else Skip(buf[2..])
    else if !StartsWith(buf, HEADER) then Skip(buf[2..])
    else if n < hlen + 2 then Wait(buf)
    else if buf[hlen..hlen + 2] != LENGTH_MARKER then Raise(MissingBodyLength, buf[2..])
    else match IndexOf(buf, SOH, hlen + 2)
      case None =>
        if n - (hlen + 2) > MAX_BODYLEN_DIGITS then Raise(BodyLengthTooLong, buf[2..]) else Wait(buf)
      case Some(soh2) =>
        match PyInt(buf[hlen + 2..soh2])
        case None => Raise(BodyLengthNotANumber, buf[2..])
        case Some(bodyLen) =>
          if bodyLen < 0 || bodyLen > MAX_BODY_LENGTH then Raise(ImplausibleBodyLength, buf[2..])
          else
            var end := soh2 + 1 + bodyLen + CHECKSUM_FIELD_LEN;
            if n < end then Wait(buf)
            else match Decode(buf[..end])
              case Corrupt(_) => Skip(buf[2..])
              case Message(pairs) => Deliver(pairs, buf[end..])
              case Unfinished => Hang
  }

  /** Every turn that does not end the call drops at least one byte. */
  lemma IterateShrinks(buf: seq<byte>)
    ensures Iterate(buf).Skip? || Iterate(buf).Raise? || Iterate(buf).Deliver? ==> |Iterate(buf).rest| < |buf|
  {
    hide PyInt, IndexOf, Decode;
  }

  /** How a call of `get_message` ends, and what it leaves in the buffer. */
  datatype Pull =
    | Incomplete(rest: seq<byte>)
    | Raised(error: FrameError, rest: seq<byte>)
    | Frame(message: seq<Field>, rest: seq<byte>)
    | Hung

  function NextMessage(buf: seq<byte>): Pull
    decreases |buf|
  {
    IterateShrinks(buf);
    match Iterate(buf)
    case Wait(rest) => Incomplete(rest)
    case Skip(rest) => NextMessage(rest)
    case Raise(e, rest) => Raised(e, rest)
    case Deliver(m, rest) => Frame(m, rest)
    case Hang => Hung
  }

  /** A call leaves a suffix of the buffer, a shorter one if it raised or handed over a frame. */
  lemma {:induction false} NextMessageRest(buf: seq<byte>)
    ensures var r := NextMessage(buf); !r.Hung? ==>
      && |r.rest| <= |buf| && r.rest == buf[|buf| - |r.rest|..]
      && (r.Incomplete? || |r.rest| < |buf|)
    decreases |buf|
  {
    IterateShrinks(buf);
    IterateRest(buf);
    hide Iterate;
    if Iterate(buf).Skip? {
      NextMessageRest(Iterate(buf).rest);
    }
  }

  lemma IterateRest(buf: seq<byte>)
    ensures var t := Iterate(buf); !t.Hang? ==> |t.rest| <= |buf| && t.rest == buf[|buf| - |t.rest|..]
  {
    if FindMarker(buf).Some? {
      AtMarkerRest(buf[FindMarker(buf).value..]);
    }
    hide AtMarker;
  }

  lemma AtMarkerRest(buf: seq<byte>)
    requires |buf| >= 2
    ensures var t := AtMarker(buf); !t.Hang? ==> exists k :: 0 <= k <= |buf| && t.rest == buf[k..]
  {
    hide PyInt, IndexOf, Decode, StartsWith;
    assert buf[0..] == buf;
  }

  // ---------------------------------------------------------------- draining

  datatype Event = Got(fields: seq<Field>) | Failed(error: FrameError)

  datatype Drained = Drained(events: seq<Event>, rest: seq<byte>, hung: bool)

  /** Calling again and again, also after errors, until a call asks for more bytes or hangs. */
  function Drain(buf: seq<byte>): Drained
    decreases |buf|
  {
    NextMessageRest(buf);
    match NextMessage(buf)
    case Incomplete(rest) => Drained([], rest, false)
    case Hung => Drained([], buf, true)
    case Raised(e, rest) => Drain(rest).(events := [Failed(e)] + Drain(rest).events)
    case Frame(m, rest) => Drain(rest).(events := [Got(m)] + Drain(rest).events)
  }

  /** The frames up to the first call that does not hand one over, and how that call ends. */
  function Collect(buf: seq<byte>): (r: (seq<seq<Field>>, Pull))
    decreases |buf|
  {
    NextMessageRest(buf);
    match NextMessage(buf)
    case Frame(m, rest) => ([m] + Collect(rest).0, Collect(rest).1)
    case other => ([], other)
  }

  class FixParser {
    var buf: seq<byte>
    /** Everything ever appended, and how much of it has been dropped. */
    ghost var stream: seq<byte>
    ghost var dropped: nat

    /** The buffer is always a suffix of what was appended. */
    ghost predicate Valid()
      reads this
    {
      dropped <= |stream| && buf == stream[dropped..]
    }

    constructor ()
      ensures Valid() && buf == [] && stream == []
    {
      buf, stream, dropped := [], [], 0;
    }

    method Append(data: seq<byte>)
      requires Valid()
      modifies this
      ensures Valid()
      ensures buf == old(buf) + data && stream == old(stream) + data && dropped == old(dropped)
    {
      buf := buf + data;
      stream := stream + data;
    }

    method DropFirst(k: nat)
      requires Valid() && k <= |buf|
      modifies this
      ensures Valid()
      ensures buf == old(buf)[k..] && stream == old(stream) && dropped == old(dropped) + k
    {
      buf := buf[k..];
      dropped := dropped + k;
    }

    /** The part of a turn that looks for the marker and drops what comes before it. */
    method SeekMarker() returns (found: bool)
      requires Valid()
      modifies this
      ensures Valid() && stream == old(stream) && dropped >= old(dropped)
      ensures found ==> |buf| >= 2 && Iterate(old(buf)) == AtMarker(buf) && |buf| <= |old(buf)|
      ensures !found ==> Iterate(old(buf)) == Wait(buf)
    {
      hide AtMarker;
      var start := FindMarker(buf);
      if start == None {
        if |buf| > 1 {
          DropFirst(|buf| - 1);
        }
        return false;
      }
      if start.value > 0 {
        DropFirst(start.value);
      }
      return true;
    }

    /** The part of a turn that starts from a marker at the front of the buffer. */
    method ReadAtMarker() returns (t: Turn)
      requires Valid() && |buf| >= 2
      modifies this
      ensures Valid() && stream == old(stream) && dropped >= old(dropped)
      ensures t == AtMarker(old(buf))
      ensures if t.Hang? then buf == old(buf) else buf == t.rest
    {
      hide PyInt, IndexOf, Decode;
      var n, hlen := |buf|, |HEADER|;
      if n < hlen {
        if StartsWith(HEADER, buf) {
          return Wait(buf);
        }
        DropFirst(2);
        return Skip(buf);
      }
      if !StartsWith(buf, HEADER) {
        DropFirst(2);
        return Skip(buf);
      }
      if n < hlen + 2 {
        return Wait(buf);
      }
      if buf[hlen..hlen + 2] != LENGTH_MARKER {
        DropFirst(2);
        return Raise(MissingBodyLength, buf);
      }
      var soh2 := IndexOf(buf, SOH, hlen + 2);
      if soh2 == None {
        if n - (hlen + 2) > MAX_BODYLEN_DIGITS {
          DropFirst(2);
          return Raise(BodyLengthTooLong, buf);
        }
        return Wait(buf);
      }
      var bodyLen := PyInt(buf[hlen + 2..soh2.value]);
      if bodyLen == None {
        DropFirst(2);
        return Raise(BodyLengthNotANumber, buf);
      }
      if bodyLen.value < 0 || bodyLen.value > MAX_BODY_LENGTH {
        DropFirst(2);
        return Raise(ImplausibleBodyLength, buf);
      }
      var end := soh2.value + 1 + bodyLen.value + CHECKSUM_FIELD_LEN;
      if n < end {
        return Wait(buf);
      }
      match Decode(buf[..end])
      case Corrupt(_) =>
        DropFirst(2);
        return Skip(buf);
      case Unfinished =>
        return Hang;
      case Message(pairs) =>
        DropFirst(end);
        return Deliver(pairs, buf);
    }

    /**
     * One call. The buffer afterwards is what `NextMessage` says, so it has lost a front
     * part and nothing else; when `decode` hangs it has only been trimmed up to the frame.
     */
    method GetMessage() returns (r: Pull)
      requires Valid()
      modifies this
      ensures Valid() && stream == old(stream) && dropped >= old(dropped)
      ensures r == NextMessage(old(buf))
      ensures !r.Hung? ==> buf == r.rest
    {
      while true
        invariant Valid() && stream == old(stream) && dropped >= old(dropped)
        invariant NextMessage(old(buf)) == NextMessage(buf)
        decreases |buf|
      {
        hide Iterate, AtMarker;
        ghost var before := buf;
        IterateShrinks(before);
        var found := SeekMarker();
        if !found {
          return Incomplete(buf);
        }
        var t := ReadAtMarker();
        match t
        case Wait(rest) => return Incomplete(rest);
        case Raise(e, rest) => return Raised(e, rest);
        case Deliver(m, rest) => return Frame(m, rest);
        case Hang => return Hung;
        case Skip(_) =>
      }
    }

    /** Every complete frame; an error on the way discards the frames collected so far. */
    method Messages() returns (r: Result<seq<seq<Field>>, Pull>)
      requires Valid()
      modifies this
      ensures Valid() && stream == old(stream)
      ensures var c := Collect(old(buf));
        r == (if c.1.Incomplete? then Ok(c.0) else Err(c.1)) && (!c.1.Hung? ==> buf == c.1.rest)
    {
      hide NextMessage;
      var out: seq<seq<Field>> := [];
      while true
        invariant Valid() && stream == old(stream)
        invariant Collect(old(buf)).0 == out + Collect(buf).0 && Collect(old(buf)).1 == Collect(buf).1
        decreases |buf|
      {
        NextMessageRest(buf);
        ghost var before := buf;
        var p := GetMessage();
        match p
        case Incomplete(_) =>
          assert out + Collect(before).0 == out;
          return Ok(out);
        case Raised(_, _) => return Err(p);
        case Hung => return Err(p);
        case Frame(m, rest) =>
          assert out + ([m] + Collect(rest).0) == (out + [m]) + Collect(rest).0;
          out := out + [m];
      }
    }
  }
}
