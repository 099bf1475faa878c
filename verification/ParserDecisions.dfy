/**
 * What the parser makes of a header, by the bytes that follow it: exactly when it waits,
 * when it raises and which error, and when it is left to `decode`.
 */
module ParserDecisions {
  import opened Bytes
  import opened Codec
  import opened Parser
  import opened ParserStream
  import opened Wrappers

  /** A header "8=FIXT.1.1" with its SOH, and "9=" right behind it. */
  predicate WithLength(tail: seq<byte>) {
    |tail| >= 13 && tail[..11] == HEADER && tail[11] == 57 && tail[12] == 61
  }

  /** The BodyLength text is `text`, and its SOH is there. */
  predicate LengthText(tail: seq<byte>, text: seq<byte>) {
    && WithLength(tail) && SOH !in text
    && 13 + |text| < |tail| && tail[13..13 + |text|] == text && tail[13 + |text|] == SOH
  }

  /** Two texts cannot both be it. */
  lemma OneLengthText(tail: seq<byte>, a: seq<byte>, b: seq<byte>)
    requires LengthText(tail, a) && LengthText(tail, b)
    ensures a == b
  {
    TextIndex(tail, a);
    TextIndex(tail, b);
    hide IndexOf;
  }

  /** Where a frame with this text would end, if it is a plausible length. */
  predicate Spans(text: seq<byte>, end: int) {
    PyInt(text).Some? && 0 <= PyInt(text).value <= 1_000_000 && end == 13 + |text| + 1 + PyInt(text).value + 7
  }

  lemma TextFound(tail: seq<byte>) returns (text: seq<byte>)
    requires WithLength(tail) && IndexOf(tail, SOH, 13).Some?
    ensures LengthText(tail, text) && IndexOf(tail, SOH, 13) == Some(13 + |text|)
  {
    IndexOfFirst(tail, SOH, 13);
    var at := IndexOf(tail, SOH, 13).value;
    text := tail[13..at];
    assert forall k :: 0 <= k < |text| ==> text[k] == tail[13 + k];
  }

  lemma {:induction false} TextIndex(tail: seq<byte>, text: seq<byte>)
    requires LengthText(tail, text)
    ensures IndexOf(tail, SOH, 13) == Some(13 + |text|)
  {
    IndexOfIs(tail, SOH, 13, 13 + |text|);
  }

  lemma {:induction false} NoText(tail: seq<byte>)
    requires WithLength(tail)
    ensures IndexOf(tail, SOH, 13).None? <==> SOH !in tail[13..]
  {
    IndexOfFirst(tail, SOH, 13);
    assert forall k :: 13 <= k < |tail| ==> tail[13..][k - 13] == tail[k];
  }

  /** No "9=" behind the header: an error, as soon as there are two bytes to tell. */
  lemma WithoutLength(tail: seq<byte>)
    requires |tail| >= 11 && tail[..11] == HEADER && !WithLength(tail)
    ensures AtMarker(tail) == if |tail| < 13 then Wait(tail) else Raise(MissingBodyLength, tail[2..])
  {
    hide PyInt, IndexOf, Decode;
    assert |HEADER| == 11;
    if |tail| >= 13 {
      assert tail[11..13] == [tail[11], tail[12]];
    }
  }

  /** A text that has not ended: an error once it has ten bytes, and otherwise wait. */
  lemma OpenText(tail: seq<byte>)
    requires WithLength(tail) && SOH !in tail[13..]
    ensures AtMarker(tail) == if |tail| >= 23 then Raise(BodyLengthTooLong, tail[2..]) else Wait(tail)
  {
    NoText(tail);
    hide PyInt, IndexOf, Decode;
    assert |HEADER| == 11;
    assert tail[11..13] == [tail[11], tail[12]];
  }

  /**
   * A text that has ended: an error if it is no integer or none from 0 to 1,000,000; wait
   * until the whole span is there; and then `decode` decides.
   */
  lemma ClosedText(tail: seq<byte>, text: seq<byte>)
    requires LengthText(tail, text)
    ensures AtMarker(tail) ==
      match PyInt(text)
      case None => Raise(BodyLengthNotANumber, tail[2..])
      case Some(n) =>
        if n < 0 || n > 1_000_000 then Raise(ImplausibleBodyLength, tail[2..])
        else
          var end := 13 + |text| + 1 + n + 7;
          if |tail| < end then Wait(tail)
          else match Decode(tail[..end])
            case Corrupt(_) => Skip(tail[2..])
            case Message(pairs) => Deliver(pairs, tail[end..])
            case Unfinished => Hang
  {
    hide IndexOf, PyInt, Decode, AtMarker, LengthText, WithLength;
    TextParts(tail, text);
    LengthRead(tail, 13 + |text|);
    if PyInt(text).Some? && 0 <= PyInt(text).value <= 1_000_000 {
      SpanRead(tail, 13 + |text|, PyInt(text).value);
    }
  }

  lemma {:induction false} TextParts(tail: seq<byte>, text: seq<byte>)
    requires LengthText(tail, text)
    ensures WithLength(tail) && IndexOf(tail, SOH, 13) == Some(13 + |text|)
    ensures 13 + |text| < |tail| && tail[13..13 + |text|] == text
  {
    TextIndex(tail, text);
    hide IndexOf;
  }

  lemma {:induction false} LengthRead(tail: seq<byte>, soh2: nat)
    requires WithLength(tail) && IndexOf(tail, SOH, 13) == Some(soh2)
    ensures match PyInt(tail[13..soh2])
      case None => AtMarker(tail) == Raise(BodyLengthNotANumber, tail[2..])
      case Some(n) => n < 0 || n > 1_000_000 ==> AtMarker(tail) == Raise(ImplausibleBodyLength, tail[2..])
  {
    hide PyInt, IndexOf, Decode;
    assert |HEADER| == 11;
    assert tail[11..13] == [tail[11], tail[12]];
  }

  lemma {:induction false} SpanRead(tail: seq<byte>, soh2: nat, n: nat)
    requires WithLength(tail) && IndexOf(tail, SOH, 13) == Some(soh2) && soh2 >= 13
    requires PyInt(tail[13..soh2]) == Some(n) && n <= 1_000_000
    ensures var end := soh2 + 1 + n + 7;
      AtMarker(tail) ==
        if |tail| < end then Wait(tail)
        else match Decode(tail[..end])
          case Corrupt(_) => Skip(tail[2..])
          case Message(pairs) => Deliver(pairs, tail[end..])
          case Unfinished => Hang
  {
    SpanWaits(tail, soh2, n);
    hide AtMarker, IndexOf, PyInt;
    if |tail| >= soh2 + 1 + n + 7 {
      SpanDecoded(tail, soh2, n);
    }
  }

  lemma {:induction false} SpanWaits(tail: seq<byte>, soh2: nat, n: nat)
    requires WithLength(tail) && IndexOf(tail, SOH, 13) == Some(soh2) && soh2 >= 13
    requires PyInt(tail[13..soh2]) == Some(n) && n <= 1_000_000
    ensures |tail| < soh2 + 1 + n + 7 ==> AtMarker(tail) == Wait(tail)
  {
    hide PyInt, IndexOf, Decode;
    assert |HEADER| == 11;
    assert tail[11..13] == [tail[11], tail[12]];
  }

  lemma {:induction false} SpanDecoded(tail: seq<byte>, soh2: nat, n: nat)
    requires WithLength(tail) && IndexOf(tail, SOH, 13) == Some(soh2) && soh2 >= 13
    requires PyInt(tail[13..soh2]) == Some(n) && n <= 1_000_000 && |tail| >= soh2 + 1 + n + 7
    ensures var end := soh2 + 1 + n + 7;
      AtMarker(tail) ==
        match Decode(tail[..end])
        case Corrupt(_) => Skip(tail[2..])
        case Message(pairs) => Deliver(pairs, tail[end..])
        case Unfinished => Hang
  {
    hide PyInt, IndexOf, Decode;
    assert |HEADER| == 11;
    assert tail[11..13] == [tail[11], tail[12]];
  }

  // ---------------------------------------------------------------- whole calls

  /** A header that is not one to be passed over: incomplete, in error, or one whose span `decode` does not refuse. */
  ghost predicate Passed(tail: seq<byte>) {
    exists text, end :: LengthText(tail, text) && Spans(text, end) && end <= |tail| && Decode(tail[..end]).Corrupt?
  }

  /** Passing over is for corrupt spans alone. */
  lemma PassedIff(tail: seq<byte>)
    requires |tail| >= 11 && tail[..11] == HEADER
    ensures AtMarker(tail).Skip? <==> Passed(tail)
  {
    hide Decode, AtMarker, PyInt, LengthText;
    if !WithLength(tail) {
      WithoutLength(tail);
      NoLengthText(tail);
    } else if SOH !in tail[13..] {
      OpenText(tail);
      NoLengthText(tail);
    } else {
      NoText(tail);
      hide IndexOf;
      var text := TextFound(tail);
      ClosedText(tail, text);
      forall other | LengthText(tail, other)
        ensures other == text
      {
        OneLengthText(tail, text, other);
      }
      if AtMarker(tail).Skip? {
        var end := 13 + |text| + 1 + PyInt(text).value + 7;
        assert Spans(text, end);
      }
    }
  }

  lemma NoLengthText(tail: seq<byte>)
    ensures forall text :: LengthText(tail, text) ==> WithLength(tail) && SOH in tail[13..]
  {
    forall text | LengthText(tail, text)
      ensures WithLength(tail) && SOH in tail[13..]
    {
      assert tail[13..][|text|] == SOH;
    }
  }

  /** The error of the header at the front, if it is in error; by the bytes alone. */
  ghost predicate InError(tail: seq<byte>, e: FrameError) {
    match e
    case MissingBodyLength => |tail| >= 13 && tail[..11] == HEADER && !(tail[11] == 57 && tail[12] == 61)
    case BodyLengthTooLong => WithLength(tail) && |tail| >= 23 && SOH !in tail[13..]
    case BodyLengthNotANumber => exists text :: LengthText(tail, text) && PyInt(text) == None
    case ImplausibleBodyLength =>
      exists text :: LengthText(tail, text) && PyInt(text).Some? && !(0 <= PyInt(text).value <= 1_000_000)
  }

  lemma InErrorIff(tail: seq<byte>, e: FrameError)
    requires |tail| >= 11 && tail[..11] == HEADER
    ensures AtMarker(tail) == Raise(e, tail[2..]) <==> InError(tail, e)
    ensures AtMarker(tail).Raise? ==> AtMarker(tail).rest == tail[2..]
  {
    hide Decode, AtMarker, PyInt, LengthText;
    if !WithLength(tail) {
      WithoutLength(tail);
      NoLengthText(tail);
    } else if SOH !in tail[13..] {
      OpenText(tail);
      NoLengthText(tail);
    } else {
      NoText(tail);
      hide IndexOf;
      var text := TextFound(tail);
      ClosedText(tail, text);
      forall other | LengthText(tail, other)
        ensures other == text
      {
        OneLengthText(tail, text, other);
      }
    }
  }

  /** A place that decides the call: a header, and all before it passed over. */
  ghost predicate Decides(buf: seq<byte>, p: nat) {
    && p + 11 <= |buf| && buf[p..p + 11] == HEADER && !Passed(buf[p..])
    && forall q: nat :: q < p && q + 11 <= |buf| && buf[q..q + 11] == HEADER ==> Passed(buf[q..])
  }

  lemma DecidesIs(buf: seq<byte>, p: nat)
    ensures Decides(buf, p) <==>
      HeaderAt(buf, p) && !Rejected(buf, p) && forall q: nat :: q < p && HeaderAt(buf, q) ==> Rejected(buf, q)
  {
    hide AtMarker, Passed;
    assert |HEADER| == 11;
    forall q: nat | HeaderAt(buf, q)
      ensures Rejected(buf, q) <==> Passed(buf[q..])
    {
      assert buf[q..][..11] == buf[q..q + 11];
      PassedIff(buf[q..]);
    }
  }

  /** Exactly when a call raises, and which error: the deciding header is in that error. */
  lemma {:induction false} RaisesIff(buf: seq<byte>, e: FrameError)
    ensures (NextMessage(buf).Raised? && NextMessage(buf).error == e) <==>
      exists p: nat :: p <= |buf| && Decides(buf, p) && InError(buf[p..], e)
  {
    hide NextMessage, AtMarker, InError, Decides, HeaderAt;
    if NextMessage(buf).Raised? && NextMessage(buf).error == e {
      var p := LiveHeader(buf);
      DecidesIs(buf, p);
      HeaderTail(buf, p);
      FirstLiveHeader(buf, p);
      InErrorIff(buf[p..], e);
    }
    if p: nat :| p <= |buf| && Decides(buf, p) && InError(buf[p..], e) {
      DecidesIs(buf, p);
      FirstLiveHeader(buf, p);
      HeaderTail(buf, p);
      InErrorIff(buf[p..], e);
    }
  }

  lemma HeaderTail(buf: seq<byte>, p: nat)
    requires HeaderAt(buf, p)
    ensures p <= |buf| && |buf[p..]| >= 11 && buf[p..][..11] == HEADER
  {
    assert |HEADER| == 11;
    assert buf[p..][..11] == buf[p..p + 11];
  }

  /**
   * What waiting means: a kept header with a complete BodyLength has one from 0 to 1,000,000,
   * and the span it announces is not all there yet.
   */
  lemma {:induction false} WaitingMeans(buf: seq<byte>, text: seq<byte>)
    requires NextMessage(buf).Incomplete? && LengthText(NextMessage(buf).rest, text)
    ensures PyInt(text).Some? && 0 <= PyInt(text).value <= 1_000_000
    ensures |NextMessage(buf).rest| < 13 + |text| + 1 + PyInt(text).value + 7
  {
    hide NextMessage, AtMarker, Decode, PyInt;
    var rest := NextMessage(buf).rest;
    WaitingKeepsFront(buf);
    ClosedText(rest, text);
  }

  /** What is kept while waiting is at most a byte, or what a turn of the loop itself waits with. */
  lemma {:induction false} WaitingKeepsFront(buf: seq<byte>)
    requires NextMessage(buf).Incomplete?
    ensures var rest := NextMessage(buf).rest; |rest| >= 2 ==> AtMarker(rest) == Wait(rest)
    decreases |buf|
  {
    hide Iterate, AtMarker;
    IterateShrinks(buf);
    if Iterate(buf).Skip? {
      WaitingKeepsFront(Iterate(buf).rest);
    } else {
      WaitingTurn(buf);
    }
  }

  lemma WaitingTurn(buf: seq<byte>)
    requires Iterate(buf).Wait?
    ensures var rest := Iterate(buf).rest; |rest| >= 2 ==> AtMarker(rest) == Wait(rest)
  {
    if FindMarker(buf).Some? {
      WaitKeepsAll(buf[FindMarker(buf).value..]);
    }
    hide AtMarker, FindMarker;
  }

  /** And short of a complete one: fewer than ten bytes of a length, or a header that is not all there. */
  lemma {:induction false} WaitingShort(buf: seq<byte>)
    requires NextMessage(buf).Incomplete?
    ensures var rest := NextMessage(buf).rest;
      || |rest| <= 1
      || (|rest| < 11 && rest == HEADER[..|rest|])
      || (11 <= |rest| < 13 && rest[..11] == HEADER)
      || (WithLength(rest) && (if SOH in rest[13..] then exists text :: LengthText(rest, text) else |rest| < 23))
  {
    hide NextMessage, AtMarker, Decode, PyInt;
    var rest := NextMessage(buf).rest;
    WaitingKeepsFront(buf);
    if |rest| >= 2 {
      if |rest| < 11 || rest[..11] != HEADER {
        FalseMarkerWaits(rest);
      } else if !WithLength(rest) {
        WithoutLength(rest);
      } else if SOH !in rest[13..] {
        OpenText(rest);
      } else {
        NoText(rest);
        var text := TextFound(rest);
      }
    }
  }

  /** A marker that no header begins with waits only while it may still become one. */
  lemma FalseMarkerWaits(tail: seq<byte>)
    requires |tail| >= 2 && (|tail| < 11 || tail[..11] != HEADER)
    ensures AtMarker(tail) == if |tail| < 11 && tail == HEADER[..|tail|] then Wait(tail) else Skip(tail[2..])
  {
    hide PyInt, IndexOf, Decode;
    assert |HEADER| == 11;
    assert StartsWith(HEADER, tail) <==> |tail| <= 11 && tail == HEADER[..|tail|];
  }
}
