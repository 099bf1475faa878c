/**
 * What the incremental parser does with a whole byte stream: which frame a call hands over,
 * why the chunking of the stream does not matter, and that frames in junk come out exactly.
 */
module ParserStream {
  import opened Bytes
  import opened Codec
  import opened Parser
  import opened RoundTrip
  import opened Wrappers

  predicate HeaderAt(buf: seq<byte>, p: nat) {
    p + |HEADER| <= |buf| && buf[p..p + |HEADER|] == HEADER
  }

  /** The header at `p` is passed over: its span is complete and does not decode. */
  predicate Rejected(buf: seq<byte>, p: nat)
    requires HeaderAt(buf, p)
  {
    AtMarker(buf[p..]).Skip?
  }

  function AsPull(t: Turn): Pull
    requires !t.Skip?
  {
    match t
    case Wait(rest) => Incomplete(rest)
    case Raise(e, rest) => Raised(e, rest)
    case Deliver(m, rest) => Frame(m, rest)
    case Hang => Hung
  }

  // ---------------------------------------------------------------- one call

  /** A call is decided by the first header that is not passed over, wherever markers are. */
  lemma {:induction false} FirstLiveHeader(buf: seq<byte>, p: nat)
    requires HeaderAt(buf, p) && !Rejected(buf, p)
    requires forall q: nat :: q < p && HeaderAt(buf, q) ==> Rejected(buf, q)
    ensures NextMessage(buf) == AsPull(AtMarker(buf[p..]))
    decreases |buf|
  {
    hide AtMarker;
    HeaderHasMarker(buf, p);
    var start := FindMarker(buf).value;
    if start < p {
      SkipsFalseMarker(buf, start, p);
      var rest := buf[start + 2..];
      forall q: nat | q < p - start - 2 && HeaderAt(rest, q)
        ensures Rejected(rest, q)
      {
        ShiftHeader(buf, start + 2, q);
      }
      ShiftHeader(buf, start + 2, p - start - 2);
      FirstLiveHeader(rest, p - start - 2);
      assert NextMessage(buf) == NextMessage(rest);
    }
  }

  /** With no such header, a call takes nothing and waits. */
  lemma {:induction false} NoLiveHeader(buf: seq<byte>)
    requires forall q: nat :: HeaderAt(buf, q) ==> Rejected(buf, q)
    ensures NextMessage(buf).Incomplete?
    decreases |buf|
  {
    hide AtMarker;
    if FindMarker(buf).Some? {
      var start := FindMarker(buf).value;
      MarkerWithoutHeader(buf, start);
      if AtMarker(buf[start..]).Skip? {
        var rest := buf[start + 2..];
        assert AtMarker(buf[start..]).rest == rest;
        forall q: nat | HeaderAt(rest, q)
          ensures Rejected(rest, q)
        {
          ShiftHeader(buf, start + 2, q);
        }
        NoLiveHeader(rest);
        assert NextMessage(buf) == NextMessage(rest);
      }
    }
  }

  lemma {:induction false} HeaderHasMarker(buf: seq<byte>, p: nat)
    requires HeaderAt(buf, p)
    ensures FindMarker(buf).Some? && FindMarker(buf).value <= p
    ensures FindMarker(buf).value < p ==> FindMarker(buf).value + 2 <= p
  {
    assert buf[p] == buf[p..p + |HEADER|][0] == MARKER[0];
    assert buf[p + 1] == buf[p..p + |HEADER|][1] == MARKER[1];
    assert MarkerAt(buf, p);
  }

  lemma {:induction false} MarkerWithoutHeader(buf: seq<byte>, start: nat)
    requires FindMarker(buf) == Some(start)
    requires HeaderAt(buf, start) ==> Rejected(buf, start)
    ensures AtMarker(buf[start..]) == Skip(buf[start + 2..]) || AtMarker(buf[start..]).Wait?
  {
    hide PyInt, IndexOf, Decode;
    var tail := buf[start..];
    assert tail[2..] == buf[start + 2..];
    if StartsWith(tail, HEADER) {
      assert buf[start..start + |HEADER|] == tail[..|HEADER|];
    }
  }

  lemma {:induction false} SkipsFalseMarker(buf: seq<byte>, start: nat, p: nat)
    requires FindMarker(buf) == Some(start) && start < p && HeaderAt(buf, p)
    requires HeaderAt(buf, start) ==> Rejected(buf, start)
    ensures AtMarker(buf[start..]) == Skip(buf[start + 2..])
  {
    hide PyInt, IndexOf, Decode;
    var tail := buf[start..];
    assert tail[2..] == buf[start + 2..];
    if StartsWith(tail, HEADER) {
      assert buf[start..start + |HEADER|] == tail[..|HEADER|];
    }
  }

  lemma ShiftHeader(buf: seq<byte>, d: nat, q: nat)
    requires d <= |buf|
    ensures HeaderAt(buf[d..], q) <==> HeaderAt(buf, d + q)
    ensures HeaderAt(buf, d + q) ==> buf[d..][q..] == buf[d + q..]
  {
  }

  /**
   * On arbitrary bytes, a frame handed over is a slice of the buffer that decodes to it,
   * what is kept is the bytes after that slice, and every header lost in front of the
   * slice was passed over.
   */
  lemma FrameIsSlice(buf: seq<byte>) returns (start: nat, end: nat)
    requires NextMessage(buf).Frame?
    ensures start < end <= |buf|
    ensures Decode(buf[start..end]) == Decoded.Message(NextMessage(buf).message)
    ensures NextMessage(buf).rest == buf[end..]
    ensures HeaderAt(buf, start)
    ensures forall q: nat :: q < start && HeaderAt(buf, q) ==> Rejected(buf, q)
  {
    hide NextMessage, AtMarker, Decode, HeaderAt;
    start := LiveHeader(buf);
    FirstLiveHeader(buf, start);
    NextMessageRest(buf);
    end := |buf| - |NextMessage(buf).rest|;
    DeliveredSlice(buf, start, end);
  }

  lemma DeliveredSlice(buf: seq<byte>, start: nat, end: nat)
    requires HeaderAt(buf, start) && AtMarker(buf[start..]).Deliver?
    requires end == |buf| - |AtMarker(buf[start..]).rest|
    ensures start < end <= |buf|
    ensures Decode(buf[start..end]) == Decoded.Message(AtMarker(buf[start..]).message)
    ensures AtMarker(buf[start..]).rest == buf[end..]
  {
    hide PyInt, IndexOf, Decode;
    var tail := buf[start..];
    var k := |tail| - |AtMarker(tail).rest|;
    assert tail[..k] == buf[start..end];
  }

  /**
   * When a call raises, it does so on a header, all before it were passed over, and it
   * drops no more of that header than its marker.
   */
  lemma RaiseDropsOneMarker(buf: seq<byte>) returns (p: nat)
    requires NextMessage(buf).Raised?
    ensures HeaderAt(buf, p) && forall q: nat :: q < p && HeaderAt(buf, q) ==> Rejected(buf, q)
    ensures p + 2 <= |buf| && NextMessage(buf).rest == buf[p + 2..]
  {
    hide NextMessage, AtMarker, HeaderAt;
    p := LiveHeader(buf);
    FirstLiveHeader(buf, p);
    RaiseRest(buf, p);
  }

  lemma RaiseRest(buf: seq<byte>, p: nat)
    requires HeaderAt(buf, p) && AtMarker(buf[p..]).Raise?
    ensures p + 2 <= |buf| && AtMarker(buf[p..]).rest == buf[p + 2..]
  {
    hide PyInt, IndexOf, Decode;
    assert buf[p..][2..] == buf[p + 2..];
  }

  /**
   * When a call waits, every header it has dropped was passed over: at most one header
   * is still open, and it is at the front of what is kept.
   */
  lemma {:induction false} WaitKeepsOpenHeader(buf: seq<byte>, q: nat)
    requires NextMessage(buf).Incomplete?
    requires HeaderAt(buf, q) && !Rejected(buf, q)
    requires forall p: nat :: p < q && HeaderAt(buf, p) ==> Rejected(buf, p)
    ensures NextMessage(buf).rest == buf[q..]
  {
    FirstLiveHeader(buf, q);
    hide PyInt, IndexOf, Decode;
  }

  /** The first header that is not passed over, which exists unless the call waits. */
  lemma LiveHeader(buf: seq<byte>) returns (p: nat)
    requires !NextMessage(buf).Incomplete?
    ensures HeaderAt(buf, p) && !Rejected(buf, p)
    ensures forall q: nat :: q < p && HeaderAt(buf, q) ==> Rejected(buf, q)
  {
    hide AtMarker, NextMessage;
    if forall q: nat :: HeaderAt(buf, q) ==> Rejected(buf, q) {
      NoLiveHeader(buf);
      assert false;
    }
    p :| HeaderAt(buf, p) && !Rejected(buf, p);
    while exists q: nat :: q < p && HeaderAt(buf, q) && !Rejected(buf, q)
      invariant HeaderAt(buf, p) && !Rejected(buf, p)
      decreases p
    {
      var q: nat :| q < p && HeaderAt(buf, q) && !Rejected(buf, q);
      p := q;
    }
  }

  // ---------------------------------------------------------------- more bytes change nothing decided

  lemma {:induction false} IndexOfExtends(buf: seq<byte>, x: seq<byte>, b: byte, start: nat)
    requires IndexOf(buf, b, start).Some?
    ensures IndexOf(buf + x, b, start) == IndexOf(buf, b, start)
  {
    IndexOfFirst(buf, b, start);
    var at := IndexOf(buf, b, start).value;
    IndexOfIs(buf + x, b, start, at);
  }

  lemma {:induction false} IndexOfStaysNone(buf: seq<byte>, x: seq<byte>, b: byte, start: nat)
    requires IndexOf(buf, b, start).None? && b !in x && start <= |buf|
    ensures IndexOf(buf + x, b, start).None?
  {
    IndexOfFirst(buf, b, start);
    assert forall k :: |buf| <= k < |buf + x| ==> (buf + x)[k] == x[k - |buf|];
  }

  /**
   * Later bytes do not change a turn that has come to a decision, except one error: that on
   * a BodyLength that has not ended, if a delimiter is among them.
   */
  lemma AtMarkerExtends(buf: seq<byte>, x: seq<byte>)
    requires |buf| >= 2
    ensures match AtMarker(buf)
      case Wait(_) => true
      case Skip(rest) => AtMarker(buf + x) == Skip(rest + x)
      case Raise(e, rest) => e != BodyLengthTooLong || SOH !in x ==> AtMarker(buf + x) == Raise(e, rest + x)
      case Deliver(m, rest) => AtMarker(buf + x) == Deliver(m, rest + x)
      case Hang => AtMarker(buf + x) == Hang
  {
    hide PyInt, IndexOf, Decode;
    var all, hlen := buf + x, |HEADER|;
    assert all[2..] == buf[2..] + x;
    if |buf| < hlen {
      if StartsWith(all, HEADER) {
        assert buf == all[..|buf|] == HEADER[..|buf|];
      } else if |all| < hlen && StartsWith(HEADER, all) {
        assert buf == HEADER[..|buf|];
      }
      return;
    }
    assert all[..hlen] == buf[..hlen];
    if |buf| < hlen + 2 {
      return;
    }
    assert all[hlen..hlen + 2] == buf[hlen..hlen + 2];
    var soh2 := IndexOf(buf, SOH, hlen + 2);
    if soh2.None? {
      if SOH !in x {
        IndexOfStaysNone(buf, x, SOH, hlen + 2);
      }
    } else {
      IndexOfExtends(buf, x, SOH, hlen + 2);
      assert all[hlen + 2..soh2.value] == buf[hlen + 2..soh2.value];
      var bodyLen := PyInt(buf[hlen + 2..soh2.value]);
      if bodyLen.Some? && 0 <= bodyLen.value {
        var end := soh2.value + 1 + bodyLen.value + CHECKSUM_FIELD_LEN;
        if end <= |buf| {
          assert all[..end] == buf[..end] && all[end..] == buf[end..] + x;
        }
      }
    }
  }

  lemma {:induction false} FindMarkerExtends(buf: seq<byte>, x: seq<byte>)
    ensures FindMarker(buf).Some? ==> FindMarker(buf + x) == FindMarker(buf)
  {
    if FindMarker(buf).Some? {
      var start := FindMarker(buf).value;
      assert forall k :: 0 <= k <= start ==> (MarkerAt(buf + x, k) <==> MarkerAt(buf, k));
    }
  }

  lemma {:induction false} MarkerShift(all: seq<byte>, d: nat)
    requires d <= |all|
    requires forall k :: 0 <= k < d ==> !MarkerAt(all, k)
    ensures match FindMarker(all[d..])
      case None => FindMarker(all) == None
      case Some(p) => FindMarker(all) == Some(d + p)
  {
    hide FindMarker, MarkerAt;
    var kept := all[d..];
    forall k | d <= k
      ensures MarkerAt(all, k) <==> MarkerAt(kept, k - d)
    {
      MarkerAtShift(all, d, k);
    }
    match FindMarker(kept)
    case Some(p) =>
      assert MarkerAt(all, d + p);
    case None =>
  }

  lemma MarkerAtShift(all: seq<byte>, d: nat, k: int)
    requires d <= |all| && d <= k
    ensures MarkerAt(all, k) <==> MarkerAt(all[d..], k - d)
  {
  }

  lemma Tails(all: seq<byte>, d: nat, p: nat)
    requires d + p <= |all|
    ensures all[d..][p..] == all[d + p..]
  {
  }

  /** Bytes in front that hold no marker make no difference to a turn. */
  lemma IterateShift(all: seq<byte>, d: nat)
    requires d < |all|
    requires forall k :: 0 <= k < d ==> !MarkerAt(all, k)
    ensures Iterate(all) == Iterate(all[d..])
  {
    hide *;
    MarkerShift(all, d);
    match FindMarker(all[d..])
    case Some(p) =>
      TurnAtMarker(all[d..], p);
      TurnAtMarker(all, d + p);
      Tails(all, d, p);
    case None =>
      TurnWithoutMarker(all[d..]);
      TurnWithoutMarker(all);
      Tails(all, d, |all| - d - 1);
  }

  lemma {:induction false} TurnAtMarker(buf: seq<byte>, p: nat)
    requires FindMarker(buf) == Some(p)
    ensures p + 2 <= |buf| && Iterate(buf) == AtMarker(buf[p..])
  {
    hide FindMarker, AtMarker;
  }

  lemma {:induction false} TurnWithoutMarker(buf: seq<byte>)
    requires FindMarker(buf).None? && buf != []
    ensures Iterate(buf) == Wait(buf[|buf| - 1..])
  {
    hide FindMarker, AtMarker;
    assert |buf| == 1 ==> buf[0..] == buf;
  }

  /** With no marker yet, the byte kept is all that later bytes can need. */
  lemma {:induction false} LastByteSuffices(buf: seq<byte>, x: seq<byte>)
    requires FindMarker(buf).None? && |buf| > 1
    ensures Iterate(buf + x) == Iterate(buf[|buf| - 1..] + x)
  {
    hide FindMarker, Iterate;
    var all, d := buf + x, |buf| - 1;
    assert forall k :: 0 <= k < d ==> (MarkerAt(all, k) <==> MarkerAt(buf, k));
    assert all[d..] == buf[d..] + x;
    IterateShift(all, d);
  }

  lemma IterateExtends(buf: seq<byte>, x: seq<byte>)
    ensures match Iterate(buf)
      case Wait(rest) => Iterate(buf + x) == Iterate(rest + x)
      case Skip(rest) => Iterate(buf + x) == Skip(rest + x)
      case Raise(e, rest) => e != BodyLengthTooLong || SOH !in x ==> Iterate(buf + x) == Raise(e, rest + x)
      case Deliver(m, rest) => Iterate(buf + x) == Deliver(m, rest + x)
      case Hang => Iterate(buf + x) == Hang
  {
    if FindMarker(buf).None? {
      if |buf| > 1 {
        LastByteSuffices(buf, x);
      }
    } else {
      var start := FindMarker(buf).value;
      var tail := buf[start..];
      FindMarkerExtends(buf, x);
      assert (buf + x)[start..] == tail + x;
      AtMarkerExtends(tail, x);
      WaitKeepsAll(tail);
      hide AtMarker;
      if AtMarker(tail).Wait? {
        assert MarkerAt(tail + x, 0);
        assert (tail + x)[0..] == tail + x;
      }
    }
  }

  lemma WaitKeepsAll(buf: seq<byte>)
    requires |buf| >= 2
    ensures AtMarker(buf).Wait? ==> AtMarker(buf).rest == buf
  {
    hide PyInt, IndexOf, Decode;
  }

  lemma {:induction false} NextMessageExtends(buf: seq<byte>, x: seq<byte>)
    ensures match NextMessage(buf)
      case Incomplete(rest) => NextMessage(buf + x) == NextMessage(rest + x)
      case Raised(e, rest) => e != BodyLengthTooLong || SOH !in x ==> NextMessage(buf + x) == Raised(e, rest + x)
      case Frame(m, rest) => NextMessage(buf + x) == Frame(m, rest + x)
      case Hung => NextMessage(buf + x) == Hung
    decreases |buf|
  {
    IterateShrinks(buf);
    IterateExtends(buf, x);
    hide Iterate;
    if Iterate(buf).Skip? {
      NextMessageExtends(Iterate(buf).rest, x);
    }
  }

  lemma {:induction false} DrainUnfolds(buf: seq<byte>)
    ensures match NextMessage(buf)
      case Incomplete(rest) => Drain(buf) == Drained([], rest, false)
      case Hung => Drain(buf) == Drained([], buf, true)
      case Raised(e, rest) => Drain(buf) == Drain(rest).(events := [Failed(e)] + Drain(rest).events)
      case Frame(m, rest) => Drain(buf) == Drain(rest).(events := [Got(m)] + Drain(rest).events)
  {
    hide NextMessage;
  }

  predicate NoTooLong(events: seq<Event>) {
    Failed(BodyLengthTooLong) !in events
  }

  /** Draining what has come and then the rest is draining everything at once. */
  lemma {:induction false} DrainExtends(buf: seq<byte>, x: seq<byte>)
    requires NoTooLong(Drain(buf).events) || SOH !in x
    ensures var d, all := Drain(buf), Drain(buf + x);
      if d.hung then all.hung && all.events == d.events
      else var more := Drain(d.rest + x);
        all.events == d.events + more.events && all.hung == more.hung && (!all.hung ==> all.rest == more.rest)
    decreases |buf|
  {
    hide NextMessage, Drain;
    NextMessageRest(buf);
    NextMessageExtends(buf, x);
    DrainUnfolds(buf);
    DrainUnfolds(buf + x);
    match NextMessage(buf)
    case Incomplete(rest) =>
      DrainUnfolds(rest + x);
      assert [] + Drain(rest + x).events == Drain(rest + x).events;
    case Hung =>
    case Raised(e, rest) =>
      assert Drain(buf).events[0] == Failed(e);
      assert forall ev <- Drain(rest).events :: ev in Drain(buf).events;
      DrainExtends(rest, x);
    case Frame(m, rest) =>
      assert forall ev <- Drain(rest).events :: ev in Drain(buf).events;
      DrainExtends(rest, x);
  }

  // ---------------------------------------------------------------- chunks

  function Concat(chunks: seq<seq<byte>>): seq<byte> {
    if chunks == [] then [] else Concat(chunks[..|chunks| - 1]) + chunks[|chunks| - 1]
  }

  /** Appending the chunks one after another, draining after each. */
  function Feed(chunks: seq<seq<byte>>): Drained {
    if chunks == [] then Drained([], [], false)
    else
      var before := Feed(chunks[..|chunks| - 1]);
      if before.hung then before
      else
        var d := Drain(before.rest + chunks[|chunks| - 1]);
        d.(events := before.events + d.events)
  }

  /**
   * What depends on timing: when the BodyLength text is longer than the guard allows
   * but a plausible number, cutting the stream inside it raises, and not cutting it does not.
   */
  lemma {:induction false} LateSohMatters(digits: seq<byte>)
    requires SOH !in digits && |digits| > MAX_BODYLEN_DIGITS
    requires PyInt(digits).Some? && 0 <= PyInt(digits).value <= MAX_BODY_LENGTH
    ensures NextMessage(HEADER + LENGTH_MARKER + digits).Raised?
    ensures NextMessage(HEADER + LENGTH_MARKER + digits).error == BodyLengthTooLong
    ensures NextMessage(HEADER + LENGTH_MARKER + digits + [SOH]).Incomplete?
  {
    hide AtMarker, PyInt;
    var cut := HEADER + LENGTH_MARKER + digits;
    var whole := cut + [SOH];
    LengthFieldCut(digits);
    LengthFieldWhole(digits);
    assert cut[0..] == cut && whole[0..] == whole;
    assert MarkerAt(cut, 0) && MarkerAt(whole, 0);
  }

  lemma LengthFieldCut(digits: seq<byte>)
    requires SOH !in digits && |digits| > MAX_BODYLEN_DIGITS
    ensures var cut := HEADER + LENGTH_MARKER + digits; AtMarker(cut) == Raise(BodyLengthTooLong, cut[2..])
  {
    hide PyInt, Decode;
    var cut := HEADER + LENGTH_MARKER + digits;
    assert |cut| == 13 + |digits|;
    assert forall k :: 13 <= k < |cut| ==> cut[k] == digits[k - 13];
    assert IndexOf(cut, SOH, 13) == None;
    hide IndexOf;
    assert cut[11..13] == LENGTH_MARKER;
  }

  lemma LengthFieldWhole(digits: seq<byte>)
    requires SOH !in digits
    requires PyInt(digits).Some? && 0 <= PyInt(digits).value <= MAX_BODY_LENGTH
    ensures AtMarker(HEADER + LENGTH_MARKER + digits + [SOH]).Wait?
  {
    hide PyInt, Decode, IndexOf;
    var whole := HEADER + LENGTH_MARKER + digits + [SOH];
    assert whole == whole + [];
    LengthFieldAt(whole, digits, []);
    LengthFieldParts(whole, digits, []);
  }

  // ---------------------------------------------------------------- frames in junk

  /** What `encode` makes and the parser is meant to take. */
  predicate Sendable(fields: seq<Field>) {
    Encode(fields).Ok? && WellFramed(fields) && |Body(fields)| <= MAX_BODY_LENGTH
  }

  function FrameOf(fields: seq<Field>): seq<byte> {
    Seal(Unsealed(Body(fields)))
  }

  ghost predicate Junk(bytes: seq<byte>) {
    forall q: nat :: !HeaderAt(bytes, q)
  }

  datatype Segment = Segment(junk: seq<byte>, fields: seq<Field>)

  ghost predicate Good(segments: seq<Segment>) {
    forall s <- segments :: Junk(s.junk) && Sendable(s.fields)
  }

  /** The bytes sent: each frame after some junk, and junk at the end. */
  function Wire(segments: seq<Segment>, tail: seq<byte>): seq<byte>
  {
    if segments == [] then tail
    else segments[0].junk + FrameOf(segments[0].fields) + Wire(segments[1..], tail)
  }

  /** The messages of the frames that lie wholly in the first `n` bytes. */
  function CompleteIn(segments: seq<Segment>, n: int): seq<Event>
  {
    if segments == [] then []
    else
      var length := |segments[0].junk| + |FrameOf(segments[0].fields)|;
      if n < length then [] else [Got(Dressed(segments[0].fields))] + CompleteIn(segments[1..], n - length)
  }

  /**
   * The header cannot overlap itself or reach from junk into a frame: only its first byte
   * is the byte it starts with.
   */
  lemma NoStraddle(junk: seq<byte>, x: seq<byte>, p: nat)
    requires Junk(junk) && p < |junk|
    requires x != [] ==> x[0] == HEADER[0]
    ensures !HeaderAt(junk + x, p)
  {
    var all := junk + x;
    if p + |HEADER| <= |junk| {
      assert all[p..p + |HEADER|] == junk[p..p + |HEADER|];
      assert !HeaderAt(junk, p);
    } else if x != [] {
      var k := |junk| - p;
      assert all[p + k] == x[0];
      assert 1 <= k < 11 && HEADER[k] != HEADER[0];
      if p + |HEADER| <= |all| {
        assert all[p..p + |HEADER|][k] == all[p + k];
      }
    }
  }

  // ---------------------------------------------------------------- frames, whole and cut

  /** A whole frame at the front of the buffer is handed over, and only it is taken. */
  lemma FrameTurn(fields: seq<Field>, y: seq<byte>)
    requires Sendable(fields)
    ensures AtMarker(FrameOf(fields) + y) == Deliver(Dressed(fields), y)
  {
    var f, body := FrameOf(fields), Body(fields);
    var buf, digits := f + y, Decimal(|body|);
    DecodeEncode(fields);
    FrameShape(fields, y);
    LengthFieldAt(buf, digits, buf[14 + |digits|..]);
    LengthFieldParts(buf, digits, buf[14 + |digits|..]);
    PyIntText(|body|);
    hide PyInt, IndexOf, Decode, Encode, Decimal, Body, FrameOf, Dressed, WellFramed;
    WholeFrameTaken(f, y, digits, |body|, Dressed(fields));
  }

  lemma WholeFrameTaken(f: seq<byte>, y: seq<byte>, digits: seq<byte>, bodyLen: nat, message: seq<Field>)
    requires var buf := f + y;
      && |f| == 14 + |digits| + bodyLen + CHECKSUM_FIELD_LEN && |HEADER| == 11
      && StartsWith(buf, HEADER) && buf[11..13] == LENGTH_MARKER && buf[13..13 + |digits|] == digits
      && IndexOf(buf, SOH, 13) == Some(13 + |digits|)
    requires PyInt(digits) == Some(bodyLen) && bodyLen <= MAX_BODY_LENGTH
    requires Decode(f) == Decoded.Message(message)
    ensures AtMarker(f + y) == Deliver(message, y)
  {
    hide PyInt, IndexOf, Decode;
    var buf := f + y;
    assert buf[..|f|] == f && buf[|f|..] == y;
  }

  lemma {:induction false} FrameShape(fields: seq<Field>, y: seq<byte>)
    ensures var f, body := FrameOf(fields), Body(fields); var digits := Decimal(|body|); var buf := f + y;
      && |f| == 14 + |digits| + |body| + CHECKSUM_FIELD_LEN
      && buf == HEADER + LENGTH_MARKER + digits + [SOH] + buf[14 + |digits|..]
      && SOH !in digits
  {
    hide Decimal, Body, ByteSum, ThreeDigits;
    var body := Body(fields);
    PyIntText(|body|);
    hide PyInt;
    assert SOH !in Decimal(|body|);
    SealedShape(body);
    SealedParts(Unsealed(body));
  }

  /** A frame cut short, but not inside its header, is waited for. */
  lemma CutFrameTurn(fields: seq<Field>, n: nat)
    requires Sendable(fields) && |HEADER| <= n < |FrameOf(fields)|
    ensures AtMarker(FrameOf(fields)[..n]) == Wait(FrameOf(fields)[..n])
  {
    hide PyInt, IndexOf, Decode, Encode, Decimal, Body, FrameOf, WellFramed;
    var f, body := FrameOf(fields), Body(fields);
    var digits := Decimal(|body|);
    FrameShape(fields, []);
    assert f + [] == f;
    LengthFieldAt(f, digits, f[14 + |digits|..]);
    LengthFieldParts(f, digits, f[14 + |digits|..]);
    PyIntText(|body|);
    DecimalWidth(|body|, 7, Pow10(7));
    assert PyInt(digits) == Some(|body|);
    CutFrameWaits(f, n, digits, |body|);
  }

  lemma {:induction false} CutFrameWaits(f: seq<byte>, n: nat, digits: seq<byte>, bodyLen: nat)
    requires |HEADER| <= n < |f| == 14 + |digits| + bodyLen + CHECKSUM_FIELD_LEN
    requires StartsWith(f, HEADER) && f[11..13] == LENGTH_MARKER && f[13..13 + |digits|] == digits
    requires IndexOf(f, SOH, 13) == Some(13 + |digits|)
    requires PyInt(digits) == Some(bodyLen) && bodyLen <= MAX_BODY_LENGTH && |digits| <= MAX_BODYLEN_DIGITS
    ensures AtMarker(f[..n]) == Wait(f[..n])
  {
    hide PyInt, IndexOf, Decode;
    CutIndexOf(f, n, SOH, 13);
    var q := f[..n];
    assert q[..11] == f[..11];
    if n >= 13 {
      assert q[11..13] == f[11..13];
    }
    if n > 13 + |digits| {
      assert q[13..13 + |digits|] == f[13..13 + |digits|];
    }
  }

  lemma {:induction false} CutIndexOf(data: seq<byte>, n: nat, b: byte, start: nat)
    requires n <= |data| && IndexOf(data, b, start).Some?
    ensures IndexOf(data[..n], b, start) == if IndexOf(data, b, start).value < n then IndexOf(data, b, start) else None
  {
    var at := IndexOf(data, b, start).value;
    IndexOfFirst(data, b, start);
    IndexOfFirst(data[..n], b, start);
    assert forall k :: 0 <= k < n ==> data[..n][k] == data[k];
  }

  lemma {:induction false} JunkThenFrame(junk: seq<byte>, fields: seq<Field>, y: seq<byte>)
    requires Junk(junk) && Sendable(fields)
    ensures NextMessage(junk + (FrameOf(fields) + y)) == Frame(Dressed(fields), y)
  {
    hide AtMarker, FrameOf, Sendable, Dressed;
    var f := FrameOf(fields);
    FrameTurn(fields, y);
    FrameStart(fields);
    JunkThenLive(junk, f + y);
  }

  /** Junk in front of a header that is not passed over is dropped silently. */
  lemma {:induction false} JunkThenLive(junk: seq<byte>, x: seq<byte>)
    requires Junk(junk) && StartsWith(x, HEADER) && !AtMarker(x).Skip?
    ensures NextMessage(junk + x) == AsPull(AtMarker(x))
  {
    hide AtMarker, NextMessage;
    var buf := junk + x;
    assert buf[|junk|..] == x;
    assert x[0] == HEADER[0];
    assert HeaderAt(buf, |junk|) by {
      assert buf[|junk|..|junk| + |HEADER|] == x[..|HEADER|];
    }
    forall q: nat | q < |junk|
      ensures !HeaderAt(buf, q)
    {
      NoStraddle(junk, x, q);
    }
    FirstLiveHeader(buf, |junk|);
  }

  lemma FrameStart(fields: seq<Field>)
    ensures |FrameOf(fields)| > |HEADER| && FrameOf(fields)[..|HEADER|] == HEADER
  {
    FrameShape(fields, []);
    var f := FrameOf(fields);
    hide FrameOf;
    assert f + [] == f;
    LengthFieldParts(f, Decimal(|Body(fields)|), f[14 + |Decimal(|Body(fields)|)|..]);
  }

  /** Junk and then the first part of a frame, or nothing of it: the call waits. */
  lemma {:induction false} JunkThenCut(junk: seq<byte>, fields: seq<Field>, n: nat)
    requires Junk(junk) && Sendable(fields) && n < |FrameOf(fields)|
    ensures NextMessage(junk + FrameOf(fields)[..n]).Incomplete?
  {
    hide AtMarker, FrameOf, Sendable, NextMessage;
    var f := FrameOf(fields);
    var x := f[..n];
    FrameStart(fields);
    if n >= |HEADER| {
      CutFrameTurn(fields, n);
      assert x[..|HEADER|] == f[..|HEADER|];
      JunkThenLive(junk, x);
    } else {
      JunkThenShort(junk, x) by {
        assert x == HEADER[..n] by { assert f[..|HEADER|][..n] == f[..n]; }
      }
    }
  }

  lemma {:induction false} JunkThenShort(junk: seq<byte>, x: seq<byte>)
    requires Junk(junk) && |x| < |HEADER| && x == HEADER[..|x|]
    ensures NextMessage(junk + x).Incomplete?
  {
    hide AtMarker, NextMessage;
    forall q: nat
      ensures !HeaderAt(junk + x, q)
    {
      if q < |junk| {
        NoStraddle(junk, x, q);
      }
    }
    NoLiveHeader(junk + x);
  }

  lemma JunkPrefix(junk: seq<byte>, n: nat)
    requires Junk(junk) && n <= |junk|
    ensures Junk(junk[..n])
  {
    forall q: nat
      ensures !HeaderAt(junk[..n], q)
    {
      if q + |HEADER| <= n {
        assert junk[..n][q..q + |HEADER|] == junk[q..q + |HEADER|];
        assert !HeaderAt(junk, q);
      }
    }
  }

  /** Draining any prefix of such a stream gives the frames that are complete in it, and no error. */
  lemma {:induction false} DrainPrefix(segments: seq<Segment>, tail: seq<byte>, n: nat)
    requires Good(segments) && Junk(tail) && n <= |Wire(segments, tail)|
    ensures Drain(Wire(segments, tail)[..n]).events == CompleteIn(segments, n)
    ensures !Drain(Wire(segments, tail)[..n]).hung
    decreases |segments|
  {
    hide FrameOf, Sendable, Dressed, NextMessage, Junk;
    var p := Wire(segments, tail)[..n];
    if segments == [] {
      JunkPrefix(tail, n);
      assert p + HEADER[..0] == p;
      JunkThenShort(p, HEADER[..0]);
      NextMessageRest(p);
      return;
    }
    var s, f := segments[0], FrameOf(segments[0].fields);
    var rest := Wire(segments[1..], tail);
    assert Junk(s.junk) && Sendable(s.fields) by { assert s in segments; }
    WirePrefix(s.junk, f, rest, n);
    NextMessageRest(p);
    if n < |s.junk| {
      JunkPrefix(s.junk, n);
      assert p + HEADER[..0] == p;
      JunkThenShort(p, HEADER[..0]);
    } else if n < |s.junk| + |f| {
      JunkThenCut(s.junk, s.fields, n - |s.junk|);
    } else {
      var m := n - |s.junk| - |f|;
      JunkThenFrame(s.junk, s.fields, rest[..m]);
      DrainPrefix(segments[1..], tail, m);
    }
  }

  lemma WirePrefix(junk: seq<byte>, f: seq<byte>, rest: seq<byte>, n: nat)
    requires n <= |junk + f + rest|
    ensures n < |junk| ==> (junk + f + rest)[..n] == junk[..n]
    ensures |junk| <= n < |junk| + |f| ==> (junk + f + rest)[..n] == junk + f[..n - |junk|]
    ensures n >= |junk| + |f| ==> (junk + f + rest)[..n] == junk + (f + rest[..n - |junk| - |f|])
  {
  }

  /**
   * Frames come out exactly: for frames with any junk around them and any cutting of the
   * stream into chunks, after each chunk the messages seen so far are those of the frames
   * complete by then, in order, with nothing else and no error.
   */
  lemma {:induction false} FramesComeOut(segments: seq<Segment>, tail: seq<byte>, chunks: seq<seq<byte>>)
    requires Good(segments) && Junk(tail)
    requires Concat(chunks) <= Wire(segments, tail)
    ensures Feed(chunks).events == CompleteIn(segments, |Concat(chunks)|)
    ensures !Feed(chunks).hung && Feed(chunks).rest == Drain(Concat(chunks)).rest
  {
    hide Wire, CompleteIn, Drain;
    FeedOfPrefix(segments, tail, chunks);
    assert Concat(chunks) == Wire(segments, tail)[..|Concat(chunks)|];
    DrainPrefix(segments, tail, |Concat(chunks)|);
  }

  lemma {:induction false} FeedOfPrefix(segments: seq<Segment>, tail: seq<byte>, chunks: seq<seq<byte>>)
    requires Good(segments) && Junk(tail)
    requires Concat(chunks) <= Wire(segments, tail)
    ensures NoTooLong(Feed(chunks).events)
    ensures Feed(chunks).events == Drain(Concat(chunks)).events
    ensures !Feed(chunks).hung && Feed(chunks).rest == Drain(Concat(chunks)).rest
    decreases |chunks|
  {
    var wire := Wire(segments, tail);
    hide Wire, CompleteIn;
    if chunks != [] {
      hide Drain;
      var front := chunks[..|chunks| - 1];
      FeedOfPrefix(segments, tail, front);
      DrainExtends(Concat(front), chunks[|chunks| - 1]);
    }
    var n := |Concat(chunks)|;
    assert Concat(chunks) == wire[..n];
    DrainPrefix(segments, tail, n);
    CompleteInClean(segments, n);
  }

  lemma {:induction false} CompleteInClean(segments: seq<Segment>, n: int)
    ensures NoTooLong(CompleteIn(segments, n))
  {
    hide FrameOf, Dressed;
    if segments != [] {
      CompleteInClean(segments[1..], n - |segments[0].junk| - |FrameOf(segments[0].fields)|);
    }
  }

  /** And at the end of the stream every frame has come out. */
  lemma {:induction false} AllComplete(segments: seq<Segment>, tail: seq<byte>)
    ensures |CompleteIn(segments, |Wire(segments, tail)|)| == |segments|
    ensures forall i :: 0 <= i < |segments| ==>
      CompleteIn(segments, |Wire(segments, tail)|)[i] == Got(Dressed(segments[i].fields))
    decreases |segments|
  {
    hide FrameOf, Dressed;
    if segments != [] {
      var rest := segments[1..];
      AllComplete(rest, tail);
      var done, before := CompleteIn(segments, |Wire(segments, tail)|), CompleteIn(rest, |Wire(rest, tail)|);
      assert done == [Got(Dressed(segments[0].fields))] + before;
      hide CompleteIn, Wire;
      forall i | 0 <= i < |segments|
        ensures done[i] == Got(Dressed(segments[i].fields))
      {
        if i > 0 {
          assert segments[i] == rest[i - 1];
        }
      }
    }
  }
}
