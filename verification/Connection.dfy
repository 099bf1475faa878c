/**
 * The transport's read side: a loop that refills the parser until a frame is ready. The
 * socket is the list of what its reads will return.
 */
module Connection {
  import opened Bytes
  import opened Codec
  import opened Parser
  import opened ParserStream
  import opened RoundTrip

  /** One read of the socket; an empty chunk means the peer has closed. */
  datatype Read = Chunk(bytes: seq<byte>) | Broken

  datatype ReadResult =
    | Received(message: seq<Field>)
    | BadFraming(error: FrameError)
    | NotOpen
    | PeerClosed
    | ReadFailed
    | Blocked // no further read returns
    | Hangs   // decoding the next frame does not return

  datatype AfterRead = AfterRead(result: ReadResult, buf: seq<byte>, inbox: seq<Read>)

  function ReadNext(buf: seq<byte>, inbox: seq<Read>): AfterRead
    decreases |inbox|
  {
    match NextMessage(buf)
    case Frame(m, rest) => AfterRead(Received(m), rest, inbox)
    case Raised(e, rest) => AfterRead(BadFraming(e), rest, inbox)
    case Hung => AfterRead(Hangs, buf, inbox)
    case Incomplete(rest) =>
      if inbox == [] then AfterRead(Blocked, rest, inbox)
      else match inbox[0]
        case Broken => AfterRead(ReadFailed, rest, inbox[1..])
        case Chunk(bytes) =>
          if bytes == [] then AfterRead(PeerClosed, rest, inbox[1..])
          else ReadNext(rest + bytes, inbox[1..])
  }

  class FixConnection {
    const parser: FixParser
    var isOpen: bool
    /** The reads still to come. */
    var inbox: seq<Read>

    ghost predicate Valid()
      reads this, parser
    {
      parser.Valid()
    }

    constructor ()
      ensures Valid() && fresh(parser)
      ensures !isOpen && parser.buf == []
    {
      parser := new FixParser();
      isOpen := false;
      inbox := [];
    }

    method Open(incoming: seq<Read>)
      requires Valid()
      modifies this
      ensures Valid() && isOpen && inbox == incoming
    {
      isOpen, inbox := true, incoming;
    }

    method Close()
      requires Valid()
      modifies this`isOpen
      ensures Valid() && !isOpen
    {
      isOpen := false;
    }

    method ReadMessage() returns (r: ReadResult)
      requires Valid()
      modifies this`inbox, parser
      ensures Valid()
      ensures !isOpen ==> r == NotOpen && parser.buf == old(parser.buf) && inbox == old(inbox)
      ensures isOpen ==> var after := ReadNext(old(parser.buf), old(inbox));
        r == after.result && inbox == after.inbox && (r != Hangs ==> parser.buf == after.buf)
    {
      if !isOpen {
        return NotOpen;
      }
      hide NextMessage;
      while true
        invariant Valid()
        invariant ReadNext(old(parser.buf), old(inbox)) == ReadNext(parser.buf, inbox)
        decreases |inbox|
      {
        var p := parser.GetMessage();
        match p
        case Frame(m, _) => return Received(m);
        case Raised(e, _) => return BadFraming(e);
        case Hung =>
          return Hangs;
        case Incomplete(_) =>
          if inbox == [] {
            return Blocked;
          }
          var read := inbox[0];
          inbox := inbox[1..];
          if read == Broken {
            return ReadFailed;
          }
          if read.bytes == [] {
            return PeerClosed;
          }
          parser.Append(read.bytes);
      }
    }
  }

  // ---------------------------------------------------------------- many reads

  datatype Transcript = Transcript(events: seq<Event>, end: ReadResult)

  /** Reading message after message, also after framing errors, until something else happens. */
  function ReadAll(buf: seq<byte>, inbox: seq<Read>): Transcript
    decreases |inbox|, |buf|
  {
    ReadNextShrinks(buf, inbox);
    var after := ReadNext(buf, inbox);
    match after.result
    case Received(m) =>
      var more := ReadAll(after.buf, after.inbox);
      more.(events := [Got(m)] + more.events)
    case BadFraming(e) =>
      var more := ReadAll(after.buf, after.inbox);
      more.(events := [Failed(e)] + more.events)
    case end => Transcript([], end)
  }

  lemma {:induction false} ReadNextShrinks(buf: seq<byte>, inbox: seq<Read>)
    ensures var after := ReadNext(buf, inbox);
      after.result.Received? || after.result.BadFraming? ==>
        |after.inbox| < |inbox| || (|after.inbox| == |inbox| && |after.buf| < |buf|)
    decreases |inbox|
  {
    NextMessageRest(buf);
    hide NextMessage;
    if NextMessage(buf).Incomplete? && inbox != [] && inbox[0].Chunk? && inbox[0].bytes != [] {
      ReadNextShrinks(NextMessage(buf).rest + inbox[0].bytes, inbox[1..]);
    }
  }

  /** The reads that return these chunks, and then an empty one or an error. */
  function Script(chunks: seq<seq<byte>>, broken: bool): seq<Read> {
    if chunks == [] then [if broken then Broken else Chunk([])] else [Chunk(chunks[0])] + Script(chunks[1..], broken)
  }

  lemma {:induction false} ReadAllSame(a: seq<byte>, b: seq<byte>, inbox: seq<Read>)
    requires ReadNext(a, inbox) == ReadNext(b, inbox)
    ensures ReadAll(a, inbox) == ReadAll(b, inbox)
  {
    hide ReadNext;
  }

  /** Reading on first drains what is buffered. */
  lemma {:induction false} ReadDrains(buf: seq<byte>, inbox: seq<Read>)
    requires !Drain(buf).hung
    ensures ReadAll(buf, inbox).events == Drain(buf).events + ReadAll(Drain(buf).rest, inbox).events
    ensures ReadAll(buf, inbox).end == ReadAll(Drain(buf).rest, inbox).end
    decreases |buf|
  {
    NextMessageRest(buf);
    hide NextMessage;
    match NextMessage(buf)
    case Incomplete(rest) =>
      RestIsQuiet(buf);
      ReadAllSame(buf, rest, inbox);
      assert [] + ReadAll(rest, inbox).events == ReadAll(rest, inbox).events;
    case Raised(e, rest) =>
      ReadDrains(rest, inbox);
      hide Drain;
      Assoc([Failed(e)], Drain(rest).events, ReadAll(Drain(rest).rest, inbox).events);
    case Frame(m, rest) =>
      ReadDrains(rest, inbox);
      Assoc([Got(m)], Drain(rest).events, ReadAll(Drain(rest).rest, inbox).events);
    case Hung =>
  }

  lemma Assoc<T>(a: seq<T>, b: seq<T>, c: seq<T>)
    ensures (a + b) + c == a + (b + c)
  {
  }

  /** What a waiting call leaves makes the next call wait as well, and lose nothing. */
  lemma {:induction false} RestIsQuiet(buf: seq<byte>)
    requires NextMessage(buf).Incomplete?
    ensures NextMessage(NextMessage(buf).rest) == NextMessage(buf)
  {
    NextMessageExtends(buf, []);
    hide NextMessage;
    assert buf + [] == buf;
    var rest := NextMessage(buf).rest;
    assert rest + [] == rest;
  }

  lemma {:induction false} DrainQuiet(buf: seq<byte>)
    requires !Drain(buf).hung
    ensures NextMessage(Drain(buf).rest) == Incomplete(Drain(buf).rest)
    decreases |buf|
  {
    NextMessageRest(buf);
    hide NextMessage;
    match NextMessage(buf)
    case Incomplete(rest) => RestIsQuiet(buf);
    case Raised(e, rest) => DrainQuiet(rest);
    case Frame(m, rest) => DrainQuiet(rest);
    case Hung =>
  }

  lemma {:induction false} FeedQuiet(chunks: seq<seq<byte>>)
    requires !Feed(chunks).hung
    ensures NextMessage(Feed(chunks).rest) == Incomplete(Feed(chunks).rest)
  {
    if chunks == [] {
      assert FindMarker([]).None?;
    } else {
      hide NextMessage;
      DrainQuiet(Feed(chunks[..|chunks| - 1]).rest + chunks[|chunks| - 1]);
    }
  }

  /** From inside the stream: what has been read, and what reading on will give. */
  lemma {:induction false} ReadFrom(chunks: seq<seq<byte>>, broken: bool, k: nat)
    requires k <= |chunks| && [] !in chunks && !Feed(chunks).hung
    ensures !Feed(chunks[..k]).hung
    ensures var sofar := Feed(chunks[..k]); var more := ReadAll(sofar.rest, Script(chunks[k..], broken));
      ReadAll([], Script(chunks, broken)).events == sofar.events + more.events && ReadAll([], Script(chunks, broken)).end == more.end
    decreases k
  {
    FeedFront(chunks, k);
    if k == 0 {
      assert chunks[0..] == chunks && chunks[..0] == [];
      assert [] + ReadAll([], Script(chunks, broken)).events == ReadAll([], Script(chunks, broken)).events;
      return;
    }
    hide NextMessage, Drain;
    ReadFrom(chunks, broken, k - 1);
    FeedFront(chunks, k - 1);
    var before, c := Feed(chunks[..k - 1]), chunks[k - 1];
    FeedQuiet(chunks[..k - 1]);
    assert chunks[..k][..k - 1] == chunks[..k - 1];
    assert chunks[k - 1..] == [c] + chunks[k..];
    var rest := Script(chunks[k..], broken);
    assert Script(chunks[k - 1..], broken) == [Chunk(c)] + rest;
    ReadChunk(before.rest, c, rest);
    ReadDrains(before.rest + c, rest);
    Assoc(before.events, Drain(before.rest + c).events, ReadAll(Drain(before.rest + c).rest, rest).events);
  }

  lemma {:induction false} ReadChunk(buf: seq<byte>, c: seq<byte>, rest: seq<Read>)
    requires NextMessage(buf) == Incomplete(buf) && c != []
    ensures ReadAll(buf, [Chunk(c)] + rest) == ReadAll(buf + c, rest)
  {
    hide NextMessage;
    var inbox := [Chunk(c)] + rest;
    assert inbox[1..] == rest;
    assert ReadNext(buf, inbox) == ReadNext(buf + c, rest);
  }

  lemma {:induction false} FeedFront(chunks: seq<seq<byte>>, k: nat)
    requires k <= |chunks| && !Feed(chunks).hung
    ensures !Feed(chunks[..k]).hung
    decreases |chunks|
  {
    hide Drain;
    if k < |chunks| {
      FeedFront(chunks[..|chunks| - 1], k);
      assert chunks[..|chunks| - 1][..k] == chunks[..k];
    } else {
      assert chunks[..k] == chunks;
    }
  }

  /**
   * Reading until the peer closes, or the socket fails, gives the events of feeding the
   * parser chunk by chunk, and says which it was.
   */
  lemma {:induction false} ReadingIsFeeding(chunks: seq<seq<byte>>, broken: bool)
    requires [] !in chunks && !Feed(chunks).hung
    ensures ReadAll([], Script(chunks, broken)) == Transcript(Feed(chunks).events, if broken then ReadFailed else PeerClosed)
  {
    hide NextMessage, Drain;
    ReadFrom(chunks, broken, |chunks|);
    FeedQuiet(chunks);
    assert chunks[..|chunks|] == chunks && chunks[|chunks|..] == [];
    var buf := Feed(chunks).rest;
    assert ReadNext(buf, [if broken then Broken else Chunk([])]).result == if broken then ReadFailed else PeerClosed;
    assert Feed(chunks).events + [] == Feed(chunks).events;
  }

  /** End to end: what was encoded is what successive reads return, and then the end of the stream. */
  lemma {:induction false} FramesAreRead(segments: seq<Segment>, tail: seq<byte>, chunks: seq<seq<byte>>)
    requires Good(segments) && Junk(tail) && [] !in chunks
    requires Concat(chunks) == Wire(segments, tail)
    ensures var s := ReadAll([], Script(chunks, false));
      && s.end == PeerClosed && |s.events| == |segments|
      && forall i :: 0 <= i < |segments| ==> s.events[i] == Got(Dressed(segments[i].fields))
  {
    FramesComeOut(segments, tail, chunks);
    AllComplete(segments, tail);
    ReadingIsFeeding(chunks, false);
  }
}
