/**
 * Exactly when the cutting of a stream into chunks shows in what the parser returns. The
 * guard on a BodyLength that has not ended yet is what can tell: it must not fire while the
 * delimiter it misses is still to come.
 */
module Chunking {
  import opened Bytes
  import opened Codec
  import opened Parser
  import opened ParserStream

  const TOO_LONG := Failed(BodyLengthTooLong)

  // ---------------------------------------------------------------- feeding from the front

  /** Draining a buffer, and then again with each chunk appended to what is left. */
  function FeedFrom(buf: seq<byte>, chunks: seq<seq<byte>>): Drained
    decreases |chunks|
  {
    var d := Drain(buf);
    if d.hung || chunks == [] then d
    else
      var more := FeedFrom(d.rest + chunks[0], chunks[1..]);
      more.(events := d.events + more.events)
  }

  /** Whenever the guard fires while draining, no delimiter comes after. */
  predicate TimelyFrom(buf: seq<byte>, chunks: seq<seq<byte>>)
    decreases |chunks|
  {
    var d := Drain(buf);
    && (NoTooLong(d.events) || SOH !in Concat(chunks))
    && (d.hung || chunks == [] || TimelyFrom(d.rest + chunks[0], chunks[1..]))
  }

  predicate Timely(chunks: seq<seq<byte>>) { TimelyFrom([], chunks) }

  predicate Same(f: Drained, d: Drained) {
    f.events == d.events && f.hung == d.hung && (!f.hung ==> f.rest == d.rest)
  }

  lemma {:induction false} ConcatFront(chunks: seq<seq<byte>>)
    requires chunks != []
    ensures Concat(chunks) == chunks[0] + Concat(chunks[1..])
    decreases |chunks|
  {
    if |chunks| > 1 {
      var front, last := chunks[..|chunks| - 1], chunks[|chunks| - 1];
      ConcatFront(front);
      assert chunks[1..][..|chunks| - 2] == front[1..];
      assert chunks[0] + (Concat(front[1..]) + last) == (chunks[0] + Concat(front[1..])) + last;
    } else {
      assert Concat(chunks[1..]) == [] && Concat(chunks[..0]) == [];
      assert [] + chunks[0] == chunks[0] == chunks[0] + [];
    }
  }

  lemma {:induction false} FeedFromLast(buf: seq<byte>, chunks: seq<seq<byte>>)
    requires chunks != []
    ensures var before := FeedFrom(buf, chunks[..|chunks| - 1]); var d := Drain(before.rest + chunks[|chunks| - 1]);
      FeedFrom(buf, chunks) == if before.hung then before else d.(events := before.events + d.events)
    decreases |chunks|
  {
    hide Drain;
    var front, last := chunks[..|chunks| - 1], chunks[|chunks| - 1];
    var first := Drain(buf);
    if !first.hung && |chunks| > 1 {
      var next := first.rest + chunks[0];
      FeedFromLast(next, chunks[1..]);
      assert chunks[1..][..|chunks| - 2] == front[1..];
      var before := FeedFrom(next, front[1..]);
      var d := Drain(before.rest + last);
      assert (first.events + before.events) + d.events == first.events + (before.events + d.events);
    } else if !first.hung {
      FeedFromOne(buf, last);
      assert chunks == [last] && front == [];
    }
  }

  lemma {:induction false} FeedFromOne(buf: seq<byte>, last: seq<byte>)
    requires !Drain(buf).hung
    ensures var first := Drain(buf); var d := Drain(first.rest + last);
      FeedFrom(buf, [last]) == d.(events := first.events + d.events) && FeedFrom(buf, []) == first
  {
    hide Drain;
    assert [last][1..] == [];
  }

  lemma NothingDrained()
    ensures Drain([]) == Drained([], [], false)
  {
  }

  lemma {:induction false} FeedIsFrom(chunks: seq<seq<byte>>)
    ensures Feed(chunks) == FeedFrom([], chunks)
    decreases |chunks|
  {
    hide Drain;
    NothingDrained();
    if chunks != [] {
      FeedIsFrom(chunks[..|chunks| - 1]);
      FeedFromLast([], chunks);
    }
  }

  // ---------------------------------------------------------------- timely is enough

  lemma {:induction false} TimelySame(buf: seq<byte>, chunks: seq<seq<byte>>)
    requires TimelyFrom(buf, chunks)
    ensures Same(FeedFrom(buf, chunks), Drain(buf + Concat(chunks)))
    decreases |chunks|
  {
    hide Drain;
    var all := Concat(chunks);
    DrainExtends(buf, all);
    if chunks == [] {
      assert buf + all == buf;
    } else if !Drain(buf).hung {
      var rest := Drain(buf).rest;
      ConcatFront(chunks);
      assert rest + all == (rest + chunks[0]) + Concat(chunks[1..]);
      TimelySame(rest + chunks[0], chunks[1..]);
    }
  }

  // ---------------------------------------------------------------- and needed

  /** A header on which the guard has fired is another matter once the delimiter is there. */
  lemma LateAtMarker(buf: seq<byte>, x: seq<byte>)
    requires |buf| >= 2 && AtMarker(buf).Raise? && AtMarker(buf).error == BodyLengthTooLong && SOH in x
    ensures var t := AtMarker(buf + x); !(t.Raise? && t.error == BodyLengthTooLong)
    ensures var t := AtMarker(buf + x); t.Skip? ==> t.rest == AtMarker(buf).rest + x
  {
    hide PyInt, Decode;
    var all, hlen := buf + x, |HEADER|;
    assert all[2..] == buf[2..] + x;
    assert all[..hlen] == buf[..hlen];
    assert all[hlen..hlen + 2] == buf[hlen..hlen + 2];
    SohComes(buf, x, hlen + 2);
    hide IndexOf;
  }

  lemma {:induction false} SohComes(buf: seq<byte>, x: seq<byte>, start: nat)
    requires SOH in x && start <= |buf|
    ensures IndexOf(buf + x, SOH, start).Some?
  {
    IndexOfFirst(buf + x, SOH, start);
    hide IndexOf;
    var k :| 0 <= k < |x| && x[k] == SOH;
    assert (buf + x)[|buf| + k] == SOH;
  }

  lemma LateIterate(buf: seq<byte>, x: seq<byte>)
    requires Iterate(buf).Raise? && Iterate(buf).error == BodyLengthTooLong && SOH in x
    ensures var t := Iterate(buf + x); !(t.Raise? && t.error == BodyLengthTooLong)
    ensures var t := Iterate(buf + x); t.Skip? ==> t.rest == Iterate(buf).rest + x
  {
    hide AtMarker;
    var start := FindMarker(buf).value;
    FindMarkerExtends(buf, x);
    hide FindMarker;
    assert (buf + x)[start..] == buf[start..] + x;
    LateAtMarker(buf[start..], x);
  }

  /** So the call either ends in another way, or skips that header and is the call after it. */
  lemma {:induction false} LateCall(buf: seq<byte>, x: seq<byte>)
    requires NextMessage(buf).Raised? && NextMessage(buf).error == BodyLengthTooLong && SOH in x
    ensures var n := NextMessage(buf + x);
      n == NextMessage(NextMessage(buf).rest + x) || !(n.Raised? && n.error == BodyLengthTooLong)
    decreases |buf|
  {
    IterateShrinks(buf);
    IterateExtends(buf, x);
    hide Iterate;
    if Iterate(buf).Skip? {
      LateCall(Iterate(buf).rest, x);
    } else {
      LateIterate(buf, x);
    }
  }

  /** Some early firings in front. */
  function Ahead(j: nat): (r: seq<Event>)
    ensures |r| == j
    ensures forall e <- r :: e == TOO_LONG
  {
    seq(j, _ => TOO_LONG)
  }

  lemma AheadOne(j: nat, events: seq<Event>)
    ensures Ahead(j) + ([TOO_LONG] + events) == [TOO_LONG] + (Ahead(j) + events)
    ensures Ahead(j) + ([TOO_LONG] + events) == Ahead(j + 1) + events
    ensures Ahead(0) + events == events
  {
    assert Ahead(j) + [TOO_LONG] == [TOO_LONG] + Ahead(j) == Ahead(j + 1);
  }

  lemma AheadFirst(j: nat, events: seq<Event>)
    ensures j > 0 ==> (Ahead(j) + events)[0] == TOO_LONG
    ensures j == 0 ==> Ahead(j) + events == events
    ensures Ahead(0) == []
  {
  }

  /** An event in front on both sides: the guard's, or another with nothing ahead. */
  lemma HeadsAgree(j: nat, e: Event, a: seq<Event>, b: seq<Event>)
    requires Ahead(j) + ([e] + a) == [e] + b
    ensures Ahead(j) + a == b && (e != TOO_LONG ==> j == 0)
  {
    var l, r := Ahead(j) + ([e] + a), [e] + b;
    assert l[0] == r[0] == e;
    if e == TOO_LONG {
      AheadOne(j, a);
      assert l == [e] + (Ahead(j) + a);
      assert l[1..] == Ahead(j) + a;
    } else {
      AheadFirst(j, [e] + a);
      assert [e] + a == [e] + b ==> a == ([e] + a)[1..] == b;
    }
    assert r[1..] == b;
  }

  lemma {:induction false} FeedAfter(buf: seq<byte>, rest: seq<byte>, chunks: seq<seq<byte>>, e: Event)
    requires Drain(buf) == Drain(rest).(events := [e] + Drain(rest).events)
    ensures FeedFrom(buf, chunks).events == [e] + FeedFrom(rest, chunks).events
    ensures TimelyFrom(rest, chunks) && (e != TOO_LONG || SOH !in Concat(chunks)) ==> TimelyFrom(buf, chunks)
  {
    hide Drain;
    var d := Drain(rest);
    if !d.hung && chunks != [] {
      var more := FeedFrom(d.rest + chunks[0], chunks[1..]);
      assert ([e] + d.events) + more.events == [e] + (d.events + more.events);
    }
    assert TOO_LONG in [e] + d.events <==> e == TOO_LONG || TOO_LONG in d.events;
  }

  lemma {:induction false} FeedWaiting(buf: seq<byte>, rest: seq<byte>, chunks: seq<seq<byte>>)
    requires Drain(buf) == Drained([], rest, false)
    requires chunks != []
    ensures FeedFrom(buf, chunks).events == FeedFrom(rest + chunks[0], chunks[1..]).events
    ensures rest + Concat(chunks) == (rest + chunks[0]) + Concat(chunks[1..])
    ensures TimelyFrom(rest + chunks[0], chunks[1..]) ==> TimelyFrom(buf, chunks)
  {
    hide Drain;
    ConcatFront(chunks);
    var more := FeedFrom(rest + chunks[0], chunks[1..]);
    assert [] + more.events == more.events;
    assert rest + (chunks[0] + Concat(chunks[1..])) == (rest + chunks[0]) + Concat(chunks[1..]);
  }

  lemma {:induction false} FeedEnds(buf: seq<byte>, chunks: seq<seq<byte>>)
    requires Drain(buf).events == [] && (Drain(buf).hung || chunks == [])
    ensures FeedFrom(buf, chunks).events == [] && TimelyFrom(buf, chunks)
  {
    hide Drain;
  }

  /** A firing that the whole does not have leaves the feeding one ahead. */
  lemma {:induction false} FiredEarly(buf: seq<byte>, rest: seq<byte>, x: seq<byte>, j: nat, fed: seq<Event>)
    requires NextMessage(buf) == Raised(BodyLengthTooLong, rest) && SOH in x
    requires Ahead(j) + ([TOO_LONG] + fed) == Drain(buf + x).events
    ensures Ahead(j + 1) + fed == Drain(rest + x).events
  {
    hide NextMessage, Drain, Ahead;
    LateCall(buf, x);
    DrainUnfolds(buf + x);
    AheadOne(j, fed);
    assert Drain(buf + x).events[0] == TOO_LONG;
    SameCallsIf(buf + x, rest + x);
  }

  lemma {:induction false} SameCallsIf(a: seq<byte>, b: seq<byte>)
    ensures NextMessage(a) == NextMessage(b) ==> Drain(a).events == Drain(b).events
  {
    hide NextMessage, Drain;
    DrainUnfolds(a);
    DrainUnfolds(b);
  }

  /**
   * If feeding gives, but for some firings of the guard in front, what the whole gives, then
   * there are none in front and the feeding was timely.
   */
  lemma {:induction false} SameMeansTimely(buf: seq<byte>, chunks: seq<seq<byte>>, j: nat)
    requires Ahead(j) + FeedFrom(buf, chunks).events == Drain(buf + Concat(chunks)).events
    ensures j == 0 && TimelyFrom(buf, chunks)
    decreases |chunks|, |buf|
  {
    hide Drain, NextMessage, FeedFrom, TimelyFrom, Concat, Ahead;
    var all := Concat(chunks);
    NextMessageRest(buf);
    NextMessageExtends(buf, all);
    DrainUnfolds(buf);
    DrainUnfolds(buf + all);
    match NextMessage(buf)
    case Incomplete(rest) =>
      if chunks == [] {
        FeedEnds(buf, chunks);
        NothingAfter();
        assert buf + all == buf;
      } else {
        FeedWaiting(buf, rest, chunks);
        SameCallsIf(buf + all, rest + all);
        SameMeansTimely(rest + chunks[0], chunks[1..], j);
      }
    case Hung =>
      FeedEnds(buf, chunks);
    case Frame(m, rest) =>
      FeedAfter(buf, rest, chunks, Got(m));
      HeadsAgree(j, Got(m), FeedFrom(rest, chunks).events, Drain(rest + all).events);
      SameMeansTimely(rest, chunks, j);
    case Raised(e, rest) =>
      FeedAfter(buf, rest, chunks, Failed(e));
      if e == BodyLengthTooLong && SOH in all {
        FiredEarly(buf, rest, all, j, FeedFrom(rest, chunks).events);
        SameMeansTimely(rest, chunks, j + 1);
      } else {
        HeadsAgree(j, Failed(e), FeedFrom(rest, chunks).events, Drain(rest + all).events);
        SameMeansTimely(rest, chunks, j);
      }
  }

  lemma NothingAfter()
    ensures Concat([]) == []
  {
  }

  /**
   * Exactly when chunking does not show: the events are those of the uncut stream if and
   * only if the guard never fired, while draining after a chunk, with a delimiter to come.
   * The buffer that is left is then the same too.
   */
  lemma {:induction false} ChunkingIrrelevantIff(chunks: seq<seq<byte>>)
    ensures Feed(chunks).events == Drain(Concat(chunks)).events <==> Timely(chunks)
    ensures Timely(chunks) ==> Same(Feed(chunks), Drain(Concat(chunks)))
  {
    hide Drain, Feed, FeedFrom, TimelyFrom, Concat, Same;
    FeedIsFrom(chunks);
    var all := Concat(chunks);
    assert [] + all == all;
    if Timely(chunks) {
      TimelySame([], chunks);
      SameEvents(Feed(chunks), Drain(all));
    }
    if Feed(chunks).events == Drain(all).events {
      AheadOne(0, Feed(chunks).events);
      SameMeansTimely([], chunks, 0);
    }
  }

  lemma SameEvents(f: Drained, d: Drained)
    requires Same(f, d)
    ensures f.events == d.events
  {
  }

  // ---------------------------------------------------------------- every way of cutting

  /** On no front part of the stream that a delimiter comes after does the guard fire. */
  ghost predicate NeverEarly(stream: seq<byte>) {
    forall m: nat :: m <= |stream| && SOH in stream[m..] ==> NoTooLong(Drain(stream[..m]).events)
  }

  /**
   * Exactly which streams are read the same however they are cut: those on whose front parts,
   * taken whole, the guard does not fire early. So cuts in two show all there is to show.
   */
  lemma {:induction false} AnyChunkingIff(stream: seq<byte>)
    ensures (forall chunks :: Concat(chunks) == stream ==> Feed(chunks).events == Drain(stream).events) <==> NeverEarly(stream)
  {
    hide Drain, Feed, Concat, Timely, NoTooLong;
    if NeverEarly(stream) {
      forall chunks | Concat(chunks) == stream
        ensures Feed(chunks).events == Drain(stream).events
      {
        NeverEarlyIsTimely(chunks);
        ChunkingIrrelevantIff(chunks);
      }
    } else {
      var m: nat :| m <= |stream| && SOH in stream[m..] && !NoTooLong(Drain(stream[..m]).events);
      TwoChunks(stream, m);
      ChunkingIrrelevantIff([stream[..m], stream[m..]]);
    }
  }

  lemma TwoChunks(stream: seq<byte>, m: nat)
    requires m <= |stream| && SOH in stream[m..] && !NoTooLong(Drain(stream[..m]).events)
    ensures Concat([stream[..m], stream[m..]]) == stream && !Timely([stream[..m], stream[m..]])
  {
    hide Drain;
    var chunks := [stream[..m], stream[m..]];
    NothingDrained();
    NothingAfter();
    ConcatFront(chunks);
    ConcatFront(chunks[1..]);
    var none: seq<seq<byte>> := [];
    assert chunks[1..] == [stream[m..]] && chunks[1..][1..] == none;
    assert stream[m..] + [] == stream[m..] && stream[..m] + stream[m..] == stream && [] + stream[..m] == stream[..m];
    assert Concat(chunks[1..]) == stream[m..];
    assert !TimelyFrom(stream[..m], chunks[1..]);
  }

  lemma {:induction false} NeverEarlyIsTimely(chunks: seq<seq<byte>>)
    requires NeverEarly(Concat(chunks))
    ensures Timely(chunks)
  {
    hide Drain, TimelyFrom, Concat, NeverEarly;
    NothingDrained();
    assert [] + Concat(chunks) == Concat(chunks);
    NeverEarlyFrom([], [], chunks, []);
  }

  /** From inside: `buf` is what is being drained after `past` has come. */
  lemma {:induction false} NeverEarlyFrom(past: seq<byte>, buf: seq<byte>, chunks: seq<seq<byte>>, before: seq<Event>)
    requires NeverEarly(past + Concat(chunks))
    requires Same(Drain(past), Drain(buf).(events := before + Drain(buf).events))
    ensures TimelyFrom(buf, chunks)
    decreases |chunks|
  {
    hide Drain, Concat, NeverEarly;
    var d, all := Drain(buf), Concat(chunks);
    EarlyAt(past, all);
    assert forall e <- d.events :: e in before + d.events;
    if !d.hung && chunks != [] {
      var c := chunks[0];
      ConcatFront(chunks);
      assert past + (c + Concat(chunks[1..])) == (past + c) + Concat(chunks[1..]);
      assert SOH in c ==> SOH in c + Concat(chunks[1..]);
      DrainExtends(past, c);
      assert (before + d.events) + Drain(d.rest + c).events == before + (d.events + Drain(d.rest + c).events);
      NeverEarlyFrom(past + c, d.rest + c, chunks[1..], before + d.events);
    }
  }

  lemma {:induction false} EarlyAt(past: seq<byte>, x: seq<byte>)
    requires NeverEarly(past + x)
    ensures NoTooLong(Drain(past).events) || SOH !in x
  {
    hide Drain;
    assert (past + x)[..|past|] == past && (past + x)[|past|..] == x;
  }

  // ---------------------------------------------------------------- a condition on the bytes

  /** Every header with a BodyLength is followed by its delimiter as soon as the guard counts on it. */
  ghost predicate InTime(stream: seq<byte>) {
    forall q: nat :: HeaderAt(stream, q) ==> DelimitedAt(stream, q)
  }

  predicate DelimitedAt(stream: seq<byte>, q: nat) {
    q + 23 <= |stream| && stream[q + 11..q + 13] == LENGTH_MARKER ==> SOH in stream[q + 13..q + 23]
  }

  lemma InTimeTail(stream: seq<byte>, d: nat)
    requires InTime(stream) && d <= |stream|
    ensures InTime(stream[d..])
  {
    forall q: nat | HeaderAt(stream[d..], q)
      ensures DelimitedAt(stream[d..], q)
    {
      ShiftHeader(stream, d, q);
      assert DelimitedAt(stream, d + q);
      if d + q + 23 <= |stream| {
        assert stream[d..][q + 11..q + 13] == stream[d + q + 11..d + q + 13];
        assert stream[d..][q + 13..q + 23] == stream[d + q + 13..d + q + 23];
      }
    }
  }

  lemma InTimeFront(stream: seq<byte>, m: nat)
    requires InTime(stream) && m <= |stream|
    ensures InTime(stream[..m])
  {
    forall q: nat | HeaderAt(stream[..m], q)
      ensures DelimitedAt(stream[..m], q)
    {
      assert stream[..m][q..q + |HEADER|] == stream[q..q + |HEADER|];
      assert HeaderAt(stream, q);
      assert DelimitedAt(stream, q);
      if q + 23 <= m {
        assert stream[..m][q + 11..q + 13] == stream[q + 11..q + 13];
        assert stream[..m][q + 13..q + 23] == stream[q + 13..q + 23];
      }
    }
  }

  predicate FiresAt(tail: seq<byte>)
    requires |tail| >= 2
  {
    AtMarker(tail).Raise? && AtMarker(tail).error == BodyLengthTooLong
  }

  lemma FiresOnLongText(tail: seq<byte>)
    requires |tail| >= 2
    ensures FiresAt(tail) ==> 23 <= |tail| && tail[11..13] == LENGTH_MARKER && SOH !in tail[13..23]
  {
    hide PyInt, Decode;
    assert |HEADER| == 11;
    IndexOfFirst(tail, SOH, 13);
    hide IndexOf;
  }

  lemma DelimitedDoesNotFire(buf: seq<byte>, p: nat)
    requires p + 2 <= |buf| && DelimitedAt(buf, p)
    ensures !FiresAt(buf[p..])
  {
    hide FiresAt;
    FiresOnLongText(buf[p..]);
    if p + 23 <= |buf| {
      assert buf[p..][11..13] == buf[p + 11..p + 13] && buf[p..][13..23] == buf[p + 13..p + 23];
    }
  }

  lemma {:induction false} InTimeDrain(buf: seq<byte>)
    requires InTime(buf)
    ensures NoTooLong(Drain(buf).events)
    decreases |buf|
  {
    hide NextMessage, Drain, InTime;
    NextMessageRest(buf);
    DrainUnfolds(buf);
    var call := NextMessage(buf);
    if call.Raised? || call.Frame? {
      InTimeTail(buf, |buf| - |call.rest|);
      InTimeDrain(call.rest);
      InTimeCall(buf);
    }
  }

  lemma {:induction false} InTimeCall(buf: seq<byte>)
    requires InTime(buf)
    ensures NextMessage(buf).Raised? ==> NextMessage(buf).error != BodyLengthTooLong
  {
    hide NextMessage, AtMarker, HeaderAt, DelimitedAt;
    if NextMessage(buf).Raised? {
      var p := LiveHeader(buf);
      FirstLiveHeader(buf, p);
      HeaderLong(buf, p);
      DelimitedDoesNotFire(buf, p);
    }
  }

  lemma HeaderLong(buf: seq<byte>, p: nat)
    requires HeaderAt(buf, p)
    ensures p + 11 <= |buf|
  {
    assert |HEADER| == 11;
  }

  /** On such streams, which can be told from their bytes alone, no chunking shows. */
  lemma {:induction false} InTimeIsEnough(chunks: seq<seq<byte>>)
    requires InTime(Concat(chunks))
    ensures Same(Feed(chunks), Drain(Concat(chunks)))
  {
    var stream := Concat(chunks);
    hide Drain, Feed, Concat, Same, InTime, Timely;
    forall m: nat | m <= |stream| && SOH in stream[m..]
      ensures NoTooLong(Drain(stream[..m]).events)
    {
      InTimeFront(stream, m);
      InTimeDrain(stream[..m]);
    }
    NeverEarlyIsTimely(chunks);
    ChunkingIrrelevantIff(chunks);
  }
}
