/** What a parser has returned over a whole stream of arbitrary bytes, as places in that stream. */
module ParserSlices {
  import opened Bytes
  import opened Codec
  import opened Parser
  import opened ParserStream

  type Slice = (nat, nat)

  /** The messages among the events. */
  function Returned(events: seq<Event>): seq<seq<Field>> {
    if events == [] then []
    else (if events[0].Got? then [events[0].fields] else []) + Returned(events[1..])
  }

  /** Each message decodes from its own slice between `lo` and `hi`; the slices are disjoint and in order. */
  ghost predicate InOrder(stream: seq<byte>, messages: seq<seq<Field>>, slices: seq<Slice>, lo: nat, hi: nat) {
    && hi <= |stream| && |slices| == |messages|
    && (forall i :: 0 <= i < |slices| ==> DecodesFrom(stream, messages[i], slices[i], lo, hi))
    && (forall i, j :: 0 <= i < j < |slices| ==> slices[i].1 <= slices[j].0)
  }

  predicate DecodesFrom(stream: seq<byte>, message: seq<Field>, slice: Slice, lo: nat, hi: nat)
    requires hi <= |stream|
  {
    lo <= slice.0 < slice.1 <= hi && Decode(stream[slice.0..slice.1]) == Decoded.Message(message)
  }

  predicate IsSuffix(rest: seq<byte>, stream: seq<byte>) {
    |rest| <= |stream| && rest == stream[|stream| - |rest|..]
  }

  // ---------------------------------------------------------------- slices of a longer stream

  function Shifted(slices: seq<Slice>, d: nat): seq<Slice> {
    seq(|slices|, i requires 0 <= i < |slices| => (slices[i].0 + d, slices[i].1 + d))
  }

  /** Places in the tail of a stream are places in the stream. */
  lemma ShiftSlices(stream: seq<byte>, d: nat, messages: seq<seq<Field>>, slices: seq<Slice>, lo: nat, hi: nat)
    requires d <= |stream| && InOrder(stream[d..], messages, slices, lo, hi)
    ensures InOrder(stream, messages, Shifted(slices, d), lo + d, hi + d)
  {
    hide Decode;
    forall i | 0 <= i < |slices|
      ensures DecodesFrom(stream, messages[i], Shifted(slices, d)[i], lo + d, hi + d)
    {
      assert DecodesFrom(stream[d..], messages[i], slices[i], lo, hi);
      assert stream[d..][slices[i].0..slices[i].1] == stream[slices[i].0 + d..slices[i].1 + d];
    }
  }

  /** Later bytes do not move what has been returned. */
  lemma ExtendSlices(stream: seq<byte>, x: seq<byte>, messages: seq<seq<Field>>, slices: seq<Slice>, lo: nat, hi: nat)
    requires InOrder(stream, messages, slices, lo, hi)
    ensures InOrder(stream + x, messages, slices, lo, hi)
  {
    hide Decode;
    forall i | 0 <= i < |slices|
      ensures DecodesFrom(stream + x, messages[i], slices[i], lo, hi)
    {
      assert DecodesFrom(stream, messages[i], slices[i], lo, hi);
      assert (stream + x)[slices[i].0..slices[i].1] == stream[slices[i].0..slices[i].1];
    }
  }

  lemma JoinSlices(stream: seq<byte>, a: seq<seq<Field>>, b: seq<seq<Field>>, s: seq<Slice>, t: seq<Slice>, lo: nat, mid: nat, hi: nat)
    requires InOrder(stream, a, s, lo, mid) && InOrder(stream, b, t, mid, hi) && lo <= mid <= hi
    ensures InOrder(stream, a + b, s + t, lo, hi)
  {
    hide Decode;
    forall i | 0 <= i < |s + t|
      ensures DecodesFrom(stream, (a + b)[i], (s + t)[i], lo, hi)
    {
      if i < |s| {
        assert DecodesFrom(stream, a[i], s[i], lo, mid);
      } else {
        assert DecodesFrom(stream, b[i - |s|], t[i - |s|], mid, hi);
      }
    }
    forall i, j | 0 <= i < j < |s + t|
      ensures (s + t)[i].1 <= (s + t)[j].0
    {
      if i < |s| <= j {
        assert DecodesFrom(stream, a[i], s[i], lo, mid);
        assert DecodesFrom(stream, b[j - |s|], t[j - |s|], mid, hi);
      }
    }
  }

  lemma {:induction false} ReturnedJoin(a: seq<Event>, b: seq<Event>)
    ensures Returned(a + b) == Returned(a) + Returned(b)
    decreases |a|
  {
    if a == [] {
      assert a + b == b;
    } else {
      ReturnedJoin(a[1..], b);
      assert (a + b)[1..] == a[1..] + b;
    }
  }

  // ---------------------------------------------------------------- one drain, and a whole run

  lemma NoSlice(buf: seq<byte>, e: FrameError, hi: nat)
    requires hi <= |buf|
    ensures InOrder(buf, [], [], 0, hi)
    ensures Returned([]) == [] && Returned([Failed(e)]) == []
  {
  }

  lemma OneSlice(buf: seq<byte>, m: seq<Field>, slice: Slice, hi: nat)
    requires hi <= |buf| && DecodesFrom(buf, m, slice, 0, hi)
    ensures InOrder(buf, Returned([Got(m)]), [slice], 0, hi)
  {
    hide Decode;
    assert Returned([Got(m)]) == [m];
  }

  lemma {:induction false} DrainSlices(buf: seq<byte>) returns (slices: seq<Slice>)
    ensures var d := Drain(buf);
      IsSuffix(d.rest, buf) && InOrder(buf, Returned(d.events), slices, 0, |buf| - |d.rest|)
    decreases |buf|
  {
    hide NextMessage, Drain, InOrder, Returned, Decode;
    NextMessageRest(buf);
    DrainUnfolds(buf);
    match NextMessage(buf) {
      case Incomplete(rest) =>
        NoSlice(buf, MissingBodyLength, |buf| - |rest|);
        slices := [];
      case Hung =>
        NoSlice(buf, MissingBodyLength, 0);
        slices := [];
      case Raised(e, rest) =>
        NoSlice(buf, e, |buf| - |rest|);
        var more := DrainSlices(rest);
        slices := AfterCall(buf, rest, [Failed(e)], [], more);
      case Frame(m, rest) =>
        var start, end := FrameIsSlice(buf);
        OneSlice(buf, m, (start, end), |buf| - |rest|);
        var more := DrainSlices(rest);
        slices := AfterCall(buf, rest, [Got(m)], [(start, end)], more);
    }
  }

  lemma {:induction false} AfterCall(buf: seq<byte>, rest: seq<byte>, events: seq<Event>, first: seq<Slice>, more: seq<Slice>) returns (slices: seq<Slice>)
    requires var d := Drain(rest); IsSuffix(d.rest, rest) && InOrder(rest, Returned(d.events), more, 0, |rest| - |d.rest|)
    requires IsSuffix(rest, buf) && InOrder(buf, Returned(events), first, 0, |buf| - |rest|)
    ensures var d := Drain(rest);
      IsSuffix(d.rest, buf) && InOrder(buf, Returned(events + d.events), slices, 0, |buf| - |d.rest|)
  {
    hide Drain, InOrder, Returned;
    var d, k := Drain(rest), |buf| - |rest|;
    ShiftSlices(buf, k, Returned(d.events), more, 0, |rest| - |d.rest|);
    slices := first + Shifted(more, k);
    JoinSlices(buf, Returned(events), Returned(d.events), first, Shifted(more, k), 0, k, |buf| - |d.rest|);
    ReturnedJoin(events, d.events);
  }

  lemma {:induction false} AfterChunk(stream: seq<byte>, rest: seq<byte>, x: seq<byte>, events: seq<Event>, before: seq<Slice>) returns (slices: seq<Slice>)
    requires IsSuffix(rest, stream) && InOrder(stream, Returned(events), before, 0, |stream| - |rest|)
    ensures var d := Drain(rest + x);
      |d.rest| <= |stream + x| && IsSuffix(d.rest, stream + x) && InOrder(stream + x, Returned(events + d.events), slices, 0, |stream + x| - |d.rest|)
  {
    hide Drain, InOrder, Returned;
    var all, k := stream + x, |stream| - |rest|;
    var d := Drain(rest + x);
    var more := DrainSlices(rest + x);
    assert all[k..] == rest + x;
    ExtendSlices(stream, x, Returned(events), before, 0, k);
    ShiftSlices(all, k, Returned(d.events), more, 0, |rest + x| - |d.rest|);
    slices := before + Shifted(more, k);
    JoinSlices(all, Returned(events), Returned(d.events), before, Shifted(more, k), 0, k, |all| - |d.rest|);
    ReturnedJoin(events, d.events);
  }

  lemma NothingFed()
    ensures Feed([]) == Drained([], [], false) && Concat([]) == [] && IsSuffix([], [])
  {
  }

  lemma {:induction false} FeedUnfolds(chunks: seq<seq<byte>>)
    requires chunks != []
    ensures var before, last := Feed(chunks[..|chunks| - 1]), chunks[|chunks| - 1];
      && Concat(chunks) == Concat(chunks[..|chunks| - 1]) + last
      && Feed(chunks) == if before.hung then before
                         else Drain(before.rest + last).(events := before.events + Drain(before.rest + last).events)
  {
    hide Drain;
  }

  /**
   * Any bytes in any chunks, drained after each chunk and past all errors: every message
   * returned decodes from its own slice of the stream, the slices are disjoint and in order,
   * and what is still in the buffer is the end of the stream, behind all of them.
   */
  lemma {:induction false} FeedSlices(chunks: seq<seq<byte>>) returns (slices: seq<Slice>, end: nat)
    ensures var f, stream := Feed(chunks), Concat(chunks);
      && InOrder(stream, Returned(f.events), slices, 0, end)
      && (!f.hung ==> IsSuffix(f.rest, stream) && end == |stream| - |f.rest|)
    decreases |chunks|
  {
    hide Drain, InOrder, Returned, Feed, Concat, IsSuffix;
    if chunks == [] {
      NothingFed();
      NoSlice([], MissingBodyLength, 0);
      slices, end := [], 0;
    } else {
      FeedUnfolds(chunks);
      var front, last := chunks[..|chunks| - 1], chunks[|chunks| - 1];
      var f, stream := Feed(front), Concat(front);
      slices, end := FeedSlices(front);
      if f.hung {
        ExtendSlices(stream, last, Returned(f.events), slices, 0, end);
      } else {
        slices := AfterChunk(stream, f.rest, last, f.events, slices);
        end := |Concat(chunks)| - |Feed(chunks).rest|;
      }
    }
  }

  /**
   * `messages` returns what draining gives up to the first error, and raises that; without
   * one it returns all there is, and leaves the same bytes.
   */
  lemma {:induction false} CollectIsDrain(buf: seq<byte>)
    ensures var (messages, end) := Collect(buf); var d := Drain(buf);
      && |messages| <= |d.events|
      && (forall i :: 0 <= i < |messages| ==> d.events[i] == Got(messages[i]))
      && match end
         case Frame(_, _) => false
         case Incomplete(rest) => |d.events| == |messages| && !d.hung && rest == d.rest
         case Raised(e, _) => |messages| < |d.events| && d.events[|messages|] == Failed(e)
         case Hung => |d.events| == |messages| && d.hung
    decreases |buf|
  {
    hide NextMessage, Drain;
    NextMessageRest(buf);
    DrainUnfolds(buf);
    match NextMessage(buf)
    case Frame(m, rest) => CollectIsDrain(rest);
    case _ =>
  }
}
