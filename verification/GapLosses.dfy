/**
 * What gap recovery between two sessions costs: exactly which application messages are
 * handed over on a connection, and which are lost.
 */
module GapLosses {
  import opened GapRecovery
  import opened Session
  import opened Wrappers

  /** The asker is behind at the start. */
  predicate Gap(n: Net) { n.asker.inSeq < n.answerer.outSeq }

  /** Is the gap still open after these frames have been read? */
  predicate Open(read: seq<Outbound>, gap: bool) {
    gap && forall i :: 0 <= i < |read| ==> !read[i].body.GapFillOut?
  }

  /** The application messages among the frames that come while no gap is open. */
  function Through(read: seq<Outbound>, gap: bool, epoch: nat): seq<Delivery> {
    if read == [] then []
    else
      var front, last := read[..|read| - 1], read[|read| - 1];
      Through(front, gap, epoch) + (if last.body.AppOut? && !Open(front, gap) then [Delivery(epoch, last.num)] else [])
  }

  /** Frames numbered one after the other from `first`, where a gap-fill names the next number and takes none. */
  predicate Chain(os: seq<Outbound>, first: int, next: int) {
    if os == [] then next == first
    else
      var front, last := os[..|os| - 1], os[|os| - 1];
      if last.body.GapFillOut? then last.body.newSeqNo == next && Chain(front, first, next)
      else last.num == next - 1 && Chain(front, first, next - 1)
  }

  lemma {:induction false} ChainNumbers(os: seq<Outbound>, first: int, next: int)
    requires Chain(os, first, next)
    ensures first <= next
    ensures forall i :: 0 <= i < |os| && !os[i].body.GapFillOut? ==> first <= os[i].num < next
    ensures forall i :: 0 <= i < |os| && os[i].body.GapFillOut? ==> first <= os[i].body.newSeqNo <= next
    decreases |os|
  {
    if os != [] {
      ChainNumbers(os[..|os| - 1], first, if os[|os| - 1].body.GapFillOut? then next else next - 1);
    }
  }

  lemma ChainOne(os: seq<Outbound>, o: Outbound, first: int, next: int)
    requires Chain(os, first, next)
    ensures o.body.GapFillOut? && o.body.newSeqNo == next ==> Chain(os + [o], first, next)
    ensures !o.body.GapFillOut? && o.num == next ==> Chain(os + [o], first, next + 1)
  {
    assert (os + [o])[..|os|] == os;
  }

  lemma {:induction false} ThroughOne(read: seq<Outbound>, o: Outbound, gap: bool, epoch: nat)
    ensures Through(read + [o], gap, epoch) ==
      Through(read, gap, epoch) + (if o.body.AppOut? && !Open(read, gap) then [Delivery(epoch, o.num)] else [])
    ensures Open(read + [o], gap) <==> Open(read, gap) && !o.body.GapFillOut?
  {
    var all := read + [o];
    assert all[..|read|] == read && all[|read|] == o;
    assert forall i :: 0 <= i < |read| ==> all[i] == read[i];
  }

  // ---------------------------------------------------------------- the invariant

  /** No gap left, or none to begin with: whatever is on its way is next in order. */
  predicate InOrder(n: Net) {
    && n.asker.pending == map[] && !n.asker.resendRequested && NoRequest(n.toAnswerer)
    && n.answerer.outSeq - |n.toAsker| == n.asker.inSeq && Consecutive(n.toAsker, n.asker.inSeq)
  }

  /** Since `start` the answerer has written `read`, which the asker has handled, and then `flying`. */
  ghost predicate Tracks(start: Net, n: Net, read: seq<Outbound>, flying: seq<Outbound>) {
    && Healthy(n)
    && n.answerer.sent == start.answerer.sent + (read + flying) && n.toAsker == AllOnWire(flying)
    && Chain(read + flying, start.answerer.outSeq, n.answerer.outSeq)
    && n.asker.epoch == start.asker.epoch
    && n.asker.delivered == start.asker.delivered + Through(read, Gap(start), start.asker.epoch)
    && (if Open(read, Gap(start)) then n.asker.inSeq == start.asker.inSeq else InOrder(n))
  }

  lemma OnWireMore(flying: seq<Outbound>, o: Outbound)
    ensures AllOnWire(flying + [o]) == AllOnWire(flying) + [OnWire(o)]
  {
  }

  lemma OnWireLess(flying: seq<Outbound>)
    requires flying != []
    ensures AllOnWire(flying)[0] == OnWire(flying[0]) && AllOnWire(flying)[1..] == AllOnWire(flying[1..])
  {
  }

  lemma Assoc<T>(a: seq<T>, b: seq<T>, c: seq<T>)
    ensures (a + b) + c == a + (b + c)
  {
  }

  lemma TrackAnswererSends(start: Net, n: Net, read: seq<Outbound>, flying: seq<Outbound>, app: bool) returns (flying': seq<Outbound>)
    requires Tracks(start, n, read, flying)
    ensures Advance(n, AnswererSends(app)).Some?
    ensures Tracks(start, Advance(n, AnswererSends(app)).value, read, flying')
  {
    hide Send, Emitted, Healthy, Advance;
    var o := Outbound(n.answerer.outSeq, Frame(app));
    flying' := flying + [o];
    AfterAnswererSends(n, app);
    AnswererSpoke(n, app);
    OneWritten(start, n, Advance(n, AnswererSends(app)).value, read, flying, o);
  }

  lemma AnswererSpoke(n: Net, app: bool)
    requires Healthy(n)
    ensures var o := Outbound(n.answerer.outSeq, Frame(app)); var a := Advance(n, AnswererSends(app));
      a.Some? && var t := a.value;
      && t.asker == n.asker && t.toAsker == n.toAsker + [OnWire(o)] && t.toAnswerer == n.toAnswerer
      && t.answerer.sent == n.answerer.sent + [o] && t.answerer.outSeq == n.answerer.outSeq + 1
  {
    SendOne(n.answerer, Frame(app));
    hide Send, Emitted;
  }

  /** The answerer has written one more frame and the asker has done nothing. */
  lemma OneWritten(start: Net, n: Net, t: Net, read: seq<Outbound>, flying: seq<Outbound>, o: Outbound)
    requires Tracks(start, n, read, flying) && Healthy(t)
    requires t.asker == n.asker && t.toAsker == n.toAsker + [OnWire(o)] && t.answerer.sent == n.answerer.sent + [o]
    requires if o.body.GapFillOut? then o.body.newSeqNo == t.answerer.outSeq == n.answerer.outSeq
             else o.num == n.answerer.outSeq == t.answerer.outSeq - 1
    requires InOrder(n) ==> InOrder(t)
    ensures Tracks(start, t, read, flying + [o])
  {
    hide Healthy, Through, Open, Chain, AllOnWire, InOrder;
    OnWireMore(flying, o);
    ChainOne(read + flying, o, start.answerer.outSeq, n.answerer.outSeq);
    Assoc(read, flying, [o]);
    Assoc(start.answerer.sent, read + flying, [o]);
  }

  lemma TrackAskerSends(start: Net, n: Net, read: seq<Outbound>, flying: seq<Outbound>, app: bool)
    requires Tracks(start, n, read, flying)
    ensures Advance(n, AskerSends(app)).Some?
    ensures Tracks(start, Advance(n, AskerSends(app)).value, read, flying)
  {
    AfterAskerSends(n, app);
    SendOne(n.asker, Frame(app));
    hide Send, Emitted, Healthy, Through, Open, Chain, AllOnWire;
  }

  /** What the answerer writes on receiving: nothing, or the gap-fill. */
  lemma TrackAnswererReceives(start: Net, n: Net, read: seq<Outbound>, flying: seq<Outbound>) returns (flying': seq<Outbound>)
    requires Tracks(start, n, read, flying) && n.toAnswerer != []
    ensures Advance(n, AnswererReceives).Some?
    ensures Tracks(start, Advance(n, AnswererReceives).value, read, flying')
  {
    AdvanceHealthy(n, AnswererReceives);
    SentGrows(n.answerer, UP, n.toAnswerer[0]);
    if Plain(n.toAnswerer[0]) {
      flying' := flying;
      AnswererHearsPlain(n);
      hide Healthy, Handle, Through, Open, Chain, AllOnWire, Advance;
    } else {
      var o := Outbound(n.asker.inSeq, GapFillOut(n.answerer.outSeq));
      flying' := flying + [o];
      AnswererHearsRequest(n);
      hide Healthy, Handle, Through, Open, Chain, AllOnWire, Advance;
      OneWritten(start, n, Advance(n, AnswererReceives).value, read, flying, o);
    }
  }

  lemma AnswererHearsPlain(n: Net)
    requires Healthy(n) && n.toAnswerer != [] && Plain(n.toAnswerer[0])
    ensures var a := Advance(n, AnswererReceives);
      a.Some? && var t := a.value;
      && t.asker == n.asker && t.toAsker == n.toAsker && t.toAnswerer == n.toAnswerer[1..]
      && t.answerer.sent == n.answerer.sent && t.answerer.outSeq == n.answerer.outSeq
  {
    hide Handle, Emitted;
    var m := n.toAnswerer[0];
    SentGrows(n.answerer, UP, m);
    HandleNext(n.answerer, m);
    EmittedNone(n.answerer, Handle(n.answerer, UP, m).state);
  }

  lemma AnswererHearsRequest(n: Net)
    requires Healthy(n) && n.toAnswerer != [] && !Plain(n.toAnswerer[0])
    ensures !NoRequest(n.toAnswerer)
    ensures var o := Outbound(n.asker.inSeq, GapFillOut(n.answerer.outSeq)); var a := Advance(n, AnswererReceives);
      a.Some? && var t := a.value;
      && t.asker == n.asker && t.toAsker == n.toAsker + [OnWire(o)] && t.toAnswerer == n.toAnswerer[1..]
      && t.answerer.sent == n.answerer.sent + [o] && t.answerer.outSeq == n.answerer.outSeq
  {
    hide Handle, Emitted;
    var m, begin := n.toAnswerer[0], n.asker.inSeq;
    var k: nat :| Waiting(n, k);
    SentGrows(n.answerer, UP, m);
    HandleRequest(n.answerer, m, begin);
    HeldLeavesRoom(n.asker, n.answerer.outSeq);
    EmittedOne(n.answerer, Handle(n.answerer, UP, m).state, Outbound(begin, GapFillOut(n.answerer.outSeq)));
  }

  // ---------------------------------------------------------------- the asker receives

  /** While the gap is open, an ordinary frame is held and hands nothing over. */
  lemma AskerHolds(n: Net)
    requires Healthy(n) && n.toAsker != [] && Plain(n.toAsker[0])
    requires n.toAsker[0].num.Num? && n.toAsker[0].num.n > n.asker.inSeq
    ensures var a := Advance(n, AskerReceives);
      a.Some? && var t := a.value;
      && t.answerer == n.answerer && t.toAsker == n.toAsker[1..]
      && t.asker.inSeq == n.asker.inSeq && t.asker.epoch == n.asker.epoch && t.asker.delivered == n.asker.delivered
      && t.asker.resendRequested && (n.asker.resendRequested ==> t.toAnswerer == n.toAnswerer)
  {
    hide Handle, Emitted;
    SentGrows(n.asker, UP, n.toAsker[0]);
    HandleEarly(n.asker, n.toAsker[0]);
    if n.asker.resendRequested {
      EmittedNone(n.asker, Handle(n.asker, UP, n.toAsker[0]).state);
    }
  }

  lemma HeadBefore(q: seq<Inbound>, k: nat)
    requires k < |q|
    ensures k > 0 ==> q[..k][0] == q[0]
  {
  }

  /** The gap-fill, when it comes, is the one the asker waits for, and everything after it is in order. */
  lemma AskerFills(n: Net)
    requires Healthy(n) && n.toAsker != [] && !Plain(n.toAsker[0])
    ensures var a := Advance(n, AskerReceives);
      a.Some? && var t := a.value;
      && t.answerer == n.answerer && t.toAsker == n.toAsker[1..]
      && t.asker.epoch == n.asker.epoch && t.asker.delivered == n.asker.delivered && InOrder(t)
      && t.toAnswerer == n.toAnswerer
  {
    hide Handle, Emitted;
    var m := n.toAsker[0];
    var k: nat :| Filling(n, k);
    HeadBefore(n.toAsker, k);
    SentGrows(n.asker, UP, m);
    HandleGapFill(n.asker, m, n.answerer.outSeq - (|n.toAsker| - 1));
    EmittedNone(n.asker, Handle(n.asker, UP, m).state);
  }

  lemma AskerTakesNext(n: Net)
    requires InOrder(n) && n.toAsker != []
    ensures var m := n.toAsker[0]; var a := Advance(n, AskerReceives);
      a.Some? && var t := a.value;
      && t.answerer == n.answerer && t.toAsker == n.toAsker[1..]
      && t.asker.epoch == n.asker.epoch && InOrder(t)
      && t.asker.delivered == n.asker.delivered + (if m.body.App? then [Delivery(n.asker.epoch, m.num.n)] else [])
  {
    hide Handle, Emitted;
    var m := n.toAsker[0];
    SentGrows(n.asker, UP, m);
    HandleNext(n.asker, m);
    EmittedNone(n.asker, Handle(n.asker, UP, m).state);
  }

  lemma TrackAskerReceives(start: Net, n: Net, read: seq<Outbound>, flying: seq<Outbound>)
    requires Tracks(start, n, read, flying) && n.toAsker != []
    ensures Advance(n, AskerReceives).Some? && flying != []
    ensures Tracks(start, Advance(n, AskerReceives).value, read + [flying[0]], flying[1..])
  {
    AdvanceHealthy(n, AskerReceives);
    assert flying != [];
    var o := flying[0];
    OnWireLess(flying);
    ThroughOne(read, o, Gap(start), start.asker.epoch);
    if Open(read, Gap(start)) && !o.body.GapFillOut? {
      NumberAhead(start, n, read, flying);
    }
    hide Healthy, Handle, Through, Chain, AllOnWire, Advance, InOrder, Open;
    if Open(read, Gap(start)) {
      if o.body.GapFillOut? {
        AskerFills(n);
      } else {
        HeadIsPlain(n, o);
        AskerHolds(n);
      }
    } else {
      HeadIsApp(o);
      AskerTakesNext(n);
    }
    OneRead(start, n, Advance(n, AskerReceives).value, read, flying);
  }

  lemma NumberAhead(start: Net, n: Net, read: seq<Outbound>, flying: seq<Outbound>)
    requires Tracks(start, n, read, flying) && flying != [] && Open(read, Gap(start)) && !flying[0].body.GapFillOut?
    ensures flying[0].num > n.asker.inSeq
  {
    ChainNumbers(read + flying, start.answerer.outSeq, n.answerer.outSeq);
    assert (read + flying)[|read|] == flying[0];
    hide Healthy, Chain;
  }

  lemma OneRead(start: Net, n: Net, t: Net, read: seq<Outbound>, flying: seq<Outbound>)
    requires Tracks(start, n, read, flying) && flying != [] && Healthy(t)
    requires t.answerer == n.answerer && t.toAsker == n.toAsker[1..] && t.asker.epoch == n.asker.epoch
    requires var o := flying[0];
      && t.asker.delivered == n.asker.delivered +
           (if o.body.AppOut? && !Open(read, Gap(start)) then [Delivery(start.asker.epoch, o.num)] else [])
      && (if Open(read, Gap(start)) && !o.body.GapFillOut? then t.asker.inSeq == n.asker.inSeq else InOrder(t))
    ensures Tracks(start, t, read + [flying[0]], flying[1..])
  {
    hide Healthy, Through, Chain, AllOnWire, InOrder, Open;
    var o := flying[0];
    OnWireLess(flying);
    ThroughOne(read, o, Gap(start), start.asker.epoch);
    assert flying == [o] + flying[1..];
    Assoc(read, [o], flying[1..]);
    Assoc(start.asker.delivered, Through(read, Gap(start), start.asker.epoch),
          if o.body.AppOut? && !Open(read, Gap(start)) then [Delivery(start.asker.epoch, o.num)] else []);
  }

  lemma HeadIsApp(o: Outbound)
    ensures OnWire(o).body.App? <==> o.body.AppOut?
    ensures OnWire(o).num == Num(o.num)
  {
  }

  lemma {:induction false} AppsOne(os: seq<Outbound>, o: Outbound, low: int, epoch: nat)
    ensures AppsFrom(os + [o], low, epoch) ==
      AppsFrom(os, low, epoch) + (if o.body.AppOut? && o.num >= low then [Delivery(epoch, o.num)] else [])
  {
    assert (os + [o])[..|os|] == os;
  }

  lemma HeadIsPlain(n: Net, o: Outbound)
    requires Healthy(n) && n.toAsker != [] && n.toAsker[0] == OnWire(o) && !o.body.GapFillOut?
    ensures Plain(n.toAsker[0]) && n.toAsker[0].num == Num(o.num)
  {
    if k: nat :| Filling(n, k) {
      HeadBefore(n.toAsker, k);
    }
  }

  // ---------------------------------------------------------------- whole plays

  /**
   * Where a connection can start: nothing on its way to the asker, and the asker either in
   * order or behind, its gap perhaps already noticed and asked for.
   */
  ghost predicate Begins(n: Net) {
    Healthy(n) && n.toAsker == [] && (Gap(n) || InOrder(n))
  }

  /** After a logon with nothing held. */
  lemma ConnectedBegins(n: Net)
    requires Connected(n)
    ensures Begins(n)
  {
    ConnectedHealthy(n);
    hide Healthy;
  }

  /** After a resuming logon whose reply was ahead: it is held and its gap has been asked for. */
  lemma ResumedBegins(asker: State, answerer: State, reply: Inbound)
    requires asker.retransmits && asker.isOpen && asker.pending == map[] && !asker.resendRequested
    requires answerer.retransmits && answerer.isOpen && answerer.pending == map[] && answerer.inSeq == asker.outSeq
    requires reply.body.Logon? && reply.num == Num(answerer.outSeq - 1) && answerer.outSeq - 1 > asker.inSeq
    ensures var e := AcceptLogon(asker, UP, reply);
      && e.failure.None? && asker.sent <= e.state.sent
      && var n := Net(e.state, answerer, [], Emitted(asker, e.state), 1);
         Begins(n) && Gap(n) && e.state.delivered == asker.delivered && Requested(n)
  {
    ResumedHealthy(asker, answerer, reply);
    ResumedRequests(asker, answerer, reply);
    hide Healthy, AcceptLogon, Emitted;
  }

  /** The gap has been asked for, and the request is all that is on its way. */
  predicate Requested(n: Net) {
    n.asker.resendRequested && |n.toAnswerer| == 1 && !Plain(n.toAnswerer[0])
  }

  lemma ResumedRequests(asker: State, answerer: State, reply: Inbound)
    requires asker.retransmits && asker.isOpen && !asker.resendRequested
    requires reply.body.Logon? && reply.num == Num(answerer.outSeq - 1) && answerer.outSeq - 1 > asker.inSeq
    ensures var e := AcceptLogon(asker, UP, reply);
      && e.failure.None? && asker.sent <= e.state.sent
      && Requested(Net(e.state, answerer, [], Emitted(asker, e.state), 1))
      && e.state.inSeq == asker.inSeq && e.state.delivered == asker.delivered
  {
    EmittedOne(asker, AcceptLogon(asker, UP, reply).state, Outbound(asker.outSeq, ResendOut(asker.inSeq)));
    hide Emitted;
  }

  lemma TracksAtStart(start: Net)
    requires Begins(start)
    ensures Tracks(start, start, [], [])
  {
    hide Healthy;
    assert start.answerer.sent + ([] + []) == start.answerer.sent;
    assert start.asker.delivered + [] == start.asker.delivered;
  }

  lemma {:induction false} PlayTracks(start: Net, moves: seq<Move>) returns (read: seq<Outbound>, flying: seq<Outbound>)
    requires Begins(start)
    ensures Play(start, moves).Some? && Tracks(start, Play(start, moves).value, read, flying)
    decreases |moves|
  {
    hide Advance, Tracks, Begins;
    if moves == [] {
      TracksAtStart(start);
      read, flying := [], [];
    } else {
      var front := moves[..|moves| - 1];
      read, flying := PlayTracks(start, front);
      read, flying := MoveTracks(start, Play(start, front).value, read, flying, moves[|moves| - 1]);
    }
  }

  lemma MoveTracks(start: Net, n: Net, read: seq<Outbound>, flying: seq<Outbound>, move: Move) returns (read': seq<Outbound>, flying': seq<Outbound>)
    requires Tracks(start, n, read, flying)
    ensures Advance(n, move).Some? && Tracks(start, Advance(n, move).value, read', flying')
  {
    hide Advance, Tracks;
    read', flying' := read, flying;
    match move {
      case AnswererSends(app) => flying' := TrackAnswererSends(start, n, read, flying, app);
      case AskerSends(app) => TrackAskerSends(start, n, read, flying, app);
      case AskerReceives =>
        if n.toAsker == [] {
          IdleMove(n, move);
        } else {
          TrackAskerReceives(start, n, read, flying);
          read', flying' := read + [flying[0]], flying[1..];
        }
      case AnswererReceives =>
        if n.toAnswerer == [] {
          IdleMove(n, move);
        } else {
          flying' := TrackAnswererReceives(start, n, read, flying);
        }
    }
  }

  // ---------------------------------------------------------------- in terms of numbers

  /** What the answerer has written on this connection. */
  function WrittenSince(start: Net, t: Net): seq<Outbound>
    requires start.answerer.sent <= t.answerer.sent
  {
    t.answerer.sent[|start.answerer.sent|..]
  }

  /** The application messages numbered from `low` on. */
  function AppsFrom(os: seq<Outbound>, low: int, epoch: nat): seq<Delivery> {
    if os == [] then []
    else
      var last := os[|os| - 1];
      AppsFrom(os[..|os| - 1], low, epoch) +
      (if last.body.AppOut? && last.num >= low then [Delivery(epoch, last.num)] else [])
  }

  /** The first gap-fill's NewSeqNo. */
  function FillAt(os: seq<Outbound>): Option<int> {
    if os == [] then None
    else if FillAt(os[..|os| - 1]).Some? then FillAt(os[..|os| - 1])
    else if os[|os| - 1].body.GapFillOut? then Some(os[|os| - 1].body.newSeqNo)
    else None
  }

  /** The number from which on messages are handed over. */
  function Low(os: seq<Outbound>, gap: bool, first: int, next: int): int {
    if !gap then first else match FillAt(os) case Some(newSeqNo) => newSeqNo case None => next
  }

  lemma {:induction false} FillAtOpen(os: seq<Outbound>)
    ensures FillAt(os).None? <==> Open(os, true)
    decreases |os|
  {
    if os != [] {
      var front, last := os[..|os| - 1], os[|os| - 1];
      FillAtOpen(front);
      assert os == front + [last];
      ThroughOne(front, last, true, 0);
    }
  }

  lemma {:induction false} NoneAbove(os: seq<Outbound>, low: int, epoch: nat)
    requires forall i :: 0 <= i < |os| && os[i].body.AppOut? ==> os[i].num < low
    ensures AppsFrom(os, low, epoch) == []
    decreases |os|
  {
    if os != [] {
      NoneAbove(os[..|os| - 1], low, epoch);
    }
  }

  lemma {:induction false} ThroughIsApps(os: seq<Outbound>, gap: bool, epoch: nat, first: int, next: int)
    requires Chain(os, first, next)
    ensures Through(os, gap, epoch) == AppsFrom(os, Low(os, gap, first, next), epoch)
    ensures FillAt(os).Some? ==> first <= FillAt(os).value <= next
    decreases |os|
  {
    if os != [] {
      var front, last := os[..|os| - 1], os[|os| - 1];
      var next' := if last.body.GapFillOut? then next else next - 1;
      ThroughIsApps(front, gap, epoch, first, next');
      ChainNumbers(front, first, next');
      ChainNumbers(os, first, next);
      assert os == front + [last] && os[|front|] == last;
      hide Through, Chain, AppsFrom, FillAt, Open;
      ThroughOneMore(front, last, gap, epoch, first, next');
    }
  }

  lemma {:induction false} FillAtOne(os: seq<Outbound>, o: Outbound)
    ensures FillAt(os + [o]) ==
      if FillAt(os).Some? then FillAt(os) else if o.body.GapFillOut? then Some(o.body.newSeqNo) else None
  {
    assert (os + [o])[..|os|] == os;
  }

  lemma {:induction false} ThroughOneMore(front: seq<Outbound>, o: Outbound, gap: bool, epoch: nat, first: int, next: int)
    requires Through(front, gap, epoch) == AppsFrom(front, Low(front, gap, first, next), epoch)
    requires FillAt(front).Some? ==> first <= FillAt(front).value <= next
    requires first <= next
    requires forall i :: 0 <= i < |front| && !front[i].body.GapFillOut? ==> front[i].num < next
    requires if o.body.GapFillOut? then o.body.newSeqNo == next else o.num == next
    ensures var next' := if o.body.GapFillOut? then next else next + 1;
      && Through(front + [o], gap, epoch) == AppsFrom(front + [o], Low(front + [o], gap, first, next'), epoch)
      && (FillAt(front + [o]).Some? ==> first <= FillAt(front + [o]).value <= next')
  {
    hide Through, AppsFrom, FillAt, Open;
    var next' := if o.body.GapFillOut? then next else next + 1;
    FillAtOne(front, o);
    FillAtOpen(front);
    OpenOnlyWithGap(front, gap);
    ThroughOne(front, o, gap, epoch);
    AppsOne(front, o, Low(front + [o], gap, first, next'), epoch);
    NoneAbove(front, next, epoch);
    NoneAbove(front, next', epoch);
  }

  /**
   * Exactly what is handed over: at any moment all of whose frames have been received, the
   * asker's log has grown by the answerer's application messages numbered from the
   * gap-fill's NewSeqNo on, or by all of them if it was not behind at the start.
   */
  lemma {:induction false} DeliveredExactly(start: Net, moves: seq<Move>)
    requires Begins(start)
    ensures Play(start, moves).Some?
    ensures var t := Play(start, moves).value;
      start.answerer.sent <= t.answerer.sent &&
      (t.toAsker == [] ==>
         var os := WrittenSince(start, t);
         var low := Low(os, Gap(start), start.answerer.outSeq, t.answerer.outSeq);
         t.asker.delivered == start.asker.delivered + AppsFrom(os, low, start.asker.epoch))
  {
    hide Play, Begins, Healthy;
    var read, flying := PlayTracks(start, moves);
    var t := Play(start, moves).value;
    assert t.answerer.sent[|start.answerer.sent|..] == read + flying;
    if t.toAsker == [] {
      assert flying == [] && read + flying == read;
      ThroughIsApps(read, Gap(start), start.asker.epoch, start.answerer.outSeq, t.answerer.outSeq);
    }
  }

  /** No application message is written before the gap-fill. */
  predicate NoneBeforeFill(os: seq<Outbound>) {
    forall i :: 0 <= i < |os| && os[i].body.AppOut? ==> !Open(os[..i], true)
  }

  lemma {:induction false} AllThroughIff(os: seq<Outbound>, gap: bool, epoch: nat, first: int)
    requires forall i :: 0 <= i < |os| && os[i].body.AppOut? ==> os[i].num >= first
    ensures |Through(os, gap, epoch)| <= |AppsFrom(os, first, epoch)|
    ensures Through(os, gap, epoch) == AppsFrom(os, first, epoch) <==> !gap || NoneBeforeFill(os)
    ensures |Through(os, gap, epoch)| == |AppsFrom(os, first, epoch)| <==> !gap || NoneBeforeFill(os)
    decreases |os|
  {
    if os != [] {
      hide Through, AppsFrom, NoneBeforeFill, Open;
      var front, last := os[..|os| - 1], os[|os| - 1];
      AllThroughIff(front, gap, epoch, first);
      assert os == front + [last];
      NoneBeforeOne(front, last);
      ThroughOne(front, last, gap, epoch);
      AppsOne(front, last, first, epoch);
      OpenOnlyWithGap(front, gap);
      SameLast(Through(front, gap, epoch), AppsFrom(front, first, epoch), Delivery(epoch, last.num));
    }
  }

  lemma OpenOnlyWithGap(read: seq<Outbound>, gap: bool)
    ensures Open(read, gap) <==> gap && Open(read, true)
  {
  }

  lemma SameLast<T>(a: seq<T>, b: seq<T>, x: T)
    ensures a + [x] == b + [x] <==> a == b
    ensures a + [] == a && b + [] == b
  {
    if a + [x] == b + [x] {
      assert a == (a + [x])[..|a|] && b == (b + [x])[..|b|];
      assert |a + [x]| == |b + [x]|;
    }
  }

  lemma NoneBeforeOne(front: seq<Outbound>, last: Outbound)
    ensures NoneBeforeFill(front + [last]) <==> NoneBeforeFill(front) && (last.body.AppOut? ==> !Open(front, true))
  {
    hide Open;
    var os := front + [last];
    assert os[..|front|] == front;
    assert forall i :: 0 <= i < |front| ==> os[i] == front[i] && os[..i] == front[..i];
    assert os[|front|] == last;
  }

  /**
   * Of what is written from the start on, nothing is lost if and only if the asker was not
   * behind, or the answerer wrote no application message before its gap-fill. What the gap
   * itself holds was written before the start, and is never handed over.
   */
  lemma {:induction false} NothingLostIff(start: Net, moves: seq<Move>)
    requires Begins(start) && Play(start, moves).Some? && Play(start, moves).value.toAsker == []
    ensures var t := Play(start, moves).value;
      start.answerer.sent <= t.answerer.sent &&
      var os := WrittenSince(start, t);
      t.asker.delivered == start.asker.delivered + AppsFrom(os, start.answerer.outSeq, start.asker.epoch) <==>
        !Gap(start) || NoneBeforeFill(os)
  {
    hide Play, Begins, Healthy;
    var read, flying := PlayTracks(start, moves);
    var t := Play(start, moves).value;
    assert t.answerer.sent[|start.answerer.sent|..] == read + flying;
    assert flying == [] && read + flying == read;
    ChainNumbers(read, start.answerer.outSeq, t.answerer.outSeq);
    AllThroughIff(read, Gap(start), start.asker.epoch, start.answerer.outSeq);
    hide Through, AppsFrom, NoneBeforeFill, Open, Chain;
    SamePrefix(start.asker.delivered, Through(read, Gap(start), start.asker.epoch),
               AppsFrom(read, start.answerer.outSeq, start.asker.epoch));
  }

  lemma SamePrefix<T>(a: seq<T>, b: seq<T>, c: seq<T>)
    ensures a + b == a + c <==> b == c
  {
    if a + b == a + c {
      assert b == (a + b)[|a|..] == (a + c)[|a|..] == c;
    }
  }

  /** No number inside the gap is ever handed over on the connection. */
  lemma {:induction false} GapNeverDelivered(start: Net, moves: seq<Move>)
    requires Begins(start)
    ensures Play(start, moves).Some?
    ensures var t := Play(start, moves).value;
      && start.asker.delivered <= t.asker.delivered
      && forall i :: |start.asker.delivered| <= i < |t.asker.delivered| ==> t.asker.delivered[i].num >= start.answerer.outSeq
  {
    hide Play, Begins, Healthy;
    var read, flying := PlayTracks(start, moves);
    var t := Play(start, moves).value;
    ChainNumbers(read + flying, start.answerer.outSeq, t.answerer.outSeq);
    assert forall i :: 0 <= i < |read| ==> (read + flying)[i] == read[i];
    ThroughAbove(read, Gap(start), start.asker.epoch, start.answerer.outSeq);
  }

  lemma {:induction false} ThroughAbove(read: seq<Outbound>, gap: bool, epoch: nat, low: int)
    requires forall i :: 0 <= i < |read| && !read[i].body.GapFillOut? ==> read[i].num >= low
    ensures forall d <- Through(read, gap, epoch) :: d.num >= low
    decreases |read|
  {
    if read != [] {
      ThroughAbove(read[..|read| - 1], gap, epoch, low);
    }
  }

  // ---------------------------------------------------------------- a loss that is reached

  const LOSING: seq<Move> := [AnswererSends(true), AskerReceives, AnswererReceives, AskerReceives]

  lemma {:induction false} PlayMore(n: Net, moves: seq<Move>, move: Move)
    requires Play(n, moves).Some?
    ensures Play(n, moves + [move]) == Advance(Play(n, moves).value, move)
  {
    assert (moves + [move])[..|moves|] == moves;
  }

  /** The answerer sends one application message; the asker holds it and asks. */
  lemma AppAndRequest(start: Net) returns (t: Net)
    requires Connected(start) && Gap(start)
    ensures Play(start, LOSING[..2]) == Some(t)
    ensures var o := Outbound(start.answerer.outSeq, AppOut); var r := Outbound(start.asker.outSeq, ResendOut(start.asker.inSeq));
      && t.toAsker == [] && t.toAnswerer == [OnWire(r)] && t.spoken == 1
      && t.answerer == start.answerer.(outSeq := o.num + 1, sent := start.answerer.sent + [o], writes := t.answerer.writes)
      && t.asker == start.asker.(pending := map[o.num := OnWire(o)], resendRequested := true, outSeq := r.num + 1,
                                 sent := t.asker.sent, writes := t.asker.writes)
  {
    var o := Outbound(start.answerer.outSeq, AppOut);
    SendOne(start.answerer, AppOut);
    SentGrows(start.asker, UP, OnWire(o));
    HandleEarly(start.asker, OnWire(o));
    EmittedOne(start.asker, Handle(start.asker, UP, OnWire(o)).state, Outbound(start.asker.outSeq, ResendOut(start.asker.inSeq)));
    hide Send, Handle, Emitted;
    assert Play(start, []) == Some(start);
    PlayMore(start, [], AnswererSends(true));
    assert [] + [AnswererSends(true)] == [AnswererSends(true)];
    var n := Advance(start, AnswererSends(true)).value;
    assert n.toAsker == [OnWire(o)] && n.asker == start.asker;
    PlayMore(start, [AnswererSends(true)], AskerReceives);
    assert LOSING[..2] == [AnswererSends(true)] + [AskerReceives];
    t := Advance(n, AskerReceives).value;
  }

  /** The answerer fills, and the asker applies it. */
  lemma FillAndApply(start: Net, n: Net) returns (t: Net)
    requires Connected(start) && Gap(start)
    requires var o := Outbound(start.answerer.outSeq, AppOut); var r := Outbound(start.asker.outSeq, ResendOut(start.asker.inSeq));
      && n.toAsker == [] && n.toAnswerer == [OnWire(r)]
      && n.answerer == start.answerer.(outSeq := o.num + 1, sent := start.answerer.sent + [o], writes := n.answerer.writes)
      && n.asker == start.asker.(pending := map[o.num := OnWire(o)], resendRequested := true, outSeq := r.num + 1,
                                 sent := n.asker.sent, writes := n.asker.writes)
    ensures Advance(n, AnswererReceives).Some? && Advance(Advance(n, AnswererReceives).value, AskerReceives) == Some(t)
    ensures t.toAsker == [] && t.toAnswerer == []
    ensures t.asker == n.asker.(inSeq := start.answerer.outSeq + 1, pending := map[], resendRequested := false)
    ensures t.answerer.outSeq == start.answerer.outSeq + 1
  {
    var begin, next := start.asker.inSeq, start.answerer.outSeq + 1;
    var fill := Outbound(begin, GapFillOut(next));
    SentGrows(n.answerer, UP, n.toAnswerer[0]);
    HandleRequest(n.answerer, n.toAnswerer[0], begin);
    EmittedOne(n.answerer, Handle(n.answerer, UP, n.toAnswerer[0]).state, fill);
    SentGrows(n.asker, UP, OnWire(fill));
    HandleGapFill(n.asker, OnWire(fill), next);
    EmittedNone(n.asker, Handle(n.asker, UP, OnWire(fill)).state);
    hide Handle, Emitted;
    var m := Advance(n, AnswererReceives).value;
    assert m.toAsker == [OnWire(fill)] && m.asker == n.asker && m.toAnswerer == [];
    t := Advance(m, AskerReceives).value;
  }

  /**
   * A loss that is reached, from any logon behind: one application message is sent and the
   * gap recovered. The message is never handed over, nothing is held, and the watermark is
   * past it.
   */
  lemma {:induction false} LossIsReached(start: Net)
    requires Connected(start) && Gap(start)
    ensures Play(start, LOSING).Some?
    ensures var t := Play(start, LOSING).value;
      && t.toAsker == [] && t.toAnswerer == []
      && t.asker.delivered == start.asker.delivered && t.asker.pending == map[] && !t.asker.resendRequested
      && t.asker.inSeq == t.answerer.outSeq == start.answerer.outSeq + 1
  {
    var n := AppAndRequest(start);
    var t := FillAndApply(start, n);
    hide Advance, Connected;
    PlayMore(start, LOSING[..2], AnswererReceives);
    assert LOSING[..3] == LOSING[..2] + [AnswererReceives];
    PlayMore(start, LOSING[..3], AskerReceives);
    assert LOSING == LOSING[..3] + [AskerReceives];
  }

  /**
   * And from any start at which the gap has been asked for already, as after a resuming
   * logon: a message that crosses the request is lost in the same way.
   */
  lemma {:induction false} CrossingLoss(start: Net)
    requires Begins(start) && Gap(start) && Requested(start)
    ensures Play(start, LOSING).Some?
    ensures var t := Play(start, LOSING).value;
      && t.toAsker == [] && t.toAnswerer == []
      && t.asker.delivered == start.asker.delivered && t.asker.pending == map[] && !t.asker.resendRequested
      && t.asker.inSeq == t.answerer.outSeq == start.answerer.outSeq + 1
  {
    hide Advance, Healthy;
    assert [] + [AnswererSends(true)] == [AnswererSends(true)];
    assert LOSING[..2] == [AnswererSends(true)] + [AskerReceives];
    assert LOSING[..3] == LOSING[..2] + [AnswererReceives];
    assert LOSING == LOSING[..3] + [AskerReceives];
    assert Play(start, []) == Some(start);
    AnswererSpoke(start, true);
    PlayMore(start, [], AnswererSends(true));
    AfterAnswererSends(start, true);
    var n1 := Advance(start, AnswererSends(true)).value;
    AskerHolds(n1);
    AdvanceHealthy(n1, AskerReceives);
    var n2 := Advance(n1, AskerReceives).value;
    PlayMore(start, [AnswererSends(true)], AskerReceives);
    AnswererHearsRequest(n2);
    AdvanceHealthy(n2, AnswererReceives);
    var n3 := Advance(n2, AnswererReceives).value;
    PlayMore(start, LOSING[..2], AnswererReceives);
    AskerFills(n3);
    PlayMore(start, LOSING[..3], AskerReceives);
  }
}
