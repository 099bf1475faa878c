/**
 * Two retransmission sessions joined by a link that loses and reorders nothing. However
 * their steps interleave, a gap in the numbering is closed: the side that notices it asks,
 * the other answers with one gap-fill, and after that every frame is in order.
 */
module GapRecovery {
  import opened Session
  import opened Wrappers

  /** A connection that stays up. */
  const UP: Link := n => Written

  /** How the other side reads what was written; gap-fills carry PossDupFlag. */
  function OnWire(o: Outbound): Inbound {
    match o.body
    case LogonOut(_) => Inbound(Logon, Num(o.num), false)
    case LogoutOut => Inbound(Logout, Num(o.num), false)
    case HeartbeatOut(_) => Inbound(Heartbeat, Num(o.num), false)
    case TestRequestOut => Inbound(TestRequest(Some("TR")), Num(o.num), false)
    case ResendOut(begin) => Inbound(ResendRequest(Some(begin)), Num(o.num), false)
    case RejectOut(_) => Inbound(Reject(true), Num(o.num), false)
    case GapFillOut(newSeqNo) => Inbound(SequenceReset(Some(Reset(true, newSeqNo))), Num(o.num), true)
    case AppOut => Inbound(App, Num(o.num), false)
  }

  function AllOnWire(os: seq<Outbound>): seq<Inbound> {
    seq(|os|, i requires 0 <= i < |os| => OnWire(os[i]))
  }

  /**
   * `asker` receives what `answerer` sends, and the other way round; `spoken` counts the
   * answerer's frames on this connection.
   */
  datatype Net = Net(asker: State, answerer: State, toAsker: seq<Inbound>, toAnswerer: seq<Inbound>, spoken: nat)

  datatype Move = AnswererSends(app: bool) | AskerSends(app: bool) | AskerReceives | AnswererReceives

  function Frame(app: bool): OutBody { if app then AppOut else HeartbeatOut(None) }

  /** What a step of a session has written. */
  function Emitted(s: State, t: State): seq<Inbound>
    requires s.sent <= t.sent
  {
    AllOnWire(t.sent[|s.sent|..])
  }

  lemma {:induction false} SentGrows(s: State, link: Link, m: Inbound)
    ensures s.sent <= Handle(s, link, m).state.sent
  {
    hide Process, Drain;
    if m.body.SequenceReset? {
      if m.body.reset.Some? {
        DrainSentGrows(ApplyReset(s, m.body.reset.value.newSeqNo), link);
      }
    } else if m.num.Num? {
      ProcessSentGrows(s, link, m, m.num.n);
      DrainSentGrows(Process(s, link, m, m.num.n).state.(inSeq := s.inSeq + 1), link);
    }
  }

  lemma ProcessSentGrows(s: State, link: Link, m: Inbound, num: int)
    ensures s.sent <= Process(s, link, m, num).state.sent
  {
    hide Send;
    forall body
      ensures s.sent <= Send(s, link, body).state.sent
    {
      SendSentGrows(s, link, body);
    }
  }

  lemma SendSentGrows(s: State, link: Link, body: OutBody)
    ensures s.sent <= Send(s, link, body).state.sent
  {
  }

  lemma {:induction false} DrainSentGrows(s: State, link: Link)
    ensures s.sent <= Drain(s, link).state.sent
    decreases |s.pending|
  {
    hide DrainOne;
    if s.inSeq in s.pending {
      DrainOneSentGrows(s, link);
      DrainOneShrinks(s, link);
      DrainSentGrows(DrainOne(s, link).state, link);
    }
  }

  lemma DrainOneSentGrows(s: State, link: Link)
    requires s.inSeq in s.pending
    ensures s.sent <= DrainOne(s, link).state.sent
  {
    hide Process;
    ProcessSentGrows(s.(pending := Without(s.pending, s.inSeq)), link, s.pending[s.inSeq], s.inSeq);
  }

  /** One move; `None` when a session has failed. */
  function Advance(n: Net, move: Move): Option<Net> {
    match move
    case AnswererSends(app) =>
      var e := Send(n.answerer, UP, Frame(app));
      Some(n.(answerer := e.state, toAsker := n.toAsker + Emitted(n.answerer, e.state), spoken := n.spoken + 1))
    case AskerSends(app) =>
      var e := Send(n.asker, UP, Frame(app));
      Some(n.(asker := e.state, toAnswerer := n.toAnswerer + Emitted(n.asker, e.state)))
    case AskerReceives =>
      if n.toAsker == [] then Some(n)
      else
        SentGrows(n.asker, UP, n.toAsker[0]);
        var e := Handle(n.asker, UP, n.toAsker[0]);
        if e.failure.Some? then None
        else Some(n.(asker := e.state, toAsker := n.toAsker[1..], toAnswerer := n.toAnswerer + Emitted(n.asker, e.state)))
    case AnswererReceives =>
      if n.toAnswerer == [] then Some(n)
      else
        SentGrows(n.answerer, UP, n.toAnswerer[0]);
        var e := Handle(n.answerer, UP, n.toAnswerer[0]);
        if e.failure.Some? then None
        else Some(n.(answerer := e.state, toAnswerer := n.toAnswerer[1..], toAsker := n.toAsker + Emitted(n.answerer, e.state)))
  }

  function Play(n: Net, moves: seq<Move>): Option<Net> {
    if moves == [] then Some(n)
    else match Play(n, moves[..|moves| - 1])
      case None => None
      case Some(before) => Advance(before, moves[|moves| - 1])
  }

  // ---------------------------------------------------------------- the invariant

  predicate Plain(m: Inbound) { m.body.App? || m.body.Heartbeat? }

  /** Ordinary frames, numbered one after the other. */
  predicate Consecutive(q: seq<Inbound>, first: int) {
    forall i :: 0 <= i < |q| ==> Plain(q[i]) && q[i].num == Num(first + i)
  }

  predicate IsGapFill(m: Inbound, num: int, newSeqNo: int) {
    m.body == SequenceReset(Some(Reset(true, newSeqNo))) && m.num == Num(num)
  }

  /** The direction in which nothing is missing. */
  predicate Base(n: Net) {
    && n.asker.retransmits && n.asker.isOpen && n.answerer.retransmits && n.answerer.isOpen
    && n.answerer.pending == map[] && n.answerer.inSeq + |n.toAnswerer| == n.asker.outSeq
    && forall i :: 0 <= i < |n.toAnswerer| ==>
         && n.toAnswerer[i].num == Num(n.answerer.inSeq + i)
         && (Plain(n.toAnswerer[i]) || n.toAnswerer[i].body == ResendRequest(Some(n.asker.inSeq)))
  }

  /** The requests under way. */
  predicate NoRequest(q: seq<Inbound>) { forall i :: 0 <= i < |q| ==> Plain(q[i]) }

  predicate OneRequest(q: seq<Inbound>, k: nat) {
    k < |q| && !Plain(q[k]) && forall i :: 0 <= i < |q| && i != k ==> Plain(q[i])
  }

  /** No gap, or one that no frame of this connection has revealed yet. */
  predicate Quiet(n: Net) {
    && n.asker.pending == map[] && !n.asker.resendRequested && NoRequest(n.toAnswerer)
    && var first := n.answerer.outSeq - |n.toAsker|;
       first >= n.asker.inSeq && (first == n.asker.inSeq || |n.toAsker| == n.spoken)
       && Consecutive(n.toAsker, first)
  }

  predicate Held(s: State, bound: int) {
    && s.resendRequested && (exists k :: k in s.pending)
    && forall k <- s.pending :: s.inSeq < k < bound
  }

  /** The gap has been seen and one request for it is on its way. */
  predicate Waiting(n: Net, k: nat) {
    && Held(n.asker, n.answerer.outSeq) && OneRequest(n.toAnswerer, k)
    && n.answerer.outSeq - |n.toAsker| > n.asker.inSeq
    && Consecutive(n.toAsker, n.answerer.outSeq - |n.toAsker|)
  }

  /** The gap-fill is on its way, `k` frames from the front. */
  predicate Filling(n: Net, k: nat) {
    && NoRequest(n.toAnswerer) && k < |n.toAsker|
    && var newSeqNo := n.answerer.outSeq - (|n.toAsker| - k - 1);
       && Held(n.asker, newSeqNo) && newSeqNo - k > n.asker.inSeq
       && Consecutive(n.toAsker[..k], newSeqNo - k)
       && IsGapFill(n.toAsker[k], n.asker.inSeq, newSeqNo)
       && Consecutive(n.toAsker[k + 1..], newSeqNo)
  }

  ghost predicate Healthy(n: Net) {
    Base(n) && (Quiet(n) || (exists k :: Waiting(n, k)) || (exists k :: Filling(n, k)))
  }

  // ---------------------------------------------------------------- what single messages do

  lemma HandleEarly(s: State, m: Inbound)
    requires s.retransmits && s.isOpen && Plain(m) && m.num.Num? && m.num.n > s.inSeq
    ensures var e := Handle(s, UP, m);
      && e.failure.None?
      && e.state == s.(pending := s.pending[m.num.n := m], resendRequested := true,
                       outSeq := e.state.outSeq, writes := e.state.writes, sent := e.state.sent)
      && (if s.resendRequested then e.state.sent == s.sent && e.state.outSeq == s.outSeq
          else e.state.sent == s.sent + [Outbound(s.outSeq, ResendOut(s.inSeq))] && e.state.outSeq == s.outSeq + 1)
  {
  }

  lemma HandleNext(s: State, m: Inbound)
    requires s.pending == map[] && Plain(m) && m.num == Num(s.inSeq)
    ensures var e := Handle(s, UP, m);
      && e.failure.None?
      && e.state == s.(inSeq := s.inSeq + 1, resendRequested := false, delivered := e.state.delivered)
      && e.state.delivered == s.delivered + (if m.body.App? then [Delivery(s.epoch, s.inSeq)] else [])
  {
    hide HandleReset, RequestResend, DrainOne, Send, SendGapFill;
    assert s.delivered + [] == s.delivered;
  }

  /** The gap-fill closes the gap at one stroke; what was held is dropped, not delivered. */
  lemma HandleGapFill(s: State, m: Inbound, newSeqNo: int)
    requires IsGapFill(m, s.inSeq, newSeqNo) && newSeqNo > s.inSeq
    requires forall k <- s.pending :: k < newSeqNo
    ensures Handle(s, UP, m) == Effect(s.(inSeq := newSeqNo, pending := map[], resendRequested := false), None)
  {
    assert (map k | k in s.pending && k >= newSeqNo :: s.pending[k]) == map[];
  }

  /** The answer to a request: one gap-fill, up to the next number to be sent. */
  lemma HandleRequest(s: State, m: Inbound, begin: int)
    requires s.retransmits && s.isOpen && s.pending == map[]
    requires m.body == ResendRequest(Some(begin)) && m.num == Num(s.inSeq)
    ensures var e := Handle(s, UP, m);
      && e.failure.None?
      && e.state == s.(inSeq := s.inSeq + 1, resendRequested := false, writes := e.state.writes, sent := e.state.sent)
      && e.state.sent == s.sent + [Outbound(begin, GapFillOut(Max(s.outSeq, begin + 1)))]
  {
  }

  lemma EmittedOne(s: State, t: State, o: Outbound)
    requires t.sent == s.sent + [o]
    ensures Emitted(s, t) == [OnWire(o)]
  {
    assert t.sent[|s.sent|..] == [o];
  }

  lemma EmittedNone(s: State, t: State)
    requires t.sent == s.sent
    ensures Emitted(s, t) == []
  {
  }

  // ---------------------------------------------------------------- every move keeps it

  lemma SendOne(s: State, body: OutBody)
    requires s.isOpen
    ensures var e := Send(s, UP, body);
      && e.state == s.(outSeq := s.outSeq + 1, sent := s.sent + [Outbound(s.outSeq, body)], writes := s.writes + 1)
      && Emitted(s, e.state) == [OnWire(Outbound(s.outSeq, body))]
  {
    EmittedOne(s, Send(s, UP, body).state, Outbound(s.outSeq, body));
  }

  lemma AfterAnswererSends(n: Net, app: bool)
    requires Healthy(n)
    ensures Advance(n, AnswererSends(app)).Some? && Healthy(Advance(n, AnswererSends(app)).value)
  {
    SendOne(n.answerer, Frame(app));
    hide Send, Emitted;
    var t := Advance(n, AnswererSends(app)).value;
    var x := OnWire(Outbound(n.answerer.outSeq, Frame(app)));
    assert Plain(x) && x.num == Num(n.answerer.outSeq);
    assert t.toAsker == n.toAsker + [x];
    if k: nat :| Waiting(n, k) {
      assert Waiting(t, k);
    } else if k: nat :| Filling(n, k) {
      assert t.toAsker[..k] == n.toAsker[..k];
      assert t.toAsker[k + 1..] == n.toAsker[k + 1..] + [x];
      assert Filling(t, k);
    }
  }

  lemma AfterAskerSends(n: Net, app: bool)
    requires Healthy(n)
    ensures Advance(n, AskerSends(app)).Some? && Healthy(Advance(n, AskerSends(app)).value)
  {
    SendOne(n.asker, Frame(app));
    hide Send, Emitted;
    var t := Advance(n, AskerSends(app)).value;
    var x := OnWire(Outbound(n.asker.outSeq, Frame(app)));
    assert Plain(x) && t.toAnswerer == n.toAnswerer + [x];
    if k: nat :| Waiting(n, k) {
      assert Waiting(t, k);
    } else if k: nat :| Filling(n, k) {
      assert Filling(t, k);
    }
  }

  lemma AskerReceivesQuiet(n: Net)
    requires Base(n) && Quiet(n) && n.toAsker != []
    ensures Advance(n, AskerReceives).Some? && Healthy(Advance(n, AskerReceives).value)
  {
    hide Handle, Emitted;
    var m, first := n.toAsker[0], n.answerer.outSeq - |n.toAsker|;
    var e := Handle(n.asker, UP, m);
    SentGrows(n.asker, UP, m);
    if first == n.asker.inSeq {
      HandleNext(n.asker, m);
      EmittedNone(n.asker, e.state);
      var t := Advance(n, AskerReceives).value;
      assert t.toAnswerer == n.toAnswerer;
      assert Quiet(t);
    } else {
      HandleEarly(n.asker, m);
      EmittedOne(n.asker, e.state, Outbound(n.asker.outSeq, ResendOut(n.asker.inSeq)));
      var t := Advance(n, AskerReceives).value;
      assert first in t.asker.pending;
      assert Waiting(t, |n.toAnswerer|);
    }
  }

  lemma AskerReceivesWaiting(n: Net, k: nat)
    requires Base(n) && Waiting(n, k) && n.toAsker != []
    ensures Advance(n, AskerReceives).Some? && Healthy(Advance(n, AskerReceives).value)
  {
    hide Handle, Emitted;
    var m := n.toAsker[0];
    SentGrows(n.asker, UP, m);
    HandleEarly(n.asker, m);
    EmittedNone(n.asker, Handle(n.asker, UP, m).state);
    var t := Advance(n, AskerReceives).value;
    assert t.toAnswerer == n.toAnswerer;
    assert m.num.n in t.asker.pending;
    assert Waiting(t, k);
  }

  lemma AskerReceivesFilling(n: Net, k: nat)
    requires Base(n) && Filling(n, k)
    ensures Advance(n, AskerReceives).Some? && Healthy(Advance(n, AskerReceives).value)
  {
    hide Handle, Emitted;
    var m := n.toAsker[0];
    var newSeqNo := n.answerer.outSeq - (|n.toAsker| - k - 1);
    SentGrows(n.asker, UP, m);
    if k == 0 {
      HandleGapFill(n.asker, m, newSeqNo);
      EmittedNone(n.asker, Handle(n.asker, UP, m).state);
      var t := Advance(n, AskerReceives).value;
      assert t.toAnswerer == n.toAnswerer;
      assert Quiet(t);
    } else {
      assert m == n.toAsker[..k][0];
      HandleEarly(n.asker, m);
      EmittedNone(n.asker, Handle(n.asker, UP, m).state);
      var t := Advance(n, AskerReceives).value;
      assert t.toAnswerer == n.toAnswerer;
      assert m.num.n in t.asker.pending;
      assert t.toAsker[..k - 1] == n.toAsker[..k][1..];
      assert t.toAsker[k..] == n.toAsker[k + 1..];
      assert Filling(t, k - 1);
    }
  }

  lemma AnswererReceivesPlain(n: Net)
    requires Healthy(n) && n.toAnswerer != [] && Plain(n.toAnswerer[0])
    ensures Advance(n, AnswererReceives).Some? && Healthy(Advance(n, AnswererReceives).value)
  {
    hide Handle, Emitted;
    var m := n.toAnswerer[0];
    SentGrows(n.answerer, UP, m);
    HandleNext(n.answerer, m);
    EmittedNone(n.answerer, Handle(n.answerer, UP, m).state);
    var t := Advance(n, AnswererReceives).value;
    assert t.toAsker == n.toAsker;
    if k: nat :| Waiting(n, k) {
      assert Waiting(t, k - 1);
    } else if k: nat :| Filling(n, k) {
      assert Filling(t, k);
    }
  }

  lemma HeldLeavesRoom(s: State, bound: int)
    requires Held(s, bound)
    ensures bound > s.inSeq + 1
  {
    var held :| held in s.pending;
  }

  lemma AnswererReceivesRequest(n: Net)
    requires Base(n) && Waiting(n, 0)
    ensures Advance(n, AnswererReceives).Some? && Healthy(Advance(n, AnswererReceives).value)
  {
    hide Handle, Emitted;
    var m, begin := n.toAnswerer[0], n.asker.inSeq;
    SentGrows(n.answerer, UP, m);
    HandleRequest(n.answerer, m, begin);
    HeldLeavesRoom(n.asker, n.answerer.outSeq);
    var e := Handle(n.answerer, UP, m);
    EmittedOne(n.answerer, e.state, Outbound(begin, GapFillOut(n.answerer.outSeq)));
    var t := Advance(n, AnswererReceives).value;
    var k := |n.toAsker|;
    assert t.toAsker[..k] == n.toAsker;
    assert t.toAsker[k + 1..] == [];
    assert Filling(t, k);
  }

  lemma AdvanceHealthy(n: Net, move: Move)
    requires Healthy(n)
    ensures Advance(n, move).Some? && Healthy(Advance(n, move).value)
  {
    hide Advance;
    match move
    case AnswererSends(app) => AfterAnswererSends(n, app);
    case AskerSends(app) => AfterAskerSends(n, app);
    case AskerReceives =>
      if n.toAsker == [] {
        IdleMove(n, move);
      } else if k: nat :| Waiting(n, k) {
        AskerReceivesWaiting(n, k);
      } else if k: nat :| Filling(n, k) {
        AskerReceivesFilling(n, k);
      } else {
        AskerReceivesQuiet(n);
      }
    case AnswererReceives =>
      if n.toAnswerer == [] {
        IdleMove(n, move);
      } else if Plain(n.toAnswerer[0]) {
        AnswererReceivesPlain(n);
      } else if k: nat :| Waiting(n, k) {
        AnswererReceivesRequest(n);
      }
  }

  lemma IdleMove(n: Net, move: Move)
    requires (move.AskerReceives? && n.toAsker == []) || (move.AnswererReceives? && n.toAnswerer == [])
    ensures Advance(n, move) == Some(n)
  {
  }

  // ---------------------------------------------------------------- the result

  /** A connection between two sessions after logon, the asker possibly behind. */
  predicate Connected(n: Net) {
    && n.asker.retransmits && n.asker.isOpen && n.answerer.retransmits && n.answerer.isOpen
    && n.asker.pending == map[] && !n.asker.resendRequested && n.answerer.pending == map[]
    && n.asker.inSeq <= n.answerer.outSeq && n.answerer.inSeq == n.asker.outSeq
    && n.toAsker == [] && n.toAnswerer == [] && n.spoken == 0
  }

  lemma ConnectedHealthy(n: Net)
    requires Connected(n)
    ensures Healthy(n)
  {
    assert Quiet(n);
  }

  /** A resuming logon whose reply is ahead of the watermark starts out waiting for its gap. */
  lemma ResumedHealthy(asker: State, answerer: State, reply: Inbound)
    requires asker.retransmits && asker.isOpen && asker.pending == map[] && !asker.resendRequested
    requires answerer.retransmits && answerer.isOpen && answerer.pending == map[] && answerer.inSeq == asker.outSeq
    requires reply.body.Logon? && reply.num == Num(answerer.outSeq - 1) && answerer.outSeq - 1 > asker.inSeq
    ensures var e := AcceptLogon(asker, UP, reply);
      && e.failure.None? && e.state.phase == Active && asker.sent <= e.state.sent
      && Healthy(Net(e.state, answerer, [], Emitted(asker, e.state), 1))
  {
    var e := AcceptLogon(asker, UP, reply);
    EmittedOne(asker, e.state, Outbound(asker.outSeq, ResendOut(asker.inSeq)));
    hide Emitted;
    assert answerer.outSeq - 1 in e.state.pending;
    assert Waiting(Net(e.state, answerer, [], Emitted(asker, e.state), 1), 0);
  }

  /** No interleaving makes either session fail, and the invariant holds throughout. */
  lemma {:induction false} PlayHealthy(n: Net, moves: seq<Move>)
    requires Healthy(n)
    ensures Play(n, moves).Some? && Healthy(Play(n, moves).value)
    decreases |moves|
  {
    hide Advance;
    if moves != [] {
      PlayHealthy(n, moves[..|moves| - 1]);
      AdvanceHealthy(Play(n, moves[..|moves| - 1]).value, moves[|moves| - 1]);
    }
  }

  /**
   * Gap recovery: once everything in flight has been received and the answerer has said
   * anything at all, the asker expects exactly the answerer's next number, holds nothing
   * back and has no request outstanding, so the next frame is in order.
   */
  lemma {:induction false} GapCloses(n: Net, moves: seq<Move>)
    requires Healthy(n)
    ensures Play(n, moves).Some?
    ensures var t := Play(n, moves).value;
      t.spoken > 0 && t.toAsker == [] && t.toAnswerer == [] ==>
        && t.asker.inSeq == t.answerer.outSeq && t.asker.pending == map[] && !t.asker.resendRequested
        && t.answerer.inSeq == t.asker.outSeq
  {
    hide Play;
    PlayHealthy(n, moves);
  }
}
