/**
 * What a message that arrives in order brings about, and that it makes no difference whether
 * it was next when it came or had to be held until it was.
 */
module Replies {
  import opened Logons
  import opened ResumeStall
  import opened Session
  import opened Wrappers

  // ---------------------------------------------------------------- one message in order

  /** What is written in answer: number, and what it says. */
  function Answer(m: Inbound, num: int, next: int, retransmits: bool): Option<Outbound> {
    match m.body
    case TestRequest(Some(id)) => Some(Outbound(next, HeartbeatOut(Some(id))))
    case ResendRequest(Some(begin)) =>
      if !retransmits then None
      else Some(Outbound(begin, GapFillOut(if next > begin then next else begin + 1)))
    case TestRequest(None) => Some(Outbound(next, RejectOut(num)))
    case ResendRequest(None) => if retransmits then Some(Outbound(next, RejectOut(num))) else None
    case Reject(false) => Some(Outbound(next, RejectOut(num)))
    case _ => None
  }

  /**
   * A message in order with nothing held: the watermark goes one on, an application message
   * is handed over and nothing else is, exactly its answer is written, and a Logout from the
   * peer closes the session.
   */
  lemma InOrderEffect(s: State, link: Link, m: Inbound, attempts: seq<Attempt>)
    requires s.running && s.isOpen && s.pending == map[] && WritesAll(link)
    requires m.num == Num(s.inSeq) && !m.body.SequenceReset?
    ensures var t, a := Step(s, link, Arrives(m, attempts)), Answer(m, s.inSeq, s.outSeq, s.retransmits);
      && t.inSeq == s.inSeq + 1 && t.pending == map[] && !t.resendRequested && t.epoch == s.epoch
      && t.delivered == s.delivered + (if m.body.App? then [Delivery(s.epoch, s.inSeq)] else [])
      && t.sent == s.sent + Listed(a)
      && t.outSeq == (if a.Some? && !a.value.body.GapFillOut? then s.outSeq + 1 else s.outSeq)
      && (if m.body.Logout? then !t.running && !t.isOpen && t.phase == Closed
          else t.running && t.isOpen && t.phase == s.phase)
  {
    hide Recover;
    AnswerWritten(s, link, m);
    hide Process;
    var e := Process(s, link, m, s.inSeq);
    var u := e.state.(inSeq := s.inSeq + 1);
    assert Drain(u, link) == Effect(u.(resendRequested := false), None);
  }

  lemma AnswerWritten(s: State, link: Link, m: Inbound)
    requires s.isOpen && WritesAll(link) && !m.body.SequenceReset?
    ensures var e, a := Process(s, link, m, s.inSeq), Answer(m, s.inSeq, s.outSeq, s.retransmits);
      && e.failure == None && SameInbound(s, e.state)
      && e.state.delivered == s.delivered + (if m.body.App? then [Delivery(s.epoch, s.inSeq)] else [])
      && e.state.sent == s.sent + Listed(a)
      && e.state.outSeq == (if a.Some? && !a.value.body.GapFillOut? then s.outSeq + 1 else s.outSeq)
      && (if m.body.Logout? then !e.state.running && !e.state.isOpen && e.state.phase == Closed
          else e.state.running == s.running && e.state.isOpen && e.state.phase == s.phase)
  {
    ProcessKeeps(s, link, m, s.inSeq);
  }

  /** A message without a number, or whose number cannot be read, and a reset that cannot be read change nothing. */
  lemma UnreadableIgnored(s: State, link: Link, m: Inbound, attempts: seq<Attempt>)
    requires if m.body.SequenceReset? then m.body.reset == None || m.num == Garbled else !m.num.Num?
    ensures Step(s, link, Arrives(m, attempts)) == s
    ensures Step(s, link, BadFrame) == s
  {
  }

  /** A reset, or a gap-fill that is not ahead, moves the watermark forward at once and never back. */
  lemma ResetEffect(s: State, link: Link, m: Inbound, attempts: seq<Attempt>)
    requires s.running && s.pending == map[]
    requires m.body.SequenceReset? && m.body.reset.Some? && m.num != Garbled
    requires m.body.reset.value.gapFill && m.num.Num? ==> m.num.n <= s.inSeq
    ensures var newSeqNo := m.body.reset.value.newSeqNo;
      Step(s, link, Arrives(m, attempts)) ==
        s.(inSeq := if newSeqNo > s.inSeq then newSeqNo else s.inSeq, resendRequested := false)
  {
    hide Recover;
    var t := ApplyReset(s, m.body.reset.value.newSeqNo);
    assert t.pending == map[];
    assert Drain(t, link) == Effect(t, None);
  }

  /** Nothing is written on a closed connection, and no number is taken. */
  lemma ClosedWritesNothing(s: State, link: Link, ev: Event)
    requires !s.isOpen && ev in {SendsApp, SendsHeartbeat, SendsTestRequest}
    ensures Step(s, link, ev) == s
  {
  }

  /** A socket that has been dropped stays so until the session reconnects or starts anew. */
  lemma DroppedWritesNothing(s: State, link: Link, ev: Event)
    requires ev in {SendsApp, SendsHeartbeat, SendsTestRequest, SocketDropped}
    ensures var t := Step(s, link, SocketDropped); Step(t, link, ev) == t && t.sent == s.sent && t.running == s.running
  {
  }

  /** On an open one each send takes the next number and is written under it. */
  lemma OpenWrites(s: State, link: Link, ev: Event)
    requires s.isOpen && link(s.writes) == Written && ev in {SendsApp, SendsHeartbeat, SendsTestRequest}
    ensures var t := Step(s, link, ev);
      && t.outSeq == s.outSeq + 1
      && t.sent == s.sent + [Outbound(s.outSeq, match ev
                                                case SendsApp => AppOut
                                                case SendsHeartbeat => HeartbeatOut(None)
                                                case _ => TestRequestOut)]
  {
  }

  /** Closing says goodbye from an active session only, and ends closed whether or not that goes out. */
  lemma CloseEffect(s: State, link: Link)
    ensures var t := Step(s, link, CloseCalled);
      && !t.running && !t.isOpen && t.phase == Closed && t.delivered == s.delivered && t.inSeq == s.inSeq
      && t.sent == s.sent + (if s.phase == Active && s.isOpen && link(s.writes) == Written
                             then [Outbound(s.outSeq, LogoutOut)] else [])
  {
  }

  /** A reply that fails loses the connection it was to go out on, and the session reconnects. */
  lemma FailedAnswerReconnects(s: State, link: Link, m: Inbound, attempts: seq<Attempt>)
    requires s.running && s.pending == map[] && m.num == Num(s.inSeq) && m.body.TestRequest? && m.body.id.Some?
    requires s.isOpen && link(s.writes) == Failed
    ensures Step(s, link, Arrives(m, attempts)) ==
      Step(s.(outSeq := s.outSeq + 1, lost := s.lost + {s.outSeq}, writes := s.writes + 1), link, LinkLost(attempts))
  {
    hide Drain, Recover;
  }

  // ---------------------------------------------------------------- held or not

  /** A state but for what is held back and asked for. */
  function Unheld(s: State): State { s.(pending := map[], resendRequested := false) }

  /** The messages from `k` on, each under its number. */
  function Held(ms: seq<Inbound>, first: int, k: nat): map<int, Inbound>
    requires k <= |ms|
  {
    map n: int | first + k <= n < first + |ms| :: Numbered(ms, first, n)
  }

  function Numbered(ms: seq<Inbound>, first: int, n: int): Inbound
    requires first <= n < first + |ms|
  {
    ms[n - first]
  }

  /** Messages of any kind but resets, numbered one after the other. */
  predicate Numbers(ms: seq<Inbound>, first: int) {
    forall i :: 0 <= i < |ms| ==> ms[i].num == Num(first + i) && !ms[i].body.SequenceReset?
  }

  /** `e` is what a state makes of something, and `f` what the same state makes of it with nothing held. */
  predicate Mirrors(s: State, e: Effect, f: Effect) {
    && e.failure == f.failure && Unheld(e.state) == f.state
    && e.state.pending == s.pending && e.state.resendRequested == s.resendRequested && e.state.inSeq == s.inSeq
  }

  lemma ProcessUnheld(s: State, link: Link, m: Inbound, num: int)
    ensures Mirrors(s, Process(s, link, m, num), Process(Unheld(s), link, m, num))
  {
    hide Send, SendGapFill, Mirrors;
    RejectUnheld(s, link, num);
    QuietUnheld(s, num);
    if m.body.TestRequest? {
      SendUnheld(s, link, HeartbeatOut(m.body.id));
    }
    if m.body.ResendRequest? && m.body.begin.Some? {
      GapFillUnheld(s, link, m.body.begin.value);
    }
  }

  lemma MirrorKeeps(s: State, e: Effect, f: Effect)
    requires Mirrors(s, e, f)
    ensures e.state.pending == s.pending && e.state.inSeq == s.inSeq
  {
  }

  lemma SendUnheld(s: State, link: Link, body: OutBody)
    ensures Mirrors(s, Send(s, link, body), Send(Unheld(s), link, body))
  {
  }

  lemma RejectUnheld(s: State, link: Link, num: int)
    ensures Mirrors(s, SendReject(s, link, num), SendReject(Unheld(s), link, num))
  {
    hide Send;
    SendUnheld(s, link, RejectOut(num));
  }

  lemma QuietUnheld(s: State, num: int)
    ensures Mirrors(s, Effect(s, None), Effect(Unheld(s), None))
    ensures Mirrors(s, Effect(Deliver(s, num), None), Effect(Deliver(Unheld(s), num), None))
    ensures Mirrors(s, Effect(s.(running := false, isOpen := false, phase := Closed), None),
                    Effect(Unheld(s).(running := false, isOpen := false, phase := Closed), None))
  {
  }

  lemma GapFillUnheld(s: State, link: Link, begin: int)
    ensures Mirrors(s, SendGapFill(s, link, begin), SendGapFill(Unheld(s), link, begin))
  {
  }

  /** One message in order, with nothing held: process it and go one on. */
  lemma HandleUnheld(s: State, link: Link, m: Inbound)
    requires s.pending == map[] && !s.resendRequested && m.num == Num(s.inSeq) && !m.body.SequenceReset?
    ensures var e, f := Handle(s, link, m), Process(s, link, m, s.inSeq);
      && e.failure == f.failure
      && e.state == if f.failure.Some? then f.state else f.state.(inSeq := s.inSeq + 1)
  {
    hide Process;
    ProcessKeeps(s, link, m, s.inSeq);
  }

  /** Messages handled one after the other, from the first on, until one fails. */
  function HandleFrom(s: State, link: Link, ms: seq<Inbound>): Effect
    decreases |ms|
  {
    if ms == [] then Effect(s, None)
    else
      var e := Handle(s, link, ms[0]);
      if e.failure.Some? then e else HandleFrom(e.state, link, ms[1..])
  }

  predicate SameButHeld(e: Effect, f: Effect) {
    e.failure == f.failure && Unheld(e.state) == Unheld(f.state)
  }

  lemma HeldLess(ms: seq<Inbound>, first: int, k: nat)
    requires k < |ms|
    ensures first + k in Held(ms, first, k) && Held(ms, first, k)[first + k] == ms[k]
    ensures Without(Held(ms, first, k), first + k) == Held(ms, first, k + 1)
  {
  }

  lemma HeldNone(ms: seq<Inbound>, first: int)
    ensures Held(ms, first, |ms|) == map[]
  {
  }

  /** Draining what is held does what handling it in order does. */
  lemma {:induction false} DrainIsInOrder(s: State, link: Link, ms: seq<Inbound>, first: int, k: nat)
    requires Numbers(ms, first) && k <= |ms|
    requires s.inSeq == first + k && s.pending == Held(ms, first, k)
    ensures SameButHeld(Drain(s, link), HandleFrom(Unheld(s), link, ms[k..]))
    decreases |ms| - k
  {
    if k == |ms| {
      HeldNone(ms, first);
    } else {
      hide Process, Handle, DrainOne, Held, Drain, HandleFrom, Mirrors;
      HeldLess(ms, first, k);
      assert ms[k..][0] == ms[k] && ms[k..][1..] == ms[k + 1..];
      var m, t := ms[k], s.(pending := Held(ms, first, k + 1));
      var e := Process(t, link, m, s.inSeq);
      ProcessUnheld(t, link, m, s.inSeq);
      MirrorKeeps(t, e, Process(Unheld(t), link, m, s.inSeq));
      assert Unheld(t) == Unheld(s);
      DrainsOne(s, link);
      HandlesOne(s, link, ms[k..], e);
      if e.failure.None? {
        DrainIsInOrder(e.state.(inSeq := s.inSeq + 1), link, ms, first, k + 1);
      }
    }
  }

  lemma {:induction false} HandlesOne(s: State, link: Link, ms: seq<Inbound>, e: Effect)
    requires ms != [] && ms[0].num == Num(s.inSeq) && !ms[0].body.SequenceReset?
    requires Mirrors(s.(pending := e.state.pending), e, Process(Unheld(s), link, ms[0], s.inSeq))
    ensures e.state.inSeq == s.inSeq
    ensures var from := HandleFrom(Unheld(s), link, ms);
      if e.failure.Some? then SameButHeld(e, from)
      else from == HandleFrom(Unheld(e.state.(inSeq := s.inSeq + 1)), link, ms[1..])
  {
    hide Process, Handle;
    HandleUnheld(Unheld(s), link, ms[0]);
  }

  lemma {:induction false} DrainsOne(s: State, link: Link)
    requires s.inSeq in s.pending && !s.pending[s.inSeq].body.SequenceReset?
    ensures var e := Process(s.(pending := Without(s.pending, s.inSeq)), link, s.pending[s.inSeq], s.inSeq);
      Drain(s, link) == if e.failure.Some? then e else Drain(e.state.(inSeq := s.inSeq + 1), link)
  {
    hide Process;
    ProcessKeeps(s.(pending := Without(s.pending, s.inSeq)), link, s.pending[s.inSeq], s.inSeq);
  }

  /**
   * Messages of any kind that come before the one they follow on, and are held, have the
   * same effect as if they had come after it: same deliveries, same answers under the same
   * numbers, same watermark, and the same failure at the same place.
   */
  lemma {:induction false} HeldIsInOrder(s: State, link: Link, ms: seq<Inbound>)
    requires ms != [] && Numbers(ms, s.inSeq) && s.pending == Held(ms, s.inSeq, 1)
    ensures SameButHeld(Handle(s, link, ms[0]), HandleFrom(Unheld(s), link, ms))
  {
    hide Process, Drain, HandleFrom, Mirrors;
    var e := Process(s, link, ms[0], s.inSeq);
    ProcessUnheld(s, link, ms[0], s.inSeq);
    MirrorKeeps(s, e, Process(Unheld(s), link, ms[0], s.inSeq));
    HandlesOne(s, link, ms, e);
    if e.failure.None? {
      DrainIsInOrder(e.state.(inSeq := s.inSeq + 1), link, ms, s.inSeq, 1);
    }
  }
}
