/**
 * What every step of a session keeps, over whole runs with reconnects and failed replies:
 * application messages are handed over at most once and in order, and gap recovery has
 * been asked for whenever messages are held back.
 */
module SessionSafety {
  import opened Session
  import opened Wrappers

  predicate Before(a: Delivery, b: Delivery) {
    a.epoch < b.epoch || (a.epoch == b.epoch && a.num < b.num)
  }

  /** The log of deliveries is strictly increasing, and all of it lies below the watermark. */
  predicate Logged(s: State) {
    && (forall i, j :: 0 <= i < j < |s.delivered| ==> Before(s.delivered[i], s.delivered[j]))
    && (forall d <- s.delivered :: Before(d, Delivery(s.epoch, s.inSeq)))
  }

  /** Where retransmission exists, holding messages back means having asked for the gap. */
  predicate Asked(s: State) {
    s.retransmits && s.pending != map[] ==> s.resendRequested
  }

  predicate Inv(s: State) { Logged(s) && Asked(s) }

  /** The watermark never falls within an epoch, and an RT/PT session that has logged on stays in its epoch. */
  predicate Advances(s: State, t: State) {
    && s.delivered <= t.delivered
    && s.epoch <= t.epoch && (s.epoch == t.epoch ==> s.inSeq <= t.inSeq)
    && s.retransmits == t.retransmits && (s.loggedOnOnce ==> t.loggedOnOnce)
    && (s.retransmits && s.loggedOnOnce ==> t.epoch == s.epoch)
  }

  predicate Safe(s: State, t: State) { Inv(t) && Advances(s, t) }

  // ---------------------------------------------------------------- steps

  /** A message is handed over only by processing that succeeds, under the number it is processed as. */
  lemma ProcessDelivers(s: State, link: Link, m: Inbound, num: int)
    ensures var e := Process(s, link, m, num);
      e.state.delivered == if e.failure.None? && (m.body.App? || m.body.SequenceReset?)
                           then s.delivered + [Delivery(s.epoch, num)] else s.delivered
  {
    hide Send, SendGapFill;
    SendKeeps(s, link, RejectOut(num));
    match m.body
    case TestRequest(id) => SendKeeps(s, link, HeartbeatOut(id));
    case ResendRequest(begin) =>
      if begin.Some? {
        SendGapFillKeeps(s, link, begin.value);
      }
    case _ =>
  }

  lemma SameInboundSafe(s: State, t: State)
    requires Inv(s) && SameInbound(s, t) && t.delivered == s.delivered
    ensures Safe(s, t)
  {
  }

  lemma DeliverNext(s: State, t: State)
    requires Inv(s) && SameInbound(s, t.(inSeq := s.inSeq)) && t.inSeq == s.inSeq + 1
    requires t.delivered == s.delivered || t.delivered == s.delivered + [Delivery(s.epoch, s.inSeq)]
    ensures Safe(s, t)
  {
  }

  lemma ProcessSafe(s: State, link: Link, m: Inbound)
    requires Inv(s)
    ensures var e := Process(s, link, m, s.inSeq);
      Safe(s, if e.failure.Some? then e.state else e.state.(inSeq := s.inSeq + 1))
  {
    ProcessKeeps(s, link, m, s.inSeq);
    ProcessDelivers(s, link, m, s.inSeq);
    hide Process;
    var e := Process(s, link, m, s.inSeq);
    if e.failure.Some? {
      SameInboundSafe(s, e.state);
    } else {
      DeliverNext(s, e.state.(inSeq := s.inSeq + 1));
    }
  }

  lemma ApplyResetSafe(s: State, newSeqNo: int)
    requires Inv(s)
    ensures Safe(s, ApplyReset(s, newSeqNo))
  {
  }

  lemma PopSafe(s: State)
    requires Inv(s) && s.inSeq in s.pending
    ensures Safe(s, s.(pending := Without(s.pending, s.inSeq)))
  {
  }

  lemma DrainOneSafe(s: State, link: Link)
    requires Inv(s) && s.inSeq in s.pending
    ensures Safe(s, DrainOne(s, link).state)
  {
    hide Process, ApplyReset, Logged, Asked;
    var t := s.(pending := Without(s.pending, s.inSeq));
    PopSafe(s);
    var m := s.pending[s.inSeq];
    match m.body {
      case SequenceReset(None) => DeliverNext(t, t.(inSeq := s.inSeq + 1));
      case SequenceReset(Some(r)) => ApplyResetSafe(t, r.newSeqNo);
      case _ => ProcessSafe(t, link, m);
    }
  }

  lemma {:induction false} DrainSafe(s: State, link: Link)
    requires Inv(s)
    ensures Safe(s, Drain(s, link).state)
    decreases |s.pending|
  {
    hide DrainOne;
    if s.inSeq in s.pending {
      DrainOneSafe(s, link);
      DrainOneShrinks(s, link);
      if DrainOne(s, link).failure.None? {
        DrainSafe(DrainOne(s, link).state, link);
      }
    }
  }

  lemma RequestResendSafe(s: State, link: Link)
    requires Logged(s)
    ensures Safe(s, RequestResend(s, link).state)
  {
    SendKeeps(s.(resendRequested := true), link, ResendOut(s.inSeq));
    hide Send;
  }

  lemma HandleSafe(s: State, link: Link, m: Inbound)
    requires Inv(s)
    ensures Safe(s, Handle(s, link, m).state)
  {
    hide Process, Drain, RequestResend, ApplyReset;
    if m.body.SequenceReset? {
      if m.body.reset.Some? {
        ApplyResetSafe(s, m.body.reset.value.newSeqNo);
        DrainSafe(ApplyReset(s, m.body.reset.value.newSeqNo), link);
        if m.num.Num? {
          RequestResendSafe(s.(pending := s.pending[m.num.n := m]), link);
        }
      }
    } else if m.num.Num? {
      var e := Process(s, link, m, s.inSeq);
      ProcessSafe(s, link, m);
      if e.failure.None? {
        DrainSafe(e.state.(inSeq := s.inSeq + 1), link);
      }
      RequestResendSafe(s.(pending := s.pending[m.num.n := m]), link);
    }
  }

  lemma RenumberSafe(s: State)
    requires Inv(s)
    ensures Safe(s, Renumber(s))
  {
  }

  lemma AcceptLogonSafe(s: State, link: Link, m: Inbound)
    requires Inv(s)
    ensures Safe(s, AcceptLogon(s, link, m).state)
  {
    hide RequestResend;
    if m.num.Num? {
      RequestResendSafe(LoggedOn(s.(pending := s.pending[m.num.n := m])), link);
    }
  }

  lemma OpenAndLogonSafe(s: State, link: Link, a: Attempt)
    requires Inv(s)
    ensures Safe(s, OpenAndLogon(s, link, a).state)
  {
    hide Send, AcceptLogon, Renumber;
    if a.connects {
      var t := Renumber(s).(phase := LoggingOn, isOpen := true);
      RenumberSafe(s);
      SameInboundSafe(Renumber(s), t);
      SendKeeps(t, link, LogonOut(Resets(s)));
      var e := Send(t, link, LogonOut(Resets(s)));
      SameInboundSafe(t, e.state);
      if e.failure.None? && a.reply.Some? {
        AcceptLogonSafe(e.state, link, a.reply.value);
      }
    }
  }

  lemma {:induction false} TryAttemptsSafe(s: State, link: Link, attempts: seq<Attempt>)
    requires Inv(s)
    ensures Safe(s, TryAttempts(s, link, attempts).0)
    decreases |attempts|
  {
    hide OpenAndLogon;
    if attempts != [] && attempts[0].wanted {
      OpenAndLogonSafe(s, link, attempts[0]);
      if OpenAndLogon(s, link, attempts[0]).failure.Some? {
        TryAttemptsSafe(OpenAndLogon(s, link, attempts[0]).state, link, attempts[1..]);
      }
    }
  }

  lemma RecoverSafe(s: State, link: Link, attempts: seq<Attempt>)
    requires Inv(s)
    ensures Safe(s, Recover(s, link, attempts))
  {
    hide TryAttempts;
    var t := s.(isOpen := false, phase := Reconnecting);
    SameInboundSafe(s, t);
    TryAttemptsSafe(t, link, attempts);
  }

  /** Every step, whatever happens in it, keeps the invariant and only moves forward. */
  lemma StepSafe(s: State, link: Link, ev: Event)
    requires Inv(s)
    ensures Safe(s, Step(s, link, ev))
  {
    hide Handle, Recover, OpenAndLogon, Send;
    match ev
    case Started(a) =>
      OpenAndLogonSafe(s.(running := true), link, a);
    case Arrives(m, attempts) =>
      HandleSafe(s, link, m);
      RecoverSafe(Handle(s, link, m).state, link, attempts);
    case BadFrame =>
    case LinkLost(attempts) => RecoverSafe(s, link, attempts);
    case SendsApp => SendKeeps(s, link, AppOut);
    case SendsHeartbeat => SendKeeps(s, link, HeartbeatOut(None));
    case SendsTestRequest => SendKeeps(s, link, TestRequestOut);
    case SocketDropped =>
    case CloseCalled => SendKeeps(s, link, LogoutOut);
  }

  // ---------------------------------------------------------------- whole runs

  /**
   * At most once and in order, over any run of any length: no number of an epoch is handed
   * to the application twice, later ones are larger, and buffered messages always have a
   * resend request behind them.
   */
  lemma {:induction false} RunSafe(retransmits: bool, link: Link, events: seq<Event>)
    ensures Inv(Run(Fresh(retransmits), link, events))
    decreases |events|
  {
    hide Step;
    if events != [] {
      var front := events[..|events| - 1];
      RunSafe(retransmits, link, front);
      StepSafe(Run(Fresh(retransmits), link, front), link, events[|events| - 1]);
    }
  }

  /** Between any two moments of a run, numbering and the delivery log only move forward. */
  lemma {:induction false} RunAdvances(retransmits: bool, link: Link, events: seq<Event>, k: nat)
    requires k <= |events|
    ensures Advances(Run(Fresh(retransmits), link, events[..k]), Run(Fresh(retransmits), link, events))
    decreases |events|
  {
    hide Step;
    if k == |events| {
      assert events[..k] == events;
    } else {
      var front := events[..|events| - 1];
      assert front[..k] == events[..k];
      RunAdvances(retransmits, link, front, k);
      RunSafe(retransmits, link, front);
      StepSafe(Run(Fresh(retransmits), link, front), link, events[|events| - 1]);
    }
  }

  // ---------------------------------------------------------------- the buffer within a connection

  /** Everything held back is above the watermark. */
  predicate Above(s: State) { forall k <- s.pending :: k > s.inSeq }

  predicate AtLeast(s: State) { forall k <- s.pending :: k >= s.inSeq }

  lemma {:induction false} DrainAbove(s: State, link: Link)
    requires AtLeast(s)
    ensures Above(Drain(s, link).state)
    decreases |s.pending|
  {
    if s.inSeq in s.pending {
      hide DrainOne, AtLeast, Above;
      DrainOneAbove(s, link);
      DrainOneShrinks(s, link);
      var e := DrainOne(s, link);
      if e.failure.None? {
        DrainAbove(e.state, link);
      }
    }
  }

  lemma DrainOneAbove(s: State, link: Link)
    requires AtLeast(s) && s.inSeq in s.pending
    ensures var e := DrainOne(s, link); if e.failure.Some? then Above(e.state) else AtLeast(e.state)
  {
    hide Process, ApplyReset;
    var t := s.(pending := Without(s.pending, s.inSeq));
    ProcessKeeps(t, link, s.pending[s.inSeq], s.inSeq);
    assert Above(t);
    if s.pending[s.inSeq].body.SequenceReset? && s.pending[s.inSeq].body.reset.Some? {
      ResetAtLeast(t, s.pending[s.inSeq].body.reset.value.newSeqNo);
    }
  }

  lemma ResetAtLeast(s: State, newSeqNo: int)
    ensures AtLeast(ApplyReset(s, newSeqNo))
  {
  }

  /** Handling a message, whether it succeeds or not, keeps the buffer above the watermark. */
  lemma HandleKeepsAbove(s: State, link: Link, m: Inbound)
    requires Above(s)
    ensures Above(Handle(s, link, m).state)
  {
    hide Process, Drain, Send;
    if m.body.SequenceReset? {
      if m.body.reset.Some? {
        assert AtLeast(ApplyReset(s, m.body.reset.value.newSeqNo));
        DrainAbove(ApplyReset(s, m.body.reset.value.newSeqNo), link);
        if m.num.Num? {
          SendKeeps(s.(pending := s.pending[m.num.n := m], resendRequested := true), link, ResendOut(s.inSeq));
        }
      }
    } else if m.num.Num? {
      var e := Process(s, link, m, m.num.n);
      ProcessKeeps(s, link, m, m.num.n);
      DrainAbove(e.state.(inSeq := s.inSeq + 1), link);
      SendKeeps(s.(pending := s.pending[m.num.n := m], resendRequested := true), link, ResendOut(s.inSeq));
    }
  }

  /**
   * The one step that can leave a held message at or below the watermark is a logon reply
   * that arrives in order: it moves the watermark without looking at the buffer. It is
   * harmless exactly when the number after the reply's is not held.
   */
  lemma LogonReplyKeepsAbove(s: State, link: Link, m: Inbound)
    requires Above(s)
    ensures Above(AcceptLogon(s, link, m).state) <==>
      !(m.body.Logon? && (m.num == Missing || m.num == Num(s.inSeq)) && s.inSeq + 1 in s.pending)
  {
    if m.num.Num? {
      SendKeeps(LoggedOn(s.(pending := s.pending[m.num.n := m], resendRequested := true)), link, ResendOut(s.inSeq));
    }
    hide Send;
  }

  // ---------------------------------------------------------------- asking for a resend

  /** Going from `s` to `t` something may have been written, but no ResendRequest. */
  predicate RepliesOnly(s: State, t: State) {
    && s.sent <= t.sent
    && forall i :: |s.sent| <= i < |t.sent| ==> !t.sent[i].body.ResendOut?
  }

  lemma SendReplies(s: State, link: Link, body: OutBody)
    requires !body.ResendOut?
    ensures RepliesOnly(s, Send(s, link, body).state)
  {
  }

  lemma ProcessReplies(s: State, link: Link, m: Inbound, num: int)
    ensures RepliesOnly(s, Process(s, link, m, num).state)
  {
    SendReplies(s, link, RejectOut(num));
    match m.body
    case TestRequest(id) => SendReplies(s, link, HeartbeatOut(id)); hide Send;
    case _ => hide Send;
  }

  lemma {:induction false} DrainReplies(s: State, link: Link)
    ensures RepliesOnly(s, Drain(s, link).state)
    decreases |s.pending|
  {
    hide DrainOne;
    if s.inSeq in s.pending {
      DrainOneReplies(s, link);
      DrainOneShrinks(s, link);
      var e := DrainOne(s, link);
      if e.failure.None? {
        DrainReplies(e.state, link);
        MoreReplies(s, e.state, Drain(e.state, link).state);
      }
    }
  }

  lemma DrainOneReplies(s: State, link: Link)
    requires s.inSeq in s.pending
    ensures RepliesOnly(s, DrainOne(s, link).state)
  {
    hide Process;
    ProcessReplies(s.(pending := Without(s.pending, s.inSeq)), link, s.pending[s.inSeq], s.inSeq);
  }

  lemma MoreReplies(s: State, u: State, t: State)
    requires RepliesOnly(s, u) && RepliesOnly(u, t)
    ensures RepliesOnly(s, t)
  {
    assert forall j :: 0 <= j < |u.sent| ==> u.sent[j] == t.sent[j];
  }

  /** A ResendRequest written in this step: the gap has just been noticed, and it asks from the watermark. */
  predicate AsksOnNewGap(s: State, t: State) {
    && s.sent <= t.sent
    && forall i :: |s.sent| <= i < |t.sent| && t.sent[i].body.ResendOut? ==>
         && s.retransmits && s.pending == map[] && t.pending != map[]
         && t.sent[i].body.begin == s.inSeq == t.inSeq
  }

  lemma RequestAsks(s: State, k: int, m: Inbound, link: Link)
    requires Asked(s) && s.retransmits
    ensures AsksOnNewGap(s, RequestResend(s.(pending := s.pending[k := m]), link).state)
  {
    assert k in s.pending[k := m];
  }

  /** While messages are handled, a resend is asked for only when the buffer turns from empty to non-empty. */
  lemma HandleAsks(s: State, link: Link, m: Inbound)
    requires Asked(s)
    ensures AsksOnNewGap(s, Handle(s, link, m).state)
  {
    hide Process, Drain, RequestResend;
    if m.body.SequenceReset? {
      if m.body.reset.Some? {
        DrainReplies(ApplyReset(s, m.body.reset.value.newSeqNo), link);
        if m.num.Num? && s.retransmits {
          RequestAsks(s, m.num.n, m, link);
        }
      }
    } else if m.num.Num? {
      var e := Process(s, link, m, m.num.n);
      ProcessReplies(s, link, m, m.num.n);
      DrainReplies(e.state.(inSeq := s.inSeq + 1), link);
      if s.retransmits {
        RequestAsks(s, m.num.n, m, link);
      }
    }
  }

  /** The same for a logon reply that reveals a gap. */
  lemma LogonReplyAsks(s: State, link: Link, m: Inbound)
    requires Asked(s)
    ensures AsksOnNewGap(s, AcceptLogon(s, link, m).state)
  {
    hide RequestResend;
    if m.num.Num? && s.retransmits {
      RequestAsks(LoggedOn(s), m.num.n, m, link);
    }
  }

  /** A message ahead of the watermark on a retransmission session. */
  predicate RevealsGap(s: State, m: Inbound) {
    s.retransmits && m.num.Num? && m.num.n > s.inSeq &&
    (m.body.SequenceReset? ==> m.body.reset.Some? && m.body.reset.value.gapFill)
  }

  /**
   * Exactly when a gap is asked for: the flag must be clear and the write must go through.
   * An empty buffer is not enough: the flag outlives a reply that failed while the buffer
   * was being drained, and a reconnect that does not reset.
   */
  lemma GapAskedIff(s: State, link: Link, m: Inbound)
    requires RevealsGap(s, m)
    ensures var t := Handle(s, link, m).state;
      t.sent != s.sent <==> !s.resendRequested && s.isOpen && link(s.writes) == Written
    ensures var t := Handle(s, link, m).state;
      t.sent != s.sent ==> t.sent == s.sent + [Outbound(s.outSeq, ResendOut(s.inSeq))]
    ensures Handle(s, link, m).state.pending == s.pending[m.num.n := m]
  {
  }

  // A run in which the third write fails: logon, a held test request, and then the missing message.

  function FirstLogon(): Event { Started(Attempt(true, true, Some(Inbound(Logon, Num(1), false)))) }

  function HeldRequest(): Inbound { Inbound(TestRequest(Some("T")), Num(3), false) }

  function MissingHeartbeat(): Inbound { Inbound(Heartbeat, Num(2), false) }

  function NextLogon(): Attempt { Attempt(true, true, Some(Inbound(Logon, Num(3), false))) }

  lemma AfterLogon(link: Link) returns (s: State)
    requires link(0) == Written
    ensures s == Run(Fresh(true), link, [FirstLogon()])
    ensures s.retransmits && s.running && s.isOpen && s.loggedOnOnce
    ensures s.inSeq == 2 && s.writes == 1 && s.pending == map[] && !s.resendRequested && s.delivered == []
  {
    s := Step(Fresh(true), link, FirstLogon());
    assert [FirstLogon()][..0] == [];
  }

  lemma AfterHeld(s: State, link: Link) returns (t: State)
    requires link(1) == Written && s.retransmits && s.running && s.isOpen && s.loggedOnOnce
    requires s.inSeq == 2 && s.writes == 1 && s.pending == map[] && !s.resendRequested
    ensures t == Step(s, link, Arrives(HeldRequest(), []))
    ensures t == s.(pending := map[3 := HeldRequest()], resendRequested := true, writes := 2, outSeq := t.outSeq, sent := t.sent)
  {
    t := Step(s, link, Arrives(HeldRequest(), []));
    hide Drain, Process;
  }

  lemma AfterReconnect(s: State, link: Link) returns (t: State)
    requires link(2) == Failed && link(3) == Written && s.retransmits && s.running && s.isOpen && s.loggedOnOnce
    requires s.inSeq == 2 && s.writes == 2 && s.pending == map[3 := HeldRequest()] && s.resendRequested
    ensures t == Step(s, link, Arrives(MissingHeartbeat(), [NextLogon()]))
    ensures t.phase == Active && t.pending == map[] && t.resendRequested
  {
    hide Handle;
    HeldReplyFails(s, link, MissingHeartbeat(), HeldRequest());
    t := Step(s, link, Arrives(MissingHeartbeat(), [NextLogon()]));
    var u := Handle(s, link, MissingHeartbeat()).state.(isOpen := false, phase := Reconnecting);
    assert OpenAndLogon(u, link, NextLogon()).failure == None;
    assert t == OpenAndLogon(u, link, NextLogon()).state;
  }

  /**
   * Such a state is reached: a gap is recovered, the last held message is a test request
   * whose reply fails, and the reconnect resumes. The next gap is then held back unasked.
   */
  lemma FlagOutlivesReconnect(link: Link) returns (events: seq<Event>)
    requires link(0) == link(1) == link(3) == Written && link(2) == Failed
    ensures var s := Run(Fresh(true), link, events);
      s.phase == Active && s.pending == map[] && s.resendRequested
  {
    hide Step;
    var s1 := AfterLogon(link);
    var s2 := AfterHeld(s1, link);
    var s3 := AfterReconnect(s2, link);
    var e2, e3 := Arrives(HeldRequest(), []), Arrives(MissingHeartbeat(), [NextLogon()]);
    events := [FirstLogon(), e2, e3];
    assert events[..2][..1] == [FirstLogon()];
    assert Run(Fresh(true), link, events[..2]) == s2;
  }

  lemma HeldReplyFails(s: State, link: Link, missing: Inbound, held: Inbound)
    requires s.inSeq == 2 && s.isOpen && s.running && link(s.writes) == Failed
    requires missing == Inbound(Heartbeat, Num(2), false)
    requires held == Inbound(TestRequest(Some("T")), Num(3), false)
    requires s.pending == map[3 := held] && s.resendRequested
    ensures var e := Handle(s, link, missing);
      && e.failure == Some(SendError)
      && e.state == s.(inSeq := 3, pending := map[], writes := s.writes + 1, outSeq := s.outSeq + 1,
                       lost := s.lost + {s.outSeq})
  {
    var t := s.(inSeq := 3);
    assert Without(t.pending, 3) == map[];
    var e := DrainOne(t, link);
    assert e.failure == Some(SendError);
    assert Drain(t, link) == e;
  }
}
