/**
 * When resend requests are written, over whole steps and runs: also through the attempts of
 * a reconnect, each step writes at most one, and only for a gap that is new.
 */
module ResendDiscipline {
  import opened Session
  import opened SessionSafety
  import opened Wrappers

  /**
   * Whatever is asked for on the way from `s` to `t` is asked for last, once, from the
   * watermark, with something held back; and if numbering has gone on, nothing was held and
   * nothing asked for before.
   */
  predicate AsksOnce(s: State, t: State) {
    && s.sent <= t.sent
    && forall i :: |s.sent| <= i < |t.sent| && t.sent[i].body.ResendOut? ==>
         && i == |t.sent| - 1 && t.retransmits && t.resendRequested
         && t.pending != map[] && t.sent[i].body.begin == t.inSeq
         && (s.epoch == t.epoch ==> s.pending == map[] && !s.resendRequested)
  }

  /** Nothing is asked for, and the flag does not come down unless numbering starts anew. */
  predicate NoAsk(s: State, t: State) {
    && RepliesOnly(s, t) && s.epoch <= t.epoch && s.retransmits == t.retransmits
    && (s.epoch == t.epoch && s.resendRequested ==> t.resendRequested)
  }

  lemma NoAskThen(s: State, u: State, t: State)
    requires Inv(s) && NoAsk(s, u) && AsksOnce(u, t) && u.epoch <= t.epoch && u.retransmits == t.retransmits
    ensures AsksOnce(s, t)
  {
    forall i | |s.sent| <= i < |t.sent| && t.sent[i].body.ResendOut?
      ensures i >= |u.sent|
    {
      assert forall j :: 0 <= j < |u.sent| ==> u.sent[j] == t.sent[j];
    }
  }

  lemma NoAskTwice(s: State, u: State, t: State)
    requires NoAsk(s, u) && NoAsk(u, t)
    ensures NoAsk(s, t)
  {
    forall i | |s.sent| <= i < |t.sent|
      ensures !t.sent[i].body.ResendOut?
    {
      assert forall j :: 0 <= j < |u.sent| ==> u.sent[j] == t.sent[j];
    }
  }

  lemma RepliesAskNothing(s: State, t: State)
    requires RepliesOnly(s, t)
    ensures AsksOnce(s, t)
  {
  }

  // ---------------------------------------------------------------- handling a message

  /** Exactly what asking writes. */
  lemma RequestWrites(s: State, link: Link)
    ensures var e := RequestResend(s, link);
      && SameInbound(s.(resendRequested := true), e.state)
      && (e.state.sent == s.sent ||
          (e.failure == None && !s.resendRequested && e.state.sent == s.sent + [Outbound(s.outSeq, ResendOut(s.inSeq))]))
  {
  }

  /** Asking for a message just held. */
  lemma HeldAsks(s: State, k: int, m: Inbound, link: Link)
    requires Asked(s) && s.retransmits
    ensures var e := RequestResend(s.(pending := s.pending[k := m]), link);
      if e.failure.Some? then NoAsk(s, e.state) else AsksOnce(s, e.state)
  {
    var held := s.(pending := s.pending[k := m]);
    RequestWrites(held, link);
    assert k in held.pending;
    hide RequestResend;
  }

  lemma ProcessAsksNothing(s: State, link: Link, m: Inbound, num: int)
    ensures NoAsk(s, Process(s, link, m, num).state)
  {
    hide Process;
    ProcessKeeps(s, link, m, num);
    ProcessReplies(s, link, m, num);
  }

  /** The flag comes down in a turn of the drain only when nothing is left to drain. */
  lemma DrainOneFlag(s: State, link: Link)
    requires s.inSeq in s.pending && s.resendRequested
    ensures var e := DrainOne(s, link);
      e.state.resendRequested || (e.failure == None && e.state.pending == map[])
  {
    hide Process;
    ProcessKeeps(s.(pending := Without(s.pending, s.inSeq)), link, s.pending[s.inSeq], s.inSeq);
  }

  lemma {:induction false} FailedDrainFlag(s: State, link: Link)
    requires s.resendRequested && Drain(s, link).failure.Some?
    ensures Drain(s, link).state.resendRequested
    decreases |s.pending|
  {
    if s.inSeq in s.pending {
      hide DrainOne;
      DrainOneFlag(s, link);
      DrainOneShrinks(s, link);
      var e := DrainOne(s, link);
      if e.failure.None? {
        EmptyDrain(e.state, link);
        FailedDrainFlag(e.state, link);
      }
    }
  }

  lemma {:induction false} EmptyDrain(s: State, link: Link)
    ensures s.pending == map[] ==> Drain(s, link).failure == None
  {
  }

  lemma {:induction false} DrainKeepsEpoch(s: State, link: Link)
    ensures Drain(s, link).state.epoch == s.epoch && Drain(s, link).state.retransmits == s.retransmits
    decreases |s.pending|
  {
    if s.inSeq in s.pending {
      hide DrainOne;
      DrainOneShrinks(s, link);
      DrainOneKeepsEpoch(s, link);
      DrainKeepsEpoch(DrainOne(s, link).state, link);
    }
  }

  lemma DrainOneKeepsEpoch(s: State, link: Link)
    requires s.inSeq in s.pending
    ensures DrainOne(s, link).state.epoch == s.epoch && DrainOne(s, link).state.retransmits == s.retransmits
  {
    hide Process;
    ProcessKeeps(s.(pending := Without(s.pending, s.inSeq)), link, s.pending[s.inSeq], s.inSeq);
  }

  lemma {:induction false} DrainAsks(s: State, link: Link)
    ensures var e := Drain(s, link); RepliesOnly(s, e.state) && (e.failure.Some? ==> NoAsk(s, e.state))
  {
    hide Drain;
    DrainReplies(s, link);
    DrainKeepsEpoch(s, link);
    if Drain(s, link).failure.Some? && s.resendRequested {
      FailedDrainFlag(s, link);
    }
  }

  /** A message that is handled asks as `AsksOnce` says; one that fails asks for nothing. */
  lemma HandleAsksOnce(s: State, link: Link, m: Inbound)
    requires Asked(s)
    ensures var e := Handle(s, link, m); if e.failure.Some? then NoAsk(s, e.state) else AsksOnce(s, e.state)
  {
    hide Process, Drain, RequestResend, NoAsk, AsksOnce, HandleReset;
    if m.body.SequenceReset? {
      ResetAsksOnce(s, link, m);
    } else if m.num.Num? {
      var n := m.num.n;
      if n == s.inSeq {
        InOrderAsks(s, link, m);
      } else if s.retransmits {
        HeldAsks(s, n, m, link);
      }
      NothingAsked(s, s);
      NothingAsked(s, s.(pending := s.pending[n := m]));
    } else {
      NothingAsked(s, s);
    }
  }

  lemma NothingAsked(s: State, t: State)
    requires t.sent == s.sent && t.epoch == s.epoch && t.retransmits == s.retransmits && t.resendRequested == s.resendRequested
    ensures NoAsk(s, t) && AsksOnce(s, t)
  {
  }

  lemma InOrderAsks(s: State, link: Link, m: Inbound)
    requires m.num == Num(s.inSeq)
    ensures var e := Process(s, link, m, s.inSeq);
      if e.failure.Some? then NoAsk(s, e.state)
      else var d := Drain(e.state.(inSeq := s.inSeq + 1), link); if d.failure.Some? then NoAsk(s, d.state) else AsksOnce(s, d.state)
  {
    hide Process, Drain;
    ProcessAsksNothing(s, link, m, s.inSeq);
    var e := Process(s, link, m, s.inSeq);
    var t := e.state.(inSeq := s.inSeq + 1);
    NothingAsked(e.state, t);
    NoAskTwice(s, e.state, t);
    DrainAsks(t, link);
    var d := Drain(t, link);
    if d.failure.Some? {
      NoAskTwice(s, t, d.state);
    } else {
      MoreReplies(s, t, d.state);
      RepliesAskNothing(s, d.state);
    }
  }

  lemma ResetAsksOnce(s: State, link: Link, m: Inbound)
    requires Asked(s) && m.body.SequenceReset?
    ensures var e := HandleReset(s, link, m); if e.failure.Some? then NoAsk(s, e.state) else AsksOnce(s, e.state)
  {
    hide Drain, RequestResend, NoAsk, AsksOnce;
    NothingAsked(s, s);
    if m.body.reset.Some? {
      AppliedAsks(s, link, m.body.reset.value.newSeqNo);
      if m.num.Num? && s.retransmits {
        HeldAsks(s, m.num.n, m, link);
      }
    }
  }

  lemma AppliedAsks(s: State, link: Link, newSeqNo: int)
    ensures var e := Drain(ApplyReset(s, newSeqNo), link); if e.failure.Some? then NoAsk(s, e.state) else AsksOnce(s, e.state)
  {
    hide Drain;
    var t := ApplyReset(s, newSeqNo);
    var e := Drain(t, link);
    DrainAsks(t, link);
    EmptyDrain(t, link);
    assert RepliesOnly(s, e.state);
  }

  // ---------------------------------------------------------------- logon and reconnect

  lemma AcceptLogonAsksOnce(s: State, link: Link, m: Inbound)
    requires Asked(s)
    ensures var e := AcceptLogon(s, link, m); if e.failure.Some? then NoAsk(s, e.state) else AsksOnce(s, e.state)
  {
    hide RequestResend, NoAsk, AsksOnce;
    var n := if m.num.Num? then m.num.n else s.inSeq;
    NothingAsked(s, s);
    NothingAsked(s, LoggedOn(s.(inSeq := n + 1)));
    if s.retransmits {
      LoggedOnAsks(s, n, m, link);
    }
  }

  lemma LoggedOnAsks(s: State, k: int, m: Inbound, link: Link)
    requires Asked(s) && s.retransmits
    ensures var e := RequestResend(LoggedOn(s.(pending := s.pending[k := m])), link);
      if e.failure.Some? then NoAsk(s, e.state) else AsksOnce(s, e.state)
  {
    HeldAsks(LoggedOn(s), k, m, link);
    assert LoggedOn(s.(pending := s.pending[k := m])) == LoggedOn(s).(pending := s.pending[k := m]);
    hide RequestResend;
  }

  lemma AcceptLogonEpoch(s: State, link: Link, m: Inbound)
    ensures AcceptLogon(s, link, m).state.epoch == s.epoch && AcceptLogon(s, link, m).state.retransmits == s.retransmits
  {
  }

  lemma OpenAsksOnce(s: State, link: Link, a: Attempt)
    requires Inv(s)
    ensures var e := OpenAndLogon(s, link, a); if e.failure.Some? then NoAsk(s, e.state) else AsksOnce(s, e.state)
  {
    if a.connects {
      var t := Renumber(s).(phase := LoggingOn, isOpen := true);
      var e := Send(t, link, LogonOut(Resets(s)));
      RenumberSafe(s);
      SendReplies(t, link, LogonOut(Resets(s)));
      SendKeeps(t, link, LogonOut(Resets(s)));
      assert NoAsk(s, t) && NoAsk(t, e.state) && Asked(e.state);
      NoAskTwice(s, t, e.state);
      hide Send, Renumber, Inv, NoAsk, AsksOnce, AcceptLogon;
      if a.reply.Some? {
        AcceptLogonAsksOnce(e.state, link, a.reply.value);
        AcceptLogonEpoch(e.state, link, a.reply.value);
        var r := AcceptLogon(e.state, link, a.reply.value);
        if r.failure.Some? {
          NoAskTwice(s, e.state, r.state);
        } else {
          NoAskThen(s, e.state, r.state);
        }
      }
    }
  }

  lemma {:induction false} AttemptsAskOnce(s: State, link: Link, attempts: seq<Attempt>)
    requires Inv(s)
    ensures AsksOnce(s, TryAttempts(s, link, attempts).0)
    decreases |attempts|
  {
    hide OpenAndLogon, AsksOnce, NoAsk, Inv;
    NothingAsked(s, s.(phase := Closed));
    NothingAsked(s, s.(running := false));
    if attempts != [] && attempts[0].wanted {
      OpenAsksOnce(s, link, attempts[0]);
      OpenAndLogonSafe(s, link, attempts[0]);
      var e := OpenAndLogon(s, link, attempts[0]);
      if e.failure.Some? {
        AttemptsAskOnce(e.state, link, attempts[1..]);
        TryAttemptsSafe(e.state, link, attempts[1..]);
        NoAskThen(s, e.state, TryAttempts(e.state, link, attempts[1..]).0);
      }
    }
  }

  lemma RecoverAsksOnce(s: State, link: Link, attempts: seq<Attempt>)
    requires Inv(s)
    ensures AsksOnce(s, Recover(s, link, attempts))
  {
    hide TryAttempts;
    var t := s.(isOpen := false, phase := Reconnecting);
    AttemptsAskOnce(t, link, attempts);
  }

  // ---------------------------------------------------------------- steps and runs

  lemma ReceiveAsksOnce(s: State, link: Link, m: Inbound, attempts: seq<Attempt>)
    requires Inv(s)
    ensures AsksOnce(s, Receive(s, link, m, attempts))
  {
    hide Handle, Recover, Inv;
    AskedOf(s);
    HandleAsksOnce(s, link, m);
    HandleSafe(s, link, m);
    var e := Handle(s, link, m);
    RecoverAsksOnce(e.state, link, attempts);
    RecoverSafe(e.state, link, attempts);
    if e.failure.Some? {
      NoAskThen(s, e.state, Recover(e.state, link, attempts));
    }
  }

  lemma AskedOf(s: State)
    requires Inv(s)
    ensures Asked(s)
  {
  }

  lemma StartAsksOnce(s: State, link: Link, a: Attempt)
    requires Inv(s)
    ensures AsksOnce(s, Start(s, link, a))
  {
    hide OpenAndLogon;
    OpenAsksOnce(s.(running := true), link, a);
  }

  /** Every step of a session asks as `AsksOnce` says, whatever fails and is retried in it. */
  lemma StepAsksOnce(s: State, link: Link, ev: Event)
    requires Inv(s)
    ensures AsksOnce(s, Step(s, link, ev))
  {
    hide AsksOnce, Receive, Recover, Start, Send, Inv;
    NothingAsked(s, s);
    NothingAsked(s, s.(isOpen := false));
    match ev
    case Started(a) => StartAsksOnce(s, link, a);
    case Arrives(m, attempts) => ReceiveAsksOnce(s, link, m, attempts);
    case LinkLost(attempts) => RecoverAsksOnce(s, link, attempts);
    case SendsApp => SentAsksNothing(s, link, AppOut);
    case SendsHeartbeat => SentAsksNothing(s, link, HeartbeatOut(None));
    case SendsTestRequest => SentAsksNothing(s, link, TestRequestOut);
    case CloseCalled =>
      SentAsksNothing(s, link, LogoutOut);
      NothingAsked(s, Shut(s));
    case _ =>
  }

  lemma SentAsksNothing(s: State, link: Link, body: OutBody)
    requires !body.ResendOut?
    ensures AsksOnce(s, Send(s, link, body).state) && AsksOnce(s, Shut(Send(s, link, body).state))
  {
    hide Send;
    SendReplies(s, link, body);
  }

  /** So in every run each step asks at most once, and only for a gap not asked for before. */
  lemma RunAsksOnce(retransmits: bool, link: Link, events: seq<Event>, k: nat)
    requires k < |events|
    ensures AsksOnce(Run(Fresh(retransmits), link, events[..k]), Run(Fresh(retransmits), link, events[..k + 1]))
  {
    hide Step, Inv, AsksOnce;
    RunSafe(retransmits, link, events[..k]);
    StepAsksOnce(Run(Fresh(retransmits), link, events[..k]), link, events[k]);
    assert events[..k + 1][..k] == events[..k];
  }
}
