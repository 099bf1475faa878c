/**
 * Outbound numbering over whole runs: within an epoch the numbers go up, every number has
 * been written once or lost with a write that failed, and none is both. Gap-fills go out
 * under numbers of their own.
 */
module OutboundNumbers {
  import opened Session
  import opened Wrappers

  predicate TakesNumber(o: Outbound) { !o.body.GapFillOut? }

  /**
   * Of what the present epoch has written, the numbers go up and are all below the next;
   * those lost are below it too, and none of them has been written.
   */
  predicate Numbered(s: State) {
    && s.since <= |s.sent|
    && (forall i :: s.since <= i < |s.sent| && TakesNumber(s.sent[i]) ==> s.sent[i].num < s.outSeq)
    && (forall i, j :: s.since <= i < j < |s.sent| && TakesNumber(s.sent[i]) && TakesNumber(s.sent[j]) ==>
          s.sent[i].num < s.sent[j].num)
    && (forall n <- s.lost :: n < s.outSeq)
    && (forall i :: s.since <= i < |s.sent| && TakesNumber(s.sent[i]) ==> s.sent[i].num !in s.lost)
  }

  predicate WrittenIn(s: State, n: int) {
    exists i :: s.since <= i < |s.sent| && TakesNumber(s.sent[i]) && s.sent[i].num == n
  }

  /** Every number of the epoch so far has been written or lost. */
  predicate Accounted(s: State) {
    s.outSeq >= 1 && forall n :: 1 <= n < s.outSeq ==> n in s.lost || WrittenIn(s, n)
  }

  /** Between two moments: nothing written is taken back, and within an epoch only higher numbers are added. */
  predicate Onward(s: State, t: State) {
    && s.sent <= t.sent && s.epoch <= t.epoch
    && (Numbered(s) ==> Numbered(t))
    && (Numbered(s) && Accounted(s) ==> Accounted(t))
    && (s.epoch == t.epoch ==>
          && s.since == t.since && s.outSeq <= t.outSeq && s.lost <= t.lost
          && forall i :: |s.sent| <= i < |t.sent| && TakesNumber(t.sent[i]) ==> s.outSeq <= t.sent[i].num)
  }

  lemma OnwardTransitive(s: State, t: State, u: State)
    requires Onward(s, t) && Onward(t, u)
    ensures Onward(s, u)
  {
    hide Numbered, Accounted;
    forall i | |s.sent| <= i < |u.sent| && TakesNumber(u.sent[i]) && s.epoch == u.epoch
      ensures s.outSeq <= u.sent[i].num
    {
      assert i < |t.sent| ==> u.sent[i] == t.sent[i];
    }
  }

  /** What does not write leaves all this as it is. */
  predicate Silent(s: State, t: State) {
    && t.sent == s.sent && t.outSeq == s.outSeq && t.epoch == s.epoch && t.since == s.since
    && t.lost == s.lost
  }

  lemma SilentOnward(s: State, t: State)
    requires Silent(s, t)
    ensures Onward(s, t)
  {
    if Accounted(s) {
      forall n | 1 <= n < t.outSeq
        ensures n in t.lost || WrittenIn(t, n)
      {
        assert WrittenIn(s, n) ==> WrittenIn(t, n);
      }
    }
  }

  /** One more message is written, and what was written stays. */
  lemma WrittenOne(s: State, t: State, o: Outbound)
    requires t.sent == s.sent + [o] && t.since == s.since
    ensures forall n :: WrittenIn(s, n) ==> WrittenIn(t, n)
    ensures TakesNumber(o) && s.since <= |s.sent| ==> WrittenIn(t, o.num)
  {
    forall n | WrittenIn(s, n)
      ensures WrittenIn(t, n)
    {
      var i :| s.since <= i < |s.sent| && TakesNumber(s.sent[i]) && s.sent[i].num == n;
      assert t.sent[i] == s.sent[i];
    }
    assert t.sent[|s.sent|] == o;
  }

  /** A write that is done, one that fails after taking its number, and a gap-fill. */
  lemma NumberWritten(s: State, t: State, o: Outbound)
    requires t.sent == s.sent + [o] && t.since == s.since && t.epoch == s.epoch && t.lost == s.lost
    requires if TakesNumber(o) then o.num == s.outSeq && t.outSeq == s.outSeq + 1 else t.outSeq == s.outSeq
    ensures Onward(s, t)
  {
    WrittenOne(s, t, o);
    hide WrittenIn;
    assert forall i :: 0 <= i < |s.sent| ==> t.sent[i] == s.sent[i];
  }

  lemma NumberLost(s: State, t: State)
    requires t.sent == s.sent && t.since == s.since && t.epoch == s.epoch
    requires t.outSeq == s.outSeq + 1 && t.lost == s.lost + {s.outSeq}
    ensures Onward(s, t)
  {
    if Accounted(s) {
      forall n | 1 <= n < t.outSeq
        ensures n in t.lost || WrittenIn(t, n)
      {
        assert WrittenIn(s, n) ==> WrittenIn(t, n);
      }
    }
  }

  lemma SendOnward(s: State, link: Link, body: OutBody)
    requires !body.GapFillOut?
    ensures Onward(s, Send(s, link, body).state)
  {
    hide Onward;
    var t := Send(s, link, body).state;
    if s.isOpen && link(s.writes) == Written {
      NumberWritten(s, t, Outbound(s.outSeq, body));
    } else if s.isOpen && link(s.writes) == Failed {
      NumberLost(s, t);
    } else {
      SilentOnward(s, t);
    }
  }

  lemma SendGapFillOnward(s: State, link: Link, begin: int)
    ensures Onward(s, SendGapFill(s, link, begin).state)
  {
    hide Onward;
    var t := SendGapFill(s, link, begin).state;
    if s.isOpen && link(s.writes) == Written {
      NumberWritten(s, t, Outbound(begin, GapFillOut(Max(s.outSeq, begin + 1))));
    } else {
      SilentOnward(s, t);
    }
  }

  lemma ProcessOnward(s: State, link: Link, m: Inbound, num: int)
    ensures Onward(s, Process(s, link, m, num).state)
  {
    SilentOnward(s, s);
    SilentOnward(s, Deliver(s, num));
    SilentOnward(s, s.(running := false, isOpen := false, phase := Closed));
    SendOnward(s, link, RejectOut(num));
    if m.body.TestRequest? {
      SendOnward(s, link, HeartbeatOut(m.body.id));
    }
    if m.body.ResendRequest? && m.body.begin.Some? {
      SendGapFillOnward(s, link, m.body.begin.value);
    }
    hide Onward, Send, SendGapFill;
  }

  lemma DrainOneOnward(s: State, link: Link)
    requires s.inSeq in s.pending
    ensures Onward(s, DrainOne(s, link).state)
  {
    hide Onward, Process, ApplyReset;
    var m, t := s.pending[s.inSeq], s.(pending := Without(s.pending, s.inSeq));
    var e := Process(t, link, m, s.inSeq);
    if m.body.SequenceReset? {
      SilentOnward(s, t.(inSeq := s.inSeq + 1));
      if m.body.reset.Some? {
        ResetSilent(t, m.body.reset.value.newSeqNo);
        SilentOnward(s, ApplyReset(t, m.body.reset.value.newSeqNo));
      }
    } else {
      ProcessOnward(t, link, m, s.inSeq);
      AfterSilence(s, t, e.state);
      SilentOnward(e.state, e.state.(inSeq := s.inSeq + 1));
      OnwardTransitive(s, e.state, e.state.(inSeq := s.inSeq + 1));
    }
  }

  lemma {:induction false} DrainOnward(s: State, link: Link)
    ensures Onward(s, Drain(s, link).state)
    decreases |s.pending|
  {
    if s.inSeq in s.pending {
      hide DrainOne, Onward;
      DrainOneShrinks(s, link);
      DrainOneOnward(s, link);
      var t := DrainOne(s, link).state;
      DrainOnward(t, link);
      OnwardTransitive(s, t, Drain(t, link).state);
    } else {
      SilentOnward(s, Drain(s, link).state);
    }
  }

  lemma RequestResendOnward(s: State, link: Link)
    ensures Onward(s, RequestResend(s, link).state)
  {
    hide Send, Onward;
    var t := s.(resendRequested := true);
    SilentOnward(s, s);
    SilentOnward(s, t);
    SendOnward(t, link, ResendOut(s.inSeq));
    OnwardTransitive(s, t, Send(t, link, ResendOut(s.inSeq)).state);
  }

  /** From a state that differs silently, a step onward is a step onward. */
  lemma AfterSilence(s: State, t: State, u: State)
    requires Silent(s, t) && Onward(t, u)
    ensures Onward(s, u)
  {
    hide Onward;
    SilentOnward(s, t);
    OnwardTransitive(s, t, u);
  }

  lemma HandleOnward(s: State, link: Link, m: Inbound)
    ensures Onward(s, Handle(s, link, m).state)
  {
    hide Onward, Process, Drain, RequestResend, ApplyReset;
    SilentOnward(s, s);
    if m.num.Num? {
      var held := s.(pending := s.pending[m.num.n := m]);
      SilentOnward(s, held);
      RequestResendOnward(held, link);
      AfterSilence(s, held, RequestResend(held, link).state);
    }
    if m.body.SequenceReset? {
      if m.body.reset.Some? {
        var t := ApplyReset(s, m.body.reset.value.newSeqNo);
        ResetSilent(s, m.body.reset.value.newSeqNo);
        DrainOnward(t, link);
        AfterSilence(s, t, Drain(t, link).state);
      }
    } else if m.num.Num? {
      ProcessOnward(s, link, m, m.num.n);
      var t := Process(s, link, m, m.num.n).state;
      DrainOnward(t.(inSeq := s.inSeq + 1), link);
      AfterSilence(t, t.(inSeq := s.inSeq + 1), Drain(t.(inSeq := s.inSeq + 1), link).state);
      OnwardTransitive(s, t, Drain(t.(inSeq := s.inSeq + 1), link).state);
    }
  }

  lemma ResetSilent(s: State, newSeqNo: int)
    ensures Silent(s, ApplyReset(s, newSeqNo))
  {
  }

  // ---------------------------------------------------------------- logon, reconnect, whole runs

  lemma RenumberOnward(s: State)
    ensures Onward(s, Renumber(s))
  {
  }

  lemma AcceptLogonOnward(s: State, link: Link, m: Inbound)
    ensures Onward(s, AcceptLogon(s, link, m).state)
  {
    hide Onward, RequestResend;
    SilentOnward(s, s);
    var n := if m.num.Num? then m.num.n else s.inSeq;
    SilentOnward(s, LoggedOn(s.(inSeq := n + 1)));
    var t := LoggedOn(s.(pending := s.pending[n := m]));
    RequestResendOnward(t, link);
    AfterSilence(s, t, RequestResend(t, link).state);
  }

  lemma OpenAndLogonOnward(s: State, link: Link, a: Attempt)
    ensures Onward(s, OpenAndLogon(s, link, a).state)
  {
    SilentOnward(s, s.(phase := Connecting, isOpen := false));
    RenumberOnward(s);
    var r := Renumber(s);
    var t := r.(phase := LoggingOn, isOpen := true);
    hide Onward, Send, AcceptLogon, Renumber;
    SendOnward(t, link, LogonOut(Resets(s)));
    var e := Send(t, link, LogonOut(Resets(s)));
    AfterSilence(r, t, e.state);
    OnwardTransitive(s, r, e.state);
    if a.reply.Some? {
      AcceptLogonOnward(e.state, link, a.reply.value);
      OnwardTransitive(s, e.state, AcceptLogon(e.state, link, a.reply.value).state);
    }
  }

  lemma {:induction false} TryAttemptsOnward(s: State, link: Link, attempts: seq<Attempt>)
    ensures Onward(s, TryAttempts(s, link, attempts).0)
    decreases |attempts|
  {
    hide Onward, OpenAndLogon;
    SilentOnward(s, s.(phase := Closed));
    SilentOnward(s, s.(running := false));
    if attempts != [] && attempts[0].wanted {
      OpenAndLogonOnward(s, link, attempts[0]);
      var t := OpenAndLogon(s, link, attempts[0]).state;
      TryAttemptsOnward(t, link, attempts[1..]);
      OnwardTransitive(s, t, TryAttempts(t, link, attempts[1..]).0);
    }
  }

  lemma RecoverOnward(s: State, link: Link, attempts: seq<Attempt>)
    ensures Onward(s, Recover(s, link, attempts))
  {
    hide Onward, TryAttempts;
    SilentOnward(s, s);
    var t := s.(isOpen := false, phase := Reconnecting);
    TryAttemptsOnward(t, link, attempts);
    var u := TryAttempts(t, link, attempts).0;
    AfterSilence(s, t, u);
    SilentOnward(u, u.(running := false));
    OnwardTransitive(s, u, u.(running := false));
  }

  lemma ReceiveOnward(s: State, link: Link, m: Inbound, attempts: seq<Attempt>)
    ensures Onward(s, Receive(s, link, m, attempts))
  {
    hide Onward, Handle, Recover;
    SilentOnward(s, s);
    HandleOnward(s, link, m);
    var t := Handle(s, link, m).state;
    SilentOnward(t, Shut(t));
    OnwardTransitive(s, t, Shut(t));
    RecoverOnward(t, link, attempts);
    OnwardTransitive(s, t, Recover(t, link, attempts));
  }

  lemma StartOnward(s: State, link: Link, a: Attempt)
    ensures Onward(s, Start(s, link, a))
  {
    hide Onward, OpenAndLogon;
    SilentOnward(s, s);
    var t := s.(running := true);
    OpenAndLogonOnward(t, link, a);
    var u := OpenAndLogon(t, link, a).state;
    AfterSilence(s, t, u);
    SilentOnward(u, Shut(u));
    OnwardTransitive(s, u, Shut(u));
  }

  lemma StepOnward(s: State, link: Link, ev: Event)
    ensures Onward(s, Step(s, link, ev))
  {
    hide Onward, Receive, Recover, Start, Send;
    match ev
    case Started(a) => StartOnward(s, link, a);
    case Arrives(m, attempts) => ReceiveOnward(s, link, m, attempts);
    case BadFrame => SilentOnward(s, s);
    case LinkLost(attempts) => RecoverOnward(s, link, attempts);
    case SendsApp => SendOnward(s, link, AppOut);
    case SendsHeartbeat => SendOnward(s, link, HeartbeatOut(None));
    case SendsTestRequest => SendOnward(s, link, TestRequestOut);
    case SocketDropped => SilentOnward(s, s.(isOpen := false));
    case CloseCalled =>
      SendOnward(s, link, LogoutOut);
      var t := Send(s, link, LogoutOut).state;
      SilentOnward(s, Shut(s));
      SilentOnward(t, Shut(t));
      OnwardTransitive(s, t, Shut(t));
  }

  lemma {:induction false} RunOnward(retransmits: bool, link: Link, events: seq<Event>, k: nat)
    requires k <= |events|
    ensures Onward(Run(Fresh(retransmits), link, events[..k]), Run(Fresh(retransmits), link, events))
    decreases |events|
  {
    hide Onward, Step;
    var s := Run(Fresh(retransmits), link, events[..k]);
    if k == |events| {
      assert events[..k] == events;
      SilentOnward(s, s);
    } else {
      var front := events[..|events| - 1];
      assert front[..k] == events[..k];
      RunOnward(retransmits, link, front, k);
      var t := Run(Fresh(retransmits), link, front);
      StepOnward(t, link, events[|events| - 1]);
      OnwardTransitive(s, t, Step(t, link, events[|events| - 1]));
    }
  }

  /** At every moment of every run the numbers written in the present epoch go up, and none is lost too. */
  lemma {:induction false} RunNumbered(retransmits: bool, link: Link, events: seq<Event>)
    ensures Numbered(Run(Fresh(retransmits), link, events))
    ensures Accounted(Run(Fresh(retransmits), link, events))
  {
    hide Run;
    RunOnward(retransmits, link, events, 0);
    RunOfNothing(Fresh(retransmits), link);
    assert events[..0] == [];
  }

  lemma {:induction false} RunOfNothing(s: State, link: Link)
    ensures Run(s, link, []) == s
  {
  }

  /**
   * A number taken by a write that failed, of whatever message, is gone: as long as the
   * epoch lasts, it stays lost and no message that takes a number is written under it,
   * before or after.
   */
  lemma {:induction false} FailedNumberNotReused(retransmits: bool, link: Link, events: seq<Event>, k: nat, n: int)
    requires k <= |events| && n in Run(Fresh(retransmits), link, events[..k]).lost
    ensures var s, t := Run(Fresh(retransmits), link, events[..k]), Run(Fresh(retransmits), link, events);
      s.epoch == t.epoch ==> n in t.lost && !WrittenIn(t, n)
  {
    hide Run, Accounted;
    RunNumbered(retransmits, link, events);
    RunOnward(retransmits, link, events, k);
  }

  /** What puts it there: any write that fails on an open connection. */
  lemma FailedWriteLosesNumber(s: State, link: Link, body: OutBody)
    requires s.isOpen && link(s.writes) == Failed
    ensures var t := Send(s, link, body).state; s.outSeq in t.lost && t.outSeq == s.outSeq + 1 && t.sent == s.sent
  {
  }
}
