/**
 * Messages a session cannot go on after: a number ahead where nothing can be sent again,
 * and a lower number that does not say it is a repeat.
 */
module FatalNumbers {
  import opened Session
  import opened Wrappers

  /** A gap on a session without retransmission; a gap-fill ahead of the watermark is one too. */
  predicate UnrecoverableGap(s: State, m: Inbound) {
    && !s.retransmits && m.num.Num? && m.num.n > s.inSeq
    && (m.body.SequenceReset? ==> m.body.reset.Some? && m.body.reset.value.gapFill)
  }

  /** A number already passed, on any session, without PossDupFlag. Resets are exempt. */
  predicate UnmarkedRepeat(s: State, m: Inbound) {
    !m.body.SequenceReset? && m.num.Num? && m.num.n < s.inSeq && !m.possDup
  }

  /** Down for good: closed, not running, the socket shut. */
  predicate Down(s: State) { s.phase == Closed && !s.running && !s.isOpen }

  /** Such a message ends a running session at once: nothing is handed over or written, nothing moves. */
  lemma FatalMessageCloses(s: State, link: Link, m: Inbound, attempts: seq<Attempt>)
    requires s.running && (UnrecoverableGap(s, m) || UnmarkedRepeat(s, m))
    ensures var t := Step(s, link, Arrives(m, attempts));
      Down(t) && t.delivered == s.delivered && t.sent == s.sent && t.inSeq == s.inSeq && t.outSeq == s.outSeq
  {
    hide Process, Drain, RequestResend, Recover;
  }

  /** A lower number that says it is a repeat is passed over without a trace. */
  lemma MarkedRepeatIgnored(s: State, link: Link, m: Inbound, attempts: seq<Attempt>)
    requires !m.body.SequenceReset? && m.num.Num? && m.num.n < s.inSeq && m.possDup
    ensures Step(s, link, Arrives(m, attempts)) == s
  {
    hide Process, Drain, RequestResend, Recover;
  }

  // ---------------------------------------------------------------- nothing is held back

  /** Without retransmission a session that runs holds nothing back. */
  predicate HoldsNothing(s: State) {
    !s.retransmits && (s.running ==> s.pending == map[])
  }

  lemma {:induction false} EmptyDrain(s: State, link: Link)
    requires s.pending == map[]
    ensures Drain(s, link).state == s.(resendRequested := false) && Drain(s, link).failure == None
  {
  }

  lemma EmptyReset(s: State, newSeqNo: int)
    requires s.pending == map[]
    ensures ApplyReset(s, newSeqNo).pending == map[] && ApplyReset(s, newSeqNo).retransmits == s.retransmits
  {
  }

  /** Only a message that ends the session is put into the buffer. */
  lemma HandleHolds(s: State, link: Link, m: Inbound)
    requires !s.retransmits && s.pending == map[]
    ensures var e := Handle(s, link, m);
      !e.state.retransmits && (e.failure != Some(SequenceError) ==> e.state.pending == map[])
  {
    hide Process, Drain, ApplyReset;
    if m.body.SequenceReset? {
      if m.body.reset.Some? {
        EmptyReset(s, m.body.reset.value.newSeqNo);
        EmptyDrain(ApplyReset(s, m.body.reset.value.newSeqNo), link);
      }
    } else if m.num.Num? {
      ProcessKeeps(s, link, m, m.num.n);
      EmptyDrain(Process(s, link, m, m.num.n).state.(inSeq := s.inSeq + 1), link);
    }
  }

  /** Without retransmission a logon that goes through starts with an empty buffer, and so does one that fails after the reset. */
  lemma LogonHolds(s: State, link: Link, a: Attempt)
    requires !s.retransmits
    ensures var e := OpenAndLogon(s, link, a);
      && !e.state.retransmits
      && (e.failure == None || s.pending == map[] ==> e.state.pending == map[])
  {
    if a.connects {
      var t := Renumber(s).(phase := LoggingOn, isOpen := true);
      SendHolds(t, link, LogonOut(true));
      hide Send;
      if a.reply.Some? {
        ReplyHolds(Send(t, link, LogonOut(true)).state, link, a.reply.value);
      }
    }
  }

  lemma ReplyHolds(s: State, link: Link, m: Inbound)
    requires !s.retransmits
    ensures var t := AcceptLogon(s, link, m).state; !t.retransmits && t.pending == s.pending
  {
    hide RequestResend;
  }

  lemma {:induction false} AttemptsHold(s: State, link: Link, attempts: seq<Attempt>)
    requires !s.retransmits && s.pending == map[]
    ensures HoldsNothing(TryAttempts(s, link, attempts).0)
    decreases |attempts|
  {
    hide OpenAndLogon;
    if attempts != [] && attempts[0].wanted {
      LogonHolds(s, link, attempts[0]);
      var e := OpenAndLogon(s, link, attempts[0]);
      if e.failure.Some? {
        AttemptsHold(e.state, link, attempts[1..]);
      }
    }
  }

  lemma RecoverHolds(s: State, link: Link, attempts: seq<Attempt>)
    requires !s.retransmits && s.pending == map[]
    ensures HoldsNothing(Recover(s, link, attempts))
  {
    hide TryAttempts;
    AttemptsHold(s.(isOpen := false, phase := Reconnecting), link, attempts);
  }

  lemma StepHolds(s: State, link: Link, ev: Event)
    requires HoldsNothing(s)
    ensures HoldsNothing(Step(s, link, ev))
  {
    hide Send, Handle, Recover, OpenAndLogon;
    match ev
    case Started(a) => LogonHolds(s.(running := true), link, a);
    case Arrives(m, attempts) =>
      if s.running {
        HandleHolds(s, link, m);
        var e := Handle(s, link, m);
        if e.failure == Some(SendError) {
          RecoverHolds(e.state, link, attempts);
        }
      }
    case LinkLost(attempts) =>
      if s.running {
        RecoverHolds(s, link, attempts);
      } else {
        NotRunning(s, link, attempts);
      }
    case SendsApp => SendHolds(s, link, AppOut);
    case SendsHeartbeat => SendHolds(s, link, HeartbeatOut(None));
    case SendsTestRequest => SendHolds(s, link, TestRequestOut);
    case CloseCalled => SendHolds(s, link, LogoutOut);
    case _ =>
  }

  lemma NotRunning(s: State, link: Link, attempts: seq<Attempt>)
    requires !s.running
    ensures Recover(s, link, attempts) == s
  {
  }

  lemma SendHolds(s: State, link: Link, body: OutBody)
    ensures var t := Send(s, link, body).state; t.retransmits == s.retransmits && t.pending == s.pending && t.running == s.running
  {
  }

  /** Over any run of a session without retransmission: as long as it runs it holds nothing back. */
  lemma {:induction false} RunHoldsNothing(link: Link, events: seq<Event>)
    ensures HoldsNothing(Run(Fresh(false), link, events))
    decreases |events|
  {
    hide Step;
    if events != [] {
      RunHoldsNothing(link, events[..|events| - 1]);
      StepHolds(Run(Fresh(false), link, events[..|events| - 1]), link, events[|events| - 1]);
    }
  }

  /** So on such a session every gap, whenever it comes in a run, is the end of it. */
  lemma {:induction false} GapEndsRun(link: Link, events: seq<Event>, m: Inbound, attempts: seq<Attempt>)
    requires var s := Run(Fresh(false), link, events); s.running && m.num.Num? && m.num.n > s.inSeq
    requires m.body.SequenceReset? ==> m.body.reset.Some? && m.body.reset.value.gapFill
    ensures var s, t := Run(Fresh(false), link, events), Run(Fresh(false), link, events + [Arrives(m, attempts)]);
      Down(t) && t.delivered == s.delivered && t.sent == s.sent
  {
    hide Step;
    RunHoldsNothing(link, events);
    assert (events + [Arrives(m, attempts)])[..|events|] == events;
    FatalMessageCloses(Run(Fresh(false), link, events), link, m, attempts);
  }
}
