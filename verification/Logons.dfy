/**
 * Logging on over whole runs: which logons ask for a reset of the numbering, which replies
 * are accepted, and which reconnects succeed.
 */
module Logons {
  import opened Session
  import opened Wrappers

  // ---------------------------------------------------------------- what is written

  /** A logon resets exactly when it is the first number of its epoch; a gap-fill names a number past its own. */
  predicate FrameOk(o: Outbound) {
    match o.body
    case LogonOut(reset) => reset <==> o.num == 1
    case GapFillOut(newSeqNo) => newSeqNo > o.num
    case _ => true
  }

  predicate ResettingLogon(o: Outbound) { o.body.LogonOut? ==> o.body.reset }

  /** A session resumes when it can have messages sent again and has logged on before. */
  predicate Resumes(s: State) { s.retransmits && s.loggedOnOnce }

  predicate LogonsOk(s: State) {
    && s.outSeq >= 1 && (Resumes(s) ==> s.outSeq >= 2)
    && (forall i :: 0 <= i < |s.sent| ==> FrameOk(s.sent[i]))
    && (!Resumes(s) ==> forall i :: 0 <= i < |s.sent| ==> ResettingLogon(s.sent[i]))
  }

  /** From one moment to another: what resumes goes on resuming, and asks for no reset. */
  predicate Continues(s: State, t: State) {
    && s.sent <= t.sent && t.retransmits == s.retransmits && (s.loggedOnOnce ==> t.loggedOnOnce)
    && (LogonsOk(s) ==> LogonsOk(t))
    && (Resumes(s) ==> forall i :: |s.sent| <= i < |t.sent| ==> !(t.sent[i].body.LogonOut? && t.sent[i].body.reset))
  }

  lemma ContinuesOn(s: State, t: State, u: State)
    requires Continues(s, t) && Continues(t, u)
    ensures Continues(s, u)
  {
    hide LogonsOk;
    forall i | Resumes(s) && |s.sent| <= i < |u.sent|
      ensures !(u.sent[i].body.LogonOut? && u.sent[i].body.reset)
    {
      assert forall j :: 0 <= j < |t.sent| ==> t.sent[j] == u.sent[j];
    }
  }

  /** What neither logs on nor writes a logon: numbers only go up, and gap-fills are as they should be. */
  predicate Ordinary(s: State, t: State) {
    && s.sent <= t.sent && t.retransmits == s.retransmits && t.loggedOnOnce == s.loggedOnOnce && t.outSeq >= s.outSeq
    && forall i :: |s.sent| <= i < |t.sent| ==> FrameOk(t.sent[i]) && !t.sent[i].body.LogonOut?
  }

  lemma OrdinaryContinues(s: State, t: State)
    requires Ordinary(s, t)
    ensures Continues(s, t)
  {
    assert forall j :: 0 <= j < |s.sent| ==> s.sent[j] == t.sent[j];
  }

  lemma OrdinaryTwice(s: State, t: State, u: State)
    requires Ordinary(s, t) && Ordinary(t, u)
    ensures Ordinary(s, u)
  {
    assert forall j :: 0 <= j < |t.sent| ==> t.sent[j] == u.sent[j];
  }

  lemma SendOrdinary(s: State, link: Link, body: OutBody)
    requires !body.LogonOut? && !body.GapFillOut?
    ensures Ordinary(s, Send(s, link, body).state)
  {
  }

  lemma SendGapFillOrdinary(s: State, link: Link, begin: int)
    ensures Ordinary(s, SendGapFill(s, link, begin).state)
  {
  }

  lemma ProcessOrdinary(s: State, link: Link, m: Inbound, num: int)
    ensures Ordinary(s, Process(s, link, m, num).state)
  {
    hide Send, SendGapFill;
    SendOrdinary(s, link, RejectOut(num));
    if m.body.TestRequest? {
      SendOrdinary(s, link, HeartbeatOut(m.body.id));
    }
    if m.body.ResendRequest? && m.body.begin.Some? {
      SendGapFillOrdinary(s, link, m.body.begin.value);
    }
  }

  lemma DrainOneOrdinary(s: State, link: Link)
    requires s.inSeq in s.pending
    ensures Ordinary(s, DrainOne(s, link).state)
  {
    hide Process, Ordinary;
    var t := s.(pending := Without(s.pending, s.inSeq));
    var m := s.pending[s.inSeq];
    var e := Process(t, link, m, s.inSeq);
    ProcessOrdinary(t, link, m, s.inSeq);
    SameNumbers(s, t);
    OrdinaryTwice(s, t, e.state);
    SameNumbers(e.state, e.state.(inSeq := s.inSeq + 1));
    OrdinaryTwice(s, e.state, e.state.(inSeq := s.inSeq + 1));
    SameNumbers(s, t.(inSeq := s.inSeq + 1));
    if m.body.SequenceReset? && m.body.reset.Some? {
      ResetOrdinary(s, t, m.body.reset.value.newSeqNo);
    }
  }

  lemma SameNumbers(s: State, t: State)
    requires t == s.(inSeq := t.inSeq, pending := t.pending, resendRequested := t.resendRequested)
    ensures Ordinary(s, t)
  {
  }

  lemma ResetOrdinary(s: State, t: State, newSeqNo: int)
    requires t == s.(pending := t.pending)
    ensures Ordinary(s, ApplyReset(t, newSeqNo))
  {
  }

  lemma {:induction false} DrainOrdinary(s: State, link: Link)
    ensures Ordinary(s, Drain(s, link).state)
    decreases |s.pending|
  {
    if s.inSeq in s.pending {
      hide DrainOne, Ordinary;
      DrainOneOrdinary(s, link);
      DrainOneShrinks(s, link);
      var t := DrainOne(s, link).state;
      DrainOrdinary(t, link);
      OrdinaryTwice(s, t, Drain(t, link).state);
    }
  }

  lemma RequestOrdinary(s: State, link: Link)
    ensures Ordinary(s, RequestResend(s, link).state)
  {
    SendOrdinary(s.(resendRequested := true), link, ResendOut(s.inSeq));
    hide Send;
  }

  lemma HandleOrdinary(s: State, link: Link, m: Inbound)
    ensures Ordinary(s, Handle(s, link, m).state)
  {
    hide Process, Drain, RequestResend;
    if m.num.Num? {
      RequestOrdinary(s.(pending := s.pending[m.num.n := m]), link);
    }
    if m.body.SequenceReset? {
      if m.body.reset.Some? {
        DrainOrdinary(ApplyReset(s, m.body.reset.value.newSeqNo), link);
      }
    } else if m.num.Num? {
      ProcessOrdinary(s, link, m, m.num.n);
      var t := Process(s, link, m, m.num.n).state;
      DrainOrdinary(t.(inSeq := s.inSeq + 1), link);
      OrdinaryTwice(s, t.(inSeq := s.inSeq + 1), Drain(t.(inSeq := s.inSeq + 1), link).state);
    }
  }

  // ---------------------------------------------------------------- logging on

  lemma LogonWritten(s: State, link: Link)
    requires s.outSeq >= 1
    ensures var t := Renumber(s).(phase := LoggingOn, isOpen := true); var e := Send(t, link, LogonOut(Resets(s)));
      && Continues(s, e.state)
      && (e.failure == None && LogonsOk(s) ==> e.state.outSeq >= 2)
      && e.state.loggedOnOnce == s.loggedOnOnce && e.state.isOpen && e.state.outSeq >= 1
  {
    var t := Renumber(s).(phase := LoggingOn, isOpen := true);
    var e := Send(t, link, LogonOut(Resets(s)));
    assert forall j :: 0 <= j < |s.sent| ==> s.sent[j] == e.state.sent[j];
    if LogonsOk(s) {
      assert Resumes(s) <==> !Resets(s);
    }
  }

  lemma LoggedOnContinues(s: State, t: State)
    requires t.sent == s.sent && t.retransmits == s.retransmits && t.loggedOnOnce && t.outSeq == s.outSeq >= 2
    ensures Continues(s, t)
  {
  }

  lemma AcceptContinues(s: State, link: Link, m: Inbound)
    requires s.outSeq >= 2
    ensures Continues(s, AcceptLogon(s, link, m).state)
  {
    hide RequestResend, Continues;
    var n := if m.num.Num? then m.num.n else s.inSeq;
    OrdinarySelf(s);
    LoggedOnContinues(s, LoggedOn(s.(inSeq := n + 1)));
    var held := LoggedOn(s.(pending := s.pending[n := m]));
    LoggedOnContinues(s, held);
    RequestOrdinary(held, link);
    OrdinaryContinues(held, RequestResend(held, link).state);
    ContinuesOn(s, held, RequestResend(held, link).state);
  }

  lemma OrdinarySelf(s: State)
    ensures Continues(s, s)
  {
  }

  lemma OpenContinues(s: State, link: Link, a: Attempt)
    requires LogonsOk(s)
    ensures Continues(s, OpenAndLogon(s, link, a).state)
  {
    LogonWritten(s, link);
    hide Send, AcceptLogon, Renumber;
    if a.connects {
      var t := Renumber(s).(phase := LoggingOn, isOpen := true);
      var e := Send(t, link, LogonOut(Resets(s)));
      if e.failure == None && a.reply.Some? {
        AcceptContinues(e.state, link, a.reply.value);
        ContinuesOn(s, e.state, AcceptLogon(e.state, link, a.reply.value).state);
      }
    } else {
      OrdinaryContinues(s, s.(phase := Connecting, isOpen := false));
    }
  }

  lemma {:induction false} AttemptsContinue(s: State, link: Link, attempts: seq<Attempt>)
    requires LogonsOk(s)
    ensures Continues(s, TryAttempts(s, link, attempts).0)
    decreases |attempts|
  {
    hide OpenAndLogon, Continues, LogonsOk;
    OrdinaryContinues(s, s.(phase := Closed));
    OrdinaryContinues(s, s.(running := false));
    if attempts != [] && attempts[0].wanted {
      OpenContinues(s, link, attempts[0]);
      var t := OpenAndLogon(s, link, attempts[0]).state;
      StillOk(s, t);
      AttemptsContinue(t, link, attempts[1..]);
      ContinuesOn(s, t, TryAttempts(t, link, attempts[1..]).0);
    }
  }

  lemma StillOk(s: State, t: State)
    requires LogonsOk(s) && Continues(s, t)
    ensures LogonsOk(t)
  {
  }

  lemma RecoverContinues(s: State, link: Link, attempts: seq<Attempt>)
    requires LogonsOk(s)
    ensures Continues(s, Recover(s, link, attempts))
  {
    hide TryAttempts, Continues;
    OrdinarySelf(s);
    var t := s.(isOpen := false, phase := Reconnecting);
    OrdinaryContinues(s, t);
    AttemptsContinue(t, link, attempts);
    var u := TryAttempts(t, link, attempts).0;
    ContinuesOn(s, t, u);
    OrdinaryContinues(u, u.(running := false));
    ContinuesOn(s, u, u.(running := false));
  }

  lemma ReceiveContinues(s: State, link: Link, m: Inbound, attempts: seq<Attempt>)
    requires LogonsOk(s)
    ensures Continues(s, Receive(s, link, m, attempts))
  {
    hide Handle, Recover, Continues, LogonsOk;
    OrdinarySelf(s);
    HandleOrdinary(s, link, m);
    var t := Handle(s, link, m).state;
    OrdinaryContinues(s, t);
    OrdinaryContinues(t, Shut(t));
    ContinuesOn(s, t, Shut(t));
    StillOk(s, t);
    RecoverContinues(t, link, attempts);
    ContinuesOn(s, t, Recover(t, link, attempts));
  }

  lemma StartContinues(s: State, link: Link, a: Attempt)
    requires LogonsOk(s)
    ensures Continues(s, Start(s, link, a))
  {
    hide OpenAndLogon, Continues;
    OrdinarySelf(s);
    var t := s.(running := true);
    OrdinaryContinues(s, t);
    OpenContinues(t, link, a);
    var u := OpenAndLogon(t, link, a).state;
    ContinuesOn(s, t, u);
    OrdinaryContinues(u, Shut(u));
    ContinuesOn(s, u, Shut(u));
  }

  lemma StepContinues(s: State, link: Link, ev: Event)
    requires LogonsOk(s)
    ensures Continues(s, Step(s, link, ev))
  {
    hide Continues, LogonsOk, Receive, Recover, Start, Send;
    OrdinarySelf(s);
    match ev
    case Started(a) => StartContinues(s, link, a);
    case Arrives(m, attempts) => ReceiveContinues(s, link, m, attempts);
    case LinkLost(attempts) => RecoverContinues(s, link, attempts);
    case SendsApp => SendContinues(s, link, AppOut);
    case SendsHeartbeat => SendContinues(s, link, HeartbeatOut(None));
    case SendsTestRequest => SendContinues(s, link, TestRequestOut);
    case SocketDropped => OrdinaryContinues(s, s.(isOpen := false));
    case CloseCalled =>
      SendContinues(s, link, LogoutOut);
      OrdinaryContinues(s, Shut(s));
    case BadFrame =>
  }

  lemma SendContinues(s: State, link: Link, body: OutBody)
    requires !body.LogonOut? && !body.GapFillOut?
    ensures Continues(s, Send(s, link, body).state) && Continues(s, Shut(Send(s, link, body).state))
  {
    hide Send, Continues;
    SendOrdinary(s, link, body);
    var t := Send(s, link, body).state;
    OrdinaryContinues(s, t);
    OrdinaryContinues(t, Shut(t));
    ContinuesOn(s, t, Shut(t));
  }

  /**
   * In every run each logon ever written asks for a reset exactly when it is number 1, and so
   * does every logon of a session that cannot resume; each gap-fill's NewSeqNo is past its
   * own number.
   */
  lemma {:induction false} RunLogons(retransmits: bool, link: Link, events: seq<Event>)
    ensures LogonsOk(Run(Fresh(retransmits), link, events))
    decreases |events|
  {
    hide Step, LogonsOk;
    if events == [] {
      FreshOk(retransmits, link);
    } else {
      var s := Run(Fresh(retransmits), link, events[..|events| - 1]);
      RunLogons(retransmits, link, events[..|events| - 1]);
      StepContinues(s, link, events[|events| - 1]);
      StillOk(s, Step(s, link, events[|events| - 1]));
    }
  }

  lemma {:induction false} FreshOk(retransmits: bool, link: Link)
    ensures LogonsOk(Run(Fresh(retransmits), link, []))
  {
  }

  /** And once a session resumes, none of its later logons asks for a reset. */
  lemma {:induction false} RunResumes(retransmits: bool, link: Link, events: seq<Event>, k: nat)
    requires k <= |events|
    ensures Continues(Run(Fresh(retransmits), link, events[..k]), Run(Fresh(retransmits), link, events))
    decreases |events|
  {
    hide Step, LogonsOk, Continues;
    var s := Run(Fresh(retransmits), link, events[..k]);
    if k == |events| {
      assert events[..k] == events;
      OrdinarySelf(s);
    } else {
      var front := events[..|events| - 1];
      assert front[..k] == events[..k];
      RunResumes(retransmits, link, front, k);
      var t := Run(Fresh(retransmits), link, front);
      RunLogons(retransmits, link, front);
      StepContinues(t, link, events[|events| - 1]);
      ContinuesOn(s, t, Step(t, link, events[|events| - 1]));
    }
  }

  // ---------------------------------------------------------------- which logons succeed

  /** The number the session expects of the reply: 1 after a reset, and where it was otherwise. */
  function Expected(s: State): int { if Resumes(s) then s.inSeq else 1 }

  /** A reply in order or without a number, or, where messages can be sent again, one ahead. */
  predicate GoodReply(m: Inbound, expected: int, retransmits: bool) {
    m.body.Logon? && (m.num == Missing || (m.num.Num? && (m.num.n == expected || (retransmits && m.num.n > expected))))
  }

  /** An attempt that gets through, on a link that writes everything. */
  predicate GetsThrough(s: State, a: Attempt) {
    a.connects && a.reply.Some? && GoodReply(a.reply.value, Expected(s), s.retransmits)
  }

  ghost predicate WritesAll(link: Link) { forall n :: link(n) == Written }

  /** What a logon that got through leaves: numbering anew or as it was, and a reply ahead held with its gap asked for. */
  predicate LoggedOnFrom(s: State, a: Attempt, t: State) {
    && t.phase == Active && t.isOpen && t.loggedOnOnce && a.reply.Some?
    && t.epoch == (if Resumes(s) then s.epoch else s.epoch + 1)
    && t.delivered == s.delivered
    && var m := a.reply.value; var held := if Resumes(s) then s.pending else map[];
       var asked := Resumes(s) && s.resendRequested;
       var number := if Resumes(s) then s.outSeq else 1;
       var logon := Outbound(number, LogonOut(!Resumes(s)));
       if m.num == Missing || m.num == Num(Expected(s)) then
         && t.inSeq == Expected(s) + 1 && t.pending == held && t.resendRequested == asked
         && t.sent == s.sent + [logon] && t.outSeq == number + 1
       else
         && m.num.Num? && t.inSeq == Expected(s) && t.pending == held[m.num.n := m] && t.resendRequested
         && if asked then t.sent == s.sent + [logon] && t.outSeq == number + 1
            else t.sent == s.sent + [logon] + [Outbound(number + 1, ResendOut(Expected(s)))] && t.outSeq == number + 2
  }

  /** One attempt, exactly. */
  lemma AttemptIff(s: State, link: Link, a: Attempt)
    requires WritesAll(link)
    ensures var e := OpenAndLogon(s, link, a);
      && (e.failure == None <==> GetsThrough(s, a))
      && (GetsThrough(s, a) ==> LoggedOnFrom(s, a, e.state) && e.state.running == s.running)
      && (!GetsThrough(s, a) ==> Expected(e.state) == Expected(s) && FailedLogon(s, e.state))
  {
    if a.connects {
      LogonSent(s, link);
      var t := Send(Renumber(s).(phase := LoggingOn, isOpen := true), link, LogonOut(Resets(s))).state;
      hide Send, Renumber, AcceptLogon;
      if a.reply.Some? {
        ReplyIff(s, t, link, a);
      }
    }
  }

  /** A session that has just written its logon. */
  predicate LogonOnWire(s: State, t: State) {
    var number := if Resumes(s) then s.outSeq else 1;
    && t.sent == s.sent + [Outbound(number, LogonOut(!Resumes(s)))] && t.outSeq == number + 1
    && t.isOpen && t.inSeq == Expected(s) && t.epoch == (if Resumes(s) then s.epoch else s.epoch + 1)
    && t.pending == (if Resumes(s) then s.pending else map[])
    && t.resendRequested == (Resumes(s) && s.resendRequested)
    && t.retransmits == s.retransmits && t.loggedOnOnce == s.loggedOnOnce && t.delivered == s.delivered && t.running == s.running
  }

  lemma LogonSent(s: State, link: Link)
    requires WritesAll(link)
    ensures var e := Send(Renumber(s).(phase := LoggingOn, isOpen := true), link, LogonOut(Resets(s)));
      e.failure == None && LogonOnWire(s, e.state)
  {
  }

  lemma ReplyIff(s: State, t: State, link: Link, a: Attempt)
    requires WritesAll(link) && LogonOnWire(s, t) && a.connects && a.reply.Some?
    ensures var e := AcceptLogon(t, link, a.reply.value);
      && (e.failure == None <==> GetsThrough(s, a))
      && (GetsThrough(s, a) ==> LoggedOnFrom(s, a, e.state) && e.state.running == s.running)
      && (!GetsThrough(s, a) ==> Expected(e.state) == Expected(s) && FailedLogon(s, e.state))
  {
  }

  /** A logon that is not written does not get through either, nor does one on a socket that does not open. */
  lemma UnwrittenLogonFails(s: State, link: Link, a: Attempt)
    requires !s.running && (!a.connects || link(s.writes) != Written)
    ensures var t := Step(s, link, Started(a)); !t.running && !t.isOpen && t.phase == Closed && t.sent == s.sent
  {
  }

  /** What a logon that failed leaves as it was, numbering apart where it starts anew each time. */
  predicate FailedLogon(s: State, t: State) {
    && t.retransmits == s.retransmits && t.loggedOnOnce == s.loggedOnOnce && t.delivered == s.delivered && t.running == s.running
    && (Resumes(s) ==> t.inSeq == s.inSeq && t.pending == s.pending && t.epoch == s.epoch && t.resendRequested == s.resendRequested)
  }

  /** `start`: the session runs afterwards exactly if it did or its one attempt gets through; otherwise it is closed. */
  lemma StartIff(s: State, link: Link, a: Attempt)
    requires WritesAll(link)
    ensures var t := Step(s, link, Started(a));
      && (s.running ==> t == s)
      && (!s.running ==>
            if GetsThrough(s, a) then t.running && LoggedOnFrom(s, a, t)
            else !t.running && !t.isOpen && t.phase == Closed && t.delivered == s.delivered)
  {
    hide OpenAndLogon;
    AttemptIff(s.(running := true), link, a);
  }

  /** The first attempt that is not to be made, or that gets through. */
  function Decisive(s: State, attempts: seq<Attempt>): (k: nat)
    ensures k <= |attempts|
    ensures forall j :: 0 <= j < k ==> attempts[j].wanted && !GetsThrough(s, attempts[j])
    ensures k < |attempts| ==> !attempts[k].wanted || GetsThrough(s, attempts[k])
  {
    if attempts == [] || !attempts[0].wanted || GetsThrough(s, attempts[0]) then 0
    else 1 + Decisive(s, attempts[1..])
  }

  lemma {:induction false} SameDecisive(s: State, t: State, attempts: seq<Attempt>)
    requires Expected(s) == Expected(t) && s.retransmits == t.retransmits
    ensures Decisive(s, attempts) == Decisive(t, attempts)
    decreases |attempts|
  {
    hide Expected;
    if attempts != [] {
      SameDecisive(s, t, attempts[1..]);
    }
  }

  /** Trying the attempts in turn, exactly. */
  lemma {:induction false} AttemptsIff(s: State, link: Link, attempts: seq<Attempt>)
    requires WritesAll(link) && s.running
    ensures var (t, ok) := TryAttempts(s, link, attempts); var k := Decisive(s, attempts);
      && (ok <==> k < |attempts| && attempts[k].wanted)
      && (ok ==> t.running && t.phase == Active && t.isOpen && t.loggedOnOnce)
      && (k == |attempts| ==> t.phase == Closed)
      && t.delivered == s.delivered
    decreases |attempts|
  {
    hide OpenAndLogon, GetsThrough, Expected;
    if attempts != [] && attempts[0].wanted {
      AttemptIff(s, link, attempts[0]);
      var t := OpenAndLogon(s, link, attempts[0]).state;
      if !GetsThrough(s, attempts[0]) {
        SameDecisive(s, t, attempts[1..]);
        AttemptsIff(t, link, attempts[1..]);
      }
    }
  }

  /**
   * Losing the link: a running session runs on exactly if an attempt that is still wanted
   * gets through before one that is not wanted; it is then active on an open socket, and
   * otherwise stopped.
   */
  lemma {:induction false} ReconnectIff(s: State, link: Link, attempts: seq<Attempt>)
    requires WritesAll(link)
    ensures var t, k := Step(s, link, LinkLost(attempts)), Decisive(s, attempts);
      && (!s.running ==> t == s)
      && (s.running ==>
            && (t.running <==> k < |attempts| && attempts[k].wanted)
            && (t.running ==> t.phase == Active && t.isOpen && t.loggedOnOnce)
            && (k == |attempts| ==> t.phase == Closed)
            && t.delivered == s.delivered)
  {
    hide TryAttempts;
    var u := s.(isOpen := false, phase := Reconnecting);
    SameDecisive(s, u, attempts);
    if s.running {
      AttemptsIff(u, link, attempts);
    }
  }

  /** The attempt that gets through decides what the session then expects. */
  lemma {:induction false} FirstThrough(s: State, link: Link, attempts: seq<Attempt>)
    requires WritesAll(link) && s.running && attempts != [] && attempts[0].wanted && GetsThrough(s, attempts[0])
    ensures LoggedOnFrom(s, attempts[0], Step(s, link, LinkLost(attempts)))
  {
    hide OpenAndLogon, GetsThrough;
    AttemptIff(s.(isOpen := false, phase := Reconnecting), link, attempts[0]);
    SameThrough(s, s.(isOpen := false, phase := Reconnecting), attempts[0]);
  }

  lemma SameThrough(s: State, t: State, a: Attempt)
    requires t == s.(isOpen := t.isOpen, phase := t.phase)
    ensures GetsThrough(s, a) == GetsThrough(t, a)
  {
  }
}
