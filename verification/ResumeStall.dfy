/**
 * What follows when a resuming logon leaves a held message at the watermark: the logon
 * reply moves the watermark without draining the buffer, and the resend flag stays up.
 */
module ResumeStall {
  import opened Session
  import opened SessionSafety
  import opened Wrappers

  /** The next message in order is held already, and nothing more will be asked for. */
  predicate Stalled(s: State) {
    s.retransmits && s.isOpen && s.resendRequested && s.inSeq in s.pending
  }

  function InOrderLogon(s: State): Attempt { Attempt(true, true, Some(Inbound(Logon, Num(s.inSeq), false))) }

  /** Losing the link with the number after the next one held, and resuming in order, stalls the session. */
  lemma ResumingStalls(s: State, link: Link)
    requires s.retransmits && s.running && s.loggedOnOnce && Asked(s)
    requires s.inSeq + 1 in s.pending && link(s.writes) == Written
    ensures var t := Step(s, link, LinkLost([InOrderLogon(s)]));
      && Stalled(t) && t.phase == Active && t.inSeq == s.inSeq + 1
      && t.pending == s.pending && t.delivered == s.delivered && t.epoch == s.epoch
  {
    assert exists k :: k in s.pending;
    var u := s.(isOpen := false, phase := Reconnecting);
    assert OpenAndLogon(u, link, InOrderLogon(s)).failure == None;
  }

  function App(n: int): Inbound { Inbound(Body.App, Num(n), false) }

  /** A run that gets there: log on, miss message 2, hold message 3, lose the link, resume in order. */
  lemma StallIsReached(link: Link) returns (events: seq<Event>)
    requires link(0) == link(1) == link(2) == Written
    ensures var s := Run(Fresh(true), link, events);
      Stalled(s) && s.phase == Active && s.inSeq == 3 && s.pending == map[3 := App(3)] && s.delivered == []
  {
    hide Step;
    var s1 := AfterLogon(link);
    var s2 := AfterEarlyApp(s1, link);
    var e3 := LinkLost([InOrderLogon(s2)]);
    ResumingStalls(s2, link);
    events := [FirstLogon(), Arrives(App(3), []), e3];
    assert events[..2][..1] == [FirstLogon()];
    assert Run(Fresh(true), link, events[..2]) == s2;
  }

  lemma AfterEarlyApp(s: State, link: Link) returns (t: State)
    requires link(1) == Written && s.retransmits && s.running && s.isOpen && s.loggedOnOnce
    requires s.inSeq == 2 && s.writes == 1 && s.pending == map[] && !s.resendRequested
    ensures t == Step(s, link, Arrives(App(3), []))
    ensures t.retransmits && t.running && t.loggedOnOnce && t.resendRequested
    ensures t.inSeq == 2 && t.writes == 2 && t.pending == map[3 := App(3)] && t.delivered == s.delivered
  {
    t := Step(s, link, Arrives(App(3), []));
    hide Drain, Process;
  }

  // ---------------------------------------------------------------- what it means

  function HandleEach(s: State, link: Link, ms: seq<Inbound>): Effect {
    if ms == [] then Effect(s, None)
    else
      var e := HandleEach(s, link, ms[..|ms| - 1]);
      if e.failure.Some? then e else Handle(e.state, link, ms[|ms| - 1])
  }

  /**
   * A stalled session takes in everything ahead of the watermark and does nothing with it,
   * however much comes: it hands over nothing, asks for nothing and stays where it is,
   * although the message it waits for is in its buffer.
   */
  lemma {:induction false} StallPersists(s: State, link: Link, ms: seq<Inbound>)
    requires Stalled(s) && forall m <- ms :: RevealsGap(s, m)
    ensures var e := HandleEach(s, link, ms);
      && e.failure == None && Stalled(e.state)
      && e.state == s.(pending := e.state.pending)
      && s.pending.Keys <= e.state.pending.Keys
      && forall m <- ms :: m.num.Num? && m.num.n in e.state.pending
    decreases |ms|
  {
    hide Handle;
    if ms != [] {
      var front, m := ms[..|ms| - 1], ms[|ms| - 1];
      assert ms == front + [m];
      assert m in ms;
      StallPersists(s, link, front);
      EarlyIsHeld(HandleEach(s, link, front).state, link, m);
    }
  }

  lemma EarlyIsHeld(s: State, link: Link, m: Inbound)
    requires s.resendRequested && RevealsGap(s, m)
    ensures Handle(s, link, m) == Effect(s.(pending := s.pending[m.num.n := m]), None)
  {
  }

  /** No resets among the messages held. */
  predicate NoResets(s: State) {
    forall k <- s.pending :: !s.pending[k].body.SequenceReset?
  }

  /** A held message below the watermark, with the flag up. */
  predicate Stale(s: State, k: int) {
    s.resendRequested && k in s.pending && k < s.inSeq && NoResets(s)
  }

  /** Sending the awaited message again does not cure it: its held twin is left behind below the watermark. */
  lemma ResentLeavesTwin(s: State, link: Link, m: Inbound)
    requires Stalled(s) && NoResets(s) && !m.body.SequenceReset? && m.num == Num(s.inSeq)
    requires Handle(s, link, m).failure == None
    ensures Stale(Handle(s, link, m).state, s.inSeq)
  {
    hide Drain, Process;
    ProcessKeeps(s, link, m, s.inSeq);
    var t := Process(s, link, m, s.inSeq).state.(inSeq := s.inSeq + 1);
    DrainKeepsStale(t, link, s.inSeq);
  }

  lemma {:induction false} DrainKeepsStale(s: State, link: Link, k: int)
    requires Stale(s, k)
    ensures Stale(Drain(s, link).state, k)
    decreases |s.pending|
  {
    if s.inSeq in s.pending {
      hide DrainOne, Stale;
      DrainOneShrinks(s, link);
      DrainOneKeepsStale(s, link, k);
      DrainKeepsStale(DrainOne(s, link).state, link, k);
    } else {
      assert s.pending != map[];
    }
  }

  lemma DrainOneKeepsStale(s: State, link: Link, k: int)
    requires Stale(s, k) && s.inSeq in s.pending
    ensures Stale(DrainOne(s, link).state, k)
  {
    hide Process;
    ProcessKeeps(s.(pending := Without(s.pending, s.inSeq)), link, s.pending[s.inSeq], s.inSeq);
  }

  /**
   * And it stays: until a reset comes, whatever else is handled, the flag is up and no gap
   * is ever asked for.
   */
  lemma StaleAsksNothing(s: State, link: Link, m: Inbound, k: int)
    requires Stale(s, k) && !m.body.SequenceReset?
    ensures var t := Handle(s, link, m).state; Stale(t, k) && RepliesOnly(s, t)
  {
    hide Process, Drain;
    if m.num.Num? {
      ProcessKeeps(s, link, m, m.num.n);
      ProcessReplies(s, link, m, m.num.n);
      var t := Process(s, link, m, m.num.n).state.(inSeq := s.inSeq + 1);
      DrainReplies(t, link);
      if m.num.n == s.inSeq {
        DrainKeepsStale(t, link, k);
      }
    }
  }
}
