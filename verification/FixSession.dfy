/**
 * The session as the object it is: fields updated step by step, the drain and reconnect
 * loops, each method proved to do what the functions of module Session say.
 */
module FixSession {
  import opened Session
  import opened Wrappers

  lemma SendWhileStopping(s: State, link: Link, body: OutBody)
    ensures Send(s.(running := false), link, body).state == Send(s, link, body).state.(running := false)
  {
  }

  class FixSession {
    const retransmits: bool
    /** The outcome of every write, in the order they are attempted. */
    const link: Link
    var running: bool
    var phase: Phase
    var isOpen: bool
    var outSeq: int
    var inSeq: int
    var loggedOnOnce: bool
    var pending: map<int, Inbound>
    var resendRequested: bool
    ghost var epoch: nat
    ghost var delivered: seq<Delivery>
    ghost var sent: seq<Outbound>
    ghost var since: nat
    ghost var lost: set<int>
    var writes: nat

    ghost function Abs(): State
      reads this
    {
      State(retransmits, running, phase, isOpen, outSeq, inSeq, loggedOnOnce, pending, resendRequested,
            epoch, delivered, sent, since, lost, writes)
    }

    constructor (retransmits: bool, link: Link)
      ensures this.link == link && Abs() == Fresh(retransmits)
    {
      this.retransmits, this.link := retransmits, link;
      running, phase, isOpen := false, Disconnected, false;
      outSeq, inSeq, loggedOnOnce := 1, 1, false;
      pending, resendRequested := map[], false;
      epoch, delivered, sent, since, lost, writes := 0, [], [], 0, {}, 0;
    }

    method SendMessage(body: OutBody) returns (failure: Option<Failure>)
      modifies this
      ensures Effect(Abs(), failure) == Send(old(Abs()), link, body)
    {
      if !isOpen {
        return Some(SendError);
      }
      var outcome := link(writes);
      writes := writes + 1;
      if outcome == Unavailable {
        return Some(SendError);
      }
      var num := outSeq;
      outSeq := outSeq + 1;
      if outcome == Failed {
        lost := lost + {num};
        return Some(SendError);
      }
      sent := sent + [Outbound(num, body)];
      return None;
    }

    method SendGapFillFrom(begin: int) returns (failure: Option<Failure>)
      modifies this
      ensures Effect(Abs(), failure) == SendGapFill(old(Abs()), link, begin)
    {
      if !isOpen {
        return None;
      }
      var outcome := link(writes);
      writes := writes + 1;
      if outcome == Unavailable {
        return None;
      }
      var newSeqNo := Max(outSeq, begin + 1);
      if outcome == Failed {
        return Some(SendError);
      }
      sent := sent + [Outbound(begin, GapFillOut(newSeqNo))];
      return None;
    }

    method AskResend() returns (failure: Option<Failure>)
      modifies this
      ensures Effect(Abs(), failure) == RequestResend(old(Abs()), link)
    {
      hide Send;
      if resendRequested {
        return None;
      }
      resendRequested := true;
      failure := SendMessage(ResendOut(inSeq));
    }

    method ProcessMessage(m: Inbound, num: int) returns (failure: Option<Failure>)
      modifies this
      ensures Effect(Abs(), failure) == Process(old(Abs()), link, m, num)
    {
      hide Send, SendGapFill;
      failure := None;
      match m.body
      case Heartbeat =>
      case TestRequest(id) =>
        if id == None {
          var _ := SendMessage(RejectOut(num));
        } else {
          failure := SendMessage(HeartbeatOut(id));
        }
      case ResendRequest(begin) =>
        if retransmits {
          if begin == None {
            var _ := SendMessage(RejectOut(num));
          } else {
            failure := SendGapFillFrom(begin.value);
          }
        }
      case Logout =>
        running, isOpen, phase := false, false, Closed;
      case Logon =>
      case Reject(wellFormed) =>
        if !wellFormed {
          var _ := SendMessage(RejectOut(num));
        }
      case SequenceReset(_) =>
        delivered := delivered + [Delivery(epoch, num)];
      case App =>
        delivered := delivered + [Delivery(epoch, num)];
    }

    method ApplyResetForward(newSeqNo: int)
      modifies this
      ensures Abs() == ApplyReset(old(Abs()), newSeqNo)
    {
      if newSeqNo > inSeq {
        inSeq := newSeqNo;
      }
      pending := map k | k in pending && k >= inSeq :: pending[k];
      if pending == map[] {
        resendRequested := false;
      }
    }

    method DrainPending() returns (failure: Option<Failure>)
      modifies this
      ensures Effect(Abs(), failure) == Drain(old(Abs()), link)
    {
      hide DrainOne;
      while inSeq in pending
        invariant Drain(old(Abs()), link) == Drain(Abs(), link)
        decreases |pending|
      {
        DrainOneShrinks(Abs(), link);
        failure := DrainNext();
        if failure != None {
          return;
        }
      }
      if pending == map[] {
        resendRequested := false;
      }
      return None;
    }

    method DrainNext() returns (failure: Option<Failure>)
      requires inSeq in pending
      modifies this
      ensures Effect(Abs(), failure) == DrainOne(old(Abs()), link)
    {
      hide Process, ApplyReset;
      var m := pending[inSeq];
      pending := Without(pending, inSeq);
      if m.body.SequenceReset? {
        if m.body.reset == None {
          inSeq := inSeq + 1;
          return None;
        }
        ApplyResetForward(m.body.reset.value.newSeqNo);
        return None;
      }
      var num := inSeq;
      ProcessKeeps(Abs(), link, m, num);
      failure := ProcessMessage(m, num);
      if failure != None {
        return;
      }
      inSeq := inSeq + 1;
    }

    method HandleSequenceReset(m: Inbound) returns (failure: Option<Failure>)
      requires m.body.SequenceReset?
      modifies this
      ensures Effect(Abs(), failure) == HandleReset(old(Abs()), link, m)
    {
      hide Drain, ApplyReset, RequestResend;
      if m.body.reset == None {
        return None;
      }
      var r := m.body.reset.value;
      if m.num == Garbled {
        return Some(Unparsable);
      }
      if r.gapFill && m.num.Num? && m.num.n > inSeq {
        if retransmits {
          pending := pending[m.num.n := m];
          failure := AskResend();
          return;
        }
        return Some(SequenceError);
      }
      ApplyResetForward(r.newSeqNo);
      failure := DrainPending();
    }

    method HandleInbound(m: Inbound) returns (failure: Option<Failure>)
      modifies this
      ensures Effect(Abs(), failure) == Handle(old(Abs()), link, m)
    {
      hide Drain, Process, RequestResend, HandleReset;
      if m.body.SequenceReset? {
        failure := HandleSequenceReset(m);
        return;
      }
      if m.num == Garbled {
        return Some(Unparsable);
      }
      if m.num == Missing {
        return None;
      }
      var n := m.num.n;
      if n == inSeq {
        ProcessKeeps(Abs(), link, m, n);
        failure := ProcessMessage(m, n);
        if failure != None {
          return;
        }
        inSeq := inSeq + 1;
        failure := DrainPending();
      } else if n < inSeq {
        return if m.possDup then None else Some(SequenceError);
      } else {
        pending := pending[n := m];
        if retransmits {
          failure := AskResend();
        } else {
          return Some(SequenceError);
        }
      }
    }

    method StartWith(a: Attempt)
      modifies this
      ensures Abs() == Start(old(Abs()), link, a)
    {
      hide OpenAndLogon;
      if running {
        return;
      }
      running := true;
      var failure := ConnectAndLogon(a);
      if failure != None {
        running, isOpen, phase := false, false, Closed;
      }
    }

    method Close()
      modifies this
      ensures Abs() == Step(old(Abs()), link, CloseCalled)
    {
      hide Send;
      SendWhileStopping(Abs(), link, LogoutOut);
      running := false;
      if phase == Active {
        var _ := SendMessage(LogoutOut);
      }
      running, isOpen, phase := false, false, Closed;
    }

    method ConnectAndLogon(a: Attempt) returns (failure: Option<Failure>)
      modifies this
      ensures Effect(Abs(), failure) == OpenAndLogon(old(Abs()), link, a)
    {
      hide Send, AcceptLogon, Renumber;
      if !a.connects {
        phase, isOpen := Connecting, false;
        return Some(SendError);
      }
      var resets := !retransmits || !loggedOnOnce;
      RenumberIfDue(resets);
      phase, isOpen := LoggingOn, true;
      failure := SendMessage(LogonOut(resets));
      if failure != None {
        return;
      }
      if a.reply == None {
        return Some(LogonError);
      }
      failure := ReadLogonReply(a.reply.value);
    }

    /** The reset policy. */
    method RenumberIfDue(resets: bool)
      requires resets == Resets(Abs())
      modifies this
      ensures Abs() == Renumber(old(Abs()))
    {
      if resets {
        outSeq, inSeq, pending, resendRequested := 1, 1, map[], false;
        epoch, since, lost := epoch + 1, |sent|, {};
      }
    }

    method ReadLogonReply(m: Inbound) returns (failure: Option<Failure>)
      modifies this
      ensures Effect(Abs(), failure) == AcceptLogon(old(Abs()), link, m)
    {
      hide RequestResend;
      if !m.body.Logon? {
        return Some(LogonError);
      }
      if m.num == Garbled {
        return Some(Unparsable);
      }
      var n := if m.num.Num? then m.num.n else inSeq;
      if n < inSeq || (n > inSeq && !retransmits) {
        return Some(LogonError);
      }
      var needResend := n > inSeq;
      if needResend {
        pending := pending[n := m];
      } else {
        inSeq := n + 1;
      }
      loggedOnOnce, phase := true, Active;
      if needResend {
        failure := AskResend();
      } else {
        return None;
      }
    }

    method ReconnectWith(attempts: seq<Attempt>) returns (ok: bool)
      modifies this
      ensures (Abs(), ok) == Reconnect(old(Abs()), link, attempts)
    {
      hide OpenAndLogon;
      isOpen, phase := false, Reconnecting;
      var i := 0;
      while i < |attempts|
        invariant 0 <= i <= |attempts|
        invariant Reconnect(old(Abs()), link, attempts) == TryAttempts(Abs(), link, attempts[i..])
      {
        assert attempts[i..][1..] == attempts[i + 1..];
        if !attempts[i].wanted {
          running := false;
          return false;
        }
        var failure := ConnectAndLogon(attempts[i]);
        if failure == None {
          return true;
        }
        i := i + 1;
      }
      phase := Closed;
      return false;
    }

    /** The receive loop's handling of one message. */
    method ReceiveMessage(m: Inbound, attempts: seq<Attempt>)
      modifies this
      ensures Abs() == Receive(old(Abs()), link, m, attempts)
    {
      hide Handle, Reconnect;
      if !running {
        return;
      }
      var failure := HandleInbound(m);
      if failure == Some(SequenceError) {
        running, isOpen, phase := false, false, Closed;
      } else if failure == Some(SendError) && running {
        var ok := ReconnectWith(attempts);
        if !ok {
          running := false;
        }
      }
    }
  }
}
