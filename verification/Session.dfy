/**
 * One FIX session: sequence numbers in both directions, the out-of-order buffer, gap
 * recovery, logon and reconnect. Each step is a function on the session's state; the
 * class in FixSession.dfy performs the same steps in place.
 */
module Session {
  import opened Wrappers

  // ---------------------------------------------------------------- messages

  datatype Reset = Reset(gapFill: bool, newSeqNo: int)

  /** What the session reads of an inbound message; `None` stands for a field it cannot parse. */
  datatype Body =
    | Heartbeat
    | TestRequest(id: Option<string>)
    | ResendRequest(begin: Option<int>)
    | SequenceReset(reset: Option<Reset>)
    | Logout
    | Logon
    | Reject(wellFormed: bool)
    | App

  datatype SeqField = Missing | Garbled | Num(n: int)

  datatype Inbound = Inbound(body: Body, num: SeqField, possDup: bool)

  datatype OutBody =
    | LogonOut(reset: bool)
    | LogoutOut
    | HeartbeatOut(echo: Option<string>)
    | TestRequestOut
    | ResendOut(begin: int)
    | RejectOut(ref: int)
    | GapFillOut(newSeqNo: int)
    | AppOut

  datatype Outbound = Outbound(num: int, body: OutBody)

  /** A number given to `on_message`, with the numbering it belongs to. */
  datatype Delivery = Delivery(epoch: nat, num: int)

  // ---------------------------------------------------------------- state

  datatype Phase = Disconnected | Connecting | LoggingOn | Active | Reconnecting | Closed

  /**
   * `epoch` counts the times numbering has been reset. `delivered` and `sent` are logs of
   * what was handed to the application and written to the socket, and `since` is where in
   * `sent` the present epoch begins; `lost` holds the numbers that writes have taken in it
   * and then failed; `writes` counts the attempts to write, so that the
   * outcome of each can be looked up.
   */
  datatype State = State(
    retransmits: bool,
    running: bool,
    phase: Phase,
    isOpen: bool,
    outSeq: int,
    inSeq: int,
    loggedOnOnce: bool,
    pending: map<int, Inbound>,
    resendRequested: bool,
    epoch: nat,
    delivered: seq<Delivery>,
    sent: seq<Outbound>,
    since: nat,
    lost: set<int>,
    writes: nat)

  /** What became of a write: done, failed after its number was taken, or refused beforehand. */
  datatype WriteOutcome = Written | Failed | Unavailable

  type Link = nat -> WriteOutcome

  datatype Failure = SequenceError | SendError | Unparsable | LogonError

  datatype Effect = Effect(state: State, failure: Option<Failure>)

  // ---------------------------------------------------------------- sending

  function Send(s: State, link: Link, body: OutBody): Effect {
    if !s.isOpen then Effect(s, Some(SendError))
    else
      var t := s.(writes := s.writes + 1);
      match link(s.writes)
      case Unavailable => Effect(t, Some(SendError))
      case Failed => Effect(t.(outSeq := s.outSeq + 1, lost := s.lost + {s.outSeq}), Some(SendError))
      case Written => Effect(t.(outSeq := s.outSeq + 1, sent := s.sent + [Outbound(s.outSeq, body)]), None)
  }

  function Max(a: int, b: int): int { if a >= b then a else b }

  /** The gap-fill goes out under the number asked for and takes none of its own. */
  function SendGapFill(s: State, link: Link, begin: int): Effect {
    if !s.isOpen then Effect(s, None)
    else
      var t := s.(writes := s.writes + 1);
      match link(s.writes)
      case Unavailable => Effect(t, None)
      case Failed => Effect(t, Some(SendError))
      case Written => Effect(t.(sent := s.sent + [Outbound(begin, GapFillOut(Max(s.outSeq, begin + 1)))]), None)
  }

  function RequestResend(s: State, link: Link): Effect {
    if s.resendRequested then Effect(s, None)
    else Send(s.(resendRequested := true), link, ResendOut(s.inSeq))
  }

  /** A Reject whose own failure to go out is ignored. */
  function SendReject(s: State, link: Link, num: int): Effect {
    Effect(Send(s, link, RejectOut(num)).state, None)
  }

  // ---------------------------------------------------------------- processing in order

  function Process(s: State, link: Link, m: Inbound, num: int): Effect {
    match m.body
    case Heartbeat => Effect(s, None)
    case TestRequest(id) =>
      if id.None? then SendReject(s, link, num) else Send(s, link, HeartbeatOut(id))
    case ResendRequest(begin) =>
      if !s.retransmits then Effect(s, None)
      else if begin.None? then SendReject(s, link, num)
      else SendGapFill(s, link, begin.value)
    case Logout => Effect(s.(running := false, isOpen := false, phase := Closed), None)
    case Logon => Effect(s, None)
    case Reject(wellFormed) => if wellFormed then Effect(s, None) else SendReject(s, link, num)
    case SequenceReset(_) => Effect(Deliver(s, num), None)
    case App => Effect(Deliver(s, num), None)
  }

  function Deliver(s: State, num: int): State {
    s.(delivered := s.delivered + [Delivery(s.epoch, num)])
  }

  function ApplyReset(s: State, newSeqNo: int): State {
    var inSeq := Max(s.inSeq, newSeqNo);
    var kept := map k | k in s.pending && k >= inSeq :: s.pending[k];
    s.(inSeq := inSeq, pending := kept, resendRequested := s.resendRequested && kept != map[])
  }

  function Without(pending: map<int, Inbound>, k: int): (r: map<int, Inbound>)
    ensures k in pending ==> |r| < |pending|
  {
    assert k in pending ==> |pending.Keys - {k}| < |pending.Keys|;
    var r := pending - {k};
    assert r.Keys == pending.Keys - {k};
    r
  }

  /** One turn of the drain loop, for the buffered message that is next in order. */
  function DrainOne(s: State, link: Link): Effect
    requires s.inSeq in s.pending
  {
    var m := s.pending[s.inSeq];
    var t := s.(pending := Without(s.pending, s.inSeq));
    match m.body
    case SequenceReset(None) => Effect(t.(inSeq := s.inSeq + 1), None)
    case SequenceReset(Some(r)) => Effect(ApplyReset(t, r.newSeqNo), None)
    case _ =>
      var e := Process(t, link, m, s.inSeq);
      if e.failure.Some? then e else Effect(e.state.(inSeq := s.inSeq + 1), None)
  }

  /** The parts of the state that belong to receiving, and the configuration. */
  predicate SameInbound(s: State, t: State) {
    && t.pending == s.pending && t.inSeq == s.inSeq && t.resendRequested == s.resendRequested
    && t.retransmits == s.retransmits && t.epoch == s.epoch && t.loggedOnOnce == s.loggedOnOnce
  }

  lemma SendKeeps(s: State, link: Link, body: OutBody)
    ensures SameInbound(s, Send(s, link, body).state) && Send(s, link, body).state.delivered == s.delivered
  {
  }

  lemma SendGapFillKeeps(s: State, link: Link, begin: int)
    ensures SameInbound(s, SendGapFill(s, link, begin).state)
    ensures SendGapFill(s, link, begin).state.delivered == s.delivered
  {
  }

  /** Processing a message touches neither the numbering nor the buffer. */
  lemma ProcessKeeps(s: State, link: Link, m: Inbound, num: int)
    ensures SameInbound(s, Process(s, link, m, num).state)
  {
    hide Send, SendGapFill;
    match m.body
    case TestRequest(id) => SendKeeps(s, link, RejectOut(num)); SendKeeps(s, link, HeartbeatOut(id));
    case ResendRequest(begin) =>
      SendKeeps(s, link, RejectOut(num));
      if begin.Some? {
        SendGapFillKeeps(s, link, begin.value);
      }
    case Reject(_) => SendKeeps(s, link, RejectOut(num));
    case _ =>
  }

  lemma ApplyResetFewer(s: State, newSeqNo: int)
    ensures |ApplyReset(s, newSeqNo).pending| <= |s.pending|
  {
    var kept := ApplyReset(s, newSeqNo).pending;
    assert kept.Keys <= s.pending.Keys;
    FewerKeys(kept, s.pending);
  }

  lemma DrainOneShrinks(s: State, link: Link)
    requires s.inSeq in s.pending
    ensures |DrainOne(s, link).state.pending| < |s.pending|
  {
    hide ApplyReset, Process;
    var t := s.(pending := Without(s.pending, s.inSeq));
    match s.pending[s.inSeq].body {
      case SequenceReset(Some(r)) => ApplyResetFewer(t, r.newSeqNo);
      case _ => ProcessKeeps(t, link, s.pending[s.inSeq], s.inSeq);
    }
  }

  lemma FewerKeys(a: map<int, Inbound>, b: map<int, Inbound>)
    requires a.Keys <= b.Keys
    ensures |a| <= |b|
  {
    assert b.Keys == a.Keys + (b.Keys - a.Keys);
  }

  function Drain(s: State, link: Link): Effect
    decreases |s.pending|
  {
    if s.inSeq in s.pending then
      DrainOneShrinks(s, link);
      var e := DrainOne(s, link);
      if e.failure.Some? then e else Drain(e.state, link)
    else
      Effect(s.(resendRequested := s.resendRequested && s.pending != map[]), None)
  }

  // ---------------------------------------------------------------- inbound

  function HandleReset(s: State, link: Link, m: Inbound): Effect
    requires m.body.SequenceReset?
  {
    match m.body.reset
    case None => Effect(s, None)
    case Some(r) =>
      if m.num.Garbled? then Effect(s, Some(Unparsable))
      else if r.gapFill && m.num.Num? && m.num.n > s.inSeq then
        if s.retransmits then RequestResend(s.(pending := s.pending[m.num.n := m]), link)
        else Effect(s, Some(SequenceError))
      else Drain(ApplyReset(s, r.newSeqNo), link)
  }

  function Handle(s: State, link: Link, m: Inbound): Effect {
    if m.body.SequenceReset? then HandleReset(s, link, m)
    else match m.num
      case Garbled => Effect(s, Some(Unparsable))
      case Missing => Effect(s, None)
      case Num(n) =>
        if n == s.inSeq then
          var e := Process(s, link, m, n);
          if e.failure.Some? then e else Drain(e.state.(inSeq := s.inSeq + 1), link)
        else if n < s.inSeq then
          if m.possDup then Effect(s, None) else Effect(s, Some(SequenceError))
        else
          var t := s.(pending := s.pending[n := m]);
          if s.retransmits then RequestResend(t, link) else Effect(t, Some(SequenceError))
  }

  // ---------------------------------------------------------------- logon and reconnect

  /** How one attempt to connect goes: whether the session is still wanted, whether the socket
      opens, and what the first read returns (`None`: nothing, or nothing readable). */
  datatype Attempt = Attempt(wanted: bool, connects: bool, reply: Option<Inbound>)

  predicate Resets(s: State) { !s.retransmits || !s.loggedOnOnce }

  function Renumber(s: State): State {
    if Resets(s) then
      s.(outSeq := 1, inSeq := 1, pending := map[], resendRequested := false, epoch := s.epoch + 1, since := |s.sent|, lost := {})
    else s
  }

  function LoggedOn(s: State): State {
    s.(loggedOnOnce := true, phase := Active)
  }

  function OpenAndLogon(s: State, link: Link, a: Attempt): Effect {
    if !a.connects then Effect(s.(phase := Connecting, isOpen := false), Some(SendError))
    else
      var t := Renumber(s).(phase := LoggingOn, isOpen := true);
      var e := Send(t, link, LogonOut(Resets(s)));
      if e.failure.Some? then e
      else if a.reply.None? then Effect(e.state, Some(LogonError))
      else AcceptLogon(e.state, link, a.reply.value)
  }

  function AcceptLogon(s: State, link: Link, m: Inbound): Effect {
    if !m.body.Logon? then Effect(s, Some(LogonError))
    else if m.num.Garbled? then Effect(s, Some(Unparsable))
    else
      var n := if m.num.Num? then m.num.n else s.inSeq;
      if n == s.inSeq then Effect(LoggedOn(s.(inSeq := n + 1)), None)
      else if n < s.inSeq || !s.retransmits then Effect(s, Some(LogonError))
      else RequestResend(LoggedOn(s.(pending := s.pending[n := m])), link)
  }

  /** The attempts are tried in turn; there are as many as the configuration allows retries. */
  function TryAttempts(s: State, link: Link, attempts: seq<Attempt>): (r: (State, bool))
    decreases |attempts|
  {
    if attempts == [] then (s.(phase := Closed), false)
    else if !attempts[0].wanted then (s.(running := false), false)
    else
      var e := OpenAndLogon(s, link, attempts[0]);
      if e.failure.None? then (e.state, true) else TryAttempts(e.state, link, attempts[1..])
  }

  function Reconnect(s: State, link: Link, attempts: seq<Attempt>): (State, bool) {
    TryAttempts(s.(isOpen := false, phase := Reconnecting), link, attempts)
  }

  // ---------------------------------------------------------------- whole runs

  /** `start`, also of a session that was closed before; a failed logon leaves it closed. */
  function Start(s: State, link: Link, a: Attempt): State {
    if s.running then s
    else
      var e := OpenAndLogon(s.(running := true), link, a);
      if e.failure.None? then e.state else Shut(e.state)
  }

  function Shut(s: State): State {
    s.(running := false, isOpen := false, phase := Closed)
  }

  /** What can happen to a session, in any order. */
  datatype Event =
    | Started(attempt: Attempt)
    | Arrives(message: Inbound, attempts: seq<Attempt>) // the attempts serve if a reply fails
    | BadFrame
    | LinkLost(attempts: seq<Attempt>)
    | SendsApp
    | SendsHeartbeat
    | SendsTestRequest
    | SocketDropped // by the heartbeat task, for a silent peer
    | CloseCalled

  function Recover(s: State, link: Link, attempts: seq<Attempt>): State {
    if !s.running then s
    else
      var r := Reconnect(s, link, attempts);
      if r.1 then r.0 else r.0.(running := false)
  }

  /** The receive loop's answer to a message: carry on, give up, or reconnect. */
  function Receive(s: State, link: Link, m: Inbound, attempts: seq<Attempt>): State {
    if !s.running then s
    else
      var e := Handle(s, link, m);
      if e.failure == Some(SequenceError) then Shut(e.state)
      else if e.failure == Some(SendError) then Recover(e.state, link, attempts)
      else e.state
  }

  function Step(s: State, link: Link, ev: Event): State {
    match ev
    case Started(a) => Start(s, link, a)
    case Arrives(m, attempts) => Receive(s, link, m, attempts)
    case BadFrame => s
    case LinkLost(attempts) => Recover(s, link, attempts)
    case SendsApp => Send(s, link, AppOut).state
    case SendsHeartbeat => Send(s, link, HeartbeatOut(None)).state
    case SendsTestRequest => Send(s, link, TestRequestOut).state
    case SocketDropped => s.(isOpen := false)
    case CloseCalled => Shut(if s.phase == Active then Send(s, link, LogoutOut).state else s)
  }

  function Run(s: State, link: Link, events: seq<Event>): State {
    if events == [] then s else Step(Run(s, link, events[..|events| - 1]), link, events[|events| - 1])
  }

  /** A session as it is built. */
  function Fresh(retransmits: bool): State {
    State(retransmits, false, Disconnected, false, 1, 1, false, map[], false, 0, [], [], 0, {}, 0)
  }
}
