/**
 * The heartbeat task: sampled every half interval, it keeps the outbound side from falling
 * silent and drops the socket of a silent peer. Times are exact seconds; a sleep takes
 * exactly as long as asked and a turn of the loop takes no time.
 */
module Liveness {

  predicate HeartbeatDue(now: real, lastSend: real, interval: real) {
    now - lastSend >= interval
  }

  datatype Verdict = Fine | Probe | Dead

  function Judge(now: real, lastRecv: real, interval: real): Verdict {
    if now - lastRecv >= interval * 2.0 then Dead
    else if now - lastRecv >= interval then Probe
    else Fine
  }

  datatype Act = Beat(at: real) | Test(at: real) | Drop(at: real) | Other(at: real)

  /** `acts` logs what went out and when the socket was dropped. */
  datatype Pulse = Pulse(lastSend: real, lastRecv: real, outstanding: bool, isOpen: bool, acts: seq<Act>)

  /** A write on an open connection; on a closed one it raises, and `None` stands for that. */
  function Out(p: Pulse, act: Act): Pulse {
    p.(lastSend := act.at, acts := p.acts + [act])
  }

  /** The part of a sample after the idle heartbeat. */
  function CheckPeer(p: Pulse, now: real, interval: real): Pulse {
    match Judge(now, p.lastRecv, interval)
    case Fine => p
    case Dead => if p.isOpen then p.(isOpen := false, acts := p.acts + [Drop(now)]) else p
    case Probe =>
      if p.outstanding then p
      else if p.isOpen then Out(p.(outstanding := true), Test(now))
      else p.(outstanding := true)
  }

  /** One turn of the loop. */
  function Sample(p: Pulse, now: real, interval: real): Pulse {
    if HeartbeatDue(now, p.lastSend, interval) then
      if p.isOpen then CheckPeer(Out(p, Beat(now)), now, interval) else p
    else CheckPeer(p, now, interval)
  }

  function Samples(p: Pulse, times: seq<real>, interval: real): Pulse {
    if times == [] then p
    else Sample(Samples(p, times[..|times| - 1], interval), times[|times| - 1], interval)
  }

  /** The task's fields, and its loop over the times at which its sleeps end. */
  class HeartbeatTask {
    const interval: real
    var lastSend: real
    var lastRecv: real
    var outstanding: bool
    var isOpen: bool
    ghost var acts: seq<Act>

    ghost function Abs(): Pulse
      reads this
    {
      Pulse(lastSend, lastRecv, outstanding, isOpen, acts)
    }

    constructor (interval: real, now: real)
      ensures this.interval == interval && Abs() == Pulse(now, now, false, true, [])
    {
      this.interval, lastSend, lastRecv := interval, now, now;
      outstanding, isOpen, acts := false, true, [];
    }

    method WriteMessage(act: Act) returns (ok: bool)
      modifies this`lastSend, this`acts
      ensures ok == isOpen
      ensures Abs() == if ok then Out(old(Abs()), act) else old(Abs())
    {
      if !isOpen {
        return false;
      }
      lastSend := act.at;
      acts := acts + [act];
      return true;
    }

    method TakeSample(now: real)
      modifies this
      ensures Abs() == Sample(old(Abs()), now, interval)
    {
      if HeartbeatDue(now, lastSend, interval) {
        var ok := WriteMessage(Beat(now));
        if !ok {
          return;
        }
      }
      var verdict := Judge(now, lastRecv, interval);
      if verdict == Dead {
        if isOpen {
          acts := acts + [Drop(now)];
        }
        isOpen := false;
      } else if verdict == Probe && !outstanding {
        outstanding := true;
        var _ := WriteMessage(Test(now));
      }
    }

    method Watch(times: seq<real>)
      modifies this
      ensures Abs() == Samples(old(Abs()), times, interval)
    {
      var i := 0;
      while i < |times|
        invariant 0 <= i <= |times|
        invariant Abs() == Samples(old(Abs()), times[..i], interval)
      {
        assert times[..i + 1][..i] == times[..i];
        TakeSample(times[i]);
        i := i + 1;
      }
      assert times[..|times|] == times;
    }
  }

  // ---------------------------------------------------------------- a silent peer

  /** When the k-th sample is taken, the first one `d` after the peer was last heard at `t`. */
  function At(t: real, d: real, h: real, k: nat): real {
    if k == 0 then t + d else At(t, d, h, k - 1) + h / 2.0
  }

  function Tests(acts: seq<Act>): seq<Act> {
    if acts == [] then []
    else Tests(acts[..|acts| - 1]) + (if acts[|acts| - 1].Test? then [acts[|acts| - 1]] else [])
  }

  function Drops(acts: seq<Act>): seq<Act> {
    if acts == [] then []
    else Drops(acts[..|acts| - 1]) + (if acts[|acts| - 1].Drop? then [acts[|acts| - 1]] else [])
  }

  /** The first sample, counting from 0, that finds a whole interval of silence. */
  function FirstProbe(d: real, h: real): nat { if d >= h / 2.0 then 1 else 2 }

  lemma {:induction false} LogOne(acts: seq<Act>, a: Act)
    ensures Tests(acts + [a]) == Tests(acts) + (if a.Test? then [a] else [])
    ensures Drops(acts + [a]) == Drops(acts) + (if a.Drop? then [a] else [])
  {
    assert (acts + [a])[..|acts|] == acts;
  }

  /** What one sample adds to the log, by what it finds. */
  lemma SampleEffect(p: Pulse, now: real, h: real)
    requires h > 0.0 && p.isOpen
    ensures var q, v := Sample(p, now, h), Judge(now, p.lastRecv, h);
      && q.lastRecv == p.lastRecv
      && q.isOpen == !v.Dead?
      && q.outstanding == (p.outstanding || v.Probe?)
      && Tests(q.acts) == Tests(p.acts) + (if v.Probe? && !p.outstanding then [Test(now)] else [])
      && Drops(q.acts) == Drops(p.acts) + (if v.Dead? then [Drop(now)] else [])
      && now - q.lastSend < h
  {
    var r := if HeartbeatDue(now, p.lastSend, h) then Out(p, Beat(now)) else p;
    LogOne(p.acts, Beat(now));
    LogOne(r.acts, Test(now));
    LogOne(r.acts, Drop(now));
    hide Tests, Drops;
  }

  lemma SampleClosed(p: Pulse, now: real, h: real)
    requires !p.isOpen
    ensures var q := Sample(p, now, h); q.acts == p.acts && !q.isOpen && q.lastRecv == p.lastRecv
  {
  }

  /**
   * Where things stand after `n` samples of a silence when sample `first` is the one to
   * probe: beside what was logged before, the one test request so far, if any, and the drop,
   * if any.
   */
  predicate OnTimeline(before: seq<Act>, q: Pulse, n: nat, first: nat, probed: real, dropped: real) {
    && Tests(q.acts) == Tests(before) + (if n > first then [Test(probed)] else [])
    && Drops(q.acts) == Drops(before) + (if n > first + 2 then [Drop(dropped)] else [])
    && q.isOpen == (n <= first + 2)
    && (q.isOpen ==> q.outstanding == (n > first))
  }

  lemma TimelineStep(before: seq<Act>, q: Pulse, now: real, h: real, n: nat, first: nat, probed: real, dropped: real)
    requires h > 0.0 && OnTimeline(before, q, n, first, probed, dropped)
    requires now - q.lastRecv >= h <==> n >= first
    requires now - q.lastRecv >= 2.0 * h <==> n >= first + 2
    requires (n == first ==> now == probed) && (n == first + 2 ==> now == dropped)
    ensures OnTimeline(before, Sample(q, now, h), n + 1, first, probed, dropped)
    ensures Sample(q, now, h).lastRecv == q.lastRecv
  {
    if q.isOpen {
      SampleEffect(q, now, h);
    } else {
      SampleClosed(q, now, h);
    }
    hide Sample, Tests, Drops;
  }

  /** A send in between changes none of this. */
  lemma SendKeepsTimeline(before: seq<Act>, q: Pulse, at: real, h: real, n: nat, first: nat, probed: real, dropped: real)
    requires OnTimeline(before, q, n, first, probed, dropped)
    ensures OnTimeline(before, Live(q, Sends(at), h), n, first, probed, dropped)
    ensures Live(q, Sends(at), h).lastRecv == q.lastRecv
  {
    LogOne(q.acts, Other(at));
    hide Tests, Drops;
  }

  function Ticks(moments: seq<Moment>): nat {
    if moments == [] then 0 else Ticks(moments[..|moments| - 1]) + (if moments[|moments| - 1].Tick? then 1 else 0)
  }

  /** Nothing is received, and the samples are taken at their times; sends are free. */
  predicate PeerSilent(moments: seq<Moment>, t: real, d: real, h: real) {
    moments == [] ||
    var front, m := moments[..|moments| - 1], moments[|moments| - 1];
    PeerSilent(front, t, d, h) && !m.Receives? && (m.Tick? ==> m.at == At(t, d, h, Ticks(front)))
  }

  /**
   * The timeline of a silent peer, whatever else we send it. Exactly one test request goes
   * out, after a silence of at least one interval and less than one and a half; the socket
   * is then dropped, after at least two and less than two and a half.
   */
  lemma {:induction false} SilentPeer(p: Pulse, d: real, h: real, moments: seq<Moment>)
    requires h > 0.0 && 0.0 < d <= h / 2.0
    requires p.isOpen && !p.outstanding
    requires PeerSilent(moments, p.lastRecv, d, h)
    ensures var first := FirstProbe(d, h);
      var probed, dropped := At(p.lastRecv, d, h, first), At(p.lastRecv, d, h, first + 2);
      && h <= probed - p.lastRecv < 1.5 * h && 2.0 * h <= dropped - p.lastRecv < 2.5 * h
      && OnTimeline(p.acts, LiveAll(p, moments, h), Ticks(moments), first, probed, dropped)
      && LiveAll(p, moments, h).lastRecv == p.lastRecv
    decreases |moments|
  {
    ProbeAndDrop(p.lastRecv, d, h);
    if moments != [] {
      hide Sample, OnTimeline, At, FirstProbe;
      var front, m := moments[..|moments| - 1], moments[|moments| - 1];
      var first := FirstProbe(d, h);
      var probed, dropped := At(p.lastRecv, d, h, first), At(p.lastRecv, d, h, first + 2);
      SilentPeer(p, d, h, front);
      var q, n := LiveAll(p, front, h), Ticks(front);
      if m.Tick? {
        SilenceAt(p.lastRecv, d, h, n);
        TimelineStep(p.acts, q, m.at, h, n, first, probed, dropped);
      } else {
        SendKeepsTimeline(p.acts, q, m.at, h, n, first, probed, dropped);
      }
    }
  }

  /** So it is after every receipt, whatever has gone before: each silence is probed anew. */
  lemma {:induction false} SilentAgain(p: Pulse, history: seq<Moment>, heard: real, d: real, h: real, moments: seq<Moment>)
    requires h > 0.0 && 0.0 < d <= h / 2.0
    requires LiveAll(p, history, h).isOpen && PeerSilent(moments, heard, d, h)
    ensures var q := Live(LiveAll(p, history, h), Receives(heard), h); var first := FirstProbe(d, h);
      OnTimeline(q.acts, LiveAll(q, moments, h), Ticks(moments), first, At(heard, d, h, first), At(heard, d, h, first + 2))
  {
    SilentPeer(Live(LiveAll(p, history, h), Receives(heard), h), d, h, moments);
    hide OnTimeline, At;
  }

  /** All that a sample does on an open socket, by the times alone. */
  lemma SampleActs(p: Pulse, now: real, h: real)
    requires h > 0.0 && p.isOpen
    ensures Sample(p, now, h).acts ==
      p.acts + (if now - p.lastSend >= h then [Beat(now)] else [])
      + (if now - p.lastRecv >= 2.0 * h then [Drop(now)]
         else if now - p.lastRecv >= h && !p.outstanding then [Test(now)]
         else [])
  {
  }

  lemma {:induction false} FirstFive(t: real, d: real, h: real)
    ensures At(t, d, h, 0) == t + d && At(t, d, h, 1) == t + d + h / 2.0 && At(t, d, h, 2) == t + d + h
    ensures At(t, d, h, 3) == t + d + h + h / 2.0 && At(t, d, h, 4) == t + d + 2.0 * h
  {
    assert At(t, d, h, 2) == At(t, d, h, 1) + h / 2.0;
    assert At(t, d, h, 3) == At(t, d, h, 2) + h / 2.0;
    assert At(t, d, h, 4) == At(t, d, h, 3) + h / 2.0;
  }

  lemma {:induction false} LaterAt(t: real, d: real, h: real, j: nat, k: nat)
    requires h > 0.0 && j <= k
    ensures At(t, d, h, j) <= At(t, d, h, k)
    decreases k
  {
    if j < k {
      LaterAt(t, d, h, j, k - 1);
    }
  }

  lemma {:induction false} ProbeAndDrop(t: real, d: real, h: real)
    requires h > 0.0 && 0.0 < d <= h / 2.0
    ensures h <= At(t, d, h, FirstProbe(d, h)) - t < 1.5 * h
    ensures 2.0 * h <= At(t, d, h, FirstProbe(d, h) + 2) - t < 2.5 * h
  {
    hide At;
    FirstFive(t, d, h);
  }

  /** The verdict of the k-th sample of a silent peer. */
  lemma {:induction false} SilenceAt(t: real, d: real, h: real, k: nat)
    requires h > 0.0 && 0.0 < d <= h / 2.0
    ensures var silence, first := At(t, d, h, k) - t, FirstProbe(d, h);
      (silence >= h <==> k >= first) && (silence >= 2.0 * h <==> k >= first + 2)
  {
    hide At;
    FirstFive(t, d, h);
    if k >= 4 {
      LaterAt(t, d, h, 4, k);
    } else {
      assert k in {0, 1, 2, 3};
    }
  }

  // ---------------------------------------------------------------- our own silence

  /** What can happen between the peer and us: samples, other sends, and messages received. */
  datatype Moment = Tick(at: real) | Sends(at: real) | Receives(at: real)

  function Live(p: Pulse, m: Moment, h: real): Pulse {
    match m
    case Tick(at) => Sample(p, at, h)
    case Sends(at) => if p.isOpen then Out(p, Other(at)) else p
    case Receives(at) => p.(lastRecv := at, outstanding := false)
  }

  /** Times do not run backwards and a sample comes half an interval after the one before. */
  predicate OnTime(moments: seq<Moment>, start: real, tick: real, h: real)
    decreases |moments|
  {
    moments == [] ||
    var front, m := moments[..|moments| - 1], moments[|moments| - 1];
    && OnTime(front, start, tick, h)
    && m.at >= LastTime(front, start)
    && (if m.Tick? then m.at == LastTick(front, tick) + h / 2.0 else m.at <= LastTick(front, tick) + h / 2.0)
  }

  function LastTime(moments: seq<Moment>, start: real): real {
    if moments == [] then start else moments[|moments| - 1].at
  }

  function LastTick(moments: seq<Moment>, tick: real): real {
    if moments == [] then tick
    else if moments[|moments| - 1].Tick? then moments[|moments| - 1].at
    else LastTick(moments[..|moments| - 1], tick)
  }

  function LiveAll(p: Pulse, moments: seq<Moment>, h: real): Pulse {
    if moments == [] then p else Live(LiveAll(p, moments[..|moments| - 1], h), moments[|moments| - 1], h)
  }

  /**
   * While the socket is open we are never silent for one and a half intervals: at any time
   * up to the next sample the last message went out less than that ago, whatever is sent
   * and received in between.
   */
  lemma {:induction false} NeverSilent(p: Pulse, moments: seq<Moment>, start: real, tick: real, h: real)
    requires h > 0.0 && p.lastSend <= start <= tick + h / 2.0 && tick - p.lastSend < h
    requires tick <= start && OnTime(moments, start, tick, h)
    ensures var q, last := LiveAll(p, moments, h), LastTick(moments, tick);
      q.isOpen ==>
        && last - q.lastSend < h && q.lastSend <= LastTime(moments, start) <= last + h / 2.0
        && last + h / 2.0 - q.lastSend < 1.5 * h
    decreases |moments|
  {
    if moments != [] {
      var front, m := moments[..|moments| - 1], moments[|moments| - 1];
      NeverSilent(p, front, start, tick, h);
      var before := LiveAll(p, front, h);
      if before.isOpen && m.Tick? {
        SampleEffect(before, m.at, h);
        SampleSendsNow(before, m.at, h);
      }
      hide Sample;
      StaysClosed(before, m, h);
    }
  }

  lemma SampleSendsNow(p: Pulse, now: real, h: real)
    ensures var q := Sample(p, now, h); q.lastSend == p.lastSend || q.lastSend == now
  {
  }

  lemma StaysClosed(p: Pulse, m: Moment, h: real)
    ensures !p.isOpen ==> !Live(p, m, h).isOpen
  {
  }
}
