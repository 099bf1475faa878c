/**
 * The REST request loop: which outcomes are retried, for which verbs, and within what time.
 * The clock starts at 0 when the request does; a sleep takes exactly as long as asked.
 */
module Transport {
  import opened Backoff
  import opened Wrappers

  /** How one attempt on the wire ends. */
  datatype Reply =
    | Response(status: int, retryAfter: Option<real>) // the header's seconds, if it can be read
    | PoolTimeout
    | Timeout
    | ConnectError
    | OtherTransportError
    | OtherHttpError
    | Uncaught

  /** An attempt: its reply, how long it takes, and the draw for a sleep after it. */
  datatype Attempt = Attempt(reply: Reply, took: nonneg, draw: fraction)

  datatype Config = Config(maxRetries: int, window: Window, totalTimeout: Option<real>)

  datatype Outcome =
    | Returned(status: int)
    | PoolExhausted
    | TimedOut
    | NetworkFailed
    | HttpFailed
    | StatusError(status: int)
    | Propagated
    | FellThrough // past the end of the loop

  /** One attempt as it happened; `slept` is the sleep after it, `wakes` when that sleep ends. */
  datatype Made = Made(reply: Reply, slept: Option<real>, wakes: real)

  predicate Retryable(verb: string) { verb in {"GET", "HEAD", "OPTIONS"} }

  predicate RetryableStatus(status: int) {
    status in {408, 425, 429, 500, 502, 503, 504, 520, 521, 522, 523, 524}
  }

  predicate Success(status: int) { 200 <= status < 300 }

  /** The hint an error object carries: only some statuses look at the header, and it is clamped at 0. */
  function Hint(status: int, retryAfter: Option<real>): Option<real> {
    if (status in {408, 429, 504} || status >= 500) && retryAfter.Some? then
      Some(if retryAfter.value < 0.0 then 0.0 else retryAfter.value)
    else None
  }

  function HintOf(reply: Reply): Option<real> {
    if reply.Response? then Hint(reply.status, reply.retryAfter) else None
  }

  /** What the loop raises or returns when it stops on a reply. */
  function Ended(reply: Reply): Outcome {
    match reply
    case Response(status, _) => if Success(status) then Returned(status) else StatusError(status)
    case PoolTimeout => PoolExhausted
    case Timeout => TimedOut
    case ConnectError => NetworkFailed
    case OtherTransportError => NetworkFailed
    case OtherHttpError => HttpFailed
    case Uncaught => Propagated
  }

  /** Whether a reply may be tried again at all, budget and attempts permitting. */
  predicate MayRetry(verb: string, reply: Reply) {
    match reply
    case Response(status, _) => !Success(status) && RetryableStatus(status) && Retryable(verb)
    case PoolTimeout => true
    case Timeout => Retryable(verb)
    case ConnectError => true
    case OtherTransportError => Retryable(verb)
    case OtherHttpError => false
    case Uncaught => false
  }

  function Delay(cfg: Config, n: nat, a: Attempt): real {
    var drawn := Jittered(cfg.window, n, a.draw);
    match HintOf(a.reply)
    case None => drawn
    case Some(hint) => Min(Min(hint, cfg.window.cap) + drawn, cfg.window.cap)
  }

  predicate OverBudget(cfg: Config, now: real, delay: real) {
    cfg.totalTimeout.Some? && now + delay > cfg.totalTimeout.value
  }

  /** The server may have acted on an attempt that ended this way. */
  predicate MayHaveCommitted(reply: Reply) {
    !reply.PoolTimeout? && !reply.ConnectError?
  }

  /** When attempt `n` is over, if the sleeps before it were these. */
  function EndOf(made: seq<Made>, n: nat, attempts: nat -> Attempt): real {
    (if made == [] then 0.0 else made[|made| - 1].wakes) + attempts(n).took
  }

  /** An attempt that was followed by another one. */
  predicate WasRetried(verb: string, cfg: Config, made: seq<Made>, k: nat, attempts: nat -> Attempt)
    requires k < |made|
  {
    var a, now := attempts(k), EndOf(made[..k], k, attempts);
    && made[k] == Made(a.reply, Some(Delay(cfg, k, a)), now + Delay(cfg, k, a))
    && MayRetry(verb, a.reply) && k < cfg.maxRetries && !OverBudget(cfg, now, Delay(cfg, k, a))
  }

  /** The attempt the loop stopped on. */
  predicate WasLast(verb: string, cfg: Config, made: seq<Made>, attempts: nat -> Attempt)
    requires made != []
  {
    var k := |made| - 1;
    var a, now := attempts(k), EndOf(made[..k], k, attempts);
    && made[k] == Made(a.reply, None, now)
    && (!MayRetry(verb, a.reply) || k >= cfg.maxRetries || OverBudget(cfg, now, Delay(cfg, k, a)))
  }

  /**
   * What a whole request does: every attempt but the last was one to retry, with its own
   * delay and within budget; the last was not, and decides the outcome. Without a single
   * attempt, which takes a negative retry count, the code after the loop is reached.
   */
  predicate RunsAs(verb: string, cfg: Config, attempts: nat -> Attempt, made: seq<Made>, outcome: Outcome) {
    if cfg.maxRetries < 0 then made == [] && outcome == FellThrough
    else
      && 1 <= |made| <= cfg.maxRetries + 1
      && (forall k :: 0 <= k < |made| - 1 ==> WasRetried(verb, cfg, made, k, attempts))
      && WasLast(verb, cfg, made, attempts)
      && outcome == Ended(made[|made| - 1].reply)
  }

  method Request(verb: string, cfg: Config, attempts: nat -> Attempt) returns (outcome: Outcome, made: seq<Made>)
    ensures RunsAs(verb, cfg, attempts, made, outcome)
  {
    made := [];
    var n, now := 0, 0.0;
    while n < cfg.maxRetries + 1
      invariant 0 <= n == |made| && (cfg.maxRetries >= 0 ==> n <= cfg.maxRetries) && (cfg.maxRetries < 0 ==> n == 0)
      invariant now == if made == [] then 0.0 else made[|made| - 1].wakes
      invariant forall k :: 0 <= k < n ==> WasRetried(verb, cfg, made, k, attempts)
    {
      hide Delay, MayRetry, Ended, OverBudget;
      var a := attempts(n);
      now := now + a.took;
      ghost var before := made;
      var delay := Delay(cfg, n, a);
      var again := MayRetry(verb, a.reply) && n < cfg.maxRetries && !OverBudget(cfg, now, delay);
      made := made + [Made(a.reply, if again then Some(delay) else None, if again then now + delay else now)];
      assert made[..n] == before;
      forall k | 0 <= k < n
        ensures WasRetried(verb, cfg, made, k, attempts)
      {
        assert made[..k] == before[..k];
        assert WasRetried(verb, cfg, before, k, attempts);
      }
      if !again {
        return Ended(a.reply), made;
      }
      now := now + delay;
      n := n + 1;
    }
    return FellThrough, made;
  }

  // ---------------------------------------------------------------- what that means

  /**
   * At most one possible commit: for a verb that must not be repeated, only the last attempt
   * can have had an effect; all before it never reached the wire.
   */
  lemma OnlyLastMayCommit(verb: string, cfg: Config, attempts: nat -> Attempt, made: seq<Made>, outcome: Outcome)
    requires RunsAs(verb, cfg, attempts, made, outcome) && !Retryable(verb)
    ensures forall k :: 0 <= k < |made| - 1 ==> !MayHaveCommitted(made[k].reply)
  {
    forall k | 0 <= k < |made| - 1
      ensures !MayHaveCommitted(made[k].reply)
    {
      assert WasRetried(verb, cfg, made, k, attempts);
    }
  }

  /** The code after the loop is reached exactly when the retry count is negative. */
  lemma FallsThroughIff(verb: string, cfg: Config, attempts: nat -> Attempt, made: seq<Made>, outcome: Outcome)
    requires RunsAs(verb, cfg, attempts, made, outcome)
    ensures outcome == FellThrough <==> cfg.maxRetries < 0
  {
  }

  /** A success is returned as soon as it comes, and a returned status is a success. */
  lemma ReturnsIff(verb: string, cfg: Config, attempts: nat -> Attempt, made: seq<Made>, outcome: Outcome)
    requires RunsAs(verb, cfg, attempts, made, outcome)
    ensures outcome.Returned? <==> exists k :: 0 <= k < |made| && made[k].reply.Response? && Success(made[k].reply.status)
  {
    forall k | 0 <= k < |made| - 1
      ensures !(made[k].reply.Response? && Success(made[k].reply.status))
    {
      assert WasRetried(verb, cfg, made, k, attempts);
    }
  }

  /** No sleep ends after the total timeout. */
  lemma SleepsWithinBudget(verb: string, cfg: Config, attempts: nat -> Attempt, made: seq<Made>, outcome: Outcome, k: nat)
    requires RunsAs(verb, cfg, attempts, made, outcome)
    requires k < |made| && made[k].slept.Some? && cfg.totalTimeout.Some?
    ensures made[k].wakes <= cfg.totalTimeout.value
  {
    if k < |made| - 1 {
      assert WasRetried(verb, cfg, made, k, attempts);
    }
  }

  /** Each sleep lies between the server's hint, as far as the cap allows it, and the cap. */
  lemma SleepBounds(verb: string, cfg: Config, attempts: nat -> Attempt, made: seq<Made>, outcome: Outcome, k: nat)
    requires RunsAs(verb, cfg, attempts, made, outcome)
    requires k < |made| && made[k].slept.Some?
    ensures 0.0 <= made[k].slept.value <= cfg.window.cap
    ensures HintOf(made[k].reply).Some? ==>
      made[k].slept.value >= Min(HintOf(made[k].reply).value, cfg.window.cap)
    ensures HintOf(made[k].reply).None? ==> made[k].slept.value <= Ceiling(cfg.window, k)
  {
    if k < |made| - 1 {
      assert WasRetried(verb, cfg, made, k, attempts);
    }
  }

  function Slept(made: seq<Made>): seq<real> {
    if made == [] then []
    else
      Slept(made[..|made| - 1]) +
      (if made[|made| - 1].slept.Some? then [made[|made| - 1].slept.value] else [])
  }

  lemma {:induction false} SleptAre(made: seq<Made>, n: nat)
    requires n <= |made| && forall k :: 0 <= k < n ==> made[k].slept.Some?
    ensures |Slept(made[..n])| == n && forall k :: 0 <= k < n ==> Slept(made[..n])[k] == made[k].slept.value
    decreases n
  {
    if n > 0 {
      SleptAre(made, n - 1);
      assert made[..n][..n - 1] == made[..n - 1];
    }
  }

  /** Without hints, the time spent sleeping is bounded by the cap and by the geometric growth. */
  lemma {:induction false} TotalSleepWithoutHints(verb: string, cfg: Config, attempts: nat -> Attempt, made: seq<Made>, outcome: Outcome)
    requires RunsAs(verb, cfg, attempts, made, outcome) && made != []
    requires forall k :: 0 <= k < |made| ==> HintOf(made[k].reply).None?
    ensures var n := |made| - 1;
      Sum(Slept(made)) <= n as real * cfg.window.cap && Sum(Slept(made)) <= cfg.window.base * (Pow2(n) - 1.0)
  {
    hide Ceiling, Pow2, Sum, Slept, Drawn, RunsAs;
    SleepsDrawn(verb, cfg, attempts, made, outcome);
    TotalSleep(cfg.window, Slept(made));
  }

  lemma {:induction false} SleepsDrawn(verb: string, cfg: Config, attempts: nat -> Attempt, made: seq<Made>, outcome: Outcome)
    requires RunsAs(verb, cfg, attempts, made, outcome) && made != []
    requires forall k :: 0 <= k < |made| ==> HintOf(made[k].reply).None?
    ensures |Slept(made)| == |made| - 1 && Drawn(cfg.window, Slept(made))
  {
    hide Ceiling, WasRetried, WasLast, Ended, HintOf;
    var n := |made| - 1;
    forall k | 0 <= k < n
      ensures made[k].slept.Some? && 0.0 <= made[k].slept.value <= Ceiling(cfg.window, k)
    {
      RetriedSlept(verb, cfg, made, k, attempts);
      SleepBounds(verb, cfg, attempts, made, outcome, k);
    }
    LastDidNotSleep(verb, cfg, made, attempts);
    SleptAre(made, n);
    assert Slept(made) == Slept(made[..n]);
  }

  lemma RetriedSlept(verb: string, cfg: Config, made: seq<Made>, k: nat, attempts: nat -> Attempt)
    requires k < |made| && WasRetried(verb, cfg, made, k, attempts)
    ensures made[k].slept.Some?
  {
  }

  lemma LastDidNotSleep(verb: string, cfg: Config, made: seq<Made>, attempts: nat -> Attempt)
    requires made != [] && WasLast(verb, cfg, made, attempts)
    ensures made[|made| - 1].slept.None?
  {
  }
}
