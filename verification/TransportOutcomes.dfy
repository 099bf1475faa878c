/**
 * What a request comes to, by the replies it gets: that it does go on where it may, exactly
 * when it stops, and with which result.
 */
module TransportOutcomes {
  import opened Backoff
  import opened Transport
  import opened Wrappers

  predicate SafeVerb(verb: string) { verb == "GET" || verb == "HEAD" || verb == "OPTIONS" }

  predicate IsSuccess(reply: Reply) { reply.Response? && 200 <= reply.status <= 299 }

  /** Statuses after which a safe verb is tried again. */
  predicate Transient(status: int) {
    || status == 408 || status == 425 || status == 429
    || status == 500 || status == 502 || status == 503 || status == 504
    || 520 <= status <= 524
  }

  /** A failure after which the request may go on: for any verb one that never reached the wire, for a safe one more. */
  predicate GoesOn(verb: string, reply: Reply) {
    || reply.PoolTimeout? || reply.ConnectError?
    || (SafeVerb(verb) && (reply.Timeout? || reply.OtherTransportError? || (reply.Response? && Transient(reply.status))))
  }

  lemma GoesOnIs(verb: string, reply: Reply)
    ensures MayRetry(verb, reply) <==> GoesOn(verb, reply)
  {
    VerbIs(verb);
    hide Retryable, SafeVerb;
  }

  lemma VerbIs(verb: string)
    ensures Retryable(verb) <==> SafeVerb(verb)
  {
  }

  lemma EndedIs(reply: Reply)
    ensures Ended(reply) ==
      match reply
      case Response(status, _) => if 200 <= status <= 299 then Returned(status) else StatusError(status)
      case PoolTimeout => PoolExhausted
      case Timeout => TimedOut
      case ConnectError => NetworkFailed
      case OtherTransportError => NetworkFailed
      case OtherHttpError => HttpFailed
      case Uncaught => Propagated
  {
  }

  // ---------------------------------------------------------------- how long it would sleep

  /** The wait a server asks for, where the status is one whose header is looked at. */
  function Asked(reply: Reply): Option<real> {
    if reply.Response? && reply.retryAfter.Some? &&
       (reply.status == 408 || reply.status == 429 || reply.status == 504 || reply.status >= 500)
    then Some(if reply.retryAfter.value < 0.0 then 0.0 else reply.retryAfter.value)
    else None
  }

  /** The full-jitter draw, with the ceiling spelt out. */
  function Drawn(cfg: Config, n: nat, u: fraction): real {
    var grown := cfg.window.base * Pow2(n);
    u * (if grown <= cfg.window.cap then grown else cfg.window.cap)
  }

  function Least(a: real, b: real): real { if a <= b then a else b }

  /** The sleep after attempt `n`, if there is to be one. */
  function Sleep(cfg: Config, n: nat, a: Attempt): real {
    match Asked(a.reply)
    case None => Drawn(cfg, n, a.draw)
    case Some(hint) => Least(Least(hint, cfg.window.cap) + Drawn(cfg, n, a.draw), cfg.window.cap)
  }

  lemma SleepIs(cfg: Config, n: nat, a: Attempt)
    ensures Delay(cfg, n, a) == Sleep(cfg, n, a)
  {
    DrawnIs(cfg, n, a.draw);
    hide Jittered, Drawn;
  }

  lemma DrawnIs(cfg: Config, n: nat, u: fraction)
    ensures Jittered(cfg.window, n, u) == Drawn(cfg, n, u)
  {
  }

  /** The budget would be gone by the end of the sleep. */
  predicate Spent(cfg: Config, made: seq<Made>, k: nat, attempts: nat -> Attempt)
    requires k <= |made|
  {
    cfg.totalTimeout.Some? && EndOf(made[..k], k, attempts) + Sleep(cfg, k, attempts(k)) > cfg.totalTimeout.value
  }

  // ---------------------------------------------------------------- when it stops

  /**
   * Exactly when a request stops at attempt `k`: it has no more retries, the reply is one not
   * to go on after, or the sleep would go past the budget.
   */
  lemma StopsIff(verb: string, cfg: Config, attempts: nat -> Attempt, made: seq<Made>, outcome: Outcome, k: nat)
    requires RunsAs(verb, cfg, attempts, made, outcome) && k < |made|
    ensures k == |made| - 1 <==> (k == cfg.maxRetries || !GoesOn(verb, attempts(k).reply) || Spent(cfg, made, k, attempts))
    ensures made[k].reply == attempts(k).reply
    ensures k < |made| - 1 ==> made[k].slept == Some(Sleep(cfg, k, attempts(k)))
  {
    GoesOnIs(verb, attempts(k).reply);
    SleepIs(cfg, k, attempts(k));
    hide MayRetry, GoesOn, Delay, Sleep, Ended, EndOf;
    if k < |made| - 1 {
      assert WasRetried(verb, cfg, made, k, attempts);
    }
  }

  /** A request that has retries to make makes at least one attempt, and never one too many. */
  lemma AttemptsMade(verb: string, cfg: Config, attempts: nat -> Attempt, made: seq<Made>, outcome: Outcome)
    requires RunsAs(verb, cfg, attempts, made, outcome) && cfg.maxRetries >= 0
    ensures 1 <= |made| <= cfg.maxRetries + 1
    ensures outcome == Ended(attempts(|made| - 1).reply)
  {
    hide Ended, WasRetried;
  }

  /**
   * A request that may go on does go on: without a time budget the first reply, among as many
   * as it may get, that is a success after failures to go on after, is what it returns.
   */
  lemma SuccessReached(verb: string, cfg: Config, attempts: nat -> Attempt, made: seq<Made>, outcome: Outcome, k: nat)
    requires RunsAs(verb, cfg, attempts, made, outcome) && cfg.totalTimeout == None && k <= cfg.maxRetries
    requires IsSuccess(attempts(k).reply)
    requires forall j :: 0 <= j < k ==> GoesOn(verb, attempts(j).reply)
    ensures |made| == k + 1 && outcome == Returned(attempts(k).reply.status)
  {
    AttemptsMade(verb, cfg, attempts, made, outcome);
    EndedIs(attempts(|made| - 1).reply);
    hide RunsAs, Ended, Sleep, EndOf;
    var last := |made| - 1;
    StopsIff(verb, cfg, attempts, made, outcome, last);
    if last > k {
      StopsIff(verb, cfg, attempts, made, outcome, k);
    }
  }

  /** And where they all fail so, it makes every attempt it may and ends with the last failure. */
  lemma AllAttemptsMade(verb: string, cfg: Config, attempts: nat -> Attempt, made: seq<Made>, outcome: Outcome)
    requires RunsAs(verb, cfg, attempts, made, outcome) && cfg.totalTimeout == None && cfg.maxRetries >= 0
    requires forall j :: 0 <= j <= cfg.maxRetries ==> GoesOn(verb, attempts(j).reply)
    ensures |made| == cfg.maxRetries + 1 && outcome == Ended(attempts(cfg.maxRetries).reply)
  {
    AttemptsMade(verb, cfg, attempts, made, outcome);
    hide RunsAs, Ended, Sleep, EndOf, GoesOn;
    StopsIff(verb, cfg, attempts, made, outcome, |made| - 1);
  }

  /** Any other failure is raised at once, as what it is. */
  lemma OthersRaised(verb: string, cfg: Config, attempts: nat -> Attempt, made: seq<Made>, outcome: Outcome, k: nat)
    requires RunsAs(verb, cfg, attempts, made, outcome) && k < |made| && !GoesOn(verb, attempts(k).reply)
    ensures k == |made| - 1 && outcome == Ended(attempts(k).reply)
  {
    StopsIff(verb, cfg, attempts, made, outcome, k);
    hide GoesOn, Ended;
  }

  /** A server that asks for a wait gets it, as far as the cap allows. */
  lemma HintHonoured(verb: string, cfg: Config, attempts: nat -> Attempt, made: seq<Made>, outcome: Outcome, k: nat)
    requires RunsAs(verb, cfg, attempts, made, outcome) && k < |made| - 1
    requires Asked(attempts(k).reply).Some?
    ensures made[k].slept.Some?
    ensures Least(Asked(attempts(k).reply).value, cfg.window.cap) <= made[k].slept.value <= cfg.window.cap
  {
    StopsIff(verb, cfg, attempts, made, outcome, k);
    DrawnWithin(cfg, k, attempts(k).draw);
    hide RunsAs, Drawn;
  }

  lemma DrawnWithin(cfg: Config, n: nat, u: fraction)
    ensures 0.0 <= Drawn(cfg, n, u) <= cfg.window.cap
  {
    DrawnIs(cfg, n, u);
    hide Drawn;
  }
}
