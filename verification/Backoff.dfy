/**
 * Full-jitter exponential backoff, shared by the REST retry loop and the FIX reconnect loop.
 * Delays are exact seconds, and the random draw is a fraction of the window.
 */
module Backoff {

  type nonneg = r: real | 0.0 <= r

  type fraction = u: real | 0.0 <= u <= 1.0

  datatype Window = Window(base: nonneg, cap: nonneg)

  function Pow2(k: nat): (p: real)
    ensures p >= 1.0
  {
    if k == 0 then 1.0 else 2.0 * Pow2(k - 1)
  }

  function Min(a: real, b: real): real { if b < a then b else a }

  function Uncapped(base: nonneg, attempt: nat): nonneg {
    base * Pow2(attempt)
  }

  /** `min(base * 2**attempt, cap)`. */
  function Ceiling(w: Window, attempt: nat): (c: nonneg)
    ensures c <= w.cap
  {
    Min(Uncapped(w.base, attempt), w.cap)
  }

  /** `random.uniform(0, ceiling)`, as the given fraction of the ceiling. */
  function Jittered(w: Window, attempt: nat, u: fraction): (delay: nonneg)
    ensures delay <= Ceiling(w, attempt)
  {
    var c := Ceiling(w, attempt);
    assert 0.0 <= u * c <= c;
    u * c
  }

  /** The window doubles from attempt to attempt until it reaches the cap, and stays there. */
  lemma CeilingGrows(w: Window, attempt: nat)
    ensures Ceiling(w, 0) == (if w.base <= w.cap then w.base else w.cap)
    ensures Ceiling(w, attempt + 1) == (if 2.0 * Ceiling(w, attempt) <= w.cap then 2.0 * Ceiling(w, attempt) else w.cap)
  {
    assert Uncapped(w.base, attempt + 1) == 2.0 * Uncapped(w.base, attempt);
    assert Uncapped(w.base, attempt) >= 0.0;
  }

  /** Every delay in the window can be drawn, and a greater draw never gives a shorter one. */
  lemma JitterSpans(w: Window, attempt: nat, delay: real) returns (u: fraction)
    requires 0.0 <= delay <= Ceiling(w, attempt)
    ensures Jittered(w, attempt, u) == delay
  {
    var c := Ceiling(w, attempt);
    hide Ceiling;
    if c == 0.0 {
      u := 0.0;
    } else {
      Share(delay, c);
      u := delay / c;
    }
  }

  lemma Share(d: real, c: real)
    requires 0.0 <= d <= c && c > 0.0
    ensures 0.0 <= d / c <= 1.0 && d / c * c == d
  {
  }

  lemma JitterGrows(w: Window, attempt: nat, u: fraction, v: fraction)
    requires u <= v
    ensures Jittered(w, attempt, u) <= Jittered(w, attempt, v)
  {
    var c := Ceiling(w, attempt);
    assert (v - u) * c >= 0.0;
    assert v * c == u * c + (v - u) * c;
  }

  function SumTo(delays: seq<real>, n: nat): real
    requires n <= |delays|
  {
    if n == 0 then 0.0 else SumTo(delays, n - 1) + delays[n - 1]
  }

  function Sum(delays: seq<real>): real { SumTo(delays, |delays|) }

  /** Each delay was drawn for its own attempt, counting from 0. */
  predicate Drawn(w: Window, delays: seq<real>) {
    forall k :: 0 <= k < |delays| ==> 0.0 <= delays[k] <= Ceiling(w, k)
  }

  /** The sums of the first `n` windows, without the cap and with nothing but the cap. */
  function Growth(base: nonneg, n: nat): real {
    if n == 0 then 0.0 else Growth(base, n - 1) + Uncapped(base, n - 1)
  }

  function Caps(cap: real, n: nat): real {
    if n == 0 then 0.0 else Caps(cap, n - 1) + cap
  }

  lemma {:induction false} GrowthIs(base: nonneg, n: nat)
    ensures Growth(base, n) == base * (Pow2(n) - 1.0)
  {
    if n > 0 {
      GrowthIs(base, n - 1);
      Doubling(base, Pow2(n - 1));
    }
  }

  lemma Doubling(base: real, p: real)
    ensures base * (2.0 * p - 1.0) == base * (p - 1.0) + base * p
  {
  }

  lemma {:induction false} CapsAre(cap: real, n: nat)
    ensures Caps(cap, n) == n as real * cap
  {
    if n > 0 {
      CapsAre(cap, n - 1);
      assert n as real * cap == (n - 1) as real * cap + cap;
    }
  }

  lemma {:induction false} SleepSums(w: Window, delays: seq<real>, n: nat)
    requires Drawn(w, delays) && n <= |delays|
    ensures 0.0 <= SumTo(delays, n) <= Caps(w.cap, n) && SumTo(delays, n) <= Growth(w.base, n)
    decreases n
  {
    hide Uncapped;
    if n > 0 {
      SleepSums(w, delays, n - 1);
      assert delays[n - 1] <= Ceiling(w, n - 1);
    }
  }

  /** The time spent sleeping is bounded both by the cap and by the geometric growth. */
  lemma {:induction false} TotalSleep(w: Window, delays: seq<real>)
    requires Drawn(w, delays)
    ensures 0.0 <= Sum(delays) <= |delays| as real * w.cap
    ensures Sum(delays) <= w.base * (Pow2(|delays|) - 1.0)
  {
    hide Ceiling, Pow2, SumTo, Growth, Caps;
    SleepSums(w, delays, |delays|);
    GrowthIs(w.base, |delays|);
    CapsAre(w.cap, |delays|);
  }

  // ---------------------------------------------------------------- reconnecting

  /** What an attempt meets: a draw, whether the session is still wanted after it, and its result. */
  datatype Try = Try(draw: fraction, wanted: bool, connects: bool)

  datatype Ending = Connected | Abandoned | Exhausted

  /** The reconnect loop: sleep, look whether to go on, connect; at most `maxRetries` times. */
  method Reconnect(w: Window, maxRetries: int, tries: nat -> Try) returns (ending: Ending, delays: seq<real>)
    ensures Drawn(w, delays)
    ensures forall k :: 0 <= k < |delays| ==> delays[k] == Jittered(w, k, tries(k).draw)
    ensures forall k :: 0 <= k < |delays| - 1 ==> tries(k).wanted && !tries(k).connects
    ensures match ending
      case Connected => delays != [] && tries(|delays| - 1).wanted && tries(|delays| - 1).connects
      case Abandoned => delays != [] && !tries(|delays| - 1).wanted
      case Exhausted =>
        && |delays| == (if maxRetries > 0 then maxRetries else 0)
        && forall k :: 0 <= k < |delays| ==> tries(k).wanted && !tries(k).connects
    ensures |delays| <= (if maxRetries > 0 then maxRetries else 0)
    ensures 0.0 <= Sum(delays) <= |delays| as real * w.cap
    ensures Sum(delays) <= w.base * (Pow2(|delays|) - 1.0)
  {
    hide Ceiling, Jittered, SumTo, Pow2;
    delays := [];
    var attempt := 0;
    while attempt < maxRetries
      invariant 0 <= attempt == |delays| && (attempt <= maxRetries || attempt == 0)
      invariant Drawn(w, delays)
      invariant forall k :: 0 <= k < attempt ==> delays[k] == Jittered(w, k, tries(k).draw)
      invariant forall k :: 0 <= k < attempt ==> tries(k).wanted && !tries(k).connects
    {
      var t := tries(attempt);
      delays := delays + [Jittered(w, attempt, t.draw)];
      if !t.wanted {
        TotalSleep(w, delays);
        return Abandoned, delays;
      }
      if t.connects {
        TotalSleep(w, delays);
        return Connected, delays;
      }
      attempt := attempt + 1;
    }
    TotalSleep(w, delays);
    return Exhausted, delays;
  }
}
