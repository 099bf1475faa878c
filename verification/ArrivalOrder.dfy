/**
 * Arrival order does not matter: application messages and gap-fills that tile a range of
 * numbers leave a retransmission session in the same place whatever order they come in and
 * however often they are repeated.
 */
module ArrivalOrder {
  import opened Session
  import opened Wrappers

  /** A message that accounts for the numbers from its own up to `High`, that one excluded. */
  predicate IsTile(m: Inbound) {
    m.num.Num? && (m.body.App? || (m.body.SequenceReset? && m.body.reset.Some? && m.body.reset.value.gapFill))
  }

  function High(m: Inbound): int
    requires IsTile(m)
  {
    if m.body.App? then m.num.n + 1 else m.body.reset.value.newSeqNo
  }

  predicate AllTiles(tiles: seq<Inbound>) { forall k :: 0 <= k < |tiles| ==> IsTile(tiles[k]) }

  /** The number at which tile `k` starts; the end of the range for `k == |tiles|`. */
  function Low(tiles: seq<Inbound>, end: int, k: nat): int
    requires k <= |tiles| && AllTiles(tiles)
  {
    if k < |tiles| then tiles[k].num.n else end
  }

  /** The tiles follow each other without a gap or an overlap, from `begin` up to `end`. */
  predicate Tiling(tiles: seq<Inbound>, begin: int, end: int) {
    && AllTiles(tiles)
    && Low(tiles, end, 0) == begin
    && forall k :: 0 <= k < |tiles| ==> Low(tiles, end, k) < High(tiles[k]) == Low(tiles, end, k + 1)
  }

  lemma {:induction false} LowAscends(tiles: seq<Inbound>, begin: int, end: int, i: nat, j: nat)
    requires Tiling(tiles, begin, end) && i < j <= |tiles|
    ensures Low(tiles, end, i) < Low(tiles, end, j)
    decreases j - i
  {
    assert High(tiles[i]) == Low(tiles, end, i + 1);
    if i + 1 < j {
      LowAscends(tiles, begin, end, i + 1, j);
    }
  }

  lemma LowsAscend(tiles: seq<Inbound>, begin: int, end: int)
    requires Tiling(tiles, begin, end)
    ensures forall i, j :: 0 <= i < j <= |tiles| ==> Low(tiles, end, i) < Low(tiles, end, j)
  {
    forall i, j | 0 <= i < j <= |tiles|
      ensures Low(tiles, end, i) < Low(tiles, end, j)
    {
      LowAscends(tiles, begin, end, i, j);
    }
  }

  /** What the application has been given once the first `f` tiles are through. */
  function Handed(tiles: seq<Inbound>, f: nat, epoch: nat): seq<Delivery>
    requires f <= |tiles|
  {
    if f == 0 then []
    else
      Handed(tiles, f - 1, epoch) +
      (if tiles[f - 1].body.App? && tiles[f - 1].num.Num? then [Delivery(epoch, tiles[f - 1].num.n)] else [])
  }

  predicate Matches(m: Inbound, t: Inbound) { m.body == t.body && m.num == t.num }

  /**
   * The first `f` tiles are through and the later ones of `arrived` are held back. The set
   * may still contain `f` itself, in the middle of draining.
   */
  ghost predicate Holding(s: State, tiles: seq<Inbound>, end: int, arrived: set<nat>, f: nat, before: seq<Delivery>)
    requires AllTiles(tiles)
  {
    && f <= |tiles| && s.retransmits && s.isOpen
    && (forall j :: 0 <= j < f ==> j in arrived)
    && s.inSeq == Low(tiles, end, f)
    && (forall q <- s.pending :: exists j :: f <= j < |tiles| && j in arrived && q == Low(tiles, end, j))
    && (forall j :: f <= j < |tiles| && j in arrived ==>
          Low(tiles, end, j) in s.pending && Matches(s.pending[Low(tiles, end, j)], tiles[j]))
    && s.delivered == before + Handed(tiles, f, s.epoch)
  }

  /** Everything that can go through has: tile `f` is the first that has not come. */
  ghost predicate Settled(s: State, tiles: seq<Inbound>, end: int, arrived: set<nat>, f: nat, before: seq<Delivery>)
    requires AllTiles(tiles)
  {
    Holding(s, tiles, end, arrived, f, before) && f !in arrived
  }

  /** The first tile that has not arrived. */
  function Frontier(n: nat, arrived: set<nat>, f: nat): (r: nat)
    requires f <= n
    ensures f <= r <= n && (r < n ==> r !in arrived)
    ensures forall j :: f <= j < r ==> j in arrived
    decreases n - f
  {
    if f < n && f in arrived then Frontier(n, arrived, f + 1) else f
  }

  // ---------------------------------------------------------------- draining

  /** Draining a held tile moves the watermark to its end and drops nothing else. */
  lemma DrainTile(s: State, link: Link)
    requires s.inSeq in s.pending
    requires var m := s.pending[s.inSeq]; IsTile(m) && m.num.n == s.inSeq < High(m)
    requires forall q <- s.pending :: q == s.inSeq || q >= High(s.pending[s.inSeq])
    ensures var m, e := s.pending[s.inSeq], DrainOne(s, link);
      && e.failure.None?
      && e.state == s.(inSeq := High(m), pending := Without(s.pending, s.inSeq),
                       resendRequested := e.state.resendRequested, delivered := e.state.delivered)
      && e.state.delivered == s.delivered + (if m.body.App? then [Delivery(s.epoch, s.inSeq)] else [])
  {
    var m := s.pending[s.inSeq];
    var rest := Without(s.pending, s.inSeq);
    if m.body.SequenceReset? {
      assert (map k | k in rest && k >= High(m) :: rest[k]) == rest;
      assert s.delivered + [] == s.delivered;
    }
  }

  lemma WithoutIs(pending: map<int, Inbound>, k: int)
    ensures Without(pending, k).Keys == pending.Keys - {k}
    ensures forall q <- pending :: q != k ==> Without(pending, k)[q] == pending[q]
  {
  }

  lemma HoldingNext(s: State, t: State, tiles: seq<Inbound>, begin: int, end: int, arrived: set<nat>, f: nat, before: seq<Delivery>)
    requires Tiling(tiles, begin, end)
    requires Holding(s, tiles, end, arrived, f, before) && f < |tiles| && f in arrived
    requires t.inSeq == High(tiles[f]) && t.pending == Without(s.pending, s.inSeq)
    requires t.retransmits && t.isOpen && t.epoch == s.epoch
    requires t.delivered == s.delivered + (if tiles[f].body.App? then [Delivery(s.epoch, s.inSeq)] else [])
    ensures Holding(t, tiles, end, arrived, f + 1, before)
  {
    hide High, Without;
    LowsAscend(tiles, begin, end);
    WithoutIs(s.pending, s.inSeq);
    assert Handed(tiles, f + 1, s.epoch) == Handed(tiles, f, s.epoch) + (if tiles[f].body.App? then [Delivery(s.epoch, s.inSeq)] else []);
  }

  lemma PassTile(s: State, link: Link, tiles: seq<Inbound>, begin: int, end: int, arrived: set<nat>, f: nat, before: seq<Delivery>)
    requires Tiling(tiles, begin, end)
    requires Holding(s, tiles, end, arrived, f, before) && f < |tiles| && f in arrived
    ensures s.inSeq in s.pending
    ensures DrainOne(s, link).failure.None?
    ensures Holding(DrainOne(s, link).state, tiles, end, arrived, f + 1, before)
  {
    LowsAscend(tiles, begin, end);
    hide DrainOne, Handed, Without;
    assert Matches(s.pending[s.inSeq], tiles[f]);
    assert High(tiles[f]) == Low(tiles, end, f + 1);
    forall q <- s.pending
      ensures q == s.inSeq || q >= Low(tiles, end, f + 1)
    {
      var j :| f <= j < |tiles| && j in arrived && q == Low(tiles, end, j);
    }
    DrainTile(s, link);
    HoldingNext(s, DrainOne(s, link).state, tiles, begin, end, arrived, f, before);
  }

  lemma {:induction false} DrainSettles(s: State, link: Link, tiles: seq<Inbound>, begin: int, end: int, arrived: set<nat>, f: nat, before: seq<Delivery>)
    requires Tiling(tiles, begin, end)
    requires Holding(s, tiles, end, arrived, f, before) && (forall j <- arrived :: j < |tiles|)
    ensures Drain(s, link).failure.None?
    ensures Settled(Drain(s, link).state, tiles, end, arrived, Frontier(|tiles|, arrived, f), before)
    decreases |tiles| - f
  {
    hide DrainOne, Handed;
    if f < |tiles| && f in arrived {
      PassTile(s, link, tiles, begin, end, arrived, f, before);
      DrainOneShrinks(s, link);
      DrainSettles(DrainOne(s, link).state, link, tiles, begin, end, arrived, f + 1, before);
    } else {
      LowsAscend(tiles, begin, end);
    }
  }

  // ---------------------------------------------------------------- one arrival

  lemma SettledAbove(s: State, tiles: seq<Inbound>, begin: int, end: int, arrived: set<nat>, f: nat, before: seq<Delivery>)
    requires Tiling(tiles, begin, end) && Settled(s, tiles, end, arrived, f, before)
    ensures forall q <- s.pending :: q > s.inSeq && (f < |tiles| ==> q >= High(tiles[f]))
  {
    hide Handed;
    LowsAscend(tiles, begin, end);
    forall q <- s.pending
      ensures q > s.inSeq && (f < |tiles| ==> q >= Low(tiles, end, f + 1))
    {
      var j :| f <= j < |tiles| && j in arrived && q == Low(tiles, end, j);
    }
    if f < |tiles| {
      assert High(tiles[f]) == Low(tiles, end, f + 1);
    }
  }

  /** A tile that is already through: only an unmarked application message is objected to. */
  lemma LateArrival(s: State, link: Link, m: Inbound)
    requires s.retransmits && s.isOpen && IsTile(m)
    requires forall q <- s.pending :: q > s.inSeq
    requires m.num.n < s.inSeq && High(m) <= s.inSeq
    ensures var e := Handle(s, link, m);
      if m.body.App? && !m.possDup then e == Effect(s, Some(SequenceError))
      else e == Effect(s.(resendRequested := e.state.resendRequested), None)
  {
    if m.body.SequenceReset? {
      assert (map k | k in s.pending && k >= s.inSeq :: s.pending[k]) == s.pending;
    }
  }

  /** A tile that comes too early: it is held. */
  lemma EarlyArrival(s: State, link: Link, m: Inbound)
    requires s.retransmits && s.isOpen && link(s.writes) == Written && IsTile(m) && m.num.n > s.inSeq
    ensures var e := Handle(s, link, m);
      && e.failure.None?
      && e.state == s.(pending := s.pending[m.num.n := m], resendRequested := true,
                       outSeq := e.state.outSeq, writes := e.state.writes, sent := e.state.sent)
  {
  }

  /** The tile that is next: it goes through, and draining follows. */
  lemma NextArrival(s: State, link: Link, m: Inbound) returns (t: State)
    requires IsTile(m) && m.num.n == s.inSeq < High(m)
    requires forall q <- s.pending :: q >= High(m)
    ensures Handle(s, link, m) == Drain(t, link)
    ensures t == s.(inSeq := High(m), resendRequested := t.resendRequested, delivered := t.delivered)
    ensures t.delivered == s.delivered + (if m.body.App? then [Delivery(s.epoch, s.inSeq)] else [])
  {
    hide Drain;
    if m.body.App? {
      t := s.(inSeq := s.inSeq + 1, delivered := s.delivered + [Delivery(s.epoch, s.inSeq)]);
    } else {
      assert (map k | k in s.pending && k >= High(m) :: s.pending[k]) == s.pending;
      t := ApplyReset(s, High(m));
      assert s.delivered + [] == s.delivered;
    }
  }

  lemma HeldNow(s: State, t: State, tiles: seq<Inbound>, begin: int, end: int, arrived: set<nat>, f: nat, before: seq<Delivery>, k: nat, m: Inbound)
    requires Tiling(tiles, begin, end) && Settled(s, tiles, end, arrived, f, before)
    requires f < k < |tiles| && Matches(m, tiles[k])
    requires t.pending == s.pending[Low(tiles, end, k) := m]
    requires t.retransmits && t.isOpen && t.inSeq == s.inSeq && t.epoch == s.epoch && t.delivered == s.delivered
    ensures Settled(t, tiles, end, arrived + {k}, f, before)
  {
    hide Handed, High;
    LowsAscend(tiles, begin, end);
  }

  lemma ThroughNow(s: State, t: State, tiles: seq<Inbound>, begin: int, end: int, arrived: set<nat>, f: nat, before: seq<Delivery>)
    requires Tiling(tiles, begin, end) && Settled(s, tiles, end, arrived, f, before) && f < |tiles|
    requires t.pending == s.pending && t.inSeq == High(tiles[f]) == Low(tiles, end, f + 1)
    requires t.retransmits && t.isOpen && t.epoch == s.epoch
    requires t.delivered == s.delivered + (if tiles[f].body.App? then [Delivery(s.epoch, s.inSeq)] else [])
    ensures Holding(t, tiles, end, arrived + {f}, f + 1, before)
  {
    assert Handed(tiles, f + 1, s.epoch) == Handed(tiles, f, s.epoch) + (if tiles[f].body.App? then [Delivery(s.epoch, s.inSeq)] else []);
    hide Handed, High;
  }

  /**
   * One arrival, in any order and repeated or not: the session ends up settled on the first
   * tile still missing. It fails only for a late application message not marked PossDup.
   */
  lemma {:induction false} ArrivalStep(s: State, link: Link, tiles: seq<Inbound>, begin: int, end: int, arrived: set<nat>, f: nat, before: seq<Delivery>,
                    k: nat, possDup: bool)
    requires Tiling(tiles, begin, end) && Settled(s, tiles, end, arrived, f, before)
    requires (forall j <- arrived :: j < |tiles|) && k < |tiles| && link(s.writes) == Written
    ensures var e := Handle(s, link, tiles[k].(possDup := possDup));
      if k < f && tiles[k].body.App? && !possDup then e.failure == Some(SequenceError)
      else e.failure.None? && Settled(e.state, tiles, end, arrived + {k}, Frontier(|tiles|, arrived + {k}, f), before)
  {
    hide Handle, Handed;
    var m := tiles[k].(possDup := possDup);
    LowsAscend(tiles, begin, end);
    SettledAbove(s, tiles, begin, end, arrived, f, before);
    assert High(m) == High(tiles[k]) == Low(tiles, end, k + 1);
    if k < f {
      LateArrival(s, link, m);
      assert arrived + {k} == arrived;
    } else if k > f {
      EarlyArrival(s, link, m);
      HeldNow(s, Handle(s, link, m).state, tiles, begin, end, arrived, f, before, k, m);
    } else {
      var t := NextArrival(s, link, m);
      ThroughNow(s, t, tiles, begin, end, arrived, f, before);
      DrainSettles(t, link, tiles, begin, end, arrived + {f}, f + 1, before);
    }
  }

  // ---------------------------------------------------------------- any order

  /** A delivery of tile `tile`, marked as a possible duplicate or not. */
  datatype Arrival = Arrival(tile: nat, possDup: bool)

  function ArrivedIn(arrivals: seq<Arrival>): set<nat> {
    set a <- arrivals :: a.tile
  }

  /** Messages are handled one after the other until one fails. */
  function HandleAll(s: State, link: Link, tiles: seq<Inbound>, arrivals: seq<Arrival>): Effect
    requires forall a <- arrivals :: a.tile < |tiles|
  {
    if arrivals == [] then Effect(s, None)
    else
      var e := HandleAll(s, link, tiles, arrivals[..|arrivals| - 1]);
      var a := arrivals[|arrivals| - 1];
      if e.failure.Some? then e else Handle(e.state, link, tiles[a.tile].(possDup := a.possDup))
  }

  /** An application message that comes again after it has gone through says so. */
  predicate LateOnesMarked(tiles: seq<Inbound>, arrivals: seq<Arrival>)
    requires forall a <- arrivals :: a.tile < |tiles|
  {
    arrivals == [] ||
    var front, last := arrivals[..|arrivals| - 1], arrivals[|arrivals| - 1];
    && LateOnesMarked(tiles, front)
    && (last.tile < Frontier(|tiles|, ArrivedIn(front), 0) && tiles[last.tile].body.App? ==> last.possDup)
  }

  lemma {:induction false} FrontierGrows(n: nat, a: set<nat>, b: set<nat>, f: nat)
    requires a <= b && f <= n
    ensures Frontier(n, b, f) == Frontier(n, b, Frontier(n, a, f))
    decreases n - f
  {
    if f < n && f in a {
      FrontierGrows(n, a, b, f + 1);
    }
  }

  /**
   * After each arrival the session is settled: the watermark is at the first tile that has
   * not come, exactly the tiles past it are held, and the application has exactly the ones
   * before it.
   */
  lemma {:induction false} SettledThroughout(s: State, link: Link, tiles: seq<Inbound>, begin: int, end: int, arrivals: seq<Arrival>)
    requires Tiling(tiles, begin, end)
    requires s.retransmits && s.isOpen && s.pending == map[] && s.inSeq == begin
    requires (forall n :: link(n) == Written)
    requires (forall a <- arrivals :: a.tile < |tiles|) && LateOnesMarked(tiles, arrivals)
    ensures var e, arrived := HandleAll(s, link, tiles, arrivals), ArrivedIn(arrivals);
      e.failure.None? && Settled(e.state, tiles, end, arrived, Frontier(|tiles|, arrived, 0), s.delivered)
    decreases |arrivals|
  {
    if arrivals == [] {
      assert s.delivered + [] == s.delivered;
      return;
    }
    hide Handle, Handed, Settled, Tiling, Frontier, ArrivedIn;
    var front, last := arrivals[..|arrivals| - 1], arrivals[|arrivals| - 1];
    assert arrivals == front + [last];
    assert last in arrivals;
    SettledThroughout(s, link, tiles, begin, end, front);
    var e, arrived := HandleAll(s, link, tiles, front), ArrivedIn(front);
    ArrivedInLast(front, last);
    ArrivedWithin(front, |tiles|);
    hide HandleAll, LateOnesMarked;
    ArrivalStep(e.state, link, tiles, begin, end, arrived, Frontier(|tiles|, arrived, 0), s.delivered, last.tile, last.possDup);
    FrontierGrows(|tiles|, arrived, arrived + {last.tile}, 0);
  }

  lemma ArrivedWithin(arrivals: seq<Arrival>, n: nat)
    requires forall a <- arrivals :: a.tile < n
    ensures forall j <- ArrivedIn(arrivals) :: j < n
  {
  }

  lemma ArrivedInLast(front: seq<Arrival>, last: Arrival)
    ensures ArrivedIn(front + [last]) == ArrivedIn(front) + {last.tile}
  {
  }

  lemma {:induction false} FrontierFull(n: nat, arrived: set<nat>, f: nat)
    requires f <= n && forall j :: 0 <= j < n ==> j in arrived
    ensures Frontier(n, arrived, f) == n
    decreases n - f
  {
    if f < n {
      FrontierFull(n, arrived, f + 1);
    }
  }

  /**
   * Arrival-order independence: once every tile has come at least once, whatever the order
   * and the repetitions, the session expects the end of the range, holds nothing back, and
   * has handed over each application message of the range once, in ascending order.
   */
  lemma {:induction false} AnyOrder(s: State, link: Link, tiles: seq<Inbound>, begin: int, end: int, arrivals: seq<Arrival>)
    requires Tiling(tiles, begin, end)
    requires s.retransmits && s.isOpen && s.pending == map[] && s.inSeq == begin
    requires (forall n :: link(n) == Written)
    requires (forall a <- arrivals :: a.tile < |tiles|) && LateOnesMarked(tiles, arrivals)
    requires forall k :: 0 <= k < |tiles| ==> k in ArrivedIn(arrivals)
    ensures var e := HandleAll(s, link, tiles, arrivals);
      && e.failure.None? && e.state.inSeq == end && e.state.pending == map[]
      && e.state.delivered == s.delivered + Handed(tiles, |tiles|, e.state.epoch)
  {
    hide HandleAll, Handed, ArrivedIn, LateOnesMarked, Frontier;
    SettledThroughout(s, link, tiles, begin, end, arrivals);
    FrontierFull(|tiles|, ArrivedIn(arrivals), 0);
    SettledAtEnd(HandleAll(s, link, tiles, arrivals).state, tiles, end, ArrivedIn(arrivals), s.delivered);
  }

  lemma {:induction false} SettledAtEnd(s: State, tiles: seq<Inbound>, end: int, arrived: set<nat>, before: seq<Delivery>)
    requires AllTiles(tiles) && Settled(s, tiles, end, arrived, |tiles|, before)
    ensures s.pending == map[] && s.inSeq == end && s.delivered == before + Handed(tiles, |tiles|, s.epoch)
  {
    hide Handed;
    assert forall q <- s.pending :: q !in s.pending;
  }

  /** What is handed over is the application messages' numbers, each once and ascending. */
  lemma {:induction false} HandedIsAscending(tiles: seq<Inbound>, begin: int, end: int, f: nat, epoch: nat)
    requires Tiling(tiles, begin, end) && f <= |tiles|
    ensures var h := Handed(tiles, f, epoch);
      && (forall i, j :: 0 <= i < j < |h| ==> h[i].num < h[j].num)
      && (forall n :: Delivery(epoch, n) in h <==> exists k :: 0 <= k < f && tiles[k].body.App? && tiles[k].num.n == n)
      && (forall d <- h :: d.epoch == epoch && d.num < Low(tiles, end, f))
    decreases f
  {
    LowsAscend(tiles, begin, end);
    if f > 0 {
      HandedIsAscending(tiles, begin, end, f - 1, epoch);
    }
  }

  predicate Covers(m: Inbound, n: int)
    requires IsTile(m)
  {
    m.num.n <= n < High(m)
  }

  predicate Covered(tiles: seq<Inbound>, arrived: set<nat>, n: int)
    requires AllTiles(tiles)
  {
    exists j :: 0 <= j < |tiles| && j in arrived && Covers(tiles[j], n)
  }

  /** The watermark of a settled session is the first number no arrived tile accounts for. */
  lemma WatermarkIsFirstUncovered(s: State, tiles: seq<Inbound>, begin: int, end: int, arrived: set<nat>, f: nat, before: seq<Delivery>)
    requires Tiling(tiles, begin, end) && Settled(s, tiles, end, arrived, f, before)
    ensures forall n :: begin <= n < s.inSeq ==> Covered(tiles, arrived, n)
    ensures !Covered(tiles, arrived, s.inSeq)
  {
    hide Handed;
    LowsAscend(tiles, begin, end);
    forall n | begin <= n < s.inSeq
      ensures Covered(tiles, arrived, n)
    {
      var j := Covering(tiles, begin, end, f, n);
    }
    forall j | 0 <= j < |tiles| && j in arrived
      ensures !Covers(tiles[j], s.inSeq)
    {
      assert High(tiles[j]) == Low(tiles, end, j + 1);
    }
  }

  lemma {:induction false} Covering(tiles: seq<Inbound>, begin: int, end: int, f: nat, n: int) returns (j: nat)
    requires Tiling(tiles, begin, end) && f <= |tiles| && begin <= n < Low(tiles, end, f)
    ensures j < f && Covers(tiles[j], n)
    decreases f
  {
    if Low(tiles, end, f - 1) <= n {
      j := f - 1;
      assert High(tiles[j]) == Low(tiles, end, j + 1);
    } else {
      j := Covering(tiles, begin, end, f - 1, n);
    }
  }
}
