/**
 * Listing all pages of an endpoint, with the guard against a server that repeats cursors.
 * The server is the list of replies it gives to the fetches, one after the other; when
 * they run out, the next fetch fails.
 */
module Pagination {
  import opened Wrappers

  const CURSOR_SEEN_CAP := 1024

  /** A page of items and the cursor of the next. An absent or empty cursor, `None`, ends the list. */
  datatype Page<T, C> = Page(items: seq<T>, cursor: Option<C>)

  datatype Ending = Finished | LoopDetected | MaxPagesReached | FetchFailed

  /** What a listing yields, the cursors it sends (`None`: the first fetch's own), and how it ends. */
  datatype Listing<T, C> = Listing(items: seq<T>, sent: seq<Option<C>>, ending: Ending)

  method ListAll<T, C(==)>(replies: seq<Page<T, C>>, first: Option<C>, maxPages: Option<int>) returns (r: Listing<T, C>)
    ensures r == From(replies, 0, first, maxPages)
  {
    hide SeenBefore, Prepend;
    var items, sent: seq<Option<C>> := [], [];
    var cursor := first;
    var seen: set<C> := {};
    var last: Option<C> := None;
    var fetched := 0;
    PrependToNothing(From(replies, 0, first, maxPages));
    NothingSeen(replies);
    while maxPages == None || fetched < maxPages.value
      invariant 0 <= fetched <= |replies|
      invariant seen == SeenBefore(replies, fetched)
      invariant last == (if fetched == 0 then None else replies[fetched - 1].cursor)
      invariant fetched > 0 ==> cursor == last
      invariant From(replies, 0, first, maxPages) == Prepend(items, sent, From(replies, fetched, cursor, maxPages))
      decreases |replies| - fetched
    {
      ghost var done, asked, asking := items, sent, cursor;
      PrependLast(done, asked, [], asking, FetchFailed);
      assert done + [] == done;
      sent := sent + [cursor];
      if fetched == |replies| {
        return Listing(items, sent, FetchFailed);
      }
      var page := replies[fetched];
      fetched := fetched + 1;
      items := items + page.items;
      if page.cursor == None {
        PrependLast(done, asked, page.items, asking, Finished);
        return Listing(items, sent, Finished);
      }
      if page.cursor.value in seen || page.cursor == last {
        PrependLast(done, asked, page.items, asking, LoopDetected);
        return Listing(items, sent, LoopDetected);
      }
      SeenStep(replies, fetched - 1);
      if |seen| < CURSOR_SEEN_CAP {
        seen := seen + {page.cursor.value};
      }
      PrependTwice(done, asked, page.items, asking, From(replies, fetched, page.cursor, maxPages));
      last, cursor := page.cursor, page.cursor;
    }
    PrependNothing(items, sent, MaxPagesReached);
    return Listing(items, sent, MaxPagesReached);
  }

  function Prepend<T, C>(items: seq<T>, sent: seq<Option<C>>, l: Listing<T, C>): Listing<T, C> {
    Listing(items + l.items, sent + l.sent, l.ending)
  }

  lemma PrependToNothing<T, C>(l: Listing<T, C>)
    ensures Prepend([], [], l) == l
  {
  }

  lemma PrependNothing<T, C>(items: seq<T>, sent: seq<Option<C>>, ending: Ending)
    ensures Prepend(items, sent, Listing([], [], ending)) == Listing(items, sent, ending)
  {
  }

  lemma PrependLast<T, C>(items: seq<T>, sent: seq<Option<C>>, more: seq<T>, one: Option<C>, ending: Ending)
    ensures Prepend(items, sent, Listing(more, [one], ending)) == Listing(items + more, sent + [one], ending)
  {
  }

  lemma PrependTwice<T, C>(items: seq<T>, sent: seq<Option<C>>, more: seq<T>, one: Option<C>, l: Listing<T, C>)
    ensures Prepend(items, sent, Prepend(more, [one], l)) == Prepend(items + more, sent + [one], l)
  {
    assert items + (more + l.items) == (items + more) + l.items;
    assert sent + ([one] + l.sent) == (sent + [one]) + l.sent;
  }

  /** The cursors the guard remembers before it looks at page `n`: no more than the cap. */
  function SeenBefore<T, C(==)>(replies: seq<Page<T, C>>, n: nat): (r: set<C>)
    requires n <= |replies|
  {
    if n == 0 then {}
    else
      var seen, cursor := SeenBefore(replies, n - 1), replies[n - 1].cursor;
      if |seen| < CURSOR_SEEN_CAP && cursor.Some? then seen + {cursor.value} else seen
  }

  lemma {:induction false} NothingSeen<T, C>(replies: seq<Page<T, C>>)
    ensures SeenBefore(replies, 0) == {}
  {
  }

  lemma SeenStep<T, C>(replies: seq<Page<T, C>>, n: nat)
    requires n < |replies|
    ensures var seen := SeenBefore(replies, n);
      replies[n].cursor.Some? ==>
        SeenBefore(replies, n + 1) == if |seen| < CURSOR_SEEN_CAP then seen + {replies[n].cursor.value} else seen
  {
  }

  /** The guard's verdict on the cursor of page `n`. */
  predicate Repeats<T, C(==)>(replies: seq<Page<T, C>>, n: nat)
    requires n < |replies|
  {
    replies[n].cursor.Some? &&
    (replies[n].cursor.value in SeenBefore(replies, n) || (n > 0 && replies[n].cursor == replies[n - 1].cursor))
  }

  /** The listing from page `n` on. */
  function From<T, C(==)>(replies: seq<Page<T, C>>, n: nat, cursor: Option<C>, maxPages: Option<int>): Listing<T, C>
    requires n <= |replies|
    decreases |replies| - n
  {
    if maxPages.Some? && n >= maxPages.value then Listing([], [], MaxPagesReached)
    else if n == |replies| then Listing([], [cursor], FetchFailed)
    else if replies[n].cursor == None then Listing(replies[n].items, [cursor], Finished)
    else if Repeats(replies, n) then Listing(replies[n].items, [cursor], LoopDetected)
    else Prepend(replies[n].items, [cursor], From(replies, n + 1, replies[n].cursor, maxPages))
  }

  // ---------------------------------------------------------------- what is sent and yielded

  function ItemsOf<T, C>(replies: seq<Page<T, C>>, n: nat, m: nat): seq<T>
    requires n <= m <= |replies|
    decreases m - n
  {
    if n == m then [] else replies[n].items + ItemsOf(replies, n + 1, m)
  }

  /** Pages `n` up to `m` each led on to the next. */
  predicate LeadsOn<T, C(==)>(replies: seq<Page<T, C>>, n: nat, m: nat)
    requires m <= |replies|
  {
    forall k :: n <= k < m ==> replies[k].cursor != None && !Repeats(replies, k)
  }

  /**
   * A listing from page `n`: it fetches `count` pages, all of which but the last led on;
   * each fetch sends the cursor of the page before; and the items are those of the pages
   * received, in order.
   */
  ghost predicate Lists<T, C>(l: Listing<T, C>, replies: seq<Page<T, C>>, n: nat, cursor: Option<C>, maxPages: Option<int>, count: nat)
    requires n <= |replies|
  {
    && n + count <= |replies|
    && LeadsOn(replies, n, if count > 0 && (l.ending.Finished? || l.ending.LoopDetected?) then n + count - 1 else n + count)
    && l.items == ItemsOf(replies, n, n + count)
    && |l.sent| == (if l.ending.FetchFailed? then count + 1 else count)
    && (forall j :: 0 <= j < |l.sent| ==>
          l.sent[j] == if j == 0 then cursor else replies[n + j - 1].cursor)
    && (maxPages.Some? ==> n + |l.sent| <= maxPages.value || l.sent == [])
    && match l.ending
       case Finished => count > 0 && replies[n + count - 1].cursor == None
       case LoopDetected => count > 0 && replies[n + count - 1].cursor != None && Repeats(replies, n + count - 1)
       case MaxPagesReached => maxPages.Some? && n + count >= maxPages.value
       case FetchFailed => n + count == |replies|
  }

  lemma {:induction false} ListingShape<T, C>(replies: seq<Page<T, C>>, n: nat, cursor: Option<C>, maxPages: Option<int>) returns (count: nat)
    requires n <= |replies|
    ensures Lists(From(replies, n, cursor, maxPages), replies, n, cursor, maxPages, count)
    decreases |replies| - n
  {
    hide Repeats;
    if (maxPages.Some? && n >= maxPages.value) || n == |replies| {
      count := 0;
    } else if replies[n].cursor == None || Repeats(replies, n) {
      count := 1;
      assert ItemsOf(replies, n + 1, n + 1) == [];
    } else {
      hide Lists;
      var next := replies[n].cursor;
      var rest := ListingShape(replies, n + 1, next, maxPages);
      count := rest + 1;
      var m := From(replies, n + 1, next, maxPages);
      assert From(replies, n, cursor, maxPages) == Prepend(replies[n].items, [cursor], m);
      hide From;
      ListsOneMore(m, replies, n, cursor, maxPages, rest);
    }
  }

  lemma ListsOneMore<T, C>(m: Listing<T, C>, replies: seq<Page<T, C>>, n: nat, cursor: Option<C>, maxPages: Option<int>, rest: nat)
    requires n < |replies| && replies[n].cursor != None && !Repeats(replies, n)
    requires maxPages.Some? ==> n < maxPages.value
    requires Lists(m, replies, n + 1, replies[n].cursor, maxPages, rest)
    ensures Lists(Prepend(replies[n].items, [cursor], m), replies, n, cursor, maxPages, rest + 1)
  {
    hide Repeats;
    var sent := [cursor] + m.sent;
    forall j | 0 <= j < |sent|
      ensures sent[j] == if j == 0 then cursor else replies[n + j - 1].cursor
    {
      if j > 0 {
        assert sent[j] == m.sent[j - 1];
      }
    }
  }

  // ---------------------------------------------------------------- the guard

  function Least(a: nat, b: nat): nat { if a < b then a else b }

  /** A cursor of one of the first `n` pages that is also among the first 1024. */
  predicate IssuedEarly<T, C(==)>(replies: seq<Page<T, C>>, n: nat, c: C)
    requires n <= |replies|
  {
    exists k :: 0 <= k < n && k < CURSOR_SEEN_CAP && replies[k].cursor == Some(c)
  }

  lemma {:induction false} RememberedSize<T, C>(replies: seq<Page<T, C>>, n: nat)
    requires n <= |replies| && LeadsOn(replies, 0, n)
    ensures |SeenBefore(replies, n)| == Least(n, CURSOR_SEEN_CAP)
    decreases n
  {
    hide SeenBefore, LeadsOn;
    if n == 0 {
      NothingSeen(replies);
    } else {
      LedOn(replies, n);
      RememberedSize(replies, n - 1);
      SeenStep(replies, n - 1);
    }
  }

  lemma SeenStepMember<T, C>(replies: seq<Page<T, C>>, n: nat, c: C)
    requires 0 < n <= |replies| && LeadsOn(replies, 0, n)
    ensures c in SeenBefore(replies, n) <==>
      c in SeenBefore(replies, n - 1) || (n - 1 < CURSOR_SEEN_CAP && replies[n - 1].cursor == Some(c))
  {
    hide SeenBefore, LeadsOn;
    LedOn(replies, n);
    RememberedSize(replies, n - 1);
    SeenStep(replies, n - 1);
  }

  lemma LedOn<T, C>(replies: seq<Page<T, C>>, n: nat)
    requires 0 < n <= |replies| && LeadsOn(replies, 0, n)
    ensures LeadsOn(replies, 0, n - 1) && replies[n - 1].cursor.Some? && !Repeats(replies, n - 1)
  {
    hide Repeats;
  }

  lemma {:induction false} RememberedCursor<T, C>(replies: seq<Page<T, C>>, n: nat, c: C)
    requires n <= |replies| && LeadsOn(replies, 0, n)
    ensures c in SeenBefore(replies, n) <==> IssuedEarly(replies, n, c)
    decreases n
  {
    hide SeenBefore, IssuedEarly, LeadsOn;
    if n == 0 {
      NothingSeen(replies);
      NoneEarly(replies, c);
    } else {
      LedOn(replies, n);
      RememberedCursor(replies, n - 1, c);
      SeenStepMember(replies, n, c);
      EarlyStep(replies, n, c);
    }
  }

  lemma NoneEarly<T, C>(replies: seq<Page<T, C>>, c: C)
    ensures !IssuedEarly(replies, 0, c)
  {
  }

  /** While the pages lead on, the guard remembers exactly the cursors of the first 1024. */
  lemma {:induction false} Remembered<T, C>(replies: seq<Page<T, C>>, n: nat)
    requires n <= |replies| && LeadsOn(replies, 0, n)
    ensures |SeenBefore(replies, n)| == Least(n, CURSOR_SEEN_CAP)
    ensures forall c :: c in SeenBefore(replies, n) <==> IssuedEarly(replies, n, c)
  {
    hide SeenBefore, IssuedEarly;
    RememberedSize(replies, n);
    forall c
      ensures c in SeenBefore(replies, n) <==> IssuedEarly(replies, n, c)
    {
      RememberedCursor(replies, n, c);
    }
  }

  lemma EarlyStep<T, C>(replies: seq<Page<T, C>>, n: nat, c: C)
    requires 0 < n <= |replies|
    ensures IssuedEarly(replies, n, c) <==>
      IssuedEarly(replies, n - 1, c) || (n - 1 < CURSOR_SEEN_CAP && replies[n - 1].cursor == Some(c))
  {
  }

  /** Exactly when the guard objects: the cursor is one of the first 1024, or the one before. */
  lemma RepeatsIff<T, C>(replies: seq<Page<T, C>>, n: nat)
    requires n < |replies| && LeadsOn(replies, 0, n) && replies[n].cursor.Some?
    ensures Repeats(replies, n) <==>
      IssuedEarly(replies, n, replies[n].cursor.value) || (n > 0 && replies[n - 1].cursor == replies[n].cursor)
  {
    hide SeenBefore, IssuedEarly;
    Remembered(replies, n);
  }

  /**
   * No cursor among the first 1024 the server issues is ever sent twice, and none is sent
   * twice in a row. (`sent[i]` for `i >= 1` is the i-th cursor issued.)
   */
  lemma {:induction false} NoCursorTwice<T, C>(replies: seq<Page<T, C>>, first: Option<C>, maxPages: Option<int>, i: nat, j: nat)
    requires var sent := From(replies, 0, first, maxPages).sent; 1 <= i < j < |sent| && sent[i] == sent[j]
    ensures i > CURSOR_SEEN_CAP && j > i + 1
  {
    hide From, Repeats;
    var count := ListingShape(replies, 0, first, maxPages);
    assert LeadsOn(replies, 0, j - 1);
    assert !Repeats(replies, j - 1);
    RepeatsIff(replies, j - 1);
    assert replies[i - 1].cursor == replies[j - 1].cursor;
  }

  /**
   * Termination by the pigeonhole principle: a server that knows no more than 1025 cursors,
   * however it picks them, is asked for at most one page more than it knows cursors. The
   * bound is the exact one, as `LongCycleUnnoticed` needs no more than 1026.
   */
  lemma {:induction false} StopsInTime<T, C>(replies: seq<Page<T, C>>, first: Option<C>, maxPages: Option<int>, cursors: set<C>)
    requires |cursors| <= CURSOR_SEEN_CAP + 1
    requires forall k :: 0 <= k < |replies| ==> replies[k].cursor == None || replies[k].cursor.value in cursors
    ensures |From(replies, 0, first, maxPages).sent| <= |cursors| + 1
  {
    hide From, Repeats;
    var l := From(replies, 0, first, maxPages);
    var count := ListingShape(replies, 0, first, maxPages);
    if |l.sent| > 0 {
      DistinctFit(replies, |l.sent| - 1, cursors);
    }
  }

  lemma {:induction false} SeenWithin<T, C>(replies: seq<Page<T, C>>, n: nat, cursors: set<C>)
    requires n <= |replies|
    requires forall k :: 0 <= k < |replies| ==> replies[k].cursor == None || replies[k].cursor.value in cursors
    ensures SeenBefore(replies, n) <= cursors
    decreases n
  {
    if n > 0 {
      SeenWithin(replies, n - 1, cursors);
    }
  }

  /** A page that led on has a cursor that is neither remembered nor the one before. */
  lemma LedOnByNew<T, C>(replies: seq<Page<T, C>>, k: nat)
    requires k < |replies| && LeadsOn(replies, 0, k + 1)
    ensures replies[k].cursor.Some? && replies[k].cursor.value !in SeenBefore(replies, k)
    ensures k > 0 ==> replies[k].cursor != replies[k - 1].cursor
  {
    hide SeenBefore;
    LedOn(replies, k + 1);
  }

  lemma LedOnSoFar<T, C>(replies: seq<Page<T, C>>, m: nat, n: nat)
    requires m <= n <= |replies| && LeadsOn(replies, 0, n)
    ensures LeadsOn(replies, 0, m)
  {
    hide Repeats;
  }

  lemma DistinctFit<T, C>(replies: seq<Page<T, C>>, n: nat, cursors: set<C>)
    requires n <= |replies| && LeadsOn(replies, 0, n)
    requires |cursors| <= CURSOR_SEEN_CAP + 1
    requires forall k :: 0 <= k < |replies| ==> replies[k].cursor == None || replies[k].cursor.value in cursors
    ensures n <= |cursors|
  {
    hide SeenBefore, LeadsOn;
    if n <= CURSOR_SEEN_CAP {
      RememberedSize(replies, n);
      SeenWithin(replies, n, cursors);
      Fits(SeenBefore(replies, n), cursors);
    } else {
      FullGuardLeavesOne(replies, n, cursors);
    }
  }

  /** With a full guard one cursor may be left, and it cannot follow itself. */
  lemma FullGuardLeavesOne<T, C>(replies: seq<Page<T, C>>, n: nat, cursors: set<C>)
    requires CURSOR_SEEN_CAP < n <= |replies| && LeadsOn(replies, 0, n)
    requires |cursors| <= CURSOR_SEEN_CAP + 1
    requires forall k :: 0 <= k < |replies| ==> replies[k].cursor == None || replies[k].cursor.value in cursors
    ensures n <= |cursors|
  {
    hide SeenBefore, LeadsOn;
    var cap := CURSOR_SEEN_CAP;
    LedOnSoFar(replies, cap, n);
    LedOnSoFar(replies, cap + 1, n);
    RememberedSize(replies, cap);
    SeenWithin(replies, cap, cursors);
    LedOnByNew(replies, cap);
    var full, left := SeenBefore(replies, cap), replies[cap].cursor.value;
    Fits(full + {left}, cursors);
    SameSize(full + {left}, cursors);
    if n > cap + 1 {
      LedOnSoFar(replies, cap + 2, n);
      SeenStep(replies, cap);
      LedOnByNew(replies, cap + 1);
    }
  }

  lemma Fits<C>(a: set<C>, b: set<C>)
    requires a <= b
    ensures |a| <= |b|
  {
    assert b == a + (b - a);
  }

  lemma SameSize<C>(a: set<C>, b: set<C>)
    requires a <= b && |a| >= |b|
    ensures a == b
  {
    assert b == a + (b - a);
  }

  /**
   * The guard's limit: once 1024 cursors have been issued, a server that alternates between
   * two others is never caught. The listing goes on for as long as it replies.
   */
  lemma {:induction false} LongCycleUnnoticed<T, C>(replies: seq<Page<T, C>>, first: Option<C>, x: C, y: C)
    requires x != y
    requires forall k :: 0 <= k < |replies| && k < CURSOR_SEEN_CAP ==> replies[k].cursor !in {None, Some(x), Some(y)}
    requires forall i, j :: 0 <= i < j < |replies| && j < CURSOR_SEEN_CAP ==> replies[i].cursor != replies[j].cursor
    requires forall k :: CURSOR_SEEN_CAP <= k < |replies| ==> replies[k].cursor == Some(if k % 2 == 0 then x else y)
    ensures From(replies, 0, first, None).ending == FetchFailed
    ensures |From(replies, 0, first, None).sent| == |replies| + 1
  {
    hide From, Repeats;
    NothingRepeats(replies, x, y, |replies|);
    var count := ListingShape(replies, 0, first, None);
    assert count > 0 ==> replies[count - 1].cursor != None && !Repeats(replies, count - 1);
  }

  lemma {:induction false} NothingRepeats<T, C>(replies: seq<Page<T, C>>, x: C, y: C, n: nat)
    requires x != y && n <= |replies|
    requires forall k :: 0 <= k < |replies| && k < CURSOR_SEEN_CAP ==> replies[k].cursor !in {None, Some(x), Some(y)}
    requires forall i, j :: 0 <= i < j < |replies| && j < CURSOR_SEEN_CAP ==> replies[i].cursor != replies[j].cursor
    requires forall k :: CURSOR_SEEN_CAP <= k < |replies| ==> replies[k].cursor == Some(if k % 2 == 0 then x else y)
    ensures LeadsOn(replies, 0, n)
    decreases n
  {
    hide Repeats;
    if n > 0 {
      NothingRepeats(replies, x, y, n - 1);
      RepeatsIff(replies, n - 1);
    }
  }

  /** On a chain without repeats the items are those of all pages, or of the first `max_pages`. */
  lemma {:induction false} ChainListed<T, C>(replies: seq<Page<T, C>>, first: Option<C>, maxPages: Option<int>)
    requires replies != [] && replies[|replies| - 1].cursor == None
    requires forall k :: 0 <= k < |replies| - 1 ==> replies[k].cursor != None
    requires forall i, j :: 0 <= i < j < |replies| ==> replies[i].cursor != replies[j].cursor
    ensures var l := From(replies, 0, first, maxPages);
      if maxPages.Some? && maxPages.value < |replies| then
        var n := if maxPages.value > 0 then maxPages.value else 0;
        l.items == ItemsOf(replies, 0, n) && |l.sent| == n && l.ending == MaxPagesReached
      else
        l.items == ItemsOf(replies, 0, |replies|) && |l.sent| == |replies| && l.ending == Finished
  {
    hide From, Repeats;
    var n := |replies| - 1;
    DistinctLeadOn(replies, n);
    var count := ListingShape(replies, 0, first, maxPages);
    assert 0 < count <= n ==> !Repeats(replies, count - 1);
  }

  lemma {:induction false} DistinctLeadOn<T, C>(replies: seq<Page<T, C>>, n: nat)
    requires n <= |replies|
    requires forall k :: 0 <= k < n ==> replies[k].cursor != None
    requires forall i, j :: 0 <= i < j < |replies| ==> replies[i].cursor != replies[j].cursor
    ensures LeadsOn(replies, 0, n)
    decreases n
  {
    hide Repeats;
    if n > 0 {
      DistinctLeadOn(replies, n - 1);
      RepeatsIff(replies, n - 1);
    }
  }
}
