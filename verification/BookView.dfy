/** The sorted view of a market's book. */
module BookView {
  import opened BookLog

  datatype BookLevel = BookLevel(price: real, size: real)

  datatype MarketDataBook = MarketDataBook(symbol: string, bids: seq<BookLevel>, offers: seq<BookLevel>)

  predicate IsLeast(levels: Levels, p: real) {
    p in levels && forall q :: q in levels ==> p <= q
  }

  lemma {:induction false} LeastExists(levels: Levels)
    requires levels != map[]
    ensures exists p :: IsLeast(levels, p)
    decreases |levels|
  {
    assert (forall p :: p !in levels) ==> levels == map[];
    var p :| p in levels;
    var others := levels - {p};
    assert forall q :: q in levels ==> q == p || q in others;
    if others == map[] {
      assert forall q :: q in levels ==> q !in others;
      assert IsLeast(levels, p);
    } else {
      LeastExists(others);
      var least :| IsLeast(others, least);
      assert IsLeast(levels, if least < p then least else p);
    }
  }

  /** The levels in ascending order of price. */
  function Ascending(levels: Levels): seq<BookLevel>
    decreases |levels|
  {
    if levels == map[] then []
    else
      LeastExists(levels);
      var p :| IsLeast(levels, p);
      [BookLevel(p, levels[p])] + Ascending(levels - {p})
  }

  function Reversed<T>(s: seq<T>): seq<T> {
    seq(|s|, i requires 0 <= i < |s| => s[|s| - 1 - i])
  }

  function ToView(symbol: string, book: Book): MarketDataBook {
    MarketDataBook(symbol, Reversed(Ascending(book.bids)), Ascending(book.offers))
  }

  predicate Holds(view: seq<BookLevel>, i: int, price: real, size: real) {
    0 <= i < |view| && view[i] == BookLevel(price, size)
  }

  /** The list shows exactly the levels. */
  ghost predicate Shows(view: seq<BookLevel>, levels: Levels) {
    && (forall i :: 0 <= i < |view| ==> view[i].price in levels && levels[view[i].price] == view[i].size)
    && (forall p :: p in levels ==> exists i :: Holds(view, i, p, levels[p]))
  }

  predicate Ascends(view: seq<BookLevel>) {
    forall i, j :: 0 <= i < j < |view| ==> view[i].price < view[j].price
  }

  lemma {:induction false} AscendingShows(levels: Levels)
    ensures Shows(Ascending(levels), levels) && Ascends(Ascending(levels))
    decreases |levels|
  {
    if levels != map[] {
      LeastExists(levels);
      var p :| IsLeast(levels, p) && Ascending(levels) == [BookLevel(p, levels[p])] + Ascending(levels - {p});
      assert p in levels;
      AscendingShows(levels - {p});
      hide Ascending, Shows, Ascends, IsLeast;
      LeastInFrontShows(levels, p, Ascending(levels - {p}));
      LeastInFrontAscends(levels, p, Ascending(levels - {p}));
    }
  }

  lemma LeastInFrontShows(levels: Levels, p: real, view: seq<BookLevel>)
    requires p in levels && Shows(view, levels - {p})
    ensures Shows([BookLevel(p, levels[p])] + view, levels)
  {
    var longer := [BookLevel(p, levels[p])] + view;
    forall q | q in levels
      ensures exists i :: Holds(longer, i, q, levels[q])
    {
      HoldsInLonger(levels, p, view, q);
    }
  }

  lemma HoldsInLonger(levels: Levels, p: real, view: seq<BookLevel>, q: real)
    requires p in levels && q in levels && Shows(view, levels - {p})
    ensures exists i :: Holds([BookLevel(p, levels[p])] + view, i, q, levels[q])
  {
    var longer := [BookLevel(p, levels[p])] + view;
    if q == p {
      assert Holds(longer, 0, q, levels[q]);
    } else {
      assert q in levels - {p};
      var i :| Holds(view, i, q, levels[q]);
      assert Holds(longer, i + 1, q, levels[q]);
    }
  }

  lemma LeastInFrontAscends(levels: Levels, p: real, view: seq<BookLevel>)
    requires IsLeast(levels, p) && Shows(view, levels - {p}) && Ascends(view)
    ensures Ascends([BookLevel(p, levels[p])] + view)
  {
    assert forall i :: 0 <= i < |view| ==> p < view[i].price;
  }

  lemma ReversedShows(view: seq<BookLevel>, levels: Levels)
    requires Shows(view, levels)
    ensures Shows(Reversed(view), levels)
  {
    forall p | p in levels
      ensures exists i :: Holds(Reversed(view), i, p, levels[p])
    {
      var i :| Holds(view, i, p, levels[p]);
      assert Holds(Reversed(view), |view| - 1 - i, p, levels[p]);
    }
  }

  /** The view shows exactly the book: bids strictly descending, offers strictly ascending. */
  lemma ViewSorted(symbol: string, book: Book)
    ensures
      var view := ToView(symbol, book);
      && Shows(view.bids, book.bids) && Shows(view.offers, book.offers)
      && (forall i, j :: 0 <= i < j < |view.bids| ==> view.bids[i].price > view.bids[j].price)
      && (forall i, j :: 0 <= i < j < |view.offers| ==> view.offers[i].price < view.offers[j].price)
  {
    hide Ascending, Shows;
    AscendingShows(book.bids);
    AscendingShows(book.offers);
    ReversedShows(Ascending(book.bids), book.bids);
  }
}
