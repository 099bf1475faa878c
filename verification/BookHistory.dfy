/**
 * The books over whole histories of messages, removals and clears, and what replaying does.
 */
module BookHistory {
  import opened Wrappers
  import opened BookLog
  import opened BookView
  import opened OrderBook

  // ---------------------------------------------------------------- histories

  datatype Event = Received(msg: Message) | Removed(symbol: string) | Cleared

  function EventSteps(e: Event): seq<Step> {
    match e
    case Received(msg) => MessageSteps(msg)
    case Removed(symbol) => [Drop(symbol)]
    case Cleared => [DropAll]
  }

  /** The books after a history, starting from none. */
  function After(events: seq<Event>): Books {
    if events == [] then map[] else Play(After(events[..|events| - 1]), EventSteps(events[|events| - 1]))
  }

  function Log(events: seq<Event>): seq<Step> {
    if events == [] then [] else Log(events[..|events| - 1]) + EventSteps(events[|events| - 1])
  }

  /** Message by message the books are those of the whole log. */
  lemma {:induction false} AfterIsLog(events: seq<Event>)
    ensures After(events) == Play(map[], Log(events))
    decreases |events|
  {
    if events != [] {
      AfterIsLog(events[..|events| - 1]);
      PlayAppend(map[], Log(events[..|events| - 1]), EventSteps(events[|events| - 1]));
    }
  }

  predicate IsSnapshotOf(e: Event, symbol: string) {
    e.Received? && e.msg.Snapshot? && e.msg.symbol == Some(symbol)
  }

  predicate EndsBook(e: Event, symbol: string) {
    e == Cleared || e == Removed(symbol)
  }

  /** Read backwards: has there been a snapshot of the market since it was last removed or cleared? */
  predicate SnapshotSinceDropped(events: seq<Event>, symbol: string) {
    events != [] &&
    var last := events[|events| - 1];
    IsSnapshotOf(last, symbol) || (!EndsBook(last, symbol) && SnapshotSinceDropped(events[..|events| - 1], symbol))
  }

  lemma {:induction false} StepsKeepOthers(books: Books, steps: seq<Step>, symbol: string)
    requires forall i :: 0 <= i < |steps| ==> steps[i].Write? || (steps[i].Seed? && steps[i].symbol != symbol)
    ensures symbol in Play(books, steps) <==> symbol in books
    decreases |steps|
  {
    if steps != [] {
      StepsKeepOthers(books, steps[..|steps| - 1], symbol);
    }
  }

  lemma {:induction false} SnapshotWrites(symbol: string, entries: seq<SnapshotEntry>)
    ensures AllWrites(SnapshotSteps(symbol, entries))
    decreases |entries|
  {
    hide SideOf;
    if entries != [] {
      SnapshotWrites(symbol, entries[..|entries| - 1]);
    }
  }

  /** What one event does to whether a market has a book. */
  lemma {:induction false} EventSeeds(books: Books, e: Event, symbol: string)
    ensures symbol in Play(books, EventSteps(e)) <==> IsSnapshotOf(e, symbol) || (!EndsBook(e, symbol) && symbol in books)
  {
    hide Play, SnapshotSteps, IncrementalSteps;
    match e {
      case Received(Snapshot(Some(s), entries)) =>
        SnapshotWrites(s, entries);
        PlayAppend(books, [Seed(s)], SnapshotSteps(s, entries));
        SeedOnly(books, s);
        StepsKeepOthers(books[s := EMPTY], SnapshotSteps(s, entries), symbol);
      case Received(Incremental(changes)) =>
        OnlyWrites(changes);
        StepsKeepOthers(books, IncrementalSteps(changes), symbol);
      case Received(_) => NoSteps(books);
      case Removed(s) => PlayOne(books, [], Drop(s)); NoSteps(books); assert [] + [Drop(s)] == [Drop(s)];
      case Cleared => PlayOne(books, [], DropAll); assert [] + [DropAll] == [DropAll];
    }
  }

  lemma {:induction false} NoSteps(books: Books)
    ensures Play(books, []) == books
  {
  }

  lemma {:induction false} SeedOnly(books: Books, symbol: string)
    ensures Play(books, [Seed(symbol)]) == books[symbol := EMPTY]
  {
    assert [] + [Seed(symbol)] == [Seed(symbol)];
    PlayOne(books, [], Seed(symbol));
  }

  /** `get` finds a book exactly if there was a snapshot since the last remove or clear. */
  lemma {:induction false} BookIffSnapshot(events: seq<Event>, symbol: string)
    ensures symbol in After(events) <==> SnapshotSinceDropped(events, symbol)
    decreases |events|
  {
    hide Play;
    if events != [] {
      BookIffSnapshot(events[..|events| - 1], symbol);
      EventSeeds(After(events[..|events| - 1]), events[|events| - 1], symbol);
    }
  }

  // ---------------------------------------------------------------- sizes are positive

  predicate WritesPositive(steps: seq<Step>) {
    forall i :: 0 <= i < |steps| ==> steps[i].Write? && steps[i].size.Some? ==> steps[i].size.value > 0.0
  }

  ghost predicate SizesPositive(books: Books) {
    forall symbol :: symbol in books ==> BookPositive(books[symbol])
  }

  predicate BookPositive(book: Book) {
    && (forall p :: p in book.bids ==> book.bids[p] > 0.0)
    && (forall p :: p in book.offers ==> book.offers[p] > 0.0)
  }

  lemma {:induction false} PlayPositive(books: Books, steps: seq<Step>)
    requires SizesPositive(books) && WritesPositive(steps)
    ensures SizesPositive(Play(books, steps))
    decreases |steps|
  {
    if steps != [] {
      PlayPositive(books, steps[..|steps| - 1]);
    }
  }

  lemma {:induction false} SnapshotPositive(symbol: string, entries: seq<SnapshotEntry>)
    ensures WritesPositive(SnapshotSteps(symbol, entries))
    decreases |entries|
  {
    hide SideOf;
    if entries != [] {
      SnapshotPositive(symbol, entries[..|entries| - 1]);
    }
  }

  lemma {:induction false} IncrementalPositive(entries: seq<IncrementalEntry>)
    ensures WritesPositive(IncrementalSteps(entries))
    decreases |entries|
  {
    hide SideOf;
    if entries != [] {
      IncrementalPositive(entries[..|entries| - 1]);
    }
  }

  lemma EventPositive(e: Event)
    ensures WritesPositive(EventSteps(e))
  {
    hide SnapshotSteps, IncrementalSteps;
    match e {
      case Received(Snapshot(Some(s), entries)) => SnapshotPositive(s, entries);
      case Received(Incremental(changes)) => IncrementalPositive(changes);
      case _ =>
    }
  }

  /** Whatever is received, every size in every book is positive. */
  lemma {:induction false} AlwaysPositive(events: seq<Event>)
    ensures SizesPositive(After(events))
    decreases |events|
  {
    hide Play, SizesPositive;
    if events == [] {
      NoBooks();
    } else {
      AlwaysPositive(events[..|events| - 1]);
      EventPositive(events[|events| - 1]);
      PlayPositive(After(events[..|events| - 1]), EventSteps(events[|events| - 1]));
    }
  }

  lemma NoBooks()
    ensures SizesPositive(map[])
  {
  }

  // ---------------------------------------------------------------- replaying incrementals

  lemma {:induction false} StepsSplit(xs: seq<IncrementalEntry>, ys: seq<IncrementalEntry>)
    ensures IncrementalSteps(xs + ys) == IncrementalSteps(xs) + IncrementalSteps(ys)
    decreases |ys|
  {
    hide IncrementalSteps, IncrementalStep, Listed;
    if ys == [] {
      NothingSplit(xs);
    } else {
      var most, last := ys[..|ys| - 1], ys[|ys| - 1];
      StepsSplit(xs, most);
      SplitOneMore(xs, most, last);
      assert ys == most + [last];
    }
  }

  lemma {:induction false} NothingSplit(xs: seq<IncrementalEntry>)
    ensures IncrementalSteps(xs + []) == IncrementalSteps(xs) + IncrementalSteps([])
  {
    assert xs + [] == xs;
  }

  lemma {:induction false} SplitOneMore(xs: seq<IncrementalEntry>, ys: seq<IncrementalEntry>, e: IncrementalEntry)
    requires IncrementalSteps(xs + ys) == IncrementalSteps(xs) + IncrementalSteps(ys)
    ensures IncrementalSteps(xs + (ys + [e])) == IncrementalSteps(xs) + IncrementalSteps(ys + [e])
  {
    hide IncrementalSteps, IncrementalStep;
    assert xs + (ys + [e]) == (xs + ys) + [e];
    StepsOneMore(ys, e);
    StepsOneMore(xs + ys, e);
  }

  lemma {:induction false} StepsOneMore(entries: seq<IncrementalEntry>, e: IncrementalEntry)
    ensures IncrementalSteps(entries + [e]) == IncrementalSteps(entries) + Listed(IncrementalStep(e))
  {
    assert (entries + [e])[..|entries|] == entries;
  }

  lemma {:induction false} AppliedSplit(books: Books, xs: seq<IncrementalEntry>, ys: seq<IncrementalEntry>)
    ensures Applied(books, xs + ys) == Applied(books, xs) + Applied(books, ys)
    decreases |ys|
  {
    hide IncrementalStep;
    if ys == [] {
      assert xs + ys == xs;
    } else {
      var most := ys[..|ys| - 1];
      AppliedSplit(books, xs, most);
      assert (xs + ys)[..|xs + ys| - 1] == xs + most;
    }
  }

  lemma {:induction false} AppliedByKeys(a: Books, b: Books, entries: seq<IncrementalEntry>)
    requires a.Keys == b.Keys
    ensures Applied(a, entries) == Applied(b, entries)
    decreases |entries|
  {
    hide IncrementalStep;
    if entries != [] {
      AppliedByKeys(a, b, entries[..|entries| - 1]);
      assert entries[|entries| - 1].symbol in a.Keys <==> entries[|entries| - 1].symbol in b.Keys;
    }
  }

  /** One incremental or its entries in two: the same books, and the counts add up. */
  lemma {:induction false} SplitIncremental(books: Books, xs: seq<IncrementalEntry>, ys: seq<IncrementalEntry>)
    ensures
      var between := Play(books, MessageSteps(Incremental(xs)));
      Play(books, MessageSteps(Incremental(xs + ys))) == Play(between, MessageSteps(Incremental(ys))) &&
      Applied(books, xs + ys) == Applied(books, xs) + Applied(between, ys)
  {
    hide Play, Applied, IncrementalSteps;
    StepsSplit(xs, ys);
    PlayAppend(books, IncrementalSteps(xs), IncrementalSteps(ys));
    AppliedSplit(books, xs, ys);
    OnlyWrites(xs);
    LevelAfter(books, IncrementalSteps(xs), "", Bid, 0.0);
    AppliedByKeys(books, Play(books, IncrementalSteps(xs)), ys);
  }

  /** An incremental applied again changes nothing, and counts the same. */
  lemma {:induction false} RepeatedIncremental(books: Books, entries: seq<IncrementalEntry>)
    ensures
      var once := Play(books, MessageSteps(Incremental(entries)));
      Play(once, MessageSteps(Incremental(entries))) == once &&
      Applied(once, entries) == Applied(books, entries)
  {
    hide Play, Applied, IncrementalSteps;
    OnlyWrites(entries);
    PlayTwice(books, IncrementalSteps(entries));
    LevelAfter(books, IncrementalSteps(entries), "", Bid, 0.0);
    AppliedByKeys(books, Play(books, IncrementalSteps(entries)), entries);
  }

  // ---------------------------------------------------------------- replaying a view

  /** The view's levels as the entries of a snapshot message. */
  function ViewEntries(view: MarketDataBook): seq<SnapshotEntry> {
    seq(|view.bids|, i requires 0 <= i < |view.bids| => SnapshotEntry(BID, Some(view.bids[i].price), Some(view.bids[i].size))) +
    seq(|view.offers|, i requires 0 <= i < |view.offers| => SnapshotEntry(OFFER, Some(view.offers[i].price), Some(view.offers[i].size)))
  }

  predicate Quotes(entries: seq<SnapshotEntry>, i: int, side: Side, price: real) {
    0 <= i < |entries| && SideOf(entries[i].entryType) == Some(side) && entries[i].px == Some(price)
  }

  /** The entries list levels of the book only, in any order, all of them with positive sizes. */
  ghost predicate ListsLevels(entries: seq<SnapshotEntry>, book: Book) {
    forall i :: 0 <= i < |entries| ==> ListsLevel(entries[i], book)
  }

  predicate ListsLevel(e: SnapshotEntry, book: Book) {
    SideOf(e.entryType).Some? && e.px.Some? && Positive(e.size).Some? && book.At(SideOf(e.entryType).value, e.px.value) == e.size
  }

  lemma {:induction false} QuotesLeft(symbol: string, entries: seq<SnapshotEntry>, book: Book, side: Side, price: real)
    requires ListsLevels(entries, book)
    ensures Left(SnapshotSteps(symbol, entries), symbol, side, price) ==
      if exists i :: Quotes(entries, i, side, price) then Some(book.At(side, price)) else None
    decreases |entries|
  {
    if entries != [] {
      hide SideOf, Book.At, Positive;
      var earlier, last := entries[..|entries| - 1], entries[|entries| - 1];
      QuotesLeft(symbol, earlier, book, side, price);
      assert ListsLevel(last, book);
      assert entries == earlier + [last];
      QuotesOneMore(earlier, last, side, price);
      LeftOneMore(SnapshotSteps(symbol, earlier), SnapshotStep(symbol, last).value, symbol, side, price);
    }
  }

  lemma QuotesOneMore(entries: seq<SnapshotEntry>, e: SnapshotEntry, side: Side, price: real)
    ensures (exists i :: Quotes(entries + [e], i, side, price)) <==>
      (exists i :: Quotes(entries, i, side, price)) || (SideOf(e.entryType) == Some(side) && e.px == Some(price))
  {
    hide SideOf;
    var all := entries + [e];
    forall i | 0 <= i < |entries|
      ensures Quotes(all, i, side, price) <==> Quotes(entries, i, side, price)
    {
      assert all[i] == entries[i];
    }
    assert Quotes(all, |entries|, side, price) <==> SideOf(e.entryType) == Some(side) && e.px == Some(price);
  }

  lemma {:induction false} LeftOneMore(steps: seq<Step>, step: Step, symbol: string, side: Side, price: real)
    requires step.Write?
    ensures Left(steps + [step], symbol, side, price) ==
      if step.symbol == symbol && step.side == side && step.price == price then Some(step.size) else Left(steps, symbol, side, price)
  {
    assert (steps + [step])[..|steps|] == steps;
  }

  lemma ViewQuotes(symbol: string, book: Book, side: Side, price: real)
    requires BookPositive(book)
    ensures
      var entries := ViewEntries(ToView(symbol, book));
      ListsLevels(entries, book) && (book.At(side, price).Some? ==> exists i :: Quotes(entries, i, side, price))
  {
    hide ToView;
    ViewSorted(symbol, book);
    var view := ToView(symbol, book);
    var entries := ViewEntries(view);
    forall i | 0 <= i < |entries|
      ensures ListsLevel(entries[i], book)
    {
    }
    if book.At(side, price).Some? {
      if side == Bid {
        var i :| Holds(view.bids, i, price, book.bids[price]);
        assert Quotes(entries, i, side, price);
      } else {
        var i :| Holds(view.offers, i, price, book.offers[price]);
        assert Quotes(entries, |view.bids| + i, side, price);
      }
    }
  }

  /** A view sent back as a snapshot into a fresh set of books gives the same book again. */
  lemma ViewReplays(symbol: string, book: Book)
    requires BookPositive(book)
    ensures Play(map[], MessageSteps(Snapshot(Some(symbol), ViewEntries(ToView(symbol, book))))) == map[symbol := book]
  {
    hide Play, Left, SnapshotSteps, ToView, ViewEntries, BookPositive;
    var entries := ViewEntries(ToView(symbol, book));
    var steps := SnapshotSteps(symbol, entries);
    var seeded := map[symbol := EMPTY];
    PlayAppend(map[], [Seed(symbol)], steps);
    SeedOnly(map[], symbol);
    SnapshotWrites(symbol, entries);
    var replayed := Play(seeded, steps);
    LevelAfter(seeded, steps, symbol, Bid, 0.0);
    assert symbol in replayed.Keys;
    forall side, price
      ensures replayed[symbol].At(side, price) == book.At(side, price)
    {
      LevelAfter(seeded, steps, symbol, side, price);
      ViewQuotes(symbol, book, side, price);
      QuotesLeft(symbol, entries, book, side, price);
      QuotedAt(entries, book, side, price);
    }
    SameBook(replayed[symbol], book);
  }

  /** A level that is quoted, or one that is not there. */
  lemma QuotedAt(entries: seq<SnapshotEntry>, book: Book, side: Side, price: real)
    requires book.At(side, price).Some? ==> exists i :: Quotes(entries, i, side, price)
    ensures !(exists i :: Quotes(entries, i, side, price)) ==> book.At(side, price) == None && EMPTY.At(side, price) == None
  {
  }
}
