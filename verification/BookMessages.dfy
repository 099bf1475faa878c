/**
 * What snapshots and incremental refreshes do to single price levels, read off the messages'
 * own entries: the wire's codes, prices and sizes.
 */
module BookMessages {
  import opened BookHistory
  import opened BookLog
  import opened OrderBook
  import opened Wrappers

  /** The side of the book an entry type stands for on the wire. */
  predicate OnSide(entryType: string, side: Side) {
    if side == Bid then entryType == "0" else entryType == "1"
  }

  predicate PositiveSize(size: Option<real>) { size.Some? && size.value > 0.0 }

  lemma SideOfIs(entryType: string, side: Side)
    ensures OnSide(entryType, side) <==> SideOf(entryType) == Some(side)
    ensures entryType != "0" && entryType != "1" <==> SideOf(entryType) == None
  {
    assert "0"[0] != "1"[0];
  }

  // ---------------------------------------------------------------- incrementals

  /** An entry that decides on a level: a change ("1") or deletion ("2") of it. */
  predicate Decides(e: IncrementalEntry, symbol: string, side: Side, price: real) {
    e.symbol == symbol && OnSide(e.entryType, side) && e.px == Some(price) && (e.action == "1" || e.action == "2")
  }

  /** What it decides: no level after a deletion, or a change to no positive size; else its size. */
  function Decision(e: IncrementalEntry): Option<real> {
    if e.action == "2" then None else if PositiveSize(e.size) then e.size else None
  }

  predicate LastDecides(entries: seq<IncrementalEntry>, i: int, symbol: string, side: Side, price: real) {
    && 0 <= i < |entries| && Decides(entries[i], symbol, side, price)
    && forall j :: i < j < |entries| ==> !Decides(entries[j], symbol, side, price)
  }

  /** The step an entry is, level by level. */
  lemma EntryDecides(e: IncrementalEntry, symbol: string, side: Side, price: real)
    ensures var step := IncrementalStep(e);
      if Decides(e, symbol, side, price) then step == Some(Write(symbol, side, price, Decision(e)))
      else step.Some? ==> step.value.Write? && !Touches(step.value, symbol, side, price)
  {
    ActionsDiffer();
    SideOfIs(e.entryType, Bid);
    SideOfIs(e.entryType, Offer);
    hide SideOf;
  }

  lemma ActionsDiffer()
    ensures "1" != "2" && CHANGE == "1" && DELETE == "2"
  {
    assert "1"[0] != "2"[0];
  }

  /** The decision of the last entry that decides, if any does. */
  function Decided(entries: seq<IncrementalEntry>, symbol: string, side: Side, price: real): Option<Option<real>> {
    if entries == [] then None
    else
      var last := entries[|entries| - 1];
      if Decides(last, symbol, side, price) then Some(Decision(last))
      else Decided(entries[..|entries| - 1], symbol, side, price)
  }

  lemma {:induction false} DecidedIs(entries: seq<IncrementalEntry>, symbol: string, side: Side, price: real)
    ensures forall i :: LastDecides(entries, i, symbol, side, price) ==>
      Decided(entries, symbol, side, price) == Some(Decision(entries[i]))
    ensures (forall i :: 0 <= i < |entries| ==> !Decides(entries[i], symbol, side, price)) ==>
      Decided(entries, symbol, side, price) == None
    decreases |entries|
  {
    hide Decides, Decision;
    if entries != [] {
      var front, n := entries[..|entries| - 1], |entries| - 1;
      DecidedIs(front, symbol, side, price);
      assert forall i :: 0 <= i < n ==> front[i] == entries[i];
      assert forall i :: LastDecides(entries, i, symbol, side, price) ==> i == n || LastDecides(front, i, symbol, side, price);
    }
  }

  lemma {:induction false} LeftIsDecided(entries: seq<IncrementalEntry>, symbol: string, side: Side, price: real)
    ensures Left(IncrementalSteps(entries), symbol, side, price) == Decided(entries, symbol, side, price)
    decreases |entries|
  {
    hide Decides, Decision, IncrementalStep;
    if entries != [] {
      var front, last := entries[..|entries| - 1], entries[|entries| - 1];
      LeftIsDecided(front, symbol, side, price);
      EntryDecides(last, symbol, side, price);
      var step := IncrementalStep(last);
      if step.Some? {
        LeftOneMore(IncrementalSteps(front), step.value, symbol, side, price);
      } else {
        assert IncrementalSteps(front) + [] == IncrementalSteps(front);
      }
    }
  }

  /**
   * After an incremental each level of a market that has a book is as the last entry that
   * decides on it says, and as it was if none does; and no market gains or loses its book.
   */
  lemma {:induction false} IncrementalLevel(books: Books, entries: seq<IncrementalEntry>, symbol: string, side: Side, price: real)
    requires symbol in books
    ensures var after := Play(books, MessageSteps(Incremental(entries)));
      && after.Keys == books.Keys && symbol in after
      && (forall i :: LastDecides(entries, i, symbol, side, price) ==> after[symbol].At(side, price) == Decision(entries[i]))
      && ((forall i :: 0 <= i < |entries| ==> !Decides(entries[i], symbol, side, price)) ==>
            after[symbol].At(side, price) == books[symbol].At(side, price))
  {
    OnlyWrites(entries);
    LevelAfter(books, IncrementalSteps(entries), symbol, side, price);
    LeftIsDecided(entries, symbol, side, price);
    DecidedIs(entries, symbol, side, price);
    hide Play, IncrementalSteps, Left, Decided, Decides, Decision;
    assert symbol in books.Keys;
  }

  /** An entry that is applied: its market has a book, its type and action are known, and it has a price. */
  predicate Counts(books: Books, e: IncrementalEntry) {
    && e.symbol in books && (e.entryType == "0" || e.entryType == "1") && e.px.Some?
    && (e.action == "1" || e.action == "2")
  }

  /** The number returned is that of the entries applied. */
  lemma {:induction false} CountIs(books: Books, entries: seq<IncrementalEntry>)
    ensures Applied(books, entries) == |Counted(books, entries)|
    decreases |entries|
  {
    if entries != [] {
      var front, n := entries[..|entries| - 1], |entries| - 1;
      hide Counts, IncrementalStep;
      CountIs(books, front);
      CountsIs(books, entries[n]);
      OneMoreCounted(books, front, entries[n]);
      assert entries == front + [entries[n]];
    }
  }

  function Counted(books: Books, entries: seq<IncrementalEntry>): set<int> {
    set i | 0 <= i < |entries| && Counts(books, entries[i])
  }

  lemma OneMoreCounted(books: Books, entries: seq<IncrementalEntry>, e: IncrementalEntry)
    ensures |Counted(books, entries + [e])| == |Counted(books, entries)| + (if Counts(books, e) then 1 else 0)
  {
    hide Counts;
    var some, all, n := Counted(books, entries), Counted(books, entries + [e]), |entries|;
    assert n !in some;
    assert all == if Counts(books, e) then some + {n} else some;
  }

  lemma CountsIs(books: Books, e: IncrementalEntry)
    ensures Counts(books, e) <==> e.symbol in books && IncrementalStep(e).Some?
  {
    ActionsDiffer();
    SideOfIs(e.entryType, Bid);
    hide SideOf;
  }

  // ---------------------------------------------------------------- snapshots

  /** A snapshot entry that sets a level: known type, a price, a positive size. */
  predicate Sets(e: SnapshotEntry, side: Side, price: real) {
    OnSide(e.entryType, side) && e.px == Some(price) && PositiveSize(e.size)
  }

  /** The size the last entry that sets the level gives it; those that do not set it do not clear it. */
  function SetTo(entries: seq<SnapshotEntry>, side: Side, price: real): Option<real> {
    if entries == [] then None
    else
      var last := entries[|entries| - 1];
      if Sets(last, side, price) then last.size else SetTo(entries[..|entries| - 1], side, price)
  }

  lemma EntrySets(e: SnapshotEntry, symbol: string, side: Side, price: real)
    ensures var step := SnapshotStep(symbol, e);
      if Sets(e, side, price) then step == Some(Write(symbol, side, price, e.size))
      else step.Some? ==> step.value.Write? && !Touches(step.value, symbol, side, price)
  {
    SideOfIs(e.entryType, Bid);
    SideOfIs(e.entryType, Offer);
    hide SideOf;
  }

  lemma {:induction false} LeftIsSet(symbol: string, entries: seq<SnapshotEntry>, side: Side, price: real)
    ensures Left(SnapshotSteps(symbol, entries), symbol, side, price) ==
      if SetTo(entries, side, price).Some? then Some(SetTo(entries, side, price)) else None
    decreases |entries|
  {
    hide Sets, SnapshotStep;
    if entries != [] {
      var front, last := entries[..|entries| - 1], entries[|entries| - 1];
      LeftIsSet(symbol, front, side, price);
      EntrySets(last, symbol, side, price);
      SetsPositive(last, side, price);
      var step := SnapshotStep(symbol, last);
      if step.Some? {
        LeftOneMore(SnapshotSteps(symbol, front), step.value, symbol, side, price);
      } else {
        assert SnapshotSteps(symbol, front) + [] == SnapshotSteps(symbol, front);
      }
    }
  }

  lemma SetsPositive(e: SnapshotEntry, side: Side, price: real)
    ensures Sets(e, side, price) ==> e.size.Some?
  {
  }

  /** After a snapshot its market has exactly the levels its entries set, and no other market has changed. */
  lemma {:induction false} SnapshotLevel(books: Books, symbol: string, entries: seq<SnapshotEntry>, side: Side, price: real)
    ensures var after := Play(books, MessageSteps(Snapshot(Some(symbol), entries)));
      && symbol in after && after[symbol].At(side, price) == SetTo(entries, side, price)
      && forall other :: other != symbol ==> Agree(after, books, other)
  {
    hide Play, SnapshotSteps, Left, SetTo;
    PlayAppend(books, [Seed(symbol)], SnapshotSteps(symbol, entries));
    SeedOnly(books, symbol);
    SnapshotWrites(symbol, entries);
    LevelAfter(books[symbol := EMPTY], SnapshotSteps(symbol, entries), symbol, side, price);
    LeftIsSet(symbol, entries, side, price);
    SnapshotReplaces(books, symbol, entries);
    var after := Play(books, MessageSteps(Snapshot(Some(symbol), entries)));
    hide SnapshotBook;
    assert symbol in after;
  }

  /** One without a symbol changes nothing. */
  lemma {:induction false} UnnamedSnapshotIgnored(books: Books, entries: seq<SnapshotEntry>)
    ensures Play(books, MessageSteps(Snapshot(None, entries))) == books
    ensures Play(books, MessageSteps(Other)) == books
  {
  }

  // ---------------------------------------------------------------- histories

  /** A level, read backwards off the messages themselves. */
  function LevelOf(events: seq<Event>, symbol: string, side: Side, price: real): Option<real> {
    if events == [] then None
    else
      var earlier := events[..|events| - 1];
      match events[|events| - 1]
      case Cleared => None
      case Removed(s) => if s == symbol then None else LevelOf(earlier, symbol, side, price)
      case Received(Snapshot(name, entries)) =>
        if name == Some(symbol) then SetTo(entries, side, price) else LevelOf(earlier, symbol, side, price)
      case Received(Incremental(changes)) =>
        (match Decided(changes, symbol, side, price)
         case Some(decision) => decision
         case None => LevelOf(earlier, symbol, side, price))
      case Received(Other) => LevelOf(earlier, symbol, side, price)
  }

  /**
   * Over any history: a market that has a book shows, at every price, what the messages
   * since its last snapshot say last.
   */
  lemma {:induction false} BookShowsLevels(events: seq<Event>, symbol: string, side: Side, price: real)
    requires symbol in After(events)
    ensures After(events)[symbol].At(side, price) == LevelOf(events, symbol, side, price)
    decreases |events|
  {
    hide Play, Decided, SetTo, Book.At, MessageSteps;
    if events != [] {
      var earlier, last := events[..|events| - 1], events[|events| - 1];
      var books := After(earlier);
      EventKeeps(books, last, symbol);
      if symbol in books {
        BookShowsLevels(earlier, symbol, side, price);
      }
      match last {
        case Received(Snapshot(Some(s), entries)) =>
          SnapshotLevel(books, s, entries, side, price);
          assert s != symbol ==> Agree(After(events), books, symbol);
        case Received(Incremental(changes)) => IncrementalDecided(books, changes, symbol, side, price);
        case _ =>
      }
    }
  }

  lemma {:induction false} IncrementalDecided(books: Books, changes: seq<IncrementalEntry>, symbol: string, side: Side, price: real)
    requires symbol in books
    ensures var after := Play(books, MessageSteps(Incremental(changes)));
      symbol in after && after[symbol].At(side, price) ==
        match Decided(changes, symbol, side, price)
        case Some(decision) => decision
        case None => books[symbol].At(side, price)
  {
    OnlyWrites(changes);
    LevelAfter(books, IncrementalSteps(changes), symbol, side, price);
    LeftIsDecided(changes, symbol, side, price);
    hide Play, IncrementalSteps, Left, Decided;
    assert symbol in books.Keys;
  }

  /** What events that are no snapshot of a market do to its having a book, and those that carry no levels to the book. */
  lemma {:induction false} EventKeeps(books: Books, e: Event, symbol: string)
    ensures symbol in Play(books, EventSteps(e)) && !(e.Received? && e.msg.Snapshot? && e.msg.symbol == Some(symbol)) ==>
      symbol in books && e != Cleared && e != Removed(symbol)
    ensures (e.Removed? && e.symbol != symbol) || (e.Received? && e.msg.Other?) || (e.Received? && e.msg.Snapshot? && e.msg.symbol == None) ==>
      Agree(Play(books, EventSteps(e)), books, symbol)
  {
    hide Play, SnapshotSteps, IncrementalSteps;
    EventSeeds(books, e, symbol);
    NoSteps(books);
    if e.Removed? {
      PlayOne(books, [], Drop(e.symbol));
      assert [] + [Drop(e.symbol)] == [Drop(e.symbol)];
    }
  }
}
