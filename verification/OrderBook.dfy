/** Reconstruction of market books from snapshots and incremental refreshes. */
module OrderBook {
  import opened Wrappers
  import opened BookLog
  import opened BookView

  datatype SnapshotEntry = SnapshotEntry(entryType: string, px: Option<real>, size: Option<real>)

  datatype IncrementalEntry =
    IncrementalEntry(action: string, symbol: string, entryType: string, px: Option<real>, size: Option<real>)

  datatype Message =
    | Snapshot(symbol: Option<string>, entries: seq<SnapshotEntry>)
    | Incremental(changes: seq<IncrementalEntry>)
    | Other

  const BID := "0"
  const OFFER := "1"
  const CHANGE := "1"
  const DELETE := "2"

  function SideOf(entryType: string): Option<Side> {
    if entryType == BID then Some(Bid) else if entryType == OFFER then Some(Offer) else None
  }

  /** The size only if it is positive. */
  function Positive(size: Option<real>): Option<real> {
    if size.Some? && size.value > 0.0 then size else None
  }

  // ---------------------------------------------------------------- messages as steps

  /** A snapshot entry writes its level; one without a positive size writes nothing at all. */
  function SnapshotStep(symbol: string, e: SnapshotEntry): Option<Step> {
    if SideOf(e.entryType).Some? && e.px.Some? && Positive(e.size).Some? then
      Some(Write(symbol, SideOf(e.entryType).value, e.px.value, e.size))
    else None
  }

  /** A change or deletion writes its level; an entry that is neither writes nothing. */
  function IncrementalStep(e: IncrementalEntry): Option<Step> {
    if SideOf(e.entryType).Some? && e.px.Some? && (e.action == DELETE || e.action == CHANGE) then
      Some(Write(e.symbol, SideOf(e.entryType).value, e.px.value, if e.action == DELETE then None else Positive(e.size)))
    else None
  }

  function SnapshotSteps(symbol: string, entries: seq<SnapshotEntry>): seq<Step> {
    if entries == [] then []
    else SnapshotSteps(symbol, entries[..|entries| - 1]) + Listed(SnapshotStep(symbol, entries[|entries| - 1]))
  }

  function IncrementalSteps(entries: seq<IncrementalEntry>): seq<Step> {
    if entries == [] then []
    else IncrementalSteps(entries[..|entries| - 1]) + Listed(IncrementalStep(entries[|entries| - 1]))
  }

  function MessageSteps(msg: Message): seq<Step> {
    match msg
    case Snapshot(symbol, entries) =>
      if symbol == None then [] else [Seed(symbol.value)] + SnapshotSteps(symbol.value, entries)
    case Incremental(changes) => IncrementalSteps(changes)
    case Other => []
  }

  /** How many entries of an incremental are applied to the books. */
  function Applied(books: Books, entries: seq<IncrementalEntry>): nat {
    if entries == [] then 0
    else
      var last := entries[|entries| - 1];
      Applied(books, entries[..|entries| - 1]) + (if last.symbol in books && IncrementalStep(last).Some? then 1 else 0)
  }

  /** The book a snapshot makes. */
  function SnapshotBook(entries: seq<SnapshotEntry>): Book {
    if entries == [] then EMPTY
    else
      var book, e := SnapshotBook(entries[..|entries| - 1]), entries[|entries| - 1];
      if SideOf(e.entryType).Some? && e.px.Some? && Positive(e.size).Some?
      then book.Written(SideOf(e.entryType).value, e.px.value, e.size)
      else book
  }

  lemma {:induction false} SnapshotBookOneMore(entries: seq<SnapshotEntry>, e: SnapshotEntry)
    ensures SnapshotBook(entries + [e]) ==
      if SideOf(e.entryType).Some? && e.px.Some? && Positive(e.size).Some?
      then SnapshotBook(entries).Written(SideOf(e.entryType).value, e.px.value, e.size)
      else SnapshotBook(entries)
  {
    hide SideOf, Book.Written;
    assert (entries + [e])[..|entries|] == entries;
  }

  lemma {:induction false} SnapshotReplaces(books: Books, symbol: string, entries: seq<SnapshotEntry>)
    ensures Play(books, [Seed(symbol)] + SnapshotSteps(symbol, entries)) == books[symbol := SnapshotBook(entries)]
    decreases |entries|
  {
    hide SideOf, Book.Written, Play;
    if entries == [] {
      assert [Seed(symbol)] + [] == [] + [Seed(symbol)];
      PlayOne(books, [], Seed(symbol));
      PlayNothing(books);
    } else {
      var earlier, last := entries[..|entries| - 1], entries[|entries| - 1];
      SnapshotReplaces(books, symbol, earlier);
      var steps := SnapshotSteps(symbol, earlier);
      var step := SnapshotStep(symbol, last);
      hide SnapshotSteps;
      if step.Some? {
        assert [Seed(symbol)] + (steps + [step.value]) == ([Seed(symbol)] + steps) + [step.value];
        PlayOne(books, [Seed(symbol)] + steps, step.value);
      } else {
        assert steps + [] == steps;
      }
    }
  }

  lemma {:induction false} PlayNothing(books: Books)
    ensures Play(books, []) == books
  {
  }

  lemma {:induction false} NothingYet(books: Books)
    ensures Play(books, IncrementalSteps([])) == books && Applied(books, []) == 0
  {
  }

  lemma {:induction false} IncrementalOneMore(books: Books, entries: seq<IncrementalEntry>, e: IncrementalEntry)
    ensures Play(books, IncrementalSteps(entries + [e])) ==
      if IncrementalStep(e).Some? then Take(Play(books, IncrementalSteps(entries)), IncrementalStep(e).value)
      else Play(books, IncrementalSteps(entries))
    ensures Applied(books, entries + [e]) ==
      Applied(books, entries) + (if e.symbol in books && IncrementalStep(e).Some? then 1 else 0)
    ensures Play(books, IncrementalSteps(entries)).Keys == books.Keys
  {
    hide SideOf, Play;
    var steps := IncrementalSteps(entries);
    assert (entries + [e])[..|entries|] == entries;
    if IncrementalStep(e).Some? {
      PlayOne(books, steps, IncrementalStep(e).value);
    } else {
      assert steps + [] == steps;
    }
    OnlyWrites(entries);
    LevelAfter(books, steps, e.symbol, Bid, 0.0);
  }

  lemma {:induction false} OnlyWrites(entries: seq<IncrementalEntry>)
    ensures AllWrites(IncrementalSteps(entries))
    decreases |entries|
  {
    hide SideOf;
    if entries != [] {
      OnlyWrites(entries[..|entries| - 1]);
    }
  }

  // ---------------------------------------------------------------- the books

  class BookState {
    const symbol: string
    var bids: Levels
    var offers: Levels

    constructor (symbol: string)
      ensures this.symbol == symbol && Levels() == EMPTY
    {
      this.symbol := symbol;
      bids, offers := map[], map[];
    }

    function Levels(): Book
      reads this
    {
      Book(bids, offers)
    }

    method Write(side: Side, price: real, size: Option<real>)
      modifies this
      ensures Levels() == old(Levels()).Written(side, price, size)
    {
      if side == Bid {
        bids := if size.Some? then bids[price := size.value] else bids - {price};
      } else {
        offers := if size.Some? then offers[price := size.value] else offers - {price};
      }
    }
  
    /** The entries of a snapshot, into a new state. */
    method Fill(entries: seq<SnapshotEntry>)
      requires Levels() == EMPTY
      modifies this
      ensures Levels() == SnapshotBook(entries)
    {
      hide SideOf, Book.Written;
      for i := 0 to |entries|
        invariant Levels() == SnapshotBook(entries[..i])
      {
        hide SnapshotBook;
        var e := entries[i];
        SnapshotBookOneMore(entries[..i], e);
        assert entries[..i + 1] == entries[..i] + [e];
        if SideOf(e.entryType) == None || e.px == None || e.size == None || e.size.value <= 0.0 {
          continue;
        }
        Write(SideOf(e.entryType).value, e.px.value, e.size);
      }
      assert entries[..|entries|] == entries;
    }
  }

  class FixOrderBook {
    var books: map<string, BookState>

    /** Every market has a state of its own. */
    ghost predicate Valid()
      reads this, books.Values
    {
      && (forall s :: s in books ==> books[s].symbol == s)
      && (forall s, t :: s in books && t in books && s != t ==> books[s] != books[t])
    }

    ghost function Books(): Books
      reads this, books.Values
    {
      map s | s in books :: books[s].Levels()
    }

    constructor ()
      ensures Valid() && Books() == map[]
    {
      books := map[];
    }

    method ApplySnapshot(symbol: Option<string>, entries: seq<SnapshotEntry>)
      requires Valid()
      modifies this
      ensures Valid() && forall s :: s in books ==> (s in old(books) && books[s] == old(books[s])) || fresh(books[s])
      ensures Books() == Play(old(Books()), MessageSteps(Snapshot(symbol, entries)))
    {
      if symbol == None {
        return;
      }
      hide SideOf, Play, SnapshotSteps, SnapshotBook, Book.Written;
      ghost var before := Books();
      var state := new BookState(symbol.value);
      state.Fill(entries);
      SnapshotReplaces(before, symbol.value, entries);
      Install(state);
    }

    method Install(state: BookState)
      requires Valid() && state !in books.Values
      modifies this
      ensures Valid() && books == old(books)[state.symbol := state]
      ensures Books() == old(Books())[state.symbol := state.Levels()]
    {
      books := books[state.symbol := state];
    }

    method ApplyIncremental(entries: seq<IncrementalEntry>) returns (applied: nat)
      requires Valid()
      modifies books.Values
      ensures Valid() && books == old(books)
      ensures Books() == Play(old(Books()), MessageSteps(Incremental(entries)))
      ensures applied == Applied(old(Books()), entries)
    {
      hide SideOf, Play, IncrementalSteps, Applied, Book.Written;
      applied := 0;
      ghost var before := Books();
      NothingYet(before);
      for i := 0 to |entries|
        invariant Valid() && books == old(books)
        invariant Books() == Play(before, IncrementalSteps(entries[..i]))
        invariant applied == Applied(before, entries[..i])
      {
        var e := entries[i];
        IncrementalOneMore(before, entries[..i], e);
        assert entries[..i + 1] == entries[..i] + [e];
        if e.symbol !in books || SideOf(e.entryType) == None || e.px == None {
          continue;
        }
        var side := SideOf(e.entryType).value;
        if e.action == DELETE {
          WriteLevel(e.symbol, side, e.px.value, None);
        } else if e.action == CHANGE {
          if e.size == None || e.size.value <= 0.0 {
            WriteLevel(e.symbol, side, e.px.value, None);
          } else {
            WriteLevel(e.symbol, side, e.px.value, e.size);
          }
        } else {
          continue;
        }
        applied := applied + 1;
      }
      assert entries[..|entries|] == entries;
    }

    method WriteLevel(symbol: string, side: Side, price: real, size: Option<real>)
      requires Valid() && symbol in books
      modifies books[symbol]
      ensures Valid() && books == old(books)
      ensures Books() == Take(old(Books()), Step.Write(symbol, side, price, size))
    {
      hide Book.Written;
      books[symbol].Write(side, price, size);
      assert Books() == old(Books())[symbol := books[symbol].Levels()];
    }

    method Apply(msg: Message)
      requires Valid()
      modifies this, books.Values
      ensures Valid()
      ensures Books() == Play(old(Books()), MessageSteps(msg))
    {
      match msg {
        case Snapshot(symbol, entries) => ApplySnapshot(symbol, entries);
        case Incremental(entries) => var _ := ApplyIncremental(entries);
        case Other =>
      }
    }

    method Get(symbol: string) returns (view: Option<MarketDataBook>)
      ensures view == if symbol in Books() then Some(ToView(symbol, Books()[symbol])) else None
    {
      if symbol in books {
        return Some(ToView(symbol, books[symbol].Levels()));
      }
      return None;
    }

    method Symbols() returns (symbols: set<string>)
      ensures symbols == Books().Keys
    {
      symbols := books.Keys;
    }

    method Remove(symbol: string)
      requires Valid()
      modifies this
      ensures Valid() && Books() == Play(old(Books()), [Drop(symbol)])
    {
      books := books - {symbol};
    }

    method Clear()
      modifies this
      ensures Valid() && Books() == Play(old(Books()), [DropAll])
    {
      books := map[];
    }
  }
}
