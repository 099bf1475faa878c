/**
 * What happens to the aggregated books of all markets, as a log of single steps, and the
 * reading of one level off that log. Prices and sizes are exact decimals, here reals.
 */
module BookLog {
  import opened Wrappers

  datatype Side = Bid | Offer

  type Levels = map<real, real>

  datatype Book = Book(bids: Levels, offers: Levels)
  {
    function On(side: Side): Levels {
      if side == Bid then bids else offers
    }

    /** The size at a price, if there is a level. */
    function At(side: Side, price: real): Option<real> {
      if price in On(side) then Some(On(side)[price]) else None
    }

    /** Set a level to an absolute size, or take it away. */
    function Written(side: Side, price: real, size: Option<real>): Book {
      var levels := if size.Some? then On(side)[price := size.value] else On(side) - {price};
      if side == Bid then this.(bids := levels) else this.(offers := levels)
    }
  }

  type Books = map<string, Book>

  const EMPTY := Book(map[], map[])

  datatype Step =
    | Seed(symbol: string)
    | Write(symbol: string, side: Side, price: real, size: Option<real>)
    | Drop(symbol: string)
    | DropAll

  function Take(books: Books, step: Step): Books {
    match step
    case Seed(symbol) => books[symbol := EMPTY]
    case Write(symbol, side, price, size) =>
      if symbol in books then books[symbol := books[symbol].Written(side, price, size)] else books
    case Drop(symbol) => books - {symbol}
    case DropAll => map[]
  }

  function Play(books: Books, steps: seq<Step>): Books {
    if steps == [] then books else Take(Play(books, steps[..|steps| - 1]), steps[|steps| - 1])
  }

  lemma {:induction false} PlayOne(books: Books, steps: seq<Step>, step: Step)
    ensures Play(books, steps + [step]) == Take(Play(books, steps), step)
  {
    assert (steps + [step])[..|steps|] == steps;
  }

  lemma {:induction false} PlayAppend(books: Books, xs: seq<Step>, ys: seq<Step>)
    ensures Play(books, xs + ys) == Play(Play(books, xs), ys)
    decreases |ys|
  {
    if ys == [] {
      assert xs + ys == xs;
    } else {
      var most := ys[..|ys| - 1];
      PlayAppend(books, xs, most);
      assert xs + ys == (xs + most) + [ys[|ys| - 1]];
      PlayOne(books, xs + most, ys[|ys| - 1]);
    }
  }

  // ---------------------------------------------------------------- reading one level off the log

  predicate Ends(step: Step, symbol: string) {
    step == DropAll || step == Drop(symbol)
  }

  /** Does the step decide on the level, whatever was there? */
  predicate Touches(step: Step, symbol: string, side: Side, price: real) {
    Ends(step, symbol) || step == Seed(symbol) ||
    (step.Write? && step.symbol == symbol && step.side == side && step.price == price)
  }

  /** There has been a snapshot since the last step that ended the symbol's book. */
  ghost predicate Seeded(log: seq<Step>, symbol: string) {
    exists i :: 0 <= i < |log| && log[i] == Seed(symbol) && StaysAlive(log, i, symbol)
  }

  ghost predicate StaysAlive(log: seq<Step>, i: int, symbol: string) {
    forall j :: i < j < |log| && 0 <= j ==> !Ends(log[j], symbol)
  }

  /** The step at `i` sets the level to the size, and no later step touches the level. */
  ghost predicate LastWrite(log: seq<Step>, i: int, symbol: string, side: Side, price: real, size: real) {
    && 0 <= i < |log| && log[i] == Write(symbol, side, price, Some(size))
    && forall j :: i < j < |log| ==> !Touches(log[j], symbol, side, price)
  }

  lemma SeededOneMore(log: seq<Step>, step: Step, symbol: string)
    ensures Seeded(log + [step], symbol) <==> step == Seed(symbol) || (Seeded(log, symbol) && !Ends(step, symbol))
  {
    var all := log + [step];
    assert all[|log|] == step;
    if step == Seed(symbol) {
      assert StaysAlive(all, |log|, symbol);
    }
    if Seeded(log, symbol) && !Ends(step, symbol) {
      var i :| 0 <= i < |log| && log[i] == Seed(symbol) && StaysAlive(log, i, symbol);
      assert all[i] == Seed(symbol) && StaysAlive(all, i, symbol);
    }
    if Seeded(all, symbol) && step != Seed(symbol) {
      var i :| 0 <= i < |all| && all[i] == Seed(symbol) && StaysAlive(all, i, symbol);
      assert !Ends(all[|log|], symbol);
      forall j | i < j < |log|
        ensures !Ends(log[j], symbol)
      {
        assert all[j] == log[j];
      }
      assert log[i] == Seed(symbol) && StaysAlive(log, i, symbol);
    }
  }

  /** A market has a book exactly if there has been a snapshot since it was last dropped. */
  lemma {:induction false} HasBookIff(log: seq<Step>, symbol: string)
    ensures symbol in Play(map[], log) <==> Seeded(log, symbol)
    decreases |log|
  {
    if log != [] {
      var earlier, last := log[..|log| - 1], log[|log| - 1];
      HasBookIff(earlier, symbol);
      assert log == earlier + [last];
      SeededOneMore(earlier, last, symbol);
    }
  }

  lemma LastWriteOneMore(log: seq<Step>, step: Step, i: int, symbol: string, side: Side, price: real, size: real)
    requires i < |log|
    ensures LastWrite(log + [step], i, symbol, side, price, size) <==>
      LastWrite(log, i, symbol, side, price, size) && !Touches(step, symbol, side, price)
  {
    var all := log + [step];
    assert all[|log|] == step;
    if LastWrite(all, i, symbol, side, price, size) {
      assert all[i] == log[i];
      forall j | i < j < |log|
        ensures !Touches(log[j], symbol, side, price)
      {
        assert all[j] == log[j];
      }
    }
  }

  /**
   * A book shows a size at a price exactly if that is the last write to this level and neither
   * a newer snapshot nor a drop of this market has come after it. Nothing else matters: not
   * the steps before the snapshot, nor those of other markets, sides or prices.
   */
  lemma {:induction false} LevelIff(log: seq<Step>, symbol: string, side: Side, price: real, size: real)
    requires Seeded(log, symbol)
    ensures symbol in Play(map[], log)
    ensures Play(map[], log)[symbol].At(side, price) == Some(size) <==>
      exists i :: LastWrite(log, i, symbol, side, price, size)
    decreases |log|
  {
    HasBookIff(log, symbol);
    var earlier, last := log[..|log| - 1], log[|log| - 1];
    assert log == earlier + [last];
    SeededOneMore(earlier, last, symbol);
    HasBookIff(earlier, symbol);
    if last != Seed(symbol) {
      LevelIff(earlier, symbol, side, price, size);
    }
    hide Seeded, Play, LastWrite, Touches, Take;
    LastWritesOneMore(earlier, last, symbol, side, price, size);
    LevelTaken(Play(map[], earlier), last, symbol, side, price);
    PlayOne(map[], earlier, last);
  }

  /** What a step does to a level. */
  lemma LevelTaken(books: Books, step: Step, symbol: string, side: Side, price: real)
    requires !Ends(step, symbol) && (symbol in books || step == Seed(symbol))
    ensures symbol in Take(books, step)
    ensures Take(books, step)[symbol].At(side, price) ==
      if !Touches(step, symbol, side, price) then books[symbol].At(side, price)
      else if step.Write? then step.size
      else None
  {
  }

  lemma LastWritesOneMore(log: seq<Step>, step: Step, symbol: string, side: Side, price: real, size: real)
    ensures (exists i :: LastWrite(log + [step], i, symbol, side, price, size)) <==>
      step == Write(symbol, side, price, Some(size)) ||
      ((exists i :: LastWrite(log, i, symbol, side, price, size)) && !Touches(step, symbol, side, price))
  {
    forall i | i < |log|
      ensures LastWrite(log + [step], i, symbol, side, price, size) <==>
        LastWrite(log, i, symbol, side, price, size) && !Touches(step, symbol, side, price)
    {
      LastWriteOneMore(log, step, i, symbol, side, price, size);
    }
    assert LastWrite(log + [step], |log|, symbol, side, price, size) <==> step == Write(symbol, side, price, Some(size));
    assert forall i :: LastWrite(log, i, symbol, side, price, size) ==> i < |log|;
    assert forall i :: LastWrite(log + [step], i, symbol, side, price, size) ==> i <= |log|;
  }

  // ---------------------------------------------------------------- what does not matter

  /** Two sets of books that agree on one market. */
  predicate Agree(a: Books, b: Books, symbol: string) {
    (symbol in a <==> symbol in b) && (symbol in a && symbol in b ==> a[symbol] == b[symbol])
  }

  /** The steps that are about one market, or about all. */
  function Own(steps: seq<Step>, symbol: string): seq<Step> {
    if steps == [] then []
    else
      var last := steps[|steps| - 1];
      Own(steps[..|steps| - 1], symbol) + (if last == DropAll || (!last.DropAll? && last.symbol == symbol) then [last] else [])
  }

  /** A market's book does not depend on the steps of other markets. */
  lemma {:induction false} OthersDoNotMatter(books: Books, steps: seq<Step>, symbol: string)
    ensures Agree(Play(books, steps), Play(books, Own(steps, symbol)), symbol)
    decreases |steps|
  {
    if steps != [] {
      var earlier, last := steps[..|steps| - 1], steps[|steps| - 1];
      OthersDoNotMatter(books, earlier, symbol);
      var own := Own(earlier, symbol);
      hide Agree, Take;
      StepAgrees(Play(books, earlier), Play(books, own), last, symbol);
      PlayOne(books, own, last);
      assert own + [] == own;
    }
  }

  lemma StepAgrees(a: Books, b: Books, step: Step, symbol: string)
    requires Agree(a, b, symbol)
    ensures Agree(Take(a, step), Take(b, step), symbol)
    ensures step != DropAll && (step.DropAll? || step.symbol != symbol) ==> Agree(Take(a, step), b, symbol)
  {
  }

  /** From a snapshot on a market's book does not depend on anything before it. */
  lemma {:induction false} SnapshotForgets(a: Books, b: Books, symbol: string, later: seq<Step>)
    ensures Agree(Play(a, [Seed(symbol)] + later), Play(b, [Seed(symbol)] + later), symbol)
    decreases |later|
  {
    hide Agree, Take, Play;
    if later == [] {
      SeedAgrees(a, b, symbol);
    } else {
      var most, last := later[..|later| - 1], later[|later| - 1];
      SnapshotForgets(a, b, symbol, most);
      assert later == most + [last];
      StepAgrees(Play(a, [Seed(symbol)] + most), Play(b, [Seed(symbol)] + most), last, symbol);
      SeedThen(a, symbol, most, last);
      SeedThen(b, symbol, most, last);
    }
  }

  lemma {:induction false} SeedAgrees(a: Books, b: Books, symbol: string)
    ensures Agree(Play(a, [Seed(symbol)] + []), Play(b, [Seed(symbol)] + []), symbol)
  {
    PlayOne(a, [], Seed(symbol));
    PlayOne(b, [], Seed(symbol));
    assert [Seed(symbol)] + [] == [] + [Seed(symbol)];
  }

  lemma {:induction false} SeedThen(books: Books, symbol: string, most: seq<Step>, last: Step)
    ensures Play(books, [Seed(symbol)] + (most + [last])) == Take(Play(books, [Seed(symbol)] + most), last)
  {
    hide Take, Play;
    assert [Seed(symbol)] + (most + [last]) == ([Seed(symbol)] + most) + [last];
    PlayOne(books, [Seed(symbol)] + most, last);
  }

  // ---------------------------------------------------------------- replaying writes

  predicate AllWrites(steps: seq<Step>) {
    forall i :: 0 <= i < |steps| ==> steps[i].Write?
  }

  /** What the last write among the steps leaves at the level; `None` if there is no write to it. */
  function Left(steps: seq<Step>, symbol: string, side: Side, price: real): Option<Option<real>> {
    if steps == [] then None
    else
      var last := steps[|steps| - 1];
      if last.Write? && last.symbol == symbol && last.side == side && last.price == price then Some(last.size)
      else Left(steps[..|steps| - 1], symbol, side, price)
  }

  /** Playing writes changes no level but those written, each to the last size written. */
  lemma {:induction false} LevelAfter(books: Books, steps: seq<Step>, symbol: string, side: Side, price: real)
    requires AllWrites(steps)
    ensures Play(books, steps).Keys == books.Keys
    ensures symbol in books ==>
      Play(books, steps)[symbol].At(side, price) ==
        match Left(steps, symbol, side, price)
        case Some(size) => size
        case None => books[symbol].At(side, price)
    decreases |steps|
  {
    if steps != [] {
      LevelAfter(books, steps[..|steps| - 1], symbol, side, price);
    }
  }

  lemma SameBook(a: Book, b: Book)
    requires forall side, price :: a.At(side, price) == b.At(side, price)
    ensures a == b
  {
    SameLevels(a, b, Bid);
    SameLevels(a, b, Offer);
  }

  lemma SameLevels(a: Book, b: Book, side: Side)
    requires forall price :: a.At(side, price) == b.At(side, price)
    ensures a.On(side) == b.On(side)
  {
    forall price
      ensures price in a.On(side) <==> price in b.On(side)
      ensures price in a.On(side) && price in b.On(side) ==> a.On(side)[price] == b.On(side)[price]
    {
      assert a.At(side, price) == b.At(side, price);
    }
  }

  lemma SameBooks(a: Books, b: Books)
    requires a.Keys == b.Keys
    requires forall symbol, side, price :: symbol in a ==> a[symbol].At(side, price) == b[symbol].At(side, price)
    ensures a == b
  {
    forall symbol | symbol in a
      ensures symbol in b && a[symbol] == b[symbol]
    {
      assert symbol in a.Keys;
      SameBook(a[symbol], b[symbol]);
    }
  }

  /** Playing the same writes again changes nothing. */
  lemma {:induction false} PlayTwice(books: Books, steps: seq<Step>)
    requires AllWrites(steps)
    ensures Play(Play(books, steps), steps) == Play(books, steps)
  {
    hide Play, Left;
    var once := Play(books, steps);
    var twice := Play(once, steps);
    LevelAfter(books, steps, "", Bid, 0.0);
    LevelAfter(once, steps, "", Bid, 0.0);
    forall symbol, side, price | symbol in twice
      ensures twice[symbol].At(side, price) == once[symbol].At(side, price)
    {
      LevelAfter(books, steps, symbol, side, price);
      LevelAfter(once, steps, symbol, side, price);
    }
    SameBooks(twice, once);
  }
}
