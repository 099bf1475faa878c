/**
 * Reassembly of paginated settlement reports: the parties of a symbol's fragments are
 * buffered until the terminal fragment, which is returned with all of them.
 */
module Settlement {
  import opened Wrappers

  /** A fragment; `rest` stands for every field the reassembler does not look at. */
  datatype Report<P, R> = Report(symbol: Option<string>, lastFragment: Option<bool>, parties: seq<P>, rest: R)
  {
    /** Only an explicit `LastFragment=N` announces more. */
    predicate IsFinal() {
      lastFragment != Some(false)
    }
  }

  datatype Event<P, R> = Add(report: Report<P, R>) | Clear

  class SettlementReassembler<P, R> {
    var pending: map<string, seq<P>>

    constructor ()
      ensures pending == After<P, R>([])
    {
      pending := map[];
    }

    method Add(report: Report<P, R>) returns (complete: Option<Report<P, R>>)
      modifies this
      ensures forall events :: old(pending) == After<P, R>(events) ==>
        pending == After(events + [Event.Add(report)]) &&
        Emitted(events + [Event.Add(report)]) == Emitted(events) + Listed(complete)
      ensures pending == Buffered(old(pending), report)
      ensures complete == Completed(old(pending), report)
    {
      if report.lastFragment == Some(false) {
        complete := None;
        if report.symbol.Some? {
          var symbol := report.symbol.value;
          var buffer := if symbol in pending then pending[symbol] else [];
          pending := pending[symbol := buffer + report.parties];
        }
      } else if report.symbol.Some? && report.symbol.value in pending {
        var parties := pending[report.symbol.value];
        pending := pending - {report.symbol.value};
        parties := parties + report.parties;
        complete := Some(report.(parties := parties));
      } else {
        complete := Some(report);
        assert [] + report.parties == report.parties;
      }
      forall events | old(pending) == After<P, R>(events)
        ensures pending == After(events + [Event.Add(report)])
        ensures Emitted(events + [Event.Add(report)]) == Emitted(events) + Listed(complete)
      {
        OneMore(events, Event.Add(report));
        assert Completed(old(pending), report) == complete;
      }
    }

    method PendingSymbols() returns (symbols: set<string>)
      ensures forall events, s :: pending == After<P, R>(events) ==> (s in symbols <==> Open(events, s))
    {
      symbols := pending.Keys;
      forall events, s | pending == After<P, R>(events)
        ensures s in symbols <==> Open(events, s)
      {
        HistoryDecides(events, s);
      }
    }

    method Clear()
      modifies this
      ensures pending == map[]
      ensures forall events :: pending == After<P, R>(events + [Event.Clear])
    {
      pending := map[];
      forall events
        ensures pending == After<P, R>(events + [Event.Clear])
      {
        OneMore<P, R>(events, Event.Clear);
      }
    }
  }

  // ---------------------------------------------------------------- runs

  function Held<P>(pending: map<string, seq<P>>, symbol: string): seq<P> {
    if symbol in pending then pending[symbol] else []
  }

  function Buffered<P, R>(pending: map<string, seq<P>>, report: Report<P, R>): map<string, seq<P>> {
    if report.symbol == None then pending
    else if report.IsFinal() then pending - {report.symbol.value}
    else pending[report.symbol.value := Held(pending, report.symbol.value) + report.parties]
  }

  function Completed<P, R>(pending: map<string, seq<P>>, report: Report<P, R>): Option<Report<P, R>> {
    if !report.IsFinal() then None
    else if report.symbol == None then Some(report)
    else Some(report.(parties := Held(pending, report.symbol.value) + report.parties))
  }

  /** The buffers after a history, starting from a new reassembler. */
  function After<P, R>(events: seq<Event<P, R>>): map<string, seq<P>> {
    if events == [] then map[]
    else match events[|events| - 1]
      case Clear => map[]
      case Add(report) => Buffered(After(events[..|events| - 1]), report)
  }

  /** The reports returned during a history, in order. */
  function Emitted<P, R>(events: seq<Event<P, R>>): seq<Report<P, R>> {
    if events == [] then []
    else
      var earlier := events[..|events| - 1];
      match events[|events| - 1]
      case Clear => Emitted(earlier)
      case Add(report) => Emitted(earlier) + Listed(Completed(After(earlier), report))
  }

  lemma {:induction false} OneMore<P, R>(events: seq<Event<P, R>>, e: Event<P, R>)
    ensures After(events + [e]) == if e.Clear? then map[] else Buffered(After(events), e.report)
    ensures Emitted(events + [e]) ==
      if e.Clear? then Emitted(events) else Emitted(events) + Listed(Completed(After(events), e.report))
  {
    assert (events + [e])[..|events|] == events;
  }

  // ---------------------------------------------------------------- the history decides

  /** Is a batch of the symbol still waiting for its terminal fragment? Read backwards off the history. */
  predicate Open<P, R>(events: seq<Event<P, R>>, symbol: string) {
    if events == [] then false
    else match events[|events| - 1]
      case Clear => false
      case Add(report) =>
        if report.symbol == Some(symbol) then !report.IsFinal() else Open(events[..|events| - 1], symbol)
  }

  /** The parties of the symbol's fragments since its last terminal one, or the last `Clear`. */
  function Batch<P, R>(events: seq<Event<P, R>>, symbol: string): seq<P> {
    if events == [] then []
    else
      var earlier := events[..|events| - 1];
      match events[|events| - 1]
      case Clear => []
      case Add(report) =>
        if report.symbol != Some(symbol) then Batch(earlier, symbol)
        else if report.IsFinal() then []
        else Batch(earlier, symbol) + report.parties
  }

  /** What is buffered is the open batch, whatever came before it and for whatever other symbols. */
  lemma {:induction false} HistoryDecides<P, R>(events: seq<Event<P, R>>, symbol: string)
    ensures symbol in After(events) <==> Open(events, symbol)
    ensures Held(After(events), symbol) == Batch(events, symbol)
    decreases |events|
  {
    if events != [] {
      HistoryDecides(events[..|events| - 1], symbol);
    }
  }

  /**
   * What a report returns, after any history: nothing while more is announced, and otherwise
   * itself, with the parties of its own open batch in front. Its other fields are kept.
   */
  lemma {:induction false} ReturnsOwnBatch<P, R>(events: seq<Event<P, R>>, report: Report<P, R>)
    ensures
      var waiting := if report.symbol.Some? then Batch(events, report.symbol.value) else [];
      var returned := if report.IsFinal() then [report.(parties := waiting + report.parties)] else [];
      Emitted(events + [Add(report)]) == Emitted(events) + returned
  {
    hide Emitted, After, Batch;
    OneMore(events, Add(report));
    assert [] + report.parties == report.parties;
    if report.symbol.Some? {
      HistoryDecides(events, report.symbol.value);
    }
  }

  /**
   * By the flag on the wire: `LastFragment=N` returns nothing, and is dropped if it names no
   * symbol; `Y` or no flag returns the report, as it is if its symbol has no batch open.
   */
  lemma {:induction false} FlagDecides<P, R>(events: seq<Event<P, R>>, report: Report<P, R>)
    ensures report.lastFragment == Some(false) ==>
      Emitted(events + [Add(report)]) == Emitted(events) &&
      (report.symbol == None ==> After(events + [Add(report)]) == After(events)) &&
      (report.symbol.Some? ==> Open(events + [Add(report)], report.symbol.value))
    ensures report.lastFragment != Some(false) ==>
      |Emitted(events + [Add(report)])| == |Emitted(events)| + 1 &&
      (report.symbol.Some? ==> !Open(events + [Add(report)], report.symbol.value)) &&
      (report.symbol == None || !Open(events, report.symbol.value) ==>
         Emitted(events + [Add(report)]) == Emitted(events) + [report])
  {
    OneMore(events, Add(report));
    assert (events + [Add(report)])[..|events|] == events;
    ReturnsOwnBatch(events, report);
    assert Emitted(events) + [] == Emitted(events);
    if report.symbol.Some? && !Open(events, report.symbol.value) {
      ClosedBatch(events, report.symbol.value);
    }
    hide Emitted, After, Batch;
    assert [] + report.parties == report.parties;
  }

  lemma {:induction false} ClosedBatch<P, R>(events: seq<Event<P, R>>, symbol: string)
    requires !Open(events, symbol)
    ensures Batch(events, symbol) == []
    decreases |events|
  {
    if events != [] {
      var last := events[|events| - 1];
      if last.Add? && last.report.symbol != Some(symbol) {
        ClosedBatch(events[..|events| - 1], symbol);
      }
    }
  }

  // ---------------------------------------------------------------- conservation

  /** The parties of the reports for one symbol, in order. */
  function PartiesOf<P, R>(reports: seq<Report<P, R>>, symbol: string): seq<P> {
    if reports == [] then []
    else
      var last := reports[|reports| - 1];
      PartiesOf(reports[..|reports| - 1], symbol) + (if last.symbol == Some(symbol) then last.parties else [])
  }

  lemma {:induction false} PartiesOneMore<P, R>(reports: seq<Report<P, R>>, report: Report<P, R>, symbol: string)
    ensures PartiesOf(reports + [report], symbol) ==
      PartiesOf(reports, symbol) + (if report.symbol == Some(symbol) then report.parties else [])
  {
    assert (reports + [report])[..|reports|] == reports;
  }

  function Adding<P, R>(reports: seq<Report<P, R>>): (events: seq<Event<P, R>>)
    ensures |events| == |reports|
  {
    seq(|reports|, i requires 0 <= i < |reports| => Add(reports[i]))
  }

  /**
   * Nothing is lost, repeated or reordered: until a `Clear`, the parties returned for a symbol
   * followed by those still buffered are all the symbol's parties, in arrival order.
   */
  lemma {:induction false} Conservation<P, R>(reports: seq<Report<P, R>>, symbol: string)
    ensures PartiesOf(Emitted(Adding(reports)), symbol) + Held(After(Adding(reports)), symbol) == PartiesOf(reports, symbol)
    decreases |reports|
  {
    if reports == [] {
      assert Adding(reports) == [];
    } else {
      hide Emitted, After, Adding, Held, PartiesOf;
      var earlier, last := reports[..|reports| - 1], reports[|reports| - 1];
      assert reports == earlier + [last];
      Conservation(earlier, symbol);
      AddingOneMore(earlier, last);
      ConservationStep(Adding(earlier), last, symbol);
      PartiesOneMore(earlier, last, symbol);
    }
  }

  /** A report adds its parties, at the end, to what has been returned or is held for its symbol. */
  lemma {:induction false} ConservationStep<P, R>(before: seq<Event<P, R>>, report: Report<P, R>, symbol: string)
    ensures PartiesOf(Emitted(before + [Add(report)]), symbol) + Held(After(before + [Add(report)]), symbol) ==
      PartiesOf(Emitted(before), symbol) + Held(After(before), symbol) + (if report.symbol == Some(symbol) then report.parties else [])
  {
    hide PartiesOf, Emitted, After;
    OneMore(before, Add(report));
    PartiesListed(Emitted(before), Completed(After(before), report), symbol);
    Regroup(PartiesOf(Emitted(before), symbol), Held(After(before), symbol), report.parties);
  }

  lemma {:induction false} PartiesListed<P, R>(reports: seq<Report<P, R>>, more: Option<Report<P, R>>, symbol: string)
    ensures PartiesOf(reports + Listed(more), symbol) ==
      PartiesOf(reports, symbol) + (if more.Some? && more.value.symbol == Some(symbol) then more.value.parties else [])
  {
    if more.Some? {
      PartiesOneMore(reports, more.value, symbol);
    } else {
      assert reports + [] == reports;
    }
  }

  lemma Regroup<P>(a: seq<P>, b: seq<P>, c: seq<P>)
    ensures a + (b + c) + [] == a + b + c
    ensures a + (b + c) == a + b + c
    ensures a + [] + (b + c) == a + b + c
    ensures a + [] == a && a + [] + b == a + b && a + b + [] == a + b
  {
  }

  // ---------------------------------------------------------------- interleaving

  predicate Concerns<P, R>(e: Event<P, R>, symbol: Option<string>) {
    e.Clear? || e.report.symbol == symbol
  }

  /** The history as it concerns one symbol (or, for `None`, the reports without one). */
  function Only<P, R>(events: seq<Event<P, R>>, symbol: Option<string>): seq<Event<P, R>> {
    if events == [] then []
    else
      var last := events[|events| - 1];
      Only(events[..|events| - 1], symbol) + (if Concerns(last, symbol) then [last] else [])
  }

  function For<P, R>(reports: seq<Report<P, R>>, symbol: Option<string>): seq<Report<P, R>> {
    if reports == [] then []
    else
      var last := reports[|reports| - 1];
      For(reports[..|reports| - 1], symbol) + (if last.symbol == symbol then [last] else [])
  }

  lemma {:induction false} ForOneMore<P, R>(reports: seq<Report<P, R>>, more: Option<Report<P, R>>, symbol: Option<string>)
    ensures For(reports + Listed(more), symbol) ==
      if more.Some? && more.value.symbol == symbol then For(reports, symbol) + [more.value] else For(reports, symbol)
  {
    if more.Some? {
      assert (reports + [more.value])[..|reports|] == reports;
    } else {
      assert reports + [] == reports;
    }
  }

  /** One history and another return the same for a symbol and leave it in the same place. */
  ghost predicate SameFor<P, R>(events: seq<Event<P, R>>, own: seq<Event<P, R>>, symbol: Option<string>) {
    && For(Emitted(events), symbol) == Emitted(own)
    && (symbol.Some? ==>
          (symbol.value in After(events) <==> symbol.value in After(own)) &&
          Held(After(events), symbol.value) == Held(After(own), symbol.value))
  }

  /** One symbol's output depends on its own fragments alone, whatever they are interleaved with. */
  lemma {:induction false} Isolation<P, R>(events: seq<Event<P, R>>, symbol: Option<string>)
    ensures SameFor(events, Only(events, symbol), symbol)
    decreases |events|
  {
    if events != [] {
      var earlier, last := events[..|events| - 1], events[|events| - 1];
      Isolation(earlier, symbol);
      var own := Only(earlier, symbol);
      assert events == earlier + [last];
      assert own + [] == own;
      assert Only(events, symbol) == if Concerns(last, symbol) then own + [last] else own;
      hide Only, SameFor;
      IsolationStep(earlier, own, last, symbol);
    }
  }

  lemma {:induction false} IsolationStep<P, R>(events: seq<Event<P, R>>, own: seq<Event<P, R>>, e: Event<P, R>, symbol: Option<string>)
    requires SameFor(events, own, symbol)
    ensures SameFor(events + [e], if Concerns(e, symbol) then own + [e] else own, symbol)
  {
    hide Emitted, After, For;
    OneMore(events, e);
    OneMore(own, e);
    if e.Add? {
      ForOneMore(Emitted(events), Completed(After(events), e.report), symbol);
    }
  }

  /** A batch: fragments that announce more, then a terminal one. */
  datatype Settled<P, R> = Settled(fragments: seq<Report<P, R>>, terminal: Report<P, R>)
  {
    ghost predicate IsBatchOf(symbol: string) {
      && (forall i :: 0 <= i < |fragments| ==> fragments[i].symbol == Some(symbol) && !fragments[i].IsFinal())
      && terminal.symbol == Some(symbol) && terminal.IsFinal()
    }

    function Pages(): seq<Report<P, R>> {
      fragments + [terminal]
    }

    /** The terminal fragment, with the parties of all pages. */
    function Whole(symbol: string): Report<P, R> {
      terminal.(parties := PartiesOf(Pages(), symbol))
    }
  }

  function AllPages<P, R>(batches: seq<Settled<P, R>>): seq<Report<P, R>> {
    if batches == [] then [] else AllPages(batches[..|batches| - 1]) + batches[|batches| - 1].Pages()
  }

  function Wholes<P, R>(batches: seq<Settled<P, R>>, symbol: string): seq<Report<P, R>> {
    seq(|batches|, i requires 0 <= i < |batches| => batches[i].Whole(symbol))
  }

  /** While the fragments of a batch come in they are only buffered. */
  lemma {:induction false} FragmentsWait<P, R>(before: seq<Report<P, R>>, fragments: seq<Report<P, R>>, symbol: string)
    requires forall i :: 0 <= i < |fragments| ==> fragments[i].symbol == Some(symbol) && !fragments[i].IsFinal()
    requires Held(After(Adding(before)), symbol) == []
    ensures Emitted(Adding(before + fragments)) == Emitted(Adding(before))
    ensures Held(After(Adding(before + fragments)), symbol) == PartiesOf(fragments, symbol)
    decreases |fragments|
  {
    if fragments == [] {
      assert before + fragments == before;
    } else {
      var earlier, last := fragments[..|fragments| - 1], fragments[|fragments| - 1];
      FragmentsWait(before, earlier, symbol);
      hide PartiesOf, Emitted, After, Adding;
      Append(before, earlier, last);
      assert fragments == earlier + [last];
      AddingOneMore(before + earlier, last);
      FragmentBuffered(Adding(before + earlier), last, symbol);
      PartiesOneMore(earlier, last, symbol);
    }
  }

  lemma AddingOneMore<P, R>(reports: seq<Report<P, R>>, report: Report<P, R>)
    ensures Adding(reports + [report]) == Adding(reports) + [Add(report)]
  {
  }

  lemma Append<T>(a: seq<T>, b: seq<T>, x: T)
    ensures a + (b + [x]) == (a + b) + [x]
  {
  }

  lemma {:induction false} FragmentBuffered<P, R>(events: seq<Event<P, R>>, report: Report<P, R>, symbol: string)
    requires report.symbol == Some(symbol) && !report.IsFinal()
    ensures Emitted(events + [Add(report)]) == Emitted(events)
    ensures Held(After(events + [Add(report)]), symbol) == Held(After(events), symbol) + report.parties
  {
    hide Emitted, After;
    OneMore(events, Add(report));
    assert Emitted(events) + [] == Emitted(events);
  }

  /** Batches of one symbol that follow one another come out one report each. */
  lemma {:induction false} OneByOne<P, R>(batches: seq<Settled<P, R>>, symbol: string)
    requires forall i :: 0 <= i < |batches| ==> batches[i].IsBatchOf(symbol)
    ensures Emitted(Adding(AllPages(batches))) == Wholes(batches, symbol)
    ensures symbol !in After(Adding(AllPages(batches)))
    decreases |batches|
  {
    if batches != [] {
      var earlier, last := batches[..|batches| - 1], batches[|batches| - 1];
      OneByOne(earlier, symbol);
      assert last.IsBatchOf(symbol);
      assert Wholes(batches, symbol) == Wholes(earlier, symbol) + [last.Whole(symbol)];
      assert AllPages(batches) == AllPages(earlier) + last.Pages();
      hide AllPages, Wholes, Emitted, After, Adding, Settled.Whole, PartiesOf;
      BatchReturned(AllPages(earlier), last, symbol);
    }
  }

  lemma BatchReturned<P, R>(before: seq<Report<P, R>>, batch: Settled<P, R>, symbol: string)
    requires batch.IsBatchOf(symbol) && symbol !in After(Adding(before))
    ensures Emitted(Adding(before + batch.Pages())) == Emitted(Adding(before)) + [batch.Whole(symbol)]
    ensures symbol !in After(Adding(before + batch.Pages()))
  {
    hide Emitted, After, PartiesOf;
    FragmentsWait(before, batch.fragments, symbol);
    Append(before, batch.fragments, batch.terminal);
    AddingOneMore(before + batch.fragments, batch.terminal);
    hide Adding;
    OneMore(Adding(before + batch.fragments), Add(batch.terminal));
    PartiesOneMore(batch.fragments, batch.terminal, symbol);
  }

  /**
   * Any number of batches of a symbol, their pages interleaved in any way with the reports of
   * other symbols: each comes out as one report with exactly its own parties, in order.
   */
  lemma {:induction false} InterleavedBatches<P, R>(reports: seq<Report<P, R>>, symbol: string, batches: seq<Settled<P, R>>)
    requires forall i :: 0 <= i < |batches| ==> batches[i].IsBatchOf(symbol)
    requires For(reports, Some(symbol)) == AllPages(batches)
    ensures For(Emitted(Adding(reports)), Some(symbol)) == Wholes(batches, symbol)
    ensures symbol !in After(Adding(reports))
  {
    hide Emitted, After, Adding, AllPages, Wholes, For, Only;
    Isolation(Adding(reports), Some(symbol));
    OnlyIsFor(reports, Some(symbol));
    OneByOne(batches, symbol);
  }

  lemma {:induction false} OnlyIsFor<P, R>(reports: seq<Report<P, R>>, symbol: Option<string>)
    ensures Only(Adding(reports), symbol) == Adding(For(reports, symbol))
    decreases |reports|
  {
    if reports != [] {
      var earlier, last := reports[..|reports| - 1], reports[|reports| - 1];
      OnlyIsFor(earlier, symbol);
      assert Adding(reports)[..|reports| - 1] == Adding(earlier);
      var own := For(earlier, symbol);
      assert Adding(own + [last]) == Adding(own) + [Add(last)];
      assert own + [] == own && Adding(own) + [] == Adding(own);
    }
  }
}
