/**
 * When the field loop ends. It is taken as bare turns here, with no record of where it has
 * been, to show that the outcome `Loops` is given exactly where the turns go on forever.
 */
module FieldLoop {
  import opened Bytes
  import opened Codec
  import opened RoundTrip
  import opened Wrappers

  /** Where the loop stands: its cursor and whether it awaits a data field. */
  datatype Stand = Stand(i: nat, awaited: Expectation)

  const START := Stand(0, Anything)

  /** One turn; `None` when the loop has ended or raises. */
  function Turn(data: seq<byte>, s: Stand): Option<Stand> {
    if s.i >= |data| then None
    else match ParseField(data, s.i, s.awaited)
      case Bad(_) => None
      case Next(_, cursor, awaited) => Some(Stand(Clamp(|data|, cursor), awaited))
  }

  function Turns(data: seq<byte>, s: Stand, k: nat): Option<Stand> {
    if k == 0 then Some(s)
    else match Turns(data, s, k - 1)
      case None => None
      case Some(t) => Turn(data, t)
  }

  ghost predicate NeverEnds(data: seq<byte>, s: Stand) {
    forall k: nat :: Turns(data, s, k).Some?
  }

  /** Data fields are not length fields. */
  predicate Plausible(s: Stand) {
    s.awaited.Data? ==> IsDataTag(s.awaited.tag)
  }

  lemma {:induction false} TurnsFront(data: seq<byte>, s: Stand, k: nat)
    requires Turn(data, s).Some?
    ensures Turns(data, s, k + 1) == Turns(data, Turn(data, s).value, k)
  {
    hide Turn;
    if k == 0 {
      assert Turns(data, s, 0) == Some(s);
    } else {
      TurnsFront(data, s, k - 1);
    }
  }

  lemma {:induction false} TurnsAdd(data: seq<byte>, s: Stand, j: nat, k: nat)
    requires Turns(data, s, j).Some?
    ensures Turns(data, s, j + k) == Turns(data, Turns(data, s, j).value, k)
  {
    hide Turn;
    if k > 0 {
      TurnsAdd(data, s, j, k - 1);
    }
  }

  lemma {:induction false} EarlierTurns(data: seq<byte>, s: Stand, j: nat, k: nat)
    requires j <= k && Turns(data, s, k).Some?
    ensures Turns(data, s, j).Some?
    decreases k
  {
    hide Turn;
    if j < k {
      EarlierTurns(data, s, j, k - 1);
    }
  }

  /** A stand that is come to again is come to for ever. */
  lemma {:induction false} Cycle(data: seq<byte>, s: Stand, m: nat, k: nat)
    requires m > 0 && Turns(data, s, m) == Some(s)
    ensures Turns(data, s, k).Some?
    decreases k
  {
    hide Turns;
    if k <= m {
      EarlierTurns(data, s, k, m);
    } else {
      Cycle(data, s, m, k - m);
      TurnsAdd(data, s, m, k - m);
    }
  }

  /** After going back the loop awaits nothing. */
  lemma TurnShape(data: seq<byte>, s: Stand)
    requires s.i < |data| && Plausible(s) && Turn(data, s).Some?
    ensures Plausible(Turn(data, s).value)
    ensures Turn(data, s).value.i <= s.i ==> Turn(data, s).value.awaited == Anything
  {
    hide PyInt;
    CursorAdvancesIff(data, s.i, s.awaited);
  }

  ghost predicate Reaches(data: seq<byte>, p: Stand, s: Stand) {
    exists k: nat :: Turns(data, p, k) == Some(s)
  }

  ghost predicate Visited(data: seq<byte>, back: set<nat>, s: Stand) {
    forall p <- back :: Reaches(data, Stand(p, Anything), s)
  }

  lemma VisitedTurn(data: seq<byte>, back: set<nat>, s: Stand)
    requires Visited(data, back, s) && Turn(data, s).Some?
    ensures Visited(data, back, Turn(data, s).value)
  {
    hide Turn;
    forall p <- back
      ensures Reaches(data, Stand(p, Anything), Turn(data, s).value)
    {
      var k: nat :| Turns(data, Stand(p, Anything), k) == Some(s);
      assert Turns(data, Stand(p, Anything), k + 1) == Turn(data, s);
    }
  }

  lemma NeverEndsTurn(data: seq<byte>, s: Stand)
    requires Turn(data, s).Some?
    ensures NeverEnds(data, s) <==> NeverEnds(data, Turn(data, s).value)
  {
    hide Turn;
    var t := Turn(data, s).value;
    if NeverEnds(data, t) {
      forall k: nat
        ensures Turns(data, s, k).Some?
      {
        if k > 0 {
          TurnsFront(data, s, k - 1);
        }
      }
    }
    if NeverEnds(data, s) {
      forall k: nat
        ensures Turns(data, t, k).Some?
      {
        TurnsFront(data, s, k);
      }
    }
  }

  lemma CycleNeverEnds(data: seq<byte>, s: Stand, c: Stand)
    requires Turn(data, s) == Some(c) && Reaches(data, c, s)
    ensures NeverEnds(data, s)
  {
    hide Turn;
    var k: nat :| Turns(data, c, k) == Some(s);
    TurnsFront(data, s, k);
    forall j: nat
      ensures Turns(data, s, j).Some?
    {
      Cycle(data, s, k + 1, j);
    }
  }

  /** What the turn means for the parse. */
  lemma ParseTurn(data: seq<byte>, s: Stand, back: set<nat>)
    requires Within(back, |data|)
    ensures Turn(data, s) == None ==> !ParseFrom(data, s.i, s.awaited, back).Loops?
    ensures Turn(data, s).Some? ==>
      var t := Turn(data, s).value;
      s.i < |data| &&
      if t.i <= s.i && t.i in back then ParseFrom(data, s.i, s.awaited, back).Loops?
      else
        var back' := if t.i > s.i then back else back + {t.i};
        Within(back', |data|) &&
        (ParseFrom(data, s.i, s.awaited, back).Loops? <==> ParseFrom(data, t.i, t.awaited, back').Loops?)
  {
    hide ParseField;
  }

  lemma {:induction false} LoopsFrom(data: seq<byte>, s: Stand, back: set<nat>)
    requires Within(back, |data|) && Plausible(s) && Visited(data, back, s)
    ensures ParseFrom(data, s.i, s.awaited, back).Loops? <==> NeverEnds(data, s)
    decreases |data| - |back|, |data| - s.i
  {
    hide Turn, ParseFrom, Visited, Plausible, NeverEnds;
    ParseTurn(data, s, back);
    if Turn(data, s) == None {
      EndsHere(data, s);
    } else {
      var t := Turn(data, s).value;
      TurnShape(data, s);
      WithinSize(back, |data|);
      NeverEndsTurn(data, s);
      VisitedTurn(data, back, s);
      if t.i > s.i {
        LoopsFrom(data, t, back);
      } else if t.i in back {
        VisitedOne(data, back, s, t.i);
        CycleNeverEnds(data, s, t);
      } else {
        WithinSize(back + {t.i}, |data|);
        VisitedMore(data, back, t);
        LoopsFrom(data, t, back + {t.i});
      }
    }
  }

  lemma EndsHere(data: seq<byte>, s: Stand)
    requires Turn(data, s) == None
    ensures !NeverEnds(data, s)
  {
    hide Turn;
    assert Turns(data, s, 0) == Some(s);
    assert Turns(data, s, 1) == None;
  }

  lemma VisitedOne(data: seq<byte>, back: set<nat>, s: Stand, p: nat)
    requires Visited(data, back, s) && p in back
    ensures Reaches(data, Stand(p, Anything), s)
  {
  }

  lemma VisitedMore(data: seq<byte>, back: set<nat>, t: Stand)
    requires Visited(data, back, t) && t.awaited == Anything
    ensures Visited(data, back + {t.i}, t)
  {
    assert Turns(data, t, 0) == Some(t);
  }

  /** `Loops` is the outcome exactly when the loop of the source never ends. */
  lemma {:induction false} LoopsIff(data: seq<byte>)
    ensures ParseFrom(data, 0, Anything, {}).Loops? <==> NeverEnds(data, START)
  {
    hide ParseFrom, NeverEnds;
    LoopsFrom(data, START, {});
  }

  // ---------------------------------------------------------------- when it ends

  /** Some turn of the loop on these bytes uses a negative length that points back. */
  ghost predicate SomeTurnPointsBack(data: seq<byte>) {
    exists k: nat, s :: TurnPointsBack(data, k, s)
  }

  predicate TurnPointsBack(data: seq<byte>, k: nat, s: Stand) {
    Turns(data, START, k) == Some(s) && s.i < |data| && PointsBack(data, s.i, s.awaited)
  }

  /** The loop ends on all bytes on which no turn points back. */
  lemma {:induction false} EndsUnlessPointedBack(data: seq<byte>)
    requires !SomeTurnPointsBack(data)
    ensures !ParseFrom(data, 0, Anything, {}).Loops?
    ensures !NeverEnds(data, START)
  {
    EndsFrom(data, START, 0, {});
    LoopsIff(data);
  }

  lemma {:induction false} EndsFrom(data: seq<byte>, s: Stand, k: nat, back: set<nat>)
    requires Within(back, |data|) && Turns(data, START, k) == Some(s)
    requires !SomeTurnPointsBack(data)
    ensures !ParseFrom(data, s.i, s.awaited, back).Loops?
    decreases |data| - s.i
  {
    ParseTurn(data, s, back);
    if Turn(data, s).Some? {
      assert !TurnPointsBack(data, k, s);
      var t := Turn(data, s).value;
      CursorAdvancesIff(data, s.i, s.awaited);
      hide ParseField, ParseFrom, PointsBack;
      assert Turns(data, START, k + 1) == Some(t);
      EndsFrom(data, t, k + 1, back);
    }
  }

  /** Turn `k` points back, and the loop goes on from `p`. */
  predicate GoesBackTo(data: seq<byte>, k: nat, p: nat) {
    match Turns(data, START, k)
    case None => false
    case Some(s) =>
      s.i < |data| && PointsBack(data, s.i, s.awaited) && Turn(data, s).Some? && Turn(data, s).value.i == p
  }

  ghost predicate SentBackTwice(data: seq<byte>) {
    exists j: nat, k: nat, p: nat :: j < k && GoesBackTo(data, j, p) && GoesBackTo(data, k, p)
  }

  lemma {:induction false} ReachedPlausible(data: seq<byte>, k: nat)
    requires Turns(data, START, k).Some?
    ensures Plausible(Turns(data, START, k).value)
  {
    hide Turn, Plausible;
    if k == 0 {
      StartPlausible();
    } else {
      ReachedPlausible(data, k - 1);
      var s := Turns(data, START, k - 1).value;
      TurnIsInside(data, s);
      TurnShape(data, s);
    }
  }

  lemma StartPlausible()
    ensures Plausible(START)
  {
  }

  lemma TurnIsInside(data: seq<byte>, s: Stand)
    ensures Turn(data, s).Some? ==> s.i < |data|
  {
  }

  lemma {:induction false} BackAwaitsNothing(data: seq<byte>, k: nat, p: nat)
    requires GoesBackTo(data, k, p)
    ensures Turns(data, START, k + 1) == Some(Stand(p, Anything))
  {
    var s := Turns(data, START, k).value;
    ReachedPlausible(data, k);
    TurnShape(data, s);
    CursorAdvancesIff(data, s.i, s.awaited);
    hide ParseField, PointsBack;
    assert Turns(data, START, k + 1) == Turn(data, s);
  }

  /** The loop never ends exactly if two of its turns are sent back to the same place. */
  lemma {:induction false} LoopsIffSentBackTwice(data: seq<byte>)
    ensures ParseFrom(data, 0, Anything, {}).Loops? <==> SentBackTwice(data)
  {
    hide ParseFrom, Turn, GoesBackTo;
    if ParseFrom(data, 0, Anything, {}).Loops? {
      TwiceFrom(data, START, 0, {});
    }
    if SentBackTwice(data) {
      var j: nat, k: nat, p: nat :| j < k && GoesBackTo(data, j, p) && GoesBackTo(data, k, p);
      var t := Stand(p, Anything);
      BackAwaitsNothing(data, j, p);
      BackAwaitsNothing(data, k, p);
      TurnsAdd(data, START, j + 1, k - j);
      forall n: nat
        ensures Turns(data, START, n).Some?
      {
        if n <= j + 1 {
          EarlierTurns(data, START, n, j + 1);
        } else {
          Cycle(data, t, k - j, n - j - 1);
          TurnsAdd(data, START, j + 1, n - j - 1);
        }
      }
      LoopsIff(data);
    }
  }

  /** Each position gone back to so far is one that an earlier turn was sent back to. */
  ghost predicate SentBackBefore(data: seq<byte>, back: set<nat>, k: nat) {
    forall p <- back :: exists j: nat :: j < k && GoesBackTo(data, j, p)
  }

  lemma {:induction false} TwiceFrom(data: seq<byte>, s: Stand, k: nat, back: set<nat>)
    requires Within(back, |data|) && Turns(data, START, k) == Some(s) && SentBackBefore(data, back, k)
    requires ParseFrom(data, s.i, s.awaited, back).Loops?
    ensures SentBackTwice(data)
    decreases |data| - |back|, |data| - s.i
  {
    hide ParseFrom, Turn, Turns, GoesBackTo, SentBackBefore, SentBackTwice;
    ParseTurn(data, s, back);
    var t := Turn(data, s).value;
    WithinSize(back, |data|);
    BackwardsPoints(data, s, k);
    NextTurn(data, s, k);
    SentBackMore(data, back, k, t.i);
    if t.i > s.i {
      TwiceFrom(data, t, k + 1, back);
    } else if t.i !in back {
      WithinSize(back + {t.i}, |data|);
      TwiceFrom(data, t, k + 1, back + {t.i});
    }
  }

  lemma NextTurn(data: seq<byte>, s: Stand, k: nat)
    requires Turns(data, START, k) == Some(s)
    ensures Turns(data, START, k + 1) == Turn(data, s)
  {
    hide Turn;
  }

  lemma SentBackMore(data: seq<byte>, back: set<nat>, k: nat, p: nat)
    requires SentBackBefore(data, back, k)
    ensures SentBackBefore(data, back, k + 1)
    ensures GoesBackTo(data, k, p) ==> SentBackBefore(data, back + {p}, k + 1)
    ensures GoesBackTo(data, k, p) && p in back ==> SentBackTwice(data)
  {
    hide GoesBackTo;
  }

  lemma {:induction false} BackwardsPoints(data: seq<byte>, s: Stand, k: nat)
    requires Turns(data, START, k) == Some(s) && Turn(data, s).Some?
    ensures Turn(data, s).value.i <= s.i ==> GoesBackTo(data, k, Turn(data, s).value.i)
  {
    CursorAdvancesIff(data, s.i, s.awaited);
    hide ParseField, PointsBack;
  }

  /** A caller can see it on the bytes: without a minus sign in them the loop always ends. */
  lemma {:induction false} EndsWithoutMinus(data: seq<byte>)
    requires MINUS !in data
    ensures !ParseFrom(data, 0, Anything, {}).Loops?
  {
    WithoutMinusFrom(data, START, {});
  }

  lemma {:induction false} WithoutMinusFrom(data: seq<byte>, s: Stand, back: set<nat>)
    requires Within(back, |data|) && MINUS !in data
    requires s.awaited.Data? ==> s.awaited.length >= 0
    ensures !ParseFrom(data, s.i, s.awaited, back).Loops?
    decreases |data| - s.i
  {
    ParseTurn(data, s, back);
    if Turn(data, s).Some? {
      var t := Turn(data, s).value;
      CursorAdvancesIff(data, s.i, s.awaited);
      LengthFromText(data, s);
      hide ParseField, ParseFrom, PyInt;
      WithoutMinusFrom(data, t, back);
    }
  }

  lemma LengthFromText(data: seq<byte>, s: Stand)
    requires s.i < |data| && MINUS !in data && ParseField(data, s.i, s.awaited).Next?
    ensures var next := ParseField(data, s.i, s.awaited).awaited; next.Data? ==> next.length >= 0
  {
    var step := ParseField(data, s.i, s.awaited);
    hide PyInt;
    assert forall b <- step.field.value :: b in data;
    if step.awaited.Data? && step.awaited.length < 0 {
      PyIntNegative(step.field.value);
    }
  }
}
