/**
 * Frames that `encode` makes from lists with a negative length: on some of them the field
 * loop never ends, on others the data field is reported twice.
 */
module NegativeLengths {
  import opened Bytes
  import opened Codec
  import opened Parser
  import opened ParserStream
  import opened RoundTrip
  import opened Wrappers

  // ---------------------------------------------------------------- plain fields in front

  predicate Plain(fields: seq<Field>) {
    forall f <- fields :: SOH !in f.value && DataTagFor(f.tag).None?
  }

  /** Plain fields are read one by one, and the loop is then where they end. */
  lemma {:induction false} PlainThen(data: seq<byte>, pre: seq<byte>, plain: seq<Field>, post: seq<byte>)
    requires data == pre + Body(plain) + post && Plain(plain)
    ensures ParseFrom(data, |pre|, Anything, {}) == Prepend(plain, ParseFrom(data, |pre| + |Body(plain)|, Anything, {}))
    decreases |plain|
  {
    hide ParseField, FieldBytes, ParseFrom;
    var at := |pre| + |Body(plain)|;
    if plain != [] {
      var f, rest := plain[0], plain[1..];
      assert plain == [f] + rest && f in plain;
      hide Body;
      BodySplit(plain);
      assert data == pre + FieldBytes(f) + (Body(rest) + post);
      ScannedField(data, pre, f, Body(rest) + post);
      assert data == (pre + FieldBytes(f)) + Body(rest) + post;
      PlainThen(data, pre + FieldBytes(f), rest, post);
      assert at == |pre + FieldBytes(f)| + |Body(rest)|;
      StepForward(data, |pre|, f, |pre| + |FieldBytes(f)|);
      PrependJoins(f, rest, ParseFrom(data, at, Anything, {}));
    } else {
      PrependNone(ParseFrom(data, at, Anything, {}));
    }
  }

  lemma PrependNone(p: Parsed)
    ensures Prepend([], p) == p
  {
    assert p.Fields? ==> [] + p.fields == p.fields;
  }

  lemma PrependJoins(f: Field, rest: seq<Field>, p: Parsed)
    ensures Prepend([f], Prepend(rest, p)) == Prepend([f] + rest, p)
  {
    assert p.Fields? ==> [f] + (rest + p.fields) == [f] + rest + p.fields;
  }

  lemma {:induction false} BodySplit(fields: seq<Field>)
    requires fields != []
    ensures Body(fields) == FieldBytes(fields[0]) + Body(fields[1..])
  {
  }

  lemma {:induction false} StepForward(data: seq<byte>, i: nat, f: Field, cursor: nat)
    requires i < cursor <= |data| && ParseField(data, i, Anything) == Next(f, cursor, Anything)
    ensures ParseFrom(data, i, Anything, {}) == Prepend([f], ParseFrom(data, cursor, Anything, {}))
  {
    hide ParseField;
  }

  lemma {:induction false} BodyJoin(a: seq<Field>, b: seq<Field>)
    ensures Body(a + b) == Body(a) + Body(b)
    decreases |a|
  {
    hide FieldBytes;
    if a == [] {
      assert a + b == b;
    } else {
      BodyJoin(a[1..], b);
      assert (a + b)[1..] == a[1..] + b;
      assert Body(a) + Body(b) == FieldBytes(a[0]) + (Body(a[1..]) + Body(b));
    }
  }

  lemma {:induction false} BodyEndsInSoh(fields: seq<Field>)
    requires fields != []
    ensures Body(fields) != [] && Body(fields)[|Body(fields)| - 1] == SOH
    decreases |fields|
  {
    if |fields| > 1 {
      BodyEndsInSoh(fields[1..]);
    } else {
      assert Body(fields[1..]) == [];
    }
  }

  // ---------------------------------------------------------------- a length field of -4 or -11

  /** "95=" with the text, and a data field. */
  function Pair(text: seq<byte>, v: seq<byte>): seq<Field> {
    [Field(RAW_DATA_LENGTH, text), Field(RAW_DATA, v)]
  }

  const MINUS_FOUR: seq<byte> := [MINUS, ZERO + 4]
  const MINUS_ELEVEN: seq<byte> := [MINUS, ZERO + 1, ZERO + 1]

  lemma NegativeTexts()
    ensures PyInt(MINUS_FOUR) == Some(-4) && PyInt(MINUS_ELEVEN) == Some(-11)
    ensures SOH !in MINUS_FOUR && SOH !in MINUS_ELEVEN
    ensures IntText(RAW_DATA) == [ZERO + 9, ZERO + 6] && IntText(RAW_DATA_LENGTH) == [ZERO + 9, ZERO + 5]
  {
    MinusEleven();
  }

  lemma MinusEleven()
    ensures PyInt(MINUS_ELEVEN) == Some(-11)
  {
    var t := MINUS_ELEVEN;
    assert StripRight(StripLeft(t)) == t;
    assert t[1..] == [ZERO + 1, ZERO + 1];
    assert t[1..][..1] == [ZERO + 1];
    assert DigitRun([ZERO + 1]) == Some(1);
  }

  /** The two fields as the loop meets them: the length by its delimiter, then a data field. */
  lemma {:induction false} PairRead(data: seq<byte>, pre: seq<byte>, text: seq<byte>, v: seq<byte>)
    requires data == pre + Body(Pair(text, v)) && SOH !in text && PyInt(text).Some?
    ensures var f, at := Pair(text, v)[0], |pre| + |text| + 4;
      && at + 3 + |v| < |data|
      && data[at - 1] == SOH
      && ParseField(data, |pre|, Anything) == Next(f, at, Data(RAW_DATA, PyInt(text).value))
      && IndexOf(data, EQUALS, at) == Some(at + 2) && PyInt(data[at..at + 2]) == Some(RAW_DATA)
      && data == pre + FieldBytes(f) + FieldBytes(Pair(text, v)[1])
      && |FieldBytes(f)| == |text| + 4
  {
    hide ParseField, Body, FieldBytes, PyInt, IndexOf, IntText;
    PairBytes(data, pre, text, v);
    LengthRead(data, pre, Pair(text, v)[0], FieldBytes(Pair(text, v)[1]));
    DataTagRead(data, pre + FieldBytes(Pair(text, v)[0]), v);
  }

  lemma PairBytes(data: seq<byte>, pre: seq<byte>, text: seq<byte>, v: seq<byte>)
    requires data == pre + Body(Pair(text, v))
    ensures var f, g := Pair(text, v)[0], Pair(text, v)[1];
      && data == pre + FieldBytes(f) + FieldBytes(g)
      && |FieldBytes(f)| == |text| + 4 && |FieldBytes(g)| == |v| + 4
      && (pre + FieldBytes(f))[|pre| + |text| + 3] == SOH
  {
    NegativeTexts();
    var f, g := Pair(text, v)[0], Pair(text, v)[1];
    assert Body([g]) == FieldBytes(g) + [];
    assert [f, g][1..] == [g];
  }

  lemma LengthRead(data: seq<byte>, pre: seq<byte>, f: Field, post: seq<byte>)
    requires data == pre + FieldBytes(f) + post && SOH !in f.value
    requires f.tag == RAW_DATA_LENGTH && PyInt(f.value).Some?
    ensures ParseField(data, |pre|, Anything) == Next(f, |pre| + |FieldBytes(f)|, Data(RAW_DATA, PyInt(f.value).value))
  {
    hide PyInt, ParseField, FieldBytes;
    ScannedField(data, pre, f, post);
  }

  lemma {:induction false} DataTagRead(data: seq<byte>, head: seq<byte>, v: seq<byte>)
    requires data == head + FieldBytes(Field(RAW_DATA, v))
    ensures |head| + 3 + |v| < |data|
    ensures IndexOf(data, EQUALS, |head|) == Some(|head| + 2)
    ensures PyInt(data[|head|..|head| + 2]) == Some(RAW_DATA)
  {
    NegativeTexts();
    PyIntText(RAW_DATA);
    hide PyInt, IndexOf, IntText;
    assert data == head + FieldBytes(Field(RAW_DATA, v)) + [];
    SeparatorAt(data, head, IntText(RAW_DATA), v, []);
    PartsAt(data, head, IntText(RAW_DATA), v, []);
  }

  /** A data field "96=..." whose negative length points at a delimiter before it. */
  lemma {:induction false} DataFieldBack(data: seq<byte>, at: nat, length: int)
    requires 0 < at < |data| && length <= -4 && at + 3 + length >= 0 && data[at + 3 + length] == SOH
    requires IndexOf(data, EQUALS, at) == Some(at + 2) && PyInt(data[at..at + 2]) == Some(RAW_DATA)
    ensures ParseField(data, at, Data(RAW_DATA, length)) == Next(Field(RAW_DATA, []), at + 4 + length, Anything)
  {
    hide PyInt, IndexOf;
    assert Slice(data, at + 3 + length, at + 4 + length) == [SOH];
    assert Slice(data, at + 3, at + 3 + length) == [];
  }

  /**
   * "95=-11" after any delimiter: the data field sends the loop back to its length field,
   * and so on without end, whatever the data.
   */
  lemma {:induction false} MinusElevenLoops(data: seq<byte>, pre: seq<byte>, v: seq<byte>)
    requires data == pre + Body(Pair(MINUS_ELEVEN, v)) && pre != [] && pre[|pre| - 1] == SOH
    ensures ParseFrom(data, |pre|, Anything, {}) == Loops
  {
    NegativeTexts();
    hide PyInt, IndexOf, IntText, ParseField, Body, FieldBytes;
    PairRead(data, pre, MINUS_ELEVEN, v);
    var i := |pre|;
    assert data[i - 1] == SOH;
    DataFieldBack(data, i + 7, -11);
    TwoRounds(data, i, i + 7, Pair(MINUS_ELEVEN, v)[0]);
  }

  lemma {:induction false} TwoRounds(data: seq<byte>, i: nat, at: nat, f: Field)
    requires i < at < |data|
    requires ParseField(data, i, Anything) == Next(f, at, Data(RAW_DATA, -11))
    requires ParseField(data, at, Data(RAW_DATA, -11)) == Next(Field(RAW_DATA, []), i, Anything)
    ensures ParseFrom(data, i, Anything, {}) == Loops
  {
    hide ParseField;
    assert ParseFrom(data, at, Data(RAW_DATA, -11), {i}) == Loops;
    assert ParseFrom(data, i, Anything, {i}) == Loops;
    var none: set<nat> := {};
    assert none + {i} == {i};
    assert ParseFrom(data, at, Data(RAW_DATA, -11), none) == Loops;
  }

  /** "95=-4": the data field is read twice, once as empty and once by its delimiter. */
  lemma {:induction false} MinusFourReadsTwice(data: seq<byte>, pre: seq<byte>, v: seq<byte>)
    requires data == pre + Body(Pair(MINUS_FOUR, v)) && SOH !in v
    ensures ParseFrom(data, |pre|, Anything, {}) ==
      Fields([Pair(MINUS_FOUR, v)[0], Field(RAW_DATA, []), Field(RAW_DATA, v)])
  {
    NegativeTexts();
    hide PyInt, IndexOf, IntText, ParseField, Body, FieldBytes;
    PairRead(data, pre, MINUS_FOUR, v);
    var f, g, at := Pair(MINUS_FOUR, v)[0], Field(RAW_DATA, v), |pre| + 6;
    DataFieldBack(data, at, -4);
    assert data == (pre + FieldBytes(f)) + FieldBytes(g) + [];
    ScannedField(data, pre + FieldBytes(f), g, []);
    ThreeTurns(data, |pre|, at, f, g);
  }

  lemma {:induction false} ThreeTurns(data: seq<byte>, i: nat, at: nat, f: Field, g: Field)
    requires i < at < |data|
    requires ParseField(data, i, Anything) == Next(f, at, Data(RAW_DATA, -4))
    requires ParseField(data, at, Data(RAW_DATA, -4)) == Next(Field(RAW_DATA, []), at, Anything)
    requires ParseField(data, at, Anything) == Next(g, |data|, Anything)
    ensures ParseFrom(data, i, Anything, {}) == Fields([f, Field(RAW_DATA, []), g])
  {
    hide ParseField;
    assert ParseFrom(data, |data|, Anything, {at}) == Fields([]);
    assert ParseFrom(data, at, Anything, {at}) == Fields([g]);
    var none: set<nat> := {};
    assert none + {at} == {at};
    assert ParseFrom(data, at, Data(RAW_DATA, -4), none) == Fields([Field(RAW_DATA, []), g]);
  }

  // ---------------------------------------------------------------- whole frames

  function WithPair(x: seq<byte>, text: seq<byte>, v: seq<byte>): seq<Field> {
    [Field(MSG_TYPE, x)] + Pair(text, v)
  }

  /** The computed fields and the message type, which come before the pair in the frame. */
  function Leading(x: seq<byte>, bodyLen: nat): seq<Field> {
    [Field(BEGIN_STRING, FIXT11), Field(BODY_LENGTH, Decimal(bodyLen))] + [Field(MSG_TYPE, x)]
  }

  lemma PairAccepted(x: seq<byte>, text: seq<byte>, v: seq<byte>)
    requires SOH !in x && SOH !in text
    ensures Encode(WithPair(x, text, v)) == Ok(FrameOf(WithPair(x, text, v)))
  {
    var fields := WithPair(x, text, v);
    EncodeAccepts(fields);
    hide Seal, Unsealed, Body;
  }

  lemma FrameParse(x: seq<byte>, text: seq<byte>, v: seq<byte>) returns (pre: seq<byte>)
    requires SOH !in x
    ensures var fields := WithPair(x, text, v); var u := Unsealed(Body(fields));
      && u == pre + Body(Pair(text, v))
      && pre != [] && pre[|pre| - 1] == SOH
      && ParseFrom(u, 0, Anything, {}) == Prepend(Leading(x, |Body(fields)|), ParseFrom(u, |pre|, Anything, {}))
  {
    var fields := WithPair(x, text, v);
    var n := |Body(fields)|;
    hide Body, FieldBytes, ParseFrom, Decimal, Unsealed;
    UnsealedIsBody(fields);
    var lead := Leading(x, n);
    assert [Field(BEGIN_STRING, FIXT11), Field(BODY_LENGTH, Decimal(n))] + fields == lead + Pair(text, v);
    BodyJoin(lead, Pair(text, v));
    pre := Body(lead);
    BodyEndsInSoh(lead);
    PyIntText(n);
    var u := Unsealed(Body(fields));
    assert u == [] + Body(lead) + Body(Pair(text, v));
    PlainThen(u, [], lead, Body(Pair(text, v)));
  }

  /** `decode` of the frame is decided by the parse of what is before its checksum. */
  lemma {:induction false} FrameDecode(fields: seq<Field>)
    ensures var u := Unsealed(Body(fields));
      match ParseFrom(u, 0, Anything, {})
      case Loops => Decode(FrameOf(fields)) == Unfinished
      case Malformed(_) => true
      case Fields(pairs) => Decode(FrameOf(fields)) == Message(pairs + [Field(CHECK_SUM, ThreeDigits(ByteSum(u) % 256))])
  {
    hide CheckFrame, Seal, Unsealed, Body, ParseFrom, ByteSum, ThreeDigits;
    SealedFrameChecks(Body(fields));
    SealedParts(Unsealed(Body(fields)));
  }

  /**
   * The input on which decoding never ends, with any message type and any data: `encode`
   * makes the frame, `decode` does not return, and nor does the parser that is fed it.
   */
  lemma FrameNeverDecoded(x: seq<byte>, v: seq<byte>)
    requires SOH !in x
    ensures Encode(WithPair(x, MINUS_ELEVEN, v)) == Ok(FrameOf(WithPair(x, MINUS_ELEVEN, v)))
    ensures Decode(FrameOf(WithPair(x, MINUS_ELEVEN, v))) == Unfinished
    ensures |Body(WithPair(x, MINUS_ELEVEN, v))| <= MAX_BODY_LENGTH ==>
      NextMessage(FrameOf(WithPair(x, MINUS_ELEVEN, v))) == Hung
  {
    var fields := WithPair(x, MINUS_ELEVEN, v);
    NegativeTexts();
    PairAccepted(x, MINUS_ELEVEN, v);
    hide Decode, Encode, ParseFrom, Body, Unsealed, Decimal, PyInt, FrameOf;
    var pre := FrameParse(x, MINUS_ELEVEN, v);
    MinusElevenLoops(Unsealed(Body(fields)), pre, v);
    FrameDecode(fields);
    if |Body(fields)| <= MAX_BODY_LENGTH {
      UnfinishedHangs(fields);
    }
  }

  lemma {:induction false} UnfinishedHangs(fields: seq<Field>)
    requires Decode(FrameOf(fields)) == Unfinished && |Body(fields)| <= MAX_BODY_LENGTH
    ensures NextMessage(FrameOf(fields)) == Hung
  {
    hide Decode, Body, FrameOf, AtMarker, NextMessage;
    HangsAtMarker(fields);
    FrameStart(fields);
    HeaderInFront(FrameOf(fields));
    FirstLiveHeader(FrameOf(fields), 0);
  }

  lemma {:induction false} HangsAtMarker(fields: seq<Field>)
    requires Decode(FrameOf(fields)) == Unfinished && |Body(fields)| <= MAX_BODY_LENGTH
    ensures |FrameOf(fields)| >= 2 && AtMarker(FrameOf(fields)) == Hang
  {
    var f, body := FrameOf(fields), Body(fields);
    var digits := Decimal(|body|);
    FrameShape(fields, []);
    assert f + [] == f;
    LengthFieldAt(f, digits, f[14 + |digits|..]);
    LengthFieldParts(f, digits, f[14 + |digits|..]);
    PyIntText(|body|);
    hide PyInt, IndexOf, Decode, Decimal, Body, FrameOf, AtMarker;
    WholeFrameHangs(f, digits, |body|);
  }

  lemma HeaderInFront(f: seq<byte>)
    requires |f| >= |HEADER| && f[..|HEADER|] == HEADER && AtMarker(f).Hang?
    ensures HeaderAt(f, 0) && !Rejected(f, 0) && f[0..] == f
  {
    hide AtMarker;
    assert f[0..] == f;
  }

  lemma {:induction false} WholeFrameHangs(f: seq<byte>, digits: seq<byte>, bodyLen: nat)
    requires |f| == 14 + |digits| + bodyLen + CHECKSUM_FIELD_LEN && |HEADER| == 11
    requires StartsWith(f, HEADER) && f[11..13] == LENGTH_MARKER && f[13..13 + |digits|] == digits
    requires IndexOf(f, SOH, 13) == Some(13 + |digits|)
    requires PyInt(digits) == Some(bodyLen) && bodyLen <= MAX_BODY_LENGTH
    requires Decode(f) == Unfinished
    ensures AtMarker(f) == Hang
  {
    hide PyInt, IndexOf, Decode;
    assert f[..|f|] == f;
  }

  /**
   * The input on which the round trip fails: `encode` accepts the list, `decode` accepts
   * the frame, and reports the data field twice.
   */
  lemma RoundTripFails(x: seq<byte>, v: seq<byte>)
    requires SOH !in x && SOH !in v
    ensures var fields := WithPair(x, MINUS_FOUR, v);
      && Encode(fields) == Ok(FrameOf(fields))
      && var sum := Field(CHECK_SUM, ThreeDigits(ByteSum(Unsealed(Body(fields))) % 256));
         var decoded := Leading(x, |Body(fields)|) + [Field(RAW_DATA_LENGTH, MINUS_FOUR), Field(RAW_DATA, []), Field(RAW_DATA, v), sum];
         Decode(FrameOf(fields)) == Message(decoded) && decoded != Dressed(fields)
  {
    var fields := WithPair(x, MINUS_FOUR, v);
    NegativeTexts();
    PairAccepted(x, MINUS_FOUR, v);
    hide Decode, Encode, ParseFrom, Body, Unsealed, Decimal, PyInt, FrameOf, ByteSum, ThreeDigits;
    var pre := FrameParse(x, MINUS_FOUR, v);
    MinusFourReadsTwice(Unsealed(Body(fields)), pre, v);
    FrameDecode(fields);
    var lead := Leading(x, |Body(fields)|);
    var three := [Field(RAW_DATA_LENGTH, MINUS_FOUR), Field(RAW_DATA, []), Field(RAW_DATA, v)];
    var sum := Field(CHECK_SUM, ThreeDigits(ByteSum(Unsealed(Body(fields))) % 256));
    assert (lead + three) + [sum] == lead + [three[0], three[1], three[2], sum];
    assert |lead + (three + [sum])| == |Dressed(fields)| + 1;
  }
}
