/** Decoding gives back what was encoded, and the checksum catches any one changed byte. */
module RoundTrip {
  import opened Bytes
  import opened Codec
  import opened Wrappers

  /**
   * The field lists whose framing is unambiguous: values are free of SOH, except that a
   * length field giving the exact size of the data field right after it frees that one
   * value from any restriction. A length field may also stand last, with nothing after it.
   */
  predicate WellFramed(fields: seq<Field>) {
    fields == [] || (
      var f := fields[0];
      SOH !in f.value &&
      match DataTagFor(f.tag)
      case None => WellFramed(fields[1..])
      case Some(dataTag) =>
        PyInt(f.value).Some? &&
        (|fields| > 1 ==>
          fields[1].tag == dataTag && PyInt(f.value) == Some(|fields[1].value|) && WellFramed(fields[2..])))
  }

  /** What decoding a frame built from `fields` must show: the computed fields around them. */
  function Dressed(fields: seq<Field>): seq<Field> {
    var body := Body(fields);
    [Field(BEGIN_STRING, FIXT11), Field(BODY_LENGTH, Decimal(|body|))]
    + fields
    + [Field(CHECK_SUM, ThreeDigits(ByteSum(Unsealed(body)) % 256))]
  }

  // The three places in a field, each found on its own: the solver is slow when several
  // ways of cutting the same bytes are in view at once.

  lemma {:induction false} SeparatorAt(data: seq<byte>, pre: seq<byte>, t: seq<byte>, v: seq<byte>, post: seq<byte>)
    requires data == pre + (t + [EQUALS] + v + [SOH]) + post
    requires EQUALS !in t
    ensures IndexOf(data, EQUALS, |pre|) == Some(|pre| + |t|)
  {
    assert data == pre + t + [EQUALS] + (v + [SOH] + post);
    FindAfter(data, pre, t, EQUALS, v + [SOH] + post);
  }

  lemma ValueEndsAt(data: seq<byte>, pre: seq<byte>, t: seq<byte>, v: seq<byte>, post: seq<byte>)
    requires data == pre + (t + [EQUALS] + v + [SOH]) + post
    requires SOH !in v
    ensures IndexOf(data, SOH, |pre| + |t| + 1) == Some(|pre| + |t| + 1 + |v|)
  {
    assert data == (pre + t + [EQUALS]) + v + [SOH] + post;
    assert |pre + t + [EQUALS]| == |pre| + |t| + 1;
    FindAfter(data, pre + t + [EQUALS], v, SOH, post);
  }

  lemma PartsAt(data: seq<byte>, pre: seq<byte>, t: seq<byte>, v: seq<byte>, post: seq<byte>)
    requires data == pre + (t + [EQUALS] + v + [SOH]) + post
    ensures var eq := |pre| + |t|; var end := eq + 1 + |v|;
      && end < |data|
      && data[|pre|..eq] == t && data[eq + 1..end] == v && data[end..end + 1] == [SOH]
  {
  }

  /** A field whose value is found by scanning for its end. */
  lemma ScannedField(data: seq<byte>, pre: seq<byte>, f: Field, post: seq<byte>)
    requires data == pre + FieldBytes(f) + post
    requires SOH !in f.value
    ensures |pre| < |pre| + |FieldBytes(f)| <= |data|
    ensures ParseField(data, |pre|, Anything) == AfterValue(f.tag, f.value, |pre| + |FieldBytes(f)|)
  {
    hide PyInt, IndexOf, IntText, AfterValue;
    PyIntText(f.tag);
    SeparatorAt(data, pre, IntText(f.tag), f.value, post);
    ValueEndsAt(data, pre, IntText(f.tag), f.value, post);
    PartsAt(data, pre, IntText(f.tag), f.value, post);
  }

  /** A data field of the announced size, whatever bytes its value holds. */
  lemma CountedField(data: seq<byte>, pre: seq<byte>, f: Field, post: seq<byte>)
    requires data == pre + FieldBytes(f) + post
    ensures |pre| < |pre| + |FieldBytes(f)| <= |data|
    ensures ParseField(data, |pre|, Data(f.tag, |f.value|)) == AfterValue(f.tag, f.value, |pre| + |FieldBytes(f)|)
  {
    hide PyInt, IndexOf, IntText, AfterValue;
    PyIntText(f.tag);
    SeparatorAt(data, pre, IntText(f.tag), f.value, post);
    PartsAt(data, pre, IntText(f.tag), f.value, post);
  }

  lemma {:induction false} LoopStep(data: seq<byte>, i: nat, awaited: Expectation, f: Field, cursor: nat, next: Expectation, back: set<nat>, rest: seq<Field>)
    requires i < cursor <= |data| && Within(back, |data|)
    requires ParseField(data, i, awaited) == Next(f, cursor, next)
    requires ParseFrom(data, cursor, next, back) == Fields(rest)
    ensures ParseFrom(data, i, awaited, back) == Fields([f] + rest)
  {
    hide ParseField;
  }

  lemma {:induction false} Regroup(data: seq<byte>, pre: seq<byte>, fields: seq<Field>)
    requires data == pre + Body(fields) && fields != []
    ensures data == pre + FieldBytes(fields[0]) + Body(fields[1..])
    ensures |pre + FieldBytes(fields[0])| == |pre| + |FieldBytes(fields[0])|
    ensures fields == [fields[0]] + fields[1..]
  {
    hide FieldBytes;
  }

  lemma {:induction false} BodyParses(data: seq<byte>, pre: seq<byte>, fields: seq<Field>)
    requires data == pre + Body(fields)
    requires WellFramed(fields)
    ensures ParseFrom(data, |pre|, Anything, {}) == Fields(fields)
    decreases |fields|
  {
    hide ParseField, FieldBytes, PyInt;
    if fields == [] {
      assert |pre| == |data|;
      return;
    }
    hide ParseFrom, Body;
    var f, rest := fields[0], fields[1..];
    Regroup(data, pre, fields);
    ScannedField(data, pre, f, Body(rest));
    var end := |pre| + |FieldBytes(f)|;
    if DataTagFor(f.tag).None? {
      BodyParses(data, pre + FieldBytes(f), rest);
      LoopStep(data, |pre|, Anything, f, end, Anything, {}, rest);
    } else {
      var awaited := Data(DataTagFor(f.tag).value, PyInt(f.value).value);
      DataBodyParses(data, pre + FieldBytes(f), rest, awaited);
      LoopStep(data, |pre|, Anything, f, end, awaited, {}, rest);
    }
  }

  /** The same from inside the loop, when a length field has just been read. */
  lemma {:induction false} DataBodyParses(data: seq<byte>, pre: seq<byte>, fields: seq<Field>, awaited: Expectation)
    requires data == pre + Body(fields)
    requires fields != [] ==>
      IsDataTag(fields[0].tag) && awaited == Data(fields[0].tag, |fields[0].value|) && WellFramed(fields[1..])
    ensures ParseFrom(data, |pre|, awaited, {}) == Fields(fields)
    decreases |fields|
  {
    hide ParseField, FieldBytes, WellFramed;
    if fields == [] {
      assert |pre| == |data|;
      return;
    }
    hide ParseFrom, Body;
    var f, rest := fields[0], fields[1..];
    Regroup(data, pre, fields);
    CountedField(data, pre, f, Body(rest));
    BodyParses(data, pre + FieldBytes(f), rest);
    LoopStep(data, |pre|, awaited, f, |pre| + |FieldBytes(f)|, Anything, {}, rest);
  }

  lemma {:induction false} SealedParts(u: seq<byte>)
    ensures var data := Seal(u); var sum: byte := ByteSum(u) % 256;
      && |data| == |u| + CHECKSUM_FIELD_LEN
      && data[..|u|] == u && data[|data| - 1] == SOH
      && data[|u|..|u| + 3] == CHECKSUM_MARKER
      && data[|u| + 3..|u| + 6] == ThreeDigits(sum)
  {
  }

  /** The two delimiters that bound the BodyLength field, in anything that starts as a frame does. */
  lemma {:induction false} LengthFieldAt(data: seq<byte>, digits: seq<byte>, rest: seq<byte>)
    requires data == HEADER + LENGTH_MARKER + digits + [SOH] + rest
    requires SOH !in digits
    ensures IndexOf(data, SOH, 0) == Some(|HEADER| - 1)
    ensures IndexOf(data, SOH, |HEADER|) == Some(|HEADER| + 2 + |digits|)
    ensures IndexOf(data, SOH, |HEADER| + 2) == Some(|HEADER| + 2 + |digits|)
  {
    assert |HEADER| == 11 && |LENGTH_MARKER| == 2;
    FindAfter(data, [], MARKER + FIXT11, SOH, LENGTH_MARKER + digits + [SOH] + rest) by {
      assert data == [] + (MARKER + FIXT11) + [SOH] + (LENGTH_MARKER + digits + [SOH] + rest);
    }
    FindAfter(data, HEADER, LENGTH_MARKER + digits, SOH, rest) by {
      assert data == HEADER + (LENGTH_MARKER + digits) + [SOH] + rest;
    }
    FindAfter(data, HEADER + LENGTH_MARKER, digits, SOH, rest);
  }

  lemma LengthFieldParts(data: seq<byte>, digits: seq<byte>, rest: seq<byte>)
    requires data == HEADER + LENGTH_MARKER + digits + [SOH] + rest
    ensures |HEADER| == 11 && |data| == 14 + |digits| + |rest|
    ensures StartsWith(data, MARKER) && StartsWith(data, HEADER)
    ensures data[11..13] == LENGTH_MARKER
    ensures data[13..13 + |digits|] == digits
  {
  }

  lemma {:induction false} SealedShape(body: seq<byte>)
    ensures var u := Unsealed(body);
      Seal(u) == HEADER + LENGTH_MARKER + Decimal(|body|) + [SOH] + (body + Seal(u)[|u|..])
  {
  }

  lemma SealedLengthChecks(body: seq<byte>)
    ensures CheckLength(Seal(Unsealed(body)), |Unsealed(body)|) == None
    ensures StartsWith(Seal(Unsealed(body)), MARKER)
  {
    var u := Unsealed(body);
    var data := Seal(u);
    var digits := Decimal(|body|);
    PyIntText(|body|);
    hide PyInt, IndexOf, CheckLength, Decimal, ByteSum, ThreeDigits;
    SealedShape(body);
    LengthFieldAt(data, digits, body + data[|u|..]);
    LengthFieldParts(data, digits, body + data[|u|..]);
    assert |u| == 14 + |digits| + |body|;
    LengthChecks(data, digits, |u|, |body|);
  }

  lemma {:induction false} LengthChecks(data: seq<byte>, digits: seq<byte>, at: nat, bodyLen: nat)
    requires at == 14 + |digits| + bodyLen < |data| && |HEADER| == 11
    requires IndexOf(data, SOH, 0) == Some(10) && IndexOf(data, SOH, 11) == Some(13 + |digits|)
    requires data[11..13] == LENGTH_MARKER && data[13..13 + |digits|] == digits && PyInt(digits) == Some(bodyLen)
    ensures CheckLength(data, at) == None
  {
    hide PyInt, IndexOf;
  }

  /** The framing checks of `decode` pass on every sealed frame, whatever its body. */
  lemma SealedFrameChecks(body: seq<byte>)
    ensures CheckFrame(Seal(Unsealed(body))) == Ok(ByteSum(Unsealed(body)) % 256)
  {
    hide PyInt, IndexOf, CheckLength, Seal, Unsealed, ThreeDigits, ByteSum;
    SealedParts(Unsealed(body));
    PyIntThreeDigits(ByteSum(Unsealed(body)) % 256);
    SealedLengthChecks(body);
  }

  lemma {:induction false} BodyOfThree(f: Field, g: Field, fields: seq<Field>)
    ensures Body([f, g] + fields) == FieldBytes(f) + FieldBytes(g) + Body(fields)
  {
    hide FieldBytes;
    var all := [f, g] + fields;
    assert all[1..] == [g] + fields && all[1..][1..] == fields;
    assert Body(all) == FieldBytes(f) + (FieldBytes(g) + Body(fields));
  }

  lemma ComputedFieldBytes(digits: seq<byte>)
    ensures FieldBytes(Field(BEGIN_STRING, FIXT11)) == HEADER
    ensures FieldBytes(Field(BODY_LENGTH, digits)) == LENGTH_MARKER + digits + [SOH]
  {
    assert IntText(BEGIN_STRING) == [56] && IntText(BODY_LENGTH) == [57];
  }

  lemma Regroup5(a: seq<byte>, b: seq<byte>, c: seq<byte>, d: seq<byte>, e: seq<byte>)
    ensures a + b + c + d + e == a + (b + c + d) + e
  {
  }

  lemma {:induction false} UnsealedIsBody(fields: seq<Field>)
    ensures var body := Body(fields);
      Unsealed(body) == Body([Field(BEGIN_STRING, FIXT11), Field(BODY_LENGTH, Decimal(|body|))] + fields)
  {
    hide Body, Decimal, FieldBytes;
    var body := Body(fields);
    var begin, length := Field(BEGIN_STRING, FIXT11), Field(BODY_LENGTH, Decimal(|body|));
    BodyOfThree(begin, length, fields);
    ComputedFieldBytes(Decimal(|body|));
    Regroup5(HEADER, LENGTH_MARKER, Decimal(|body|), [SOH], body);
  }

  /** The round trip: a well-framed list that `encode` accepts comes back unchanged. */
  lemma {:induction false} DecodeEncode(fields: seq<Field>)
    requires WellFramed(fields)
    requires Encode(fields).Ok?
    ensures Decode(Encode(fields).value) == Message(Dressed(fields))
  {
    var body := Body(fields);
    hide CheckFrame, Seal, Unsealed, Decimal, Body, ParseFrom, PyInt, ByteSum, ThreeDigits;
    var u := Unsealed(body);
    var begin, length := Field(BEGIN_STRING, FIXT11), Field(BODY_LENGTH, Decimal(|body|));
    var all := [begin, length] + fields;
    SealedFrameChecks(body);
    SealedParts(u);
    UnsealedIsBody(fields);
    assert WellFramed(all) by {
      PyIntText(|body|);
      assert all[1..] == [length] + fields && all[1..][1..] == fields;
    }
    assert u == [] + Body(all);
    BodyParses(u, [], all);
  }

  /** No two well-framed lists share a frame. */
  lemma {:induction false} EncodeInjective(a: seq<Field>, b: seq<Field>)
    requires WellFramed(a) && WellFramed(b)
    requires Encode(a).Ok? && Encode(a) == Encode(b)
    ensures a == b
  {
    DecodeEncode(a);
    DecodeEncode(b);
    assert a == Dressed(a)[2..|Dressed(a)| - 1];
    assert b == Dressed(b)[2..|Dressed(b)| - 1];
  }

  /** Raw data and signatures of any bytes, delimiters included, come back as they were. */
  lemma {:induction false} DataSurvives(x: seq<byte>, raw: seq<byte>, signature: seq<byte>)
    requires SOH !in x
    ensures var fields := [Field(35, x), Field(95, Decimal(|raw|)), Field(96, raw), Field(93, Decimal(|signature|)), Field(89, signature)];
      Encode(fields).Ok? && Decode(Encode(fields).value) == Message(Dressed(fields))
  {
    hide PyInt, Decimal, Decode, Encode, Dressed, WellFramed;
    var rawLength, signatureLength := Field(95, Decimal(|raw|)), Field(93, Decimal(|signature|));
    var signed := [signatureLength, Field(89, signature)] + [];
    var both := [rawLength, Field(96, raw)] + signed;
    var fields := [Field(35, x)] + both;
    PyIntText(|raw|);
    PyIntText(|signature|);
    NothingFramed();
    WellFramedPair(signatureLength, Field(89, signature), []);
    WellFramedPair(rawLength, Field(96, raw), signed);
    WellFramedPlain(Field(35, x), both);
    EncodeAccepts(fields);
    assert fields == [Field(35, x), rawLength, Field(96, raw), signatureLength, Field(89, signature)];
    DecodeEncode(fields);
  }

  lemma NothingFramed()
    ensures WellFramed([])
  {
  }

  lemma {:induction false} WellFramedPlain(f: Field, rest: seq<Field>)
    requires SOH !in f.value && DataTagFor(f.tag).None? && WellFramed(rest)
    ensures WellFramed([f] + rest)
  {
    assert ([f] + rest)[1..] == rest;
  }

  lemma {:induction false} WellFramedPair(length: Field, data: Field, rest: seq<Field>)
    requires SOH !in length.value && DataTagFor(length.tag) == Some(data.tag) && PyInt(length.value) == Some(|data.value|)
    requires WellFramed(rest)
    ensures WellFramed([length, data] + rest)
  {
    hide PyInt;
    assert ([length, data] + rest)[2..] == rest;
  }

  // ---------------------------------------------------------------- what is accepted

  /** Exactly which lists `encode` accepts. */
  lemma EncodeAccepts(fields: seq<Field>)
    ensures Encode(fields).Ok? <==>
      && fields != [] && fields[0].tag == MSG_TYPE
      && forall f <- fields :: !IsComputedTag(f.tag) && (IsDataTag(f.tag) || SOH !in f.value)
  {
    FirstRefusedNone(fields);
  }

  lemma {:induction false} FirstRefusedNone(fields: seq<Field>)
    ensures FirstRefused(fields).None? <==>
      forall f <- fields :: !IsComputedTag(f.tag) && (IsDataTag(f.tag) || SOH !in f.value)
  {
    if fields != [] {
      FirstRefusedNone(fields[1..]);
      assert fields == [fields[0]] + fields[1..];
    }
  }

  /** Why a field is refused, if it is. */
  function Objection(f: Field): Option<EncodeError> {
    if f.tag == 8 || f.tag == 9 || f.tag == 10 then Some(ComputedTag(f.tag))
    else if f.tag != 96 && f.tag != 89 && SOH in f.value then Some(EmbeddedSoh(f.tag))
    else None
  }

  /** What `encode` says to a list it refuses: the first objection to a field, and only then the missing MsgType. */
  lemma EncodeRefuses(fields: seq<Field>)
    ensures Encode([]) == Err(EmptyFieldList)
    ensures forall i :: 0 <= i < |fields| && Objection(fields[i]).Some? && (forall j :: 0 <= j < i ==> Objection(fields[j]).None?) ==>
      Encode(fields) == Err(Objection(fields[i]).value)
    ensures fields != [] && (forall i :: 0 <= i < |fields| ==> Objection(fields[i]).None?) && fields[0].tag != 35 ==>
      Encode(fields) == Err(FirstNotMsgType(fields[0].tag))
  {
    hide Seal, Unsealed, Body;
    FirstObjection(fields);
    hide FirstRefused, Objection;
  }

  lemma {:induction false} FirstObjection(fields: seq<Field>)
    ensures forall i :: 0 <= i < |fields| && Objection(fields[i]).Some? && (forall j :: 0 <= j < i ==> Objection(fields[j]).None?) ==>
      FirstRefused(fields) == Objection(fields[i])
    ensures (forall i :: 0 <= i < |fields| ==> Objection(fields[i]).None?) ==> FirstRefused(fields) == None
    decreases |fields|
  {
    if fields != [] {
      FirstObjection(fields[1..]);
      assert forall i :: 1 <= i < |fields| ==> fields[i] == fields[1..][i - 1];
      var rest := fields[1..];
      forall i | 0 <= i < |fields| && Objection(fields[i]).Some? && (forall j :: 0 <= j < i ==> Objection(fields[j]).None?)
        ensures FirstRefused(fields) == Objection(fields[i])
      {
        if i > 0 {
          assert forall j :: 0 <= j < i - 1 ==> Objection(rest[j]) == Objection(fields[j + 1]);
        }
      }
      assert forall j :: 0 <= j < |rest| ==> Objection(rest[j]) == Objection(fields[j + 1]);
    }
  }

  /** A length field, read as the decoder reads it, is not negative. */
  predicate LengthNotNegative(f: Field) {
    DataTagFor(f.tag).Some? && PyInt(f.value).Some? ==> PyInt(f.value).value >= 0
  }

  /** That of every field something follows. */
  predicate LengthsNotNegative(fields: seq<Field>) {
    forall k :: 0 <= k < |fields| - 1 ==> LengthNotNegative(fields[k])
  }

  /**
   * The guard of going back: a negative length is used, and the place it points to, counted
   * from the front or, if it is before the front, from the end, is not past the cursor.
   */
  predicate PointsBack(data: seq<byte>, i: nat, awaited: Expectation) {
    match IndexOf(data, EQUALS, i)
    case None => false
    case Some(eq) =>
      awaited.Data? && awaited.length < 0 &&
      var vend := eq + 1 + awaited.length;
      vend >= 0 || |data| + vend < i
  }

  /**
   * A turn leaves the loop at or before the place it was in exactly under that guard; a
   * negative length that counts from the end can also take it further on.
   */
  lemma CursorAdvancesIff(data: seq<byte>, i: nat, awaited: Expectation)
    requires i < |data| && ParseField(data, i, awaited).Next?
    ensures Clamp(|data|, ParseField(data, i, awaited).cursor) <= i <==> PointsBack(data, i, awaited)
    ensures (awaited.Data? ==> awaited.length >= 0) ==> i < ParseField(data, i, awaited).cursor <= |data|
  {
    hide PyInt, IndexOf;
    if awaited.Data? {
      if awaited.length < 0 {
        NegativeCursor(data, i, awaited);
      } else {
        assert Slice(data, |data|, |data| + 1) == [];
      }
    }
  }

  lemma NegativeCursor(data: seq<byte>, i: nat, awaited: Expectation)
    requires i < |data| && ParseField(data, i, awaited).Next?
    requires awaited.Data? && awaited.length < 0
    ensures Clamp(|data|, ParseField(data, i, awaited).cursor) <= i <==> PointsBack(data, i, awaited)
  {
    var eq := IndexOf(data, EQUALS, i).value;
    PyIntHasNoSoh(data[i..eq]);
    hide PyInt, IndexOf;
    var vend := eq + 1 + awaited.length;
    assert vend >= 0 ==> data[vend] == SOH;
    assert forall k :: i <= k < eq ==> data[k] == data[i..eq][k - i];
    assert vend != -1;
  }

  /**
   * Nothing is smuggled in: whatever bytes `decode` accepts, the fields it reports are well
   * framed exactly if no declared length that has been used is negative.
   */
  lemma DecodedIsWellFramedIff(data: seq<byte>)
    requires Decode(data).Message?
    ensures var fields := Decode(data).pairs[..|Decode(data).pairs| - 1];
      WellFramed(fields) <==> LengthsNotNegative(fields)
  {
    assert |data| >= CHECKSUM_FIELD_LEN;
    hide CheckFrame, ParseFrom, PyInt, WellFramed, LengthsNotNegative;
    var pairs := Decode(data).pairs;
    var fields := pairs[..|pairs| - 1];
    if WellFramed(fields) {
      WellFramedLengths(fields);
    }
    if LengthsNotNegative(fields) {
      ParsedIsWellFramed(data[..|data| - CHECKSUM_FIELD_LEN], 0, Anything, {}, fields);
    }
  }

  lemma {:induction false} WellFramedLengths(fields: seq<Field>)
    requires WellFramed(fields)
    ensures LengthsNotNegative(fields)
    decreases |fields|
  {
    hide PyInt;
    if |fields| > 1 {
      var used := if DataTagFor(fields[0].tag).Some? then 2 else 1;
      WellFramedLengths(fields[used..]);
      forall k | 0 <= k < |fields| - 1
        ensures LengthNotNegative(fields[k])
      {
        assert k >= used ==> fields[used..][k - used] == fields[k];
      }
    }
  }

  lemma {:induction false} ParsedIsWellFramed(data: seq<byte>, i: nat, awaited: Expectation, back: set<nat>, fields: seq<Field>)
    requires Within(back, |data|) && ParseFrom(data, i, awaited, back) == Fields(fields) && LengthsNotNegative(fields)
    requires awaited.Data? ==> awaited.length >= 0 && IsDataTag(awaited.tag)
    ensures awaited.Anything? ==> WellFramed(fields)
    ensures awaited.Data? && fields != [] ==>
      fields[0].tag == awaited.tag && |fields[0].value| == awaited.length && WellFramed(fields[1..])
    decreases |data| - i
  {
    if i >= |data| {
      return;
    }
    var step := ParseField(data, i, awaited);
    CursorAdvancesIff(data, i, awaited);
    FieldIsFramed(data, i, awaited);
    hide ParseField, PyInt;
    assert fields == [step.field] + fields[1..];
    if |fields| > 1 {
      assert LengthNotNegative(fields[0]);
      forall k | 0 <= k < |fields[1..]| - 1
        ensures LengthNotNegative(fields[1..][k])
      {
        assert fields[1..][k] == fields[k + 1];
      }
      ParsedIsWellFramed(data, step.cursor, step.awaited, back, fields[1..]);
      if step.awaited.Data? {
        assert fields[1..][1..] == fields[2..];
      }
    }
  }

  lemma FieldIsFramed(data: seq<byte>, i: nat, awaited: Expectation)
    requires i < |data| && ParseField(data, i, awaited).Next?
    requires awaited.Data? ==> awaited.length >= 0 && IsDataTag(awaited.tag)
    ensures var step := ParseField(data, i, awaited); var f := step.field;
      && (awaited.Anything? ==> SOH !in f.value)
      && (awaited.Data? ==> f.tag == awaited.tag && |f.value| == awaited.length && step.awaited.Anything?)
      && (DataTagFor(f.tag).None? ==> step.awaited.Anything?)
      && (DataTagFor(f.tag).Some? ==>
            PyInt(f.value).Some? && step.awaited == Data(DataTagFor(f.tag).value, PyInt(f.value).value))
  {
    CursorAdvancesIff(data, i, awaited);
    hide PyInt;
    var eq := IndexOf(data, EQUALS, i).value;
    if awaited.Anything? {
      IndexOfFirst(data, SOH, eq + 1);
    }
  }

  // ---------------------------------------------------------------- checksum detection

  lemma {:induction false} ByteSumUpdate(data: seq<byte>, k: nat, b: byte)
    requires k < |data|
    ensures ByteSum(data[k := b]) == ByteSum(data) - data[k] + b
  {
    var n := |data| - 1;
    if k < n {
      assert data[k := b][..n] == data[..n][k := b];
      ByteSumUpdate(data[..n], k, b);
    } else {
      assert data[k := b][..n] == data[..n];
    }
  }

  lemma ChangedBefore(data: seq<byte>, at: nat, k: nat, b: byte)
    requires k < at && at + CHECKSUM_FIELD_LEN == |data|
    ensures data[k := b][..at] == data[..at][k := b]
    ensures data[k := b][at..at + 3] == data[at..at + 3]
    ensures data[k := b][at + 3..at + 6] == data[at + 3..at + 6]
    ensures data[..at][k] == data[k]
  {
  }

  /** Any one byte changed before the CheckSum field makes an accepted frame corrupt. */
  lemma SingleByteChangeDetected(data: seq<byte>, k: nat, b: byte)
    requires Decode(data).Message?
    requires k < |data| - CHECKSUM_FIELD_LEN && b != data[k]
    ensures Decode(data[k := b]).Corrupt?
    ensures Decode(data[k := b]).error in {NoBeginString, CheckSumMismatch}
  {
    hide PyInt, ByteSum, CheckFrame, ParseFrom;
    var at := |data| - CHECKSUM_FIELD_LEN;
    assert CheckFrame(data).Ok?;
    AcceptedSum(data);
    ChangedBefore(data, at, k, b);
    ByteSumUpdate(data[..at], k, b);
    OneByteShowsMod256(ByteSum(data[..at]), data[k], b);
    WrongSumRefused(data[k := b]);
  }

  lemma OneByteShowsMod256(sum: int, a: byte, b: byte)
    requires a != b
    ensures (sum - a + b) % 256 != sum % 256
  {
  }

  lemma AcceptedSum(data: seq<byte>)
    requires CheckFrame(data).Ok?
    ensures |data| >= CHECKSUM_FIELD_LEN && data[|data| - 1] == SOH
    ensures var at := |data| - CHECKSUM_FIELD_LEN;
      data[at..at + 3] == CHECKSUM_MARKER && PyInt(data[at + 3..at + 6]) == Some(ByteSum(data[..at]) % 256)
  {
    hide PyInt, ByteSum, CheckLength;
  }

  lemma WrongSumRefused(data: seq<byte>)
    requires |data| >= CHECKSUM_FIELD_LEN && data[|data| - 1] == SOH
    requires var at := |data| - CHECKSUM_FIELD_LEN;
      data[at..at + 3] == CHECKSUM_MARKER &&
      PyInt(data[at + 3..at + 6]).Some? && PyInt(data[at + 3..at + 6]) != Some(ByteSum(data[..at]) % 256)
    ensures CheckFrame(data) in {Err(NoBeginString), Err(CheckSumMismatch)}
  {
    hide PyInt, ByteSum, CheckLength;
  }
}
