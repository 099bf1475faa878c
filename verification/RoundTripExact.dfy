/**
 * Exactly when the round trip holds, for every list that `encode` accepts. Well-framed lists
 * are not all: Python counts a negative length from the end, where it can be right too.
 */
module RoundTripExact {
  import opened Bytes
  import opened Codec
  import opened RoundTrip
  import opened Wrappers

  /**
   * A length that ends the data field after it where it does end: its size, or the same
   * place counted from the end of the `n` bytes parsed, unless that is the very end.
   */
  predicate GivesSize(length: int, size: nat, n: nat, more: bool) {
    length == size || (length == size - n && more)
  }

  /** What must follow a field; `None` for a length field without a number. */
  function Announces(f: Field): Option<Expectation> {
    match DataTagFor(f.tag)
    case None => Some(Anything)
    case Some(dataTag) =>
      match PyInt(f.value)
      case None => None
      case Some(length) => Some(Data(dataTag, length))
  }

  /**
   * Values are free of SOH, except those of data fields right after their length field,
   * which must give their size; `n` is the size of the frame up to its CheckSum.
   */
  predicate Framed(awaited: Expectation, fields: seq<Field>, n: nat)
    decreases |fields|
  {
    fields == [] || (
      var f := fields[0];
      && (if awaited.Data? then f.tag == awaited.tag && GivesSize(awaited.length, |f.value|, n, |fields| > 1)
          else SOH !in f.value)
      && match Announces(f)
         case None => false
         case Some(next) => Framed(next, fields[1..], n))
  }

  lemma AfterAnnounces(f: Field, cursor: int)
    ensures AfterValue(f.tag, f.value, cursor) ==
      match Announces(f)
      case None => Bad(NonIntegerLength)
      case Some(next) => Next(f, cursor, next)
  {
  }

  // ---------------------------------------------------------------- enough

  /** A data field whose length is counted from the end. */
  lemma CountedFromEnd(data: seq<byte>, pre: seq<byte>, f: Field, post: seq<byte>)
    requires data == pre + FieldBytes(f) + post && post != []
    ensures var end := |pre| + |FieldBytes(f)|;
      && |pre| < end < |data|
      && ParseField(data, |pre|, Data(f.tag, |f.value| - |data|)) == AfterValue(f.tag, f.value, end - |data|)
  {
    hide PyInt, IndexOf, IntText, AfterValue;
    PyIntText(f.tag);
    SeparatorAt(data, pre, IntText(f.tag), f.value, post);
    PartsAt(data, pre, IntText(f.tag), f.value, post);
  }

  lemma {:induction false} Onward(data: seq<byte>, i: nat, awaited: Expectation, f: Field, cursor: int, next: Expectation, back: set<nat>)
    requires i < |data| && Within(back, |data|)
    requires ParseField(data, i, awaited) == Next(f, cursor, next) && Clamp(|data|, cursor) > i
    ensures ParseFrom(data, i, awaited, back) == Prepend([f], ParseFrom(data, Clamp(|data|, cursor), next, back))
  {
    hide ParseField;
  }

  /** One field of a framed list is read as it is, and the loop is then behind it. */
  lemma {:induction false} FramedField(data: seq<byte>, pre: seq<byte>, fields: seq<Field>, awaited: Expectation)
    requires data == pre + Body(fields) && fields != [] && Framed(awaited, fields, |data|)
    ensures Announces(fields[0]).Some?
    ensures var f := fields[0]; var end := |pre| + |FieldBytes(f)|; var step := ParseField(data, |pre|, awaited);
      && |pre| < end <= |data|
      && step.Next? && step.field == f && step.awaited == Announces(f).value && Clamp(|data|, step.cursor) == end
  {
    hide ParseField, FieldBytes, PyInt, Body, Framed, Announces, GivesSize;
    Regroup(data, pre, fields);
    BodyEmptyIff(fields[1..]);
    FramedHead(awaited, fields, |data|);
    FieldLeads(data, pre, fields[0], Body(fields[1..]), awaited);
  }

  lemma FieldLeads(data: seq<byte>, pre: seq<byte>, f: Field, post: seq<byte>, awaited: Expectation)
    requires data == pre + FieldBytes(f) + post && Announces(f).Some?
    requires if awaited.Data? then f.tag == awaited.tag && GivesSize(awaited.length, |f.value|, |data|, post != [])
             else SOH !in f.value
    ensures var end := |pre| + |FieldBytes(f)|; var step := ParseField(data, |pre|, awaited);
      && |pre| < end <= |data|
      && step.Next? && step.field == f && step.awaited == Announces(f).value && Clamp(|data|, step.cursor) == end
  {
    hide ParseField, FieldBytes, Announces;
    var end := |pre| + |FieldBytes(f)|;
    AfterAnnounces(f, end);
    AfterAnnounces(f, end - |data|);
    if awaited.Anything? {
      ScannedField(data, pre, f, post);
    } else if awaited.length == |f.value| {
      CountedField(data, pre, f, post);
    } else {
      CountedFromEnd(data, pre, f, post);
    }
  }

  lemma {:induction false} FramedHead(awaited: Expectation, fields: seq<Field>, n: nat)
    requires fields != [] && Framed(awaited, fields, n)
    ensures var f := fields[0];
      && Announces(f).Some? && Framed(Announces(f).value, fields[1..], n)
      && (awaited.Anything? ==> SOH !in f.value)
      && (awaited.Data? ==> f.tag == awaited.tag && GivesSize(awaited.length, |f.value|, n, |fields| > 1))
  {
    hide Announces;
  }

  lemma {:induction false} BodyEmptyIff(fields: seq<Field>)
    ensures Body(fields) == [] <==> fields == []
  {
  }

  lemma {:induction false} FramedParses(data: seq<byte>, pre: seq<byte>, fields: seq<Field>, awaited: Expectation)
    requires data == pre + Body(fields) && Framed(awaited, fields, |data|)
    ensures ParseFrom(data, |pre|, awaited, {}) == Fields(fields)
    decreases |fields|
  {
    hide ParseField, FieldBytes, Framed, Announces, Body;
    if fields == [] {
      BodyEmptyIff(fields);
      assert |pre| == |data|;
    } else {
      hide ParseFrom;
      var f, rest := fields[0], fields[1..];
      FramedField(data, pre, fields, awaited);
      FramedHead(awaited, fields, |data|);
      Regroup(data, pre, fields);
      FramedParses(data, pre + FieldBytes(f), rest, Announces(f).value);
      var step := ParseField(data, |pre|, awaited);
      Onward(data, |pre|, awaited, f, step.cursor, step.awaited, {});
    }
  }

  // ---------------------------------------------------------------- and needed

  /**
   * Where a data field leaves the loop: behind its value, which its length then gives, or
   * no further than where its value starts.
   */
  lemma {:induction false} DataFieldLeads(data: seq<byte>, i: nat, awaited: Expectation)
    requires i < |data| && awaited.Data? && ParseField(data, i, awaited).Next?
    ensures var step, start := ParseField(data, i, awaited), IndexOf(data, EQUALS, i).value + 1;
      var c, size := Clamp(|data|, step.cursor), |step.field.value|;
      && step.field.tag == awaited.tag
      && ((c == start + size + 1 && GivesSize(awaited.length, size, |data|, c < |data|)) || c <= start)
  {
    hide PyInt, IndexOf;
    var start := IndexOf(data, EQUALS, i).value + 1;
    var vend := start + awaited.length;
    assert Slice(data, |data|, |data| + 1) == [];
    assert vend != -1 && vend != |data|;
  }

  /** Where a field found by its delimiter leaves it. */
  lemma {:induction false} ScannedFieldLeads(data: seq<byte>, i: nat, stop: nat)
    requires i < |data| && ParseField(data, i, Anything).Next?
    requires stop < |data| && data[stop] == SOH && IndexOf(data, EQUALS, i).value < stop
    ensures ParseField(data, i, Anything).cursor <= stop + 1
  {
    hide PyInt;
    IndexOfFirst(data, SOH, IndexOf(data, EQUALS, i).value + 1);
  }

  /** No turn gets from before a delimiter past it by more than the size of the value it reads. */
  lemma NoLeap(data: seq<byte>, p: nat, awaited: Expectation, start: nat)
    requires p < start <= |data| && data[start - 1] == SOH && ParseField(data, p, awaited).Next?
    ensures Clamp(|data|, ParseField(data, p, awaited).cursor) <= start + |ParseField(data, p, awaited).field.value|
  {
    EqualsBefore(data, p, awaited, start);
    hide ParseField, IndexOf;
    if awaited.Data? {
      DataFieldLeads(data, p, awaited);
    } else {
      ScannedFieldLeads(data, p, start - 1);
    }
  }

  lemma {:induction false} EqualsBefore(data: seq<byte>, p: nat, awaited: Expectation, start: nat)
    requires p < start <= |data| && data[start - 1] == SOH && ParseField(data, p, awaited).Next?
    ensures IndexOf(data, EQUALS, p).Some? && IndexOf(data, EQUALS, p).value < start - 1
  {
    var eq := IndexOf(data, EQUALS, p).value;
    PyIntHasNoSoh(data[p..eq]);
    hide PyInt, IndexOf;
    assert forall k :: p <= k < eq ==> data[k] == data[p..eq][k - p];
  }

  /** What a parse that gives fields has done first. */
  lemma ParsedHead(data: seq<byte>, i: nat, awaited: Expectation, back: set<nat>, fields: seq<Field>) returns (back': set<nat>)
    requires i < |data| && Within(back, |data|) && ParseFrom(data, i, awaited, back) == Fields(fields)
    ensures Within(back', |data|) && fields != []
    ensures var step := ParseField(data, i, awaited);
      && step.Next? && step.field == fields[0]
      && ParseFrom(data, Clamp(|data|, step.cursor), step.awaited, back') == Fields(fields[1..])
  {
    hide ParseField;
    var step := ParseField(data, i, awaited);
    var c := Clamp(|data|, step.cursor);
    back' := if c > i then back else back + {c};
    var rest := ParseFrom(data, c, step.awaited, back');
    assert ([step.field] + rest.fields)[1..] == rest.fields;
  }

  /** A parse that has fallen behind the fields that are left never gives just those. */
  lemma {:induction false} Behind(data: seq<byte>, pre: seq<byte>, fields: seq<Field>, p: nat, awaited: Expectation, back: set<nat>)
    requires data == pre + Body(fields) && p < |pre| && pre[|pre| - 1] == SOH && Within(back, |data|)
    ensures ParseFrom(data, p, awaited, back) != Fields(fields)
    decreases |fields|
  {
    hide ParseFrom, ParseField, FieldBytes, Body;
    if ParseFrom(data, p, awaited, back) == Fields(fields) {
      var back' := ParsedHead(data, p, awaited, back, fields);
      var step := ParseField(data, p, awaited);
      NoLeap(data, p, awaited, |pre|);
      Regroup(data, pre, fields);
      FieldBytesShape(pre, fields[0]);
      Behind(data, pre + FieldBytes(fields[0]), fields[1..], Clamp(|data|, step.cursor), step.awaited, back');
    }
  }

  lemma FieldBytesShape(pre: seq<byte>, f: Field)
    ensures |FieldBytes(f)| == |IntText(f.tag)| + |f.value| + 2 >= |f.value| + 3
    ensures var all := pre + FieldBytes(f); all[|all| - 1] == SOH
  {
    hide IntText;
    PyIntText(f.tag);
  }

  /** So where the whole is given, each turn has led to the end of its field, and so each field is framed. */
  lemma {:induction false} FramedIfParsed(data: seq<byte>, pre: seq<byte>, fields: seq<Field>, awaited: Expectation, back: set<nat>)
    requires data == pre + Body(fields) && Within(back, |data|)
    requires ParseFrom(data, |pre|, awaited, back) == Fields(fields)
    ensures Framed(awaited, fields, |data|)
    decreases |fields|
  {
    hide ParseFrom, ParseField, FieldBytes, Body, Announces;
    if fields != [] {
      var f, rest := fields[0], fields[1..];
      Regroup(data, pre, fields);
      FieldBytesShape(pre, f);
      BodyEmptyIff(rest);
      var back' := ParsedHead(data, |pre|, awaited, back, fields);
      var step := ParseField(data, |pre|, awaited);
      var c, end := Clamp(|data|, step.cursor), |pre| + |FieldBytes(f)|;
      ParsedAnnounces(data, |pre|, awaited);
      HeadLeads(data, pre, f, Body(rest), awaited);
      if c < end {
        Behind(data, pre + FieldBytes(f), rest, c, step.awaited, back');
      }
      FramedIfParsed(data, pre + FieldBytes(f), rest, step.awaited, back');
    }
  }

  lemma ParsedAnnounces(data: seq<byte>, i: nat, awaited: Expectation)
    requires i < |data| && ParseField(data, i, awaited).Next?
    ensures Announces(ParseField(data, i, awaited).field) == Some(ParseField(data, i, awaited).awaited)
    ensures awaited.Anything? ==> SOH !in ParseField(data, i, awaited).field.value
  {
    hide PyInt;
    if awaited.Anything? {
      IndexOfFirst(data, SOH, IndexOf(data, EQUALS, i).value + 1);
    }
    hide IndexOf;
  }

  lemma HeadLeads(data: seq<byte>, pre: seq<byte>, f: Field, post: seq<byte>, awaited: Expectation)
    requires data == pre + FieldBytes(f) + post
    requires var step := ParseField(data, |pre|, awaited); step.Next? && step.field == f
    requires awaited.Anything? ==> SOH !in f.value
    ensures var c, end := Clamp(|data|, ParseField(data, |pre|, awaited).cursor), |pre| + |FieldBytes(f)|;
      && c <= end <= |data|
      && (awaited.Anything? ==> c == end)
      && (awaited.Data? ==> f.tag == awaited.tag && (c == end ==> GivesSize(awaited.length, |f.value|, |data|, end < |data|)))
  {
    PyIntText(f.tag);
    SeparatorAt(data, pre, IntText(f.tag), f.value, post);
    hide ParseField, IndexOf, PyInt, IntText;
    FieldBytesShape(pre, f);
    if awaited.Data? {
      DataFieldLeads(data, |pre|, awaited);
    } else {
      ScannedField(data, pre, f, post);
      AfterAnnounces(f, |pre| + |FieldBytes(f)|);
    }
  }

  // ---------------------------------------------------------------- the round trip

  lemma {:induction false} Computed(fields: seq<Field>, digits: seq<byte>, n: nat)
    requires SOH !in digits
    ensures Framed(Anything, [Field(BEGIN_STRING, FIXT11), Field(BODY_LENGTH, digits)] + fields, n) <==> Framed(Anything, fields, n)
  {
    var begin, length := Field(BEGIN_STRING, FIXT11), Field(BODY_LENGTH, digits);
    var all := [begin, length] + fields;
    assert all[1..] == [length] + fields && all[1..][1..] == fields;
    assert Framed(Anything, all, n) <==> Framed(Anything, all[1..], n);
  }

  lemma {:induction false} DecodesTo(fields: seq<Field>)
    ensures var u := Unsealed(Body(fields));
      var all := [Field(BEGIN_STRING, FIXT11), Field(BODY_LENGTH, Decimal(|Body(fields)|))] + fields;
      Decode(Seal(u)) == Message(Dressed(fields)) <==> ParseFrom(u, 0, Anything, {}) == Fields(all)
  {
    hide CheckFrame, Seal, Unsealed, Body, ParseFrom, ByteSum, ThreeDigits, Decimal;
    var u := Unsealed(Body(fields));
    var all := [Field(BEGIN_STRING, FIXT11), Field(BODY_LENGTH, Decimal(|Body(fields)|))] + fields;
    SealedFrameChecks(Body(fields));
    SealedParts(u);
    var sum := Field(CHECK_SUM, ThreeDigits(ByteSum(u) % 256));
    assert Dressed(fields) == all + [sum];
    var p := ParseFrom(u, 0, Anything, {});
    if p.Fields? {
      SameFront(p.fields, all, sum);
    }
  }

  lemma SameFront<T>(a: seq<T>, b: seq<T>, x: T)
    ensures a + [x] == b + [x] <==> a == b
  {
    if a + [x] == b + [x] {
      assert |a + [x]| == |b + [x]|;
      assert a == (a + [x])[..|a|] && b == (b + [x])[..|b|];
    }
  }

  /**
   * For every list that `encode` accepts: `decode` gives it back, between the computed
   * fields, if and only if the list is framed for the size of its own frame.
   */
  lemma {:induction false} RoundTripIff(fields: seq<Field>)
    requires Encode(fields).Ok?
    ensures Decode(Encode(fields).value) == Message(Dressed(fields)) <==>
      Framed(Anything, fields, |Unsealed(Body(fields))|)
  {
    var body := Body(fields);
    hide Decode, Seal, Unsealed, Decimal, Body, ParseFrom, PyInt, Framed, Announces;
    var u := Unsealed(body);
    var all := [Field(BEGIN_STRING, FIXT11), Field(BODY_LENGTH, Decimal(|body|))] + fields;
    DecodesTo(fields);
    UnsealedIsBody(fields);
    PyIntText(|body|);
    Computed(fields, Decimal(|body|), |u|);
    assert u == [] + Body(all);
    if Framed(Anything, all, |u|) {
      FramedParses(u, [], all, Anything);
    }
    if ParseFrom(u, 0, Anything, {}) == Fields(all) {
      FramedIfParsed(u, [], all, Anything, {});
    }
  }

  // ---------------------------------------------------------------- well-framed lists

  lemma {:induction false} BodyTail(fields: seq<Field>)
    requires fields != []
    ensures |Body(fields[1..])| + |fields[0].value| + 3 <= |Body(fields)|
  {
    FieldBytesShape([], fields[0]);
    hide FieldBytes;
  }

  /** Where no length is negative, framed and well framed are one. */
  lemma {:induction false} FramedIsWellFramed(fields: seq<Field>, n: nat)
    requires LengthsNotNegative(fields) && |Body(fields)| <= n
    ensures Framed(Anything, fields, n) <==> WellFramed(fields)
    decreases |fields|
  {
    hide PyInt, Body, FieldBytes;
    if fields != [] {
      var f, rest := fields[0], fields[1..];
      BodyTail(fields);
      assert forall k :: 0 <= k < |rest| ==> rest[k] == fields[k + 1];
      if DataTagFor(f.tag).None? {
        FramedIsWellFramed(rest, n);
      } else if rest != [] && PyInt(f.value).Some? {
        BodyTail(rest);
        assert rest[1..] == fields[2..];
        assert forall k :: 0 <= k < |rest[1..]| ==> rest[1..][k] == fields[k + 2];
        FramedIsWellFramed(rest[1..], n);
        assert LengthNotNegative(fields[0]);
        assert IsDataTag(rest[0].tag) ==> Announces(rest[0]) == Some(Anything);
      }
    }
  }

  /** So among lists without a used negative length, exactly the well-framed ones come back. */
  lemma {:induction false} RoundTripIffNotNegative(fields: seq<Field>)
    requires Encode(fields).Ok? && LengthsNotNegative(fields)
    ensures Decode(Encode(fields).value) == Message(Dressed(fields)) <==> WellFramed(fields)
  {
    hide Decode, Body, Framed, WellFramed, LengthsNotNegative, Seal;
    RoundTripIff(fields);
    FramedIsWellFramed(fields, |Unsealed(Body(fields))|);
  }

  // ---------------------------------------------------------------- a negative length that is right

  /** "35=A", "95=-37", an empty "96=", "58=t": 37 bytes with what comes before. */
  const COUNTED_BACK: seq<Field> := [
    Field(MSG_TYPE, [65]),
    Field(RAW_DATA_LENGTH, [MINUS, ZERO + 3, ZERO + 7]),
    Field(RAW_DATA, []),
    Field(58, [116])
  ]

  lemma CountedBackBody()
    ensures |Body(COUNTED_BACK)| == 21 && |Unsealed(Body(COUNTED_BACK))| == 37
  {
    assert IntText(MSG_TYPE) == [51, 53] && IntText(RAW_DATA_LENGTH) == [57, 53];
    assert IntText(RAW_DATA) == [57, 54] && IntText(58) == [53, 56];
    var a, b, c := COUNTED_BACK[1..], COUNTED_BACK[2..], COUNTED_BACK[3..];
    assert a[1..] == b && b[1..] == c && c[1..] == [];
    assert |Body(c)| == 5;
    assert |Body(b)| == 9;
    assert |Body(a)| == 16;
    assert Decimal(21) == [50, 49];
  }

  lemma MinusThirtySeven()
    ensures PyInt([MINUS, ZERO + 3, ZERO + 7]) == Some(-37)
  {
    var t: seq<byte> := [MINUS, ZERO + 3, ZERO + 7];
    assert StripRight(StripLeft(t)) == t;
    assert t[1..] == [ZERO + 3, ZERO + 7];
    assert t[1..][..1] == [ZERO + 3];
    assert DigitRun([ZERO + 3]) == Some(3);
  }

  /** So a list can have a negative length, not be well framed, and still come back. */
  lemma NegativeLengthRoundTrips()
    ensures Encode(COUNTED_BACK).Ok? && !WellFramed(COUNTED_BACK)
    ensures Decode(Encode(COUNTED_BACK).value) == Message(Dressed(COUNTED_BACK))
  {
    MinusThirtySeven();
    CountedBackBody();
    EncodeAccepts(COUNTED_BACK);
    hide Body, Unsealed, Seal, Decode, PyInt;
    CountedBackFramed();
    RoundTripIff(COUNTED_BACK);
  }

  lemma CountedBackFramed()
    requires PyInt([MINUS, ZERO + 3, ZERO + 7]) == Some(-37)
    ensures Framed(Anything, COUNTED_BACK, 37)
  {
    hide PyInt;
    var a, b, c := COUNTED_BACK[1..], COUNTED_BACK[2..], COUNTED_BACK[3..];
    assert a[1..] == b && b[1..] == c && c[1..] == [];
    assert Framed(Anything, c, 37);
    assert Framed(Data(RAW_DATA, -37), b, 37);
    assert Framed(Anything, a, 37);
  }
}
