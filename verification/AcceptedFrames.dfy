/**
 * Exactly which bytes `decode` accepts: the framing around the body, and the spelling of the
 * fields in it.
 */
module AcceptedFrames {
  import opened Bytes
  import opened Codec
  import opened RoundTrip
  import opened Wrappers

  // ---------------------------------------------------------------- the framing

  /** "8=" begin SOH "9=" length SOH */
  function Front(begin: seq<byte>, length: seq<byte>): seq<byte> {
    [56, 61] + begin + [1] + [57, 61] + length + [1]
  }

  /** "10=" sum SOH */
  function Trailer(sum: seq<byte>): seq<byte> {
    [49, 48, 61] + sum + [1]
  }

  /** The declared length is the length of the body, and the declared sum that of all before the trailer. */
  predicate IsFrame(data: seq<byte>, begin: seq<byte>, length: seq<byte>, body: seq<byte>, sum: seq<byte>) {
    && data == Front(begin, length) + body + Trailer(sum)
    && SOH !in begin && SOH !in length && |sum| == 3
    && PyInt(length) == Some(|body|)
    && PyInt(sum) == Some(ByteSum(Front(begin, length) + body) % 256)
  }

  /** What the checks have found in bytes they accept. */
  lemma CheckedParts(data: seq<byte>)
    requires CheckFrame(data).Ok?
    ensures |data| >= 7 && data[..2] == [56, 61] && data[|data| - 1] == SOH
    ensures var at := |data| - 7;
      && data[at..at + 3] == [49, 48, 61]
      && PyInt(data[at + 3..at + 6]) == Some(ByteSum(data[..at]) % 256)
      && CheckLength(data, at) == None
  {
    hide PyInt, ByteSum, CheckLength;
  }

  /** Where the BodyLength field is, and that it lies before the trailer. */
  lemma LengthPlace(data: seq<byte>, at: nat) returns (soh1: nat, soh2: nat)
    requires at + 7 == |data| && data[at..at + 3] == [49, 48, 61] && data[|data| - 1] == SOH
    requires CheckLength(data, at) == None && SOH !in data[at + 3..at + 6]
    ensures soh1 + 3 <= soh2 < at && data[soh1] == SOH && data[soh2] == SOH
    ensures SOH !in data[..soh1] && SOH !in data[soh1 + 1..soh2]
    ensures data[soh1 + 1..soh1 + 3] == [57, 61]
    ensures PyInt(data[soh1 + 3..soh2]) == Some(at - (soh2 + 1))
  {
    hide PyInt, CheckLength;
    soh1, soh2 := TwoDelimiters(data, at);
    TrailerBytes(data, at);
    PlaceBefore(data, at, soh1, soh2);
    SliceInside(data, soh1 + 3, soh2);
  }

  lemma TrailerBytes(data: seq<byte>, at: nat)
    requires at + 7 == |data| && data[at..at + 3] == [49, 48, 61] && SOH !in data[at + 3..at + 6]
    ensures data[at] == 49 && data[at + 1] == 48 && data[at + 2] == EQUALS
    ensures forall k :: at <= k < at + 6 ==> data[k] != SOH
  {
    assert data[at..at + 3][0] == 49 && data[at..at + 3][1] == 48 && data[at..at + 3][2] == 61;
    assert forall k :: at + 3 <= k < at + 6 ==> data[k] == data[at + 3..at + 6][k - at - 3];
  }

  lemma SliceInside(data: seq<byte>, lo: nat, hi: nat)
    requires lo <= hi <= |data|
    ensures Slice(data, lo, hi) == data[lo..hi]
  {
  }

  lemma TwoDelimiters(data: seq<byte>, at: nat) returns (soh1: nat, soh2: nat)
    requires at + 7 == |data| && CheckLength(data, at) == None
    ensures soh1 < soh2 < |data| && data[soh1] == SOH && data[soh2] == SOH
    ensures SOH !in data[..soh1] && SOH !in data[soh1 + 1..soh2]
    ensures soh1 + 3 <= |data| && data[soh1 + 1] == 57 && data[soh1 + 2] == 61 && data[soh1 + 1..soh1 + 3] == [57, 61]
    ensures PyInt(Slice(data, soh1 + 3, soh2)) == Some(at - (soh2 + 1))
  {
    hide PyInt;
    soh1, soh2 := IndexOf(data, SOH, 0).value, IndexOf(data, SOH, IndexOf(data, SOH, 0).value + 1).value;
    IndexOfFirst(data, SOH, 0);
    IndexOfFirst(data, SOH, soh1 + 1);
    hide IndexOf;
    var marker := Slice(data, soh1 + 1, soh1 + 3);
    assert |marker| == 2 && marker[0] == 57 && marker[1] == 61;
  }

  lemma PlaceBefore(data: seq<byte>, at: nat, soh1: nat, soh2: nat)
    requires at + 7 == |data| && data[at] == 49 && data[at + 1] == 48 && data[at + 2] == EQUALS
    requires forall k :: at <= k < at + 6 ==> data[k] != SOH
    requires soh1 < soh2 < |data| && data[soh1] == SOH && data[soh2] == SOH
    requires soh1 + 3 <= |data| && data[soh1 + 1] == 57 && data[soh1 + 2] == 61
    requires PyInt(Slice(data, soh1 + 3, soh2)).Some?
    ensures soh1 + 3 <= soh2 < at
  {
    var text := Slice(data, soh1 + 3, soh2);
    PyIntHasNoEquals(text);
    hide PyInt;
    assert soh2 != soh1 + 1 && soh2 != soh1 + 2;
    assert forall k :: soh1 + 3 <= k < soh2 ==> data[k] == text[k - soh1 - 3];
  }

  lemma PyIntHasNoEquals(text: seq<byte>)
    requires PyInt(text).Some?
    ensures EQUALS !in text
  {
    var u := StripLeft(text);
    var t := StripRight(u);
    StripLeftKeeps(text);
    StripRightKeeps(u);
    hide StripLeft, StripRight;
    if t != [] && (t[0] == MINUS || t[0] == PLUS) {
      DigitRunHolds(t[1..]);
      assert t == [t[0]] + t[1..];
    } else {
      DigitRunHolds(t);
    }
  }

  /** Bytes that pass the checks are a frame. */
  lemma CheckedIsFrame(data: seq<byte>) returns (begin: seq<byte>, length: seq<byte>, body: seq<byte>, sum: seq<byte>)
    requires CheckFrame(data).Ok?
    ensures IsFrame(data, begin, length, body, sum)
  {
    hide PyInt, ByteSum, CheckLength, CheckFrame, Front, Trailer, IsFrame;
    CheckedParts(data);
    var at := |data| - 7;
    sum := data[at + 3..at + 6];
    PyIntHasNoSoh(sum);
    var soh1, soh2 := LengthPlace(data, at);
    BehindMarker(data, soh1);
    begin, length, body := data[2..soh1], data[soh1 + 3..soh2], data[soh2 + 1..at];
    PartFree(data, 0, soh1, 2);
    PartFree(data, soh1 + 1, soh2, soh1 + 3);
    Pieces(data, soh1, soh2, at);
    Assembled(data, begin, length, body, sum, at);
  }

  lemma BehindMarker(data: seq<byte>, k: nat)
    requires |data| >= 2 && data[..2] == [56, 61] && k < |data| && data[k] == SOH
    ensures k >= 2
  {
    assert data[..2][0] == 56 && data[..2][1] == 61;
  }

  lemma Assembled(data: seq<byte>, begin: seq<byte>, length: seq<byte>, body: seq<byte>, sum: seq<byte>, at: nat)
    requires at <= |data| && data == Front(begin, length) + body + Trailer(sum) && Front(begin, length) + body == data[..at]
    requires SOH !in begin && SOH !in length && |sum| == 3
    requires PyInt(length) == Some(|body|) && PyInt(sum) == Some(ByteSum(data[..at]) % 256)
    ensures IsFrame(data, begin, length, body, sum)
  {
    hide PyInt, ByteSum, Front, Trailer;
  }

  lemma PartFree(data: seq<byte>, lo: nat, hi: nat, from: nat)
    requires lo <= from <= hi <= |data| && SOH !in data[lo..hi]
    ensures SOH !in data[from..hi]
  {
    assert forall k :: 0 <= k < hi - from ==> data[from..hi][k] == data[lo..hi][k + from - lo];
  }

  lemma Pieces(data: seq<byte>, soh1: nat, soh2: nat, at: nat)
    requires 2 <= soh1 && soh1 + 3 <= soh2 < at && at + 7 == |data|
    requires data[..2] == [56, 61] && data[soh1] == SOH && data[soh1 + 1..soh1 + 3] == [57, 61] && data[soh2] == SOH
    requires data[at..at + 3] == [49, 48, 61] && data[|data| - 1] == SOH
    ensures var front := Front(data[2..soh1], data[soh1 + 3..soh2]);
      front == data[..soh2 + 1] && front + data[soh2 + 1..at] == data[..at]
      && data == front + data[soh2 + 1..at] + Trailer(data[at + 3..at + 6])
  {
    assert data[..soh2 + 1] == data[..2] + data[2..soh1] + [data[soh1]] + data[soh1 + 1..soh1 + 3] + data[soh1 + 3..soh2] + [data[soh2]];
    assert data[at..] == data[at..at + 3] + data[at + 3..at + 6] + [data[|data| - 1]];
    assert data == data[..soh2 + 1] + data[soh2 + 1..at] + data[at..];
  }

  /** And a frame passes them. */
  lemma FrameIsChecked(data: seq<byte>, begin: seq<byte>, length: seq<byte>, body: seq<byte>, sum: seq<byte>)
    requires IsFrame(data, begin, length, body, sum)
    ensures CheckFrame(data).Ok?
    ensures data[..|data| - 7] == Front(begin, length) + body
  {
    hide PyInt, ByteSum, CheckLength, CheckFrame, Front;
    var front := Front(begin, length) + body;
    FrameParts(data, front, sum);
    FrameLength(data, begin, length, body, sum);
    PartsAreChecked(data);
  }

  lemma PartsAreChecked(data: seq<byte>)
    requires |data| >= 7 && StartsWith(data, MARKER) && data[|data| - 1] == SOH
    requires var at := |data| - 7;
      && data[at..at + 3] == CHECKSUM_MARKER
      && PyInt(data[at + 3..at + 6]) == Some(ByteSum(data[..at]) % 256)
      && CheckLength(data, at) == None
    ensures CheckFrame(data).Ok?
  {
    hide PyInt, ByteSum, CheckLength;
  }

  lemma FrameParts(data: seq<byte>, front: seq<byte>, sum: seq<byte>)
    requires data == front + Trailer(sum) && |sum| == 3
    ensures var at := |front|;
      && |data| == at + 7 && data[..at] == front && data[at..at + 3] == CHECKSUM_MARKER
      && data[at + 3..at + 6] == sum && data[|data| - 1] == SOH
  {
  }

  lemma FrameLength(data: seq<byte>, begin: seq<byte>, length: seq<byte>, body: seq<byte>, sum: seq<byte>)
    requires IsFrame(data, begin, length, body, sum)
    ensures CheckLength(data, |data| - 7) == None && StartsWith(data, MARKER) && |data| >= 7
  {
    var soh1, soh2 := 2 + |begin|, 5 + |begin| + |length|;
    var rest := body + Trailer(sum);
    hide PyInt, ByteSum, IndexOf;
    assert data == [56, 61] + begin + [1] + ([57, 61] + length + [1] + rest);
    FirstDelimiter(data, begin, [57, 61] + length + [1] + rest);
    SecondDelimiter(data, begin, length, rest);
    assert |data| == soh2 + 1 + |body| + 7;
  }

  lemma {:induction false} FirstDelimiter(data: seq<byte>, begin: seq<byte>, rest: seq<byte>)
    requires data == [56, 61] + begin + [1] + rest && SOH !in begin
    ensures IndexOf(data, SOH, 0) == Some(2 + |begin|) && StartsWith(data, MARKER)
  {
    hide IndexOf;
    assert data == [] + ([56, 61] + begin) + [SOH] + rest;
    FindAfter(data, [], [56, 61] + begin, SOH, rest);
  }

  lemma {:induction false} SecondDelimiter(data: seq<byte>, begin: seq<byte>, length: seq<byte>, rest: seq<byte>)
    requires data == [56, 61] + begin + [1] + ([57, 61] + length + [1] + rest) && SOH !in length
    ensures var soh1, soh2 := 2 + |begin|, 5 + |begin| + |length|;
      && soh2 < |data| && IndexOf(data, SOH, soh1 + 1) == Some(soh2)
      && Slice(data, soh1 + 1, soh1 + 3) == LENGTH_MARKER && Slice(data, soh1 + 3, soh2) == length
  {
    hide IndexOf;
    var first := [56, 61] + begin + [1];
    SecondPieces(data, first, length, rest);
    FindAfter(data, first, [57, 61] + length, SOH, rest);
  }

  lemma SecondPieces(data: seq<byte>, first: seq<byte>, length: seq<byte>, rest: seq<byte>)
    requires data == first + ([57, 61] + length + [1] + rest)
    ensures data == first + ([57, 61] + length) + [SOH] + rest
    ensures |first| + 2 + |length| < |data|
    ensures Slice(data, |first|, |first| + 2) == LENGTH_MARKER
    ensures Slice(data, |first| + 2, |first| + 2 + |length|) == length
  {
    var n := |first|;
    assert data[n..] == [57, 61] + length + [1] + rest;
    assert data[n..n + 2] == [57, 61] && data[n + 2..n + 2 + |length|] == length;
  }

  ghost predicate SomeFrame(data: seq<byte>) {
    exists begin, length, body, sum :: IsFrame(data, begin, length, body, sum)
  }

  /** The checks of `decode` pass on exactly the frames: there are no others, and none is refused. */
  lemma CheckedIff(data: seq<byte>)
    ensures CheckFrame(data).Ok? <==> SomeFrame(data)
  {
    hide CheckFrame, IsFrame;
    if CheckFrame(data).Ok? {
      var begin, length, body, sum := CheckedIsFrame(data);
    }
    if begin, length, body, sum :| IsFrame(data, begin, length, body, sum) {
      FrameIsChecked(data, begin, length, body, sum);
    }
  }

  // ---------------------------------------------------------------- the fields

  /** The fields, each with its tag spelt in the given way. */
  function Spell(texts: seq<seq<byte>>, fields: seq<Field>): seq<byte>
    requires |texts| == |fields|
  {
    if fields == [] then [] else (texts[0] + [EQUALS] + fields[0].value + [SOH]) + Spell(texts[1..], fields[1..])
  }

  /** Spellings of the tags, as Python's `int` reads them. */
  predicate SpellTags(texts: seq<seq<byte>>, fields: seq<Field>) {
    |texts| == |fields| && forall k :: 0 <= k < |texts| ==> PyInt(texts[k]) == Some(fields[k].tag)
  }

  ghost predicate IsSpelt(data: seq<byte>, fields: seq<Field>) {
    exists texts :: SpellTags(texts, fields) && data == Spell(texts, fields)
  }

  /** One field read, and the bytes it was read from. */
  lemma {:induction false} ReadBytes(data: seq<byte>, i: nat, awaited: Expectation)
    requires i < |data| && ParseField(data, i, awaited).Next? && (awaited.Data? ==> awaited.length >= 0)
    ensures var step, eq := ParseField(data, i, awaited), IndexOf(data, EQUALS, i).value;
      && i <= eq < step.cursor <= |data| && PyInt(data[i..eq]) == Some(step.field.tag)
      && data[i..step.cursor] == data[i..eq] + [EQUALS] + step.field.value + [SOH]
  {
    CursorAdvancesIff(data, i, awaited);
    if awaited.Data? {
      ReadCounted(data, i, awaited);
    } else {
      ReadScanned(data, i);
    }
    hide ParseField, PyInt, IndexOf;
    FourPieces(data, i, IndexOf(data, EQUALS, i).value, ParseField(data, i, awaited).cursor);
  }

  lemma FourPieces(data: seq<byte>, i: nat, eq: nat, c: nat)
    requires i <= eq && eq + 2 <= c <= |data|
    ensures data[i..c] == data[i..eq] + [data[eq]] + data[eq + 1..c - 1] + [data[c - 1]]
  {
  }

  lemma {:induction false} ReadCounted(data: seq<byte>, i: nat, awaited: Expectation)
    requires i < |data| && awaited.Data? && awaited.length >= 0 && ParseField(data, i, awaited).Next?
    ensures var step, eq := ParseField(data, i, awaited), IndexOf(data, EQUALS, i).value;
      && eq + 2 <= step.cursor <= |data| && PyInt(data[i..eq]) == Some(step.field.tag)
      && step.field.value == data[eq + 1..step.cursor - 1] && data[step.cursor - 1] == SOH
  {
    hide PyInt, IndexOf;
    var eq := IndexOf(data, EQUALS, i).value;
    var vend := eq + 1 + awaited.length;
    assert Slice(data, |data|, |data| + 1) == [];
    assert Slice(data, vend, vend + 1) == data[vend..vend + 1];
  }

  lemma {:induction false} ReadScanned(data: seq<byte>, i: nat)
    requires i < |data| && ParseField(data, i, Anything).Next?
    ensures var step, eq := ParseField(data, i, Anything), IndexOf(data, EQUALS, i).value;
      && eq + 2 <= step.cursor <= |data| && PyInt(data[i..eq]) == Some(step.field.tag)
      && step.field.value == data[eq + 1..step.cursor - 1] && data[step.cursor - 1] == SOH
  {
    hide PyInt, IndexOf;
  }

  /** What has been parsed is spelt in the data, all of it, each field with its delimiter. */
  lemma {:induction false} ParsedIsSpelt(data: seq<byte>, i: nat, awaited: Expectation, back: set<nat>, fields: seq<Field>)
    returns (texts: seq<seq<byte>>)
    requires i <= |data| && Within(back, |data|) && ParseFrom(data, i, awaited, back) == Fields(fields) && LengthsNotNegative(fields)
    requires awaited.Data? ==> awaited.length >= 0 && IsDataTag(awaited.tag)
    ensures SpellTags(texts, fields) && data[i..] == Spell(texts, fields)
    decreases |data| - i
  {
    if i == |data| {
      texts := [];
    } else {
      var step := ParseField(data, i, awaited);
      CursorAdvancesIff(data, i, awaited);
      FieldIsFramed(data, i, awaited);
      ReadBytes(data, i, awaited);
      hide ParseField, PyInt, IndexOf;
      var rest := fields[1..];
      assert fields == [step.field] + rest;
      var text := data[i..IndexOf(data, EQUALS, i).value];
      var c := step.cursor;
      LengthsLeft(fields);
      if rest == [] {
        assert ParseFrom(data, c, step.awaited, back) == Fields(rest);
        NothingLeft(data, c, step.awaited, back);
        texts := [text];
      } else {
        var more := ParsedIsSpelt(data, c, step.awaited, back, rest);
        texts := [text] + more;
      }
      SpellOne(data, i, c, text, texts, fields);
    }
  }

  lemma LengthsLeft(fields: seq<Field>)
    requires fields != [] && LengthsNotNegative(fields)
    ensures LengthsNotNegative(fields[1..]) && (|fields| > 1 ==> LengthNotNegative(fields[0]))
  {
    assert forall k :: 0 <= k < |fields[1..]| ==> fields[1..][k] == fields[k + 1];
  }

  lemma {:induction false} NothingLeft(data: seq<byte>, i: nat, awaited: Expectation, back: set<nat>)
    requires i <= |data| && Within(back, |data|) && ParseFrom(data, i, awaited, back) == Fields([])
    ensures i == |data|
  {
    hide ParseField;
  }

  lemma {:induction false} SpellOne(data: seq<byte>, i: nat, c: nat, text: seq<byte>, texts: seq<seq<byte>>, fields: seq<Field>)
    requires i < c <= |data| && fields != [] && |texts| == |fields| && texts[0] == text
    requires data[i..c] == text + [EQUALS] + fields[0].value + [SOH] && PyInt(text) == Some(fields[0].tag)
    requires SpellTags(texts[1..], fields[1..]) && data[c..] == Spell(texts[1..], fields[1..])
    ensures SpellTags(texts, fields) && data[i..] == Spell(texts, fields)
  {
    hide PyInt;
    assert data[i..] == data[i..c] + data[c..];
    assert forall k :: 1 <= k < |texts| ==> texts[k] == texts[1..][k - 1] && fields[k] == fields[1..][k - 1];
  }

  // ---------------------------------------------------------------- and back

  /** A field found by its delimiter, with any spelling of its tag. */
  lemma ScannedSpelling(data: seq<byte>, pre: seq<byte>, text: seq<byte>, f: Field, post: seq<byte>)
    requires data == pre + (text + [EQUALS] + f.value + [SOH]) + post
    requires PyInt(text) == Some(f.tag) && SOH !in f.value
    ensures |pre| < |pre| + |text| + |f.value| + 2 <= |data|
    ensures ParseField(data, |pre|, Anything) == AfterValue(f.tag, f.value, |pre| + |text| + |f.value| + 2)
  {
    PyIntHasNoEquals(text);
    hide PyInt, IndexOf, AfterValue, ParseField;
    SeparatorAt(data, pre, text, f.value, post);
    ValueEndsAt(data, pre, text, f.value, post);
    PartsAt(data, pre, text, f.value, post);
    ScannedAt(data, |pre|, |pre| + |text|, |pre| + |text| + 1 + |f.value|);
  }

  lemma ScannedAt(data: seq<byte>, i: nat, eq: nat, end: nat)
    requires i <= eq < end < |data| && PyInt(data[i..eq]).Some?
    requires IndexOf(data, EQUALS, i) == Some(eq) && IndexOf(data, SOH, eq + 1) == Some(end)
    ensures ParseField(data, i, Anything) == AfterValue(PyInt(data[i..eq]).value, data[eq + 1..end], end + 1)
  {
    hide PyInt, IndexOf, AfterValue;
  }

  lemma CountedSpelling(data: seq<byte>, pre: seq<byte>, text: seq<byte>, f: Field, post: seq<byte>)
    requires data == pre + (text + [EQUALS] + f.value + [SOH]) + post
    requires PyInt(text) == Some(f.tag)
    ensures |pre| < |pre| + |text| + |f.value| + 2 <= |data|
    ensures ParseField(data, |pre|, Data(f.tag, |f.value|)) == AfterValue(f.tag, f.value, |pre| + |text| + |f.value| + 2)
  {
    hide PyInt, IndexOf, AfterValue, ParseField;
    SpellingParts(data, pre, text, f.value, post);
    hide *;
    CountedAt(data, |pre|, |pre| + |text|, f.tag, |f.value|);
  }

  lemma {:induction false} SpellingParts(data: seq<byte>, pre: seq<byte>, text: seq<byte>, v: seq<byte>, post: seq<byte>)
    requires data == pre + (text + [EQUALS] + v + [SOH]) + post && PyInt(text).Some?
    ensures var eq := |pre| + |text|; var end := eq + 1 + |v|;
      && end < |data| && data[|pre|..eq] == text && data[eq + 1..end] == v && data[end..end + 1] == [SOH]
      && IndexOf(data, EQUALS, |pre|) == Some(eq)
  {
    PyIntHasNoEquals(text);
    hide PyInt, IndexOf;
    SeparatorAt(data, pre, text, v, post);
    PartsAt(data, pre, text, v, post);
  }

  lemma {:induction false} CountedAt(data: seq<byte>, i: nat, eq: nat, tag: int, size: nat)
    requires i <= eq && eq + 1 + size < |data| && PyInt(data[i..eq]) == Some(tag)
    requires IndexOf(data, EQUALS, i) == Some(eq) && data[eq + 1 + size..eq + 2 + size] == [SOH]
    ensures ParseField(data, i, Data(tag, size)) == AfterValue(tag, data[eq + 1..eq + 1 + size], eq + 2 + size)
  {
    hide PyInt, IndexOf, AfterValue, ParseField;
    SliceInside(data, eq + 1, eq + 1 + size);
    SliceInside(data, eq + 1 + size, eq + 2 + size);
    hide Slice;
    CountedBranch(data, i, eq, tag, size);
  }

  lemma {:induction false} CountedBranch(data: seq<byte>, i: nat, eq: nat, tag: int, size: nat)
    requires i < |data| && i <= eq < |data| && PyInt(data[i..eq]) == Some(tag) && IndexOf(data, EQUALS, i) == Some(eq)
    ensures ParseField(data, i, Data(tag, size)) ==
      if eq + 1 + size > |data| || Slice(data, eq + 1 + size, eq + 2 + size) != [SOH] then Bad(DataOverrun)
      else AfterValue(tag, Slice(data, eq + 1, eq + 1 + size), eq + 2 + size)
  {
    hide PyInt, IndexOf, AfterValue, Slice;
  }

  lemma {:induction false} SpeltParses(data: seq<byte>, pre: seq<byte>, texts: seq<seq<byte>>, fields: seq<Field>, awaited: Expectation)
    requires SpellTags(texts, fields) && data == pre + Spell(texts, fields)
    requires awaited.Anything? ==> WellFramed(fields)
    requires awaited.Data? && fields != [] ==>
      IsDataTag(fields[0].tag) && awaited == Data(fields[0].tag, |fields[0].value|) && WellFramed(fields[1..])
    ensures ParseFrom(data, |pre|, awaited, {}) == Fields(fields)
    decreases |fields|
  {
    hide ParseField, PyInt;
    if fields == [] {
      assert |pre| == |data|;
      return;
    }
    hide ParseFrom;
    var f, text := fields[0], texts[0];
    var piece, post := text + [EQUALS] + f.value + [SOH], Spell(texts[1..], fields[1..]);
    assert data == pre + piece + post by { assert pre + (piece + post) == pre + piece + post; }
    assert fields == [f] + fields[1..];
    var end := |pre| + |piece|;
    var next := if awaited.Data? || DataTagFor(f.tag).None? then Anything
                else Data(DataTagFor(f.tag).value, PyInt(f.value).value);
    if awaited.Data? {
      CountedSpelling(data, pre, text, f, post);
    } else {
      ScannedSpelling(data, pre, text, f, post);
      if |fields| > 1 {
        assert fields[1..][1..] == fields[2..];
      }
    }
    hide Spell, WellFramed;
    SpeltParses(data, pre + piece, texts[1..], fields[1..], next);
    LoopStep(data, |pre|, awaited, f, end, next, {}, fields[1..]);
  }

  /**
   * Exactly what the field loop makes of any bytes: apart from used negative lengths it gives
   * a list if and only if the list is well framed and the bytes spell it.
   */
  lemma {:induction false} ParsedIff(data: seq<byte>, fields: seq<Field>)
    ensures (ParseFrom(data, 0, Anything, {}) == Fields(fields) && LengthsNotNegative(fields)) <==>
      (WellFramed(fields) && IsSpelt(data, fields))
  {
    hide ParseFrom, WellFramed, Spell, LengthsNotNegative, PyInt;
    if ParseFrom(data, 0, Anything, {}) == Fields(fields) && LengthsNotNegative(fields) {
      ParsedIsWellFramed(data, 0, Anything, {}, fields);
      var texts := ParsedIsSpelt(data, 0, Anything, {}, fields);
      assert data[0..] == data;
    }
    if WellFramed(fields) && IsSpelt(data, fields) {
      var texts :| SpellTags(texts, fields) && data == Spell(texts, fields);
      WellFramedLengths(fields);
      assert [] + Spell(texts, fields) == data;
      SpeltParses(data, [], texts, fields, Anything);
    }
  }

  /** So `decode` accepts and reports exactly this. */
  lemma {:induction false} AcceptedIff(data: seq<byte>, fields: seq<Field>)
    ensures (exists sum :: Decode(data) == Message(fields + [Field(CHECK_SUM, sum)]) && LengthsNotNegative(fields)) <==>
      (SomeFrame(data) && |data| >= 7 && WellFramed(fields) && IsSpelt(data[..|data| - 7], fields))
  {
    hide CheckFrame, ParseFrom, WellFramed, LengthsNotNegative, IsSpelt, SomeFrame;
    CheckedIff(data);
    if CheckFrame(data).Ok? {
      CheckedParts(data);
      ParsedIff(data[..|data| - 7], fields);
      var p := ParseFrom(data[..|data| - 7], 0, Anything, {});
      if p.Fields? {
        var sum := ThreeDigits(CheckFrame(data).value);
        assert Decode(data) == Message(p.fields + [Field(CHECK_SUM, sum)]);
        forall other | p.fields + [Field(CHECK_SUM, sum)] == fields + [Field(CHECK_SUM, other)]
          ensures p.fields == fields
        {
          LastTaken(p.fields, fields, Field(CHECK_SUM, sum), Field(CHECK_SUM, other));
        }
      }
    }
  }

  lemma LastTaken<T>(a: seq<T>, b: seq<T>, x: T, y: T)
    requires a + [x] == b + [y]
    ensures a == b
  {
    assert |a + [x]| == |b + [y]|;
    assert a == (a + [x])[..|a|] && b == (b + [y])[..|b|];
  }
}
