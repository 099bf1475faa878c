/**
 * The FIX tag=value codec: assembling a frame, and reading one complete frame.
 * Text values are the byte strings that latin-1 makes of them.
 */
module Codec {
  import opened Bytes
  import opened Wrappers

  datatype Field = Field(tag: int, value: seq<byte>)

  const BEGIN_STRING := 8
  const BODY_LENGTH := 9
  const CHECK_SUM := 10
  const MSG_TYPE := 35
  const SIGNATURE := 89
  const SIGNATURE_LENGTH := 93
  const RAW_DATA_LENGTH := 95
  const RAW_DATA := 96

  /** "FIXT.1.1" */
  const FIXT11: seq<byte> := [70, 73, 88, 84, 46, 49, 46, 49]
  const CHECKSUM_FIELD_LEN := 7
  const MAX_BODY_LENGTH := 1_000_000
  /** "8=", "9=" and "10=" */
  const MARKER: seq<byte> := [56, EQUALS]
  const LENGTH_MARKER: seq<byte> := [57, EQUALS]
  const CHECKSUM_MARKER: seq<byte> := [49, 48, EQUALS]
  /** The bytes every frame starts with: "8=FIXT.1.1" and its SOH. */
  const HEADER: seq<byte> := MARKER + FIXT11 + [SOH]

  /** The data field that a length field announces. */
  function DataTagFor(tag: int): Option<int> {
    if tag == RAW_DATA_LENGTH then Some(RAW_DATA)
    else if tag == SIGNATURE_LENGTH then Some(SIGNATURE)
    else None
  }

  predicate IsDataTag(tag: int) { tag == RAW_DATA || tag == SIGNATURE }

  predicate IsComputedTag(tag: int) { tag == BEGIN_STRING || tag == BODY_LENGTH || tag == CHECK_SUM }

  // ---------------------------------------------------------------- encode

  datatype EncodeError =
    | EmptyFieldList
    | ComputedTag(tag: int)
    | EmbeddedSoh(tag: int)
    | FirstNotMsgType(tag: int)

  /** The first field that `encode` refuses, in field order. */
  function FirstRefused(fields: seq<Field>): Option<EncodeError> {
    if fields == [] then None
    else if IsComputedTag(fields[0].tag) then Some(ComputedTag(fields[0].tag))
    else if !IsDataTag(fields[0].tag) && SOH in fields[0].value then Some(EmbeddedSoh(fields[0].tag))
    else FirstRefused(fields[1..])
  }

  function FieldBytes(f: Field): seq<byte> {
    IntText(f.tag) + [EQUALS] + f.value + [SOH]
  }

  function Body(fields: seq<Field>): seq<byte> {
    if fields == [] then [] else FieldBytes(fields[0]) + Body(fields[1..])
  }

  /** Everything before the CheckSum field. */
  function Unsealed(body: seq<byte>): seq<byte> {
    HEADER + LENGTH_MARKER + Decimal(|body|) + [SOH] + body
  }

  function Seal(unsealed: seq<byte>): seq<byte> {
    unsealed + CHECKSUM_MARKER + ThreeDigits(ByteSum(unsealed) % 256) + [SOH]
  }

  function Encode(fields: seq<Field>): Result<seq<byte>, EncodeError> {
    if fields == [] then Err(EmptyFieldList)
    else match FirstRefused(fields)
      case Some(e) => Err(e)
      case None =>
        if fields[0].tag != MSG_TYPE then Err(FirstNotMsgType(fields[0].tag))
        else Ok(Seal(Unsealed(Body(fields))))
  }

  // ---------------------------------------------------------------- parsing fields

  datatype ParseError =
    | NoSeparator
    | NonIntegerTag
    | WrongDataTag(expected: int, got: int)
    | DataOverrun
    | Unterminated
    | NonIntegerLength

  /** Whether the next field must be the data field of a length field just read. */
  datatype Expectation = Anything | Data(tag: int, length: int)

  datatype FieldStep = Next(field: Field, cursor: int, awaited: Expectation) | Bad(error: ParseError)

  /**
   * One turn of the field loop at position `i`. A declared length is any integer, so the
   * new cursor can be any integer too; slices of it follow Python's rules.
   */
  function ParseField(data: seq<byte>, i: nat, awaited: Expectation): FieldStep
    requires i < |data|
  {
    match IndexOf(data, EQUALS, i)
    case None => Bad(NoSeparator)
    case Some(eq) =>
      match PyInt(data[i..eq])
      case None => Bad(NonIntegerTag)
      case Some(tag) =>
        if awaited.Data? then
          if tag != awaited.tag then Bad(WrongDataTag(awaited.tag, tag))
          else
            var vend := eq + 1 + awaited.length;
            if vend > |data| || Slice(data, vend, vend + 1) != [SOH] then Bad(DataOverrun)
            else AfterValue(tag, Slice(data, eq + 1, vend), vend + 1)
        else
          match IndexOf(data, SOH, eq + 1)
          case None => Bad(Unterminated)
          case Some(soh) => AfterValue(tag, data[eq + 1..soh], soh + 1)
  }

  function AfterValue(tag: int, value: seq<byte>, cursor: int): FieldStep {
    match DataTagFor(tag)
    case None => Next(Field(tag, value), cursor, Anything)
    case Some(dataTag) =>
      match PyInt(value)
      case None => Bad(NonIntegerLength)
      case Some(length) => Next(Field(tag, value), cursor, Data(dataTag, length))
  }

  /** `Loops`: the field loop comes back to where it has been, and never ends. */
  datatype Parsed = Fields(fields: seq<Field>) | Malformed(error: ParseError) | Loops

  function Prepend(fields: seq<Field>, p: Parsed): Parsed {
    if p.Fields? then Fields(fields + p.fields) else p
  }

  predicate Within(positions: set<nat>, n: nat) {
    forall p <- positions :: p < n
  }

  lemma {:induction false} WithinSize(positions: set<nat>, n: nat)
    requires Within(positions, n)
    ensures |positions| <= n
    decreases n
  {
    if n > 0 {
      WithinSize(positions - {n - 1}, n - 1);
    } else {
      assert positions == {};
    }
  }

  /**
   * The field loop from position `i` on. A negative declared length can take the cursor
   * back; `back` is the set of positions it has been taken back to. Coming to one of them a
   * second time means going round forever.
   */
  function ParseFrom(data: seq<byte>, i: nat, awaited: Expectation, back: set<nat>): Parsed
    requires Within(back, |data|)
    decreases |data| - |back|, |data| - i
  {
    if i >= |data| then Fields([])
    else match ParseField(data, i, awaited)
      case Bad(e) => Malformed(e)
      case Next(f, cursor, awaited') =>
        var c := Clamp(|data|, cursor);
        WithinSize(back, |data|);
        if c > i then Prepend([f], ParseFrom(data, c, awaited', back))
        else if c in back then Loops
        else
          WithinSize(back + {c}, |data|);
          Prepend([f], ParseFrom(data, c, awaited', back + {c}))
  }

  /** `_parse_fields`, as the loop it is, stopped where it would go round forever. */
  method ParseFields(data: seq<byte>) returns (r: Parsed)
    ensures r == ParseFrom(data, 0, Anything, {})
  {
    hide ParseField;
    var pairs: seq<Field> := [];
    var i, awaited := 0, Anything;
    var back: set<nat> := {};
    while i < |data|
      invariant 0 <= i && Within(back, |data|)
      invariant ParseFrom(data, 0, Anything, {}) == Prepend(pairs, ParseFrom(data, i, awaited, back))
      decreases |data| - |back|, |data| - i
    {
      WithinSize(back, |data|);
      match ParseField(data, i, awaited)
      case Bad(e) =>
        return Malformed(e);
      case Next(f, cursor, awaited') =>
        var c := Clamp(|data|, cursor);
        if c <= i {
          if c in back {
            return Loops;
          }
          back := back + {c};
          WithinSize(back, |data|);
        }
        PrependTwice(pairs, f, ParseFrom(data, c, awaited', back));
        pairs, i, awaited := pairs + [f], c, awaited';
    }
    return Fields(pairs);
  }

  lemma PrependTwice(fields: seq<Field>, f: Field, p: Parsed)
    ensures Prepend(fields, Prepend([f], p)) == Prepend(fields + [f], p)
  {
    if p.Fields? {
      assert fields + ([f] + p.fields) == (fields + [f]) + p.fields;
    }
  }

  // ---------------------------------------------------------------- decode

  datatype DecodeError =
    | NoBeginString
    | NotSohTerminated
    | NoCheckSum
    | CheckSumNotInteger
    | CheckSumMismatch
    | NoBodyLength
    | BodyLengthNotInteger
    | BodyLengthMismatch
    | BadField(error: ParseError)

  datatype Decoded = Message(pairs: seq<Field>) | Corrupt(error: DecodeError) | Unfinished

  /** The part of decoding that checks the frame; `Ok` carries the three-digit checksum. */
  function CheckFrame(data: seq<byte>): Result<byte, DecodeError> {
    if |data| < CHECKSUM_FIELD_LEN || !StartsWith(data, MARKER) then Err(NoBeginString)
    else if data[|data| - 1] != SOH then Err(NotSohTerminated)
    else
      var at := |data| - CHECKSUM_FIELD_LEN;
      if data[at..at + 3] != CHECKSUM_MARKER then Err(NoCheckSum)
      else match PyInt(data[at + 3..at + 6])
        case None => Err(CheckSumNotInteger)
        case Some(declared) =>
          if ByteSum(data[..at]) % 256 != declared then Err(CheckSumMismatch)
          else match CheckLength(data, at)
            case Some(e) => Err(e)
            case None => Ok(ByteSum(data[..at]) % 256)
  }

  function CheckLength(data: seq<byte>, at: nat): Option<DecodeError> {
    match IndexOf(data, SOH, 0)
    case None => Some(NoBodyLength)
    case Some(soh1) =>
      match IndexOf(data, SOH, soh1 + 1)
      case None => Some(NoBodyLength)
      case Some(soh2) =>
        if Slice(data, soh1 + 1, soh1 + 3) != LENGTH_MARKER then Some(NoBodyLength)
        else match PyInt(Slice(data, soh1 + 3, soh2))
          case None => Some(BodyLengthNotInteger)
          case Some(declared) =>
            if declared != at - (soh2 + 1) then Some(BodyLengthMismatch) else None
  }

  function Decode(data: seq<byte>): Decoded {
    match CheckFrame(data)
    case Err(e) => Corrupt(e)
    case Ok(sum) =>
      assert |data| >= CHECKSUM_FIELD_LEN;
      match ParseFrom(data[..|data| - CHECKSUM_FIELD_LEN], 0, Anything, {})
      case Malformed(e) => Corrupt(BadField(e))
      case Loops => Unfinished
      case Fields(pairs) => Message(pairs + [Field(CHECK_SUM, ThreeDigits(sum))])
  }
}
