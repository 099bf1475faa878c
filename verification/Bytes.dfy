/**
 * Byte strings as the codec uses them: searching, slicing with Python's rules
 * for negative positions, and the text of integers in both directions.
 */
module Bytes {
  import opened Wrappers

  type byte = b: int | 0 <= b < 256

  const SOH: byte := 1
  const EQUALS: byte := 61
  const ZERO: byte := 48
  const MINUS: byte := 45
  const PLUS: byte := 43
  const UNDERSCORE: byte := 95

  // ---------------------------------------------------------------- searching

  /** `data.find(b, start)`, with `None` for Python's -1. */
  function IndexOf(data: seq<byte>, b: byte, start: nat): (r: Option<nat>)
    ensures r.Some? ==> start <= r.value < |data| && data[r.value] == b
    decreases |data| - start
  {
    if start >= |data| then None
    else if data[start] == b then Some(start)
    else IndexOf(data, b, start + 1)
  }

  /** Nothing before the reported place, or before the end if there is none, is `b`. */
  lemma {:induction false} IndexOfFirst(data: seq<byte>, b: byte, start: nat)
    ensures var r := IndexOf(data, b, start);
      forall k :: start <= k < (if r.Some? then r.value else |data|) ==> data[k] != b
    decreases |data| - start
  {
    if start < |data| && data[start] != b {
      IndexOfFirst(data, b, start + 1);
    }
  }

  lemma {:induction false} IndexOfIs(data: seq<byte>, b: byte, start: nat, at: nat)
    requires start <= at < |data| && data[at] == b && b !in data[start..at]
    ensures IndexOf(data, b, start) == Some(at)
  {
    IndexOfFirst(data, b, start);
    assert forall k :: start <= k < at ==> data[k] == data[start..at][k - start];
  }

  /** `b` is found right after the text `t` when `t` has none. */
  lemma {:induction false} FindAfter(data: seq<byte>, pre: seq<byte>, t: seq<byte>, b: byte, rest: seq<byte>)
    requires data == pre + t + [b] + rest
    requires b !in t
    ensures IndexOf(data, b, |pre|) == Some(|pre| + |t|)
  {
    var at := |pre| + |t|;
    assert data[|pre|..at] == t;
    IndexOfIs(data, b, |pre|, at);
  }

  predicate StartsWith(data: seq<byte>, prefix: seq<byte>) {
    prefix <= data
  }

  // ---------------------------------------------------------------- slicing

  /** Where Python puts position `i` of a sequence of length `n` when slicing or searching. */
  function Clamp(n: nat, i: int): (c: nat)
    ensures c <= n
  {
    if i < 0 then (if n + i < 0 then 0 else n + i)
    else if i > n then n else i
  }

  /** `data[lo:hi]` for any integers, negative ones counting from the end. */
  function Slice(data: seq<byte>, lo: int, hi: int): seq<byte> {
    var a, b := Clamp(|data|, lo), Clamp(|data|, hi);
    if a < b then data[a..b] else []
  }

  // ---------------------------------------------------------------- integer text

  predicate IsDigit(b: byte) { ZERO <= b <= ZERO + 9 }

  predicate IsSpace(b: byte) { b == 32 || 9 <= b <= 13 }

  function StripLeft(text: seq<byte>): seq<byte> {
    if text != [] && IsSpace(text[0]) then StripLeft(text[1..]) else text
  }

  function StripRight(text: seq<byte>): seq<byte> {
    if text != [] && IsSpace(text[|text| - 1]) then StripRight(text[..|text| - 1]) else text
  }

  /** Digits in which single underscores may separate two digits. */
  function DigitRun(text: seq<byte>): Option<nat> {
    if text == [] || !IsDigit(text[|text| - 1]) then None
    else
      var d := text[|text| - 1] - ZERO;
      if |text| == 1 then Some(d)
      else
        var front := if text[|text| - 2] == UNDERSCORE then text[..|text| - 2] else text[..|text| - 1];
        match DigitRun(front)
        case None => None
        case Some(v) => Some(10 * v + d)
  }

  /** Python's `int(text)` on a byte string; `None` stands for ValueError. */
  function PyInt(text: seq<byte>): Option<int> {
    var t := StripRight(StripLeft(text));
    if t != [] && (t[0] == MINUS || t[0] == PLUS) then
      match DigitRun(t[1..])
      case None => None
      case Some(v) => if t[0] == MINUS then Some(-(v as int)) else Some(v)
    else
      match DigitRun(t)
      case None => None
      case Some(v) => Some(v)
  }

  /** Python's `str(n)` for a natural number. */
  function Decimal(n: nat): (text: seq<byte>)
    ensures text != []
    ensures forall b <- text :: IsDigit(b)
  {
    if n < 10 then [ZERO + n] else Decimal(n / 10) + [ZERO + n % 10]
  }

  /** Python's `str(n)`. */
  function IntText(n: int): seq<byte> {
    if n < 0 then [MINUS] + Decimal(-n) else Decimal(n)
  }

  /** `f"{c:03d}"` for a checksum. */
  function ThreeDigits(c: byte): seq<byte> {
    [ZERO + c / 100, ZERO + c / 10 % 10, ZERO + c % 10]
  }

  lemma {:induction false} DigitRunDecimal(n: nat)
    ensures DigitRun(Decimal(n)) == Some(n)
  {
    if n >= 10 {
      DigitRunDecimal(n / 10);
      var t := Decimal(n);
      assert t[..|t| - 1] == Decimal(n / 10);
      assert t[|t| - 2] in Decimal(n / 10);
    }
  }

  /** Reading back what `str` wrote gives the same number. */
  lemma PyIntText(n: int)
    ensures PyInt(IntText(n)) == Some(n)
    ensures IntText(n) != [] && SOH !in IntText(n) && EQUALS !in IntText(n)
  {
    NothingStripped(n);
    hide StripLeft, StripRight, DigitRun, Decimal;
    if n < 0 {
      assert IntText(n)[1..] == Decimal(-n);
      DigitRunDecimal(-n);
    } else {
      DigitRunDecimal(n);
    }
  }

  lemma NothingStripped(n: int)
    ensures StripRight(StripLeft(IntText(n))) == IntText(n)
    ensures IntText(n) != [] && IntText(n)[0] in IntText(n)
  {
    hide Decimal;
    var t := IntText(n);
    assert forall b <- t :: IsDigit(b) || b == MINUS;
    assert t[0] in t && t[|t| - 1] in t;
  }

  // What an integer's text can hold, as Python reads it.

  lemma {:induction false} StripLeftKeeps(text: seq<byte>)
    ensures forall b <- text :: IsSpace(b) || b in StripLeft(text)
  {
    if text != [] && IsSpace(text[0]) {
      StripLeftKeeps(text[1..]);
      assert text == [text[0]] + text[1..];
    }
  }

  lemma {:induction false} StripRightKeeps(text: seq<byte>)
    ensures forall b <- text :: IsSpace(b) || b in StripRight(text)
  {
    if text != [] && IsSpace(text[|text| - 1]) {
      StripRightKeeps(text[..|text| - 1]);
      assert text == text[..|text| - 1] + [text[|text| - 1]];
    }
  }

  lemma {:induction false} StripLeftWithin(text: seq<byte>)
    ensures forall b <- StripLeft(text) :: b in text
  {
    if text != [] && IsSpace(text[0]) {
      StripLeftWithin(text[1..]);
    }
  }

  lemma {:induction false} StripRightWithin(text: seq<byte>)
    ensures forall b <- StripRight(text) :: b in text
  {
    if text != [] && IsSpace(text[|text| - 1]) {
      StripRightWithin(text[..|text| - 1]);
    }
  }

  lemma {:induction false} DigitRunHolds(text: seq<byte>)
    requires DigitRun(text).Some?
    ensures forall b <- text :: IsDigit(b) || b == UNDERSCORE
    decreases |text|
  {
    if |text| > 1 {
      var n := if text[|text| - 2] == UNDERSCORE then |text| - 2 else |text| - 1;
      DigitRunHolds(text[..n]);
      assert forall k :: 0 <= k < n ==> text[k] == text[..n][k];
    }
  }

  /** No delimiter is part of an integer. */
  lemma PyIntHasNoSoh(text: seq<byte>)
    requires PyInt(text).Some?
    ensures SOH !in text
  {
    var u := StripLeft(text);
    var t := StripRight(u);
    StripLeftKeeps(text);
    StripRightKeeps(u);
    hide StripLeft, StripRight;
    if t != [] && (t[0] == MINUS || t[0] == PLUS) {
      DigitRunHolds(t[1..]);
      assert t == [t[0]] + t[1..];
    } else {
      DigitRunHolds(t);
    }
  }

  /** Only a minus sign makes one negative. */
  lemma PyIntNegative(text: seq<byte>)
    requires PyInt(text).Some? && PyInt(text).value < 0
    ensures MINUS in text
  {
    StripLeftWithin(text);
    StripRightWithin(StripLeft(text));
    hide StripLeft, StripRight, DigitRun;
    var t := StripRight(StripLeft(text));
    assert t[0] in t;
  }

  lemma PyIntThreeDigits(c: byte)
    ensures PyInt(ThreeDigits(c)) == Some(c)
    ensures SOH !in ThreeDigits(c)
  {
    var t := ThreeDigits(c);
    assert StripRight(StripLeft(t)) == t;
    assert t[..2][..1] == [t[0]];
    assert DigitRun([t[0]]) == Some(c / 100);
    assert DigitRun(t[..2]) == Some(10 * (c / 100) + c / 10 % 10);
    assert t[..|t| - 1] == t[..2];
  }

  lemma {:induction false} DecimalWidth(n: nat, width: nat, bound: nat)
    requires n < bound && bound == Pow10(width) && width > 0
    ensures |Decimal(n)| <= width
    decreases width
  {
    if n >= 10 {
      assert Pow10(1) == 10 * Pow10(0);
      assert bound == 10 * Pow10(width - 1);
      DecimalWidth(n / 10, width - 1, Pow10(width - 1));
    }
  }

  function Pow10(k: nat): nat {
    if k == 0 then 1 else 10 * Pow10(k - 1)
  }

  // ---------------------------------------------------------------- byte sums

  function ByteSum(data: seq<byte>): nat {
    if data == [] then 0 else ByteSum(data[..|data| - 1]) + data[|data| - 1]
  }
}
