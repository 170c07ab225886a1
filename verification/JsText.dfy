/**
  JavaScript strings as the modelled programs see them: sequences of UTF-16 code units,
  unpaired surrogates included. Also the two number conversions the wire codec relies on,
  `String(n)` for a length and `Number.parseInt(text, 10)`.
 */
module JsText {
  import opened Common

  /** A UTF-16 code unit. No proof depends on the range 0 to 65535, so none is imposed. */
  type CodeUnit = int
  type JsString = seq<CodeUnit>

  const DOT: CodeUnit := 0x2E
  const COMMA: CodeUnit := 0x2C
  const SEMICOLON: CodeUnit := 0x3B
  const PLUS: CodeUnit := 0x2B
  const MINUS: CodeUnit := 0x2D
  const ZERO: CodeUnit := 0x30

  /** No JavaScript string is longer than 2^53 - 1 code units. */
  const MAX_STRING_LENGTH: nat := 0x1F_FFFF_FFFF_FFFF

  /** 2^1024 - 2^970: integers from here on round to Infinity. */
  const INFINITY_THRESHOLD: nat :=
    0xFFFFFFFFFFFFFC00000000000000000000000000000000000000000000000000000000000000000000000000000000000000000000000000000000000000000000000000000000000000000000000000000000000000000000000000000000000000000000000000000000000000000000000000000000000000000000000000

  predicate IsDigit(c: CodeUnit) {
    ZERO <= c <= ZERO + 9
  }

  /** The white space and line terminators that `parseInt` skips. */
  predicate IsSpace(c: CodeUnit) {
    0x09 <= c <= 0x0D || c == 0x20 || c == 0xA0 || c == 0x1680 || 0x2000 <= c <= 0x200A
    || c == 0x2028 || c == 0x2029 || c == 0x202F || c == 0x205F || c == 0x3000 || c == 0xFEFF
  }

  function SkipSpace(s: JsString): JsString {
    if s != [] && IsSpace(s[0]) then SkipSpace(s[1..]) else s
  }

  /** Length of the run of digits that starts `s`. */
  function DigitRun(s: JsString): (k: nat)
    ensures k <= |s|
  {
    if s != [] && IsDigit(s[0]) then 1 + DigitRun(s[1..]) else 0
  }

  /** The number a string of digits denotes. */
  function DigitsValue(s: JsString): int {
    if s == [] then 0 else DigitsValue(s[..|s| - 1]) * 10 + (s[|s| - 1] - ZERO)
  }

  datatype ParsedInt = NaN | Integer(value: int)

  /** `Number.parseInt(s, 10)`: leading space and one sign, then digits; the rest is ignored. */
  function ParseInt(s: JsString): ParsedInt {
    var t := SkipSpace(s);
    var signed := t != [] && (t[0] == PLUS || t[0] == MINUS);
    var digits := if signed then t[1..] else t;
    var k := DigitRun(digits);
    if k == 0 then NaN
    else
      var v := DigitsValue(digits[..k]);
      Integer(if signed && t[0] == MINUS then -v else v)
  }

  /** The white space and line terminators of sections 12.2 and 12.3 of ECMA-262, one by one. */
  lemma SpacesOfEcma(c: CodeUnit)
    ensures IsSpace(c) <==> c in {0x09, 0x0A, 0x0B, 0x0C, 0x0D, 0x20, 0xA0, 0x1680, 0x2000, 0x2001, 0x2002, 0x2003,
                                  0x2004, 0x2005, 0x2006, 0x2007, 0x2008, 0x2009, 0x200A, 0x2028, 0x2029, 0x202F,
                                  0x205F, 0x3000, 0xFEFF}
  {
  }

  lemma {:induction false} SpaceSkipped(spaces: JsString, rest: JsString)
    requires forall c :: c in spaces ==> IsSpace(c)
    requires rest == [] || !IsSpace(rest[0])
    ensures SkipSpace(spaces + rest) == rest
  {
    if spaces == [] {
      assert spaces + rest == rest;
    } else {
      assert spaces[0] in spaces;
      HeadTail(spaces, rest);
      SpaceSkipped(spaces[1..], rest);
    }
  }

  lemma {:induction false} DigitsCounted(digits: JsString, rest: JsString)
    requires forall c :: c in digits ==> IsDigit(c)
    requires rest == [] || !IsDigit(rest[0])
    ensures DigitRun(digits + rest) == |digits|
  {
    if digits == [] {
      assert digits + rest == rest;
    } else {
      assert digits[0] in digits;
      HeadTail(digits, rest);
      DigitsCounted(digits[1..], rest);
    }
  }

  /** After any space and at most one sign, the digits are read as a number, and what follows is ignored. */
  lemma ParseIntReads(spaces: JsString, sign: JsString, digits: JsString, rest: JsString)
    requires forall c :: c in spaces ==> IsSpace(c)
    requires sign in {[], [PLUS], [MINUS]}
    requires forall c :: c in digits ==> IsDigit(c)
    requires rest == [] || !IsDigit(rest[0])
    requires digits == [] && sign == [] && rest != [] ==> !IsSpace(rest[0]) && rest[0] != PLUS && rest[0] != MINUS
    ensures ParseInt(spaces + (sign + (digits + rest)))
         == if digits == [] then NaN
            else Integer(if sign == [MINUS] then -DigitsValue(digits) else DigitsValue(digits))
  {
    var t := sign + (digits + rest);
    if digits != [] {
      assert digits[0] in digits;
    }
    SpaceSkipped(spaces, t);
    DigitsCounted(digits, rest);
    if sign == [] {
      assert t == digits + rest;
    } else {
      HeadTail(sign, digits + rest);
      assert sign[1..] + (digits + rest) == digits + rest;
    }
    assert (digits + rest)[..|digits|] == digits;
  }

  /** `String(n)` of a non-negative integer below 10^21. */
  function Decimal(n: nat): (s: JsString)
    ensures s != []
  {
    if n < 10 then [ZERO + n] else Decimal(n / 10) + [ZERO + n % 10]
  }

  lemma {:induction false} DecimalDigits(n: nat)
    ensures forall c :: c in Decimal(n) ==> IsDigit(c)
  {
    if n >= 10 {
      DecimalDigits(n / 10);
    }
  }

  lemma {:induction false} DecimalValue(n: nat)
    ensures DigitsValue(Decimal(n)) == n
  {
    if n < 10 {
      assert Decimal(n)[..0] == [];
    } else {
      DecimalValue(n / 10);
      assert Decimal(n)[..|Decimal(n)| - 1] == Decimal(n / 10);
    }
  }

  lemma {:induction false} DigitRunOfDigits(s: JsString)
    requires forall c :: c in s ==> IsDigit(c)
    ensures DigitRun(s) == |s|
  {
    if s != [] {
      assert s[0] in s;
      DigitRunOfDigits(s[1..]);
    }
  }

  /** Printing a length and reading it back gives the length. */
  lemma ParseIntOfDecimal(n: nat)
    ensures ParseInt(Decimal(n)) == Integer(n)
  {
    var s := Decimal(n);
    DecimalDigits(n);
    assert s[0] in s;
    assert SkipSpace(s) == s;
    DigitRunOfDigits(s);
    assert s[..|s|] == s;
    DecimalValue(n);
  }

  /** `s.indexOf(c)`, with -1 for absent. */
  function IndexOf(s: JsString, c: CodeUnit): (k: int)
    ensures -1 <= k < |s|
  {
    if s == [] then -1
    else if s[0] == c then 0
    else
      var k := IndexOf(s[1..], c);
      if k < 0 then -1 else k + 1
  }

  /** What comes after the first occurrence plays no part in finding it. */
  lemma {:induction false} IndexOfAppend(s: JsString, c: CodeUnit, t: JsString)
    requires IndexOf(s, c) >= 0
    ensures IndexOf(s + t, c) == IndexOf(s, c)
  {
    assert (s + t)[0] == s[0];
    if s[0] != c {
      IndexOfAppend(s[1..], c, t);
      assert (s + t)[1..] == s[1..] + t;
    }
  }

  lemma {:induction false} IndexOfAfter(s: JsString, c: CodeUnit, t: JsString)
    requires c !in s
    ensures IndexOf(s + [c] + t, c) == |s|
  {
    if s != [] {
      assert s[0] in s;
      IndexOfAfter(s[1..], c, t);
      assert (s + [c] + t)[1..] == s[1..] + [c] + t;
    }
  }

  /** `s.indexOf(c, from)`. */
  function IndexOfFrom(s: JsString, c: CodeUnit, from: nat): int
    requires from <= |s|
  {
    var k := IndexOf(s[from..], c);
    if k < 0 then -1 else from + k
  }
}
