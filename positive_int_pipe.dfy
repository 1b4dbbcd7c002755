/**
 * The path-parameter guard `PositiveIntPipe` (backend/src/pipes/positive-int.pipe.ts):
 * it reads a string with JavaScript's `parseInt(value, 10)` and throws a
 * BadRequest unless the outcome is a positive integer.
 */
module PositiveIntPipe {
  import opened Wrappers
  import opened Decimal

  const IntegerExpected := "Validation failed (integer expected)"
  const PositiveExpected := "Validation failed (positive integer is expected)"

  /** Nest's description of the argument being transformed; the pipe never reads it. */
  datatype ArgumentMetadata = ArgumentMetadata(kind: string, data: Option<string>)

  /** What `parseInt` returns: NaN or an integral Number (unbounded here; -0 is 0). */
  datatype NumberValue = NaN | Integral(value: int)

  /**
   * StrWhiteSpaceChar of ECMA-262: the WhiteSpace code points (section 12.2,
   * including every space separator of Unicode category Zs) and the
   * LineTerminator code points (section 12.3).
   */
  predicate IsStrWhiteSpaceChar(c: char) {
    || c == '\t' || c == '\U{000B}' || c == '\U{000C}' || c == ' ' || c == '\U{00A0}' || c == '\U{FEFF}'
    || c == '\U{1680}' || ('\U{2000}' <= c <= '\U{200A}') || c == '\U{202F}' || c == '\U{205F}' || c == '\U{3000}'
    || c == '\n' || c == '\r' || c == '\U{2028}' || c == '\U{2029}'
  }

  predicate AllWhiteSpace(s: string) {
    forall i :: 0 <= i < |s| ==> IsStrWhiteSpaceChar(s[i])
  }

  /** TrimString(s, start): `s` without its leading white space. */
  function TrimStart(s: string): (t: string)
    ensures |t| <= |s| && t == s[|s| - |t|..]
    ensures AllWhiteSpace(s[..|s| - |t|])
    ensures t == [] || !IsStrWhiteSpaceChar(t[0])
  {
    if s == [] || !IsStrWhiteSpaceChar(s[0]) then s else TrimStart(s[1..])
  }

  function Signed(negative: bool, magnitude: nat): int {
    if negative then -(magnitude as int) else magnitude
  }

  /**
   * `parseInt(s, 10)` following section 19.2.5 of ECMA-262: trim leading white
   * space, take one optional sign, read the longest run of decimal digits and
   * ignore whatever follows; no digits at all gives NaN. With radix 10 there
   * is no "0x" prefix handling.
   */
  function ParseInt(s: string): (r: NumberValue)
    ensures AllWhiteSpace(s) ==> r == NaN
    ensures r.Integral? ==> exists i :: 0 <= i < |s| && IsDigit(s[i])
  {
    var t := TrimStart(s);
    var r := ParseTrimmed(t);
    assert r.Integral? ==> IsDigit(s[|s| - |t|]) || IsDigit(s[|s| - |t| + 1]);
    r
  }

  /** The steps of `parseInt` that follow the trimming of white space. */
  function ParseTrimmed(t: string): (r: NumberValue)
    ensures r.Integral? <==>
      (|t| > 0 && IsDigit(t[0])) || (|t| > 1 && (t[0] == '-' || t[0] == '+') && IsDigit(t[1]))
    ensures r.Integral? && r.value < 0 ==> |t| > 0 && t[0] == '-'
  {
    var (negative, body) := StripSign(t);
    ParseDigits(negative, body)
  }

  /** At most one leading character is consumed, exactly when it is '+' or '-'; only '-' makes the result negative. */
  function StripSign(t: string): (p: (bool, string))
    ensures |t| - 1 <= |p.1| <= |t| && p.1 == t[|t| - |p.1|..]
    ensures |p.1| < |t| <==> |t| > 0 && (t[0] == '-' || t[0] == '+')
    ensures p.0 <==> |t| > 0 && t[0] == '-'
  {
    if |t| > 0 && (t[0] == '-' || t[0] == '+') then (t[0] == '-', t[1..]) else (false, t)
  }

  /** The longest digit prefix is read and the rest ignored; no digit at all is NaN. */
  function ParseDigits(negative: bool, body: string): (r: NumberValue)
    ensures r.NaN? <==> body == [] || !IsDigit(body[0])
    ensures r.Integral? && !negative ==> r.value >= 0
    ensures r.Integral? && negative ==> r.value <= 0
  {
    var z := LeadingDigits(body);
    if z == [] then NaN else Integral(Signed(negative, DigitsValue(z)))
  }

  /** PositiveIntPipe.transform: the NaN check comes first, then the sign check. */
  function Transform(value: string, metadata: ArgumentMetadata): (r: Result<int>)
    ensures r.Ok? <==> ParseInt(value).Integral? && ParseInt(value).value >= 1
    ensures r.Ok? ==> r.value == ParseInt(value).value
    ensures ParseInt(value).NaN? ==> r == Err(BadRequest(IntegerExpected))
    ensures ParseInt(value).Integral? && ParseInt(value).value <= 0 ==> r == Err(BadRequest(PositiveExpected))
  {
    var val := ParseInt(value);
    if val.NaN? then Err(BadRequest(IntegerExpected))
    else if val.value <= 0 then Err(BadRequest(PositiveExpected))
    else Ok(val.value)
  }

  lemma {:induction false} TrimStartOfSplit(ws: string, t: string)
    requires AllWhiteSpace(ws)
    requires t == [] || !IsStrWhiteSpaceChar(t[0])
    ensures TrimStart(ws + t) == t
    decreases |ws|
  {
    if ws != [] {
      assert (ws + t)[1..] == ws[1..] + t;
      TrimStartOfSplit(ws[1..], t);
    }
  }

  /** The optional sign `parseInt` accepts before the digits. */
  datatype Sign = NoSign | Plus | Minus

  function SignText(sign: Sign): string {
    match sign
    case NoSign => ""
    case Plus => "+"
    case Minus => "-"
  }

  /**
   * Any string of the shape white space, optional sign, digits, then something
   * that does not begin with a digit parses to the signed value of the digits.
   */
  lemma ParseIntOfParts(ws: string, sign: Sign, digits: string, rest: string)
    requires AllWhiteSpace(ws)
    requires |digits| >= 1 && AllDigits(digits)
    requires rest == [] || !IsDigit(rest[0])
    ensures ParseInt(ws + (SignText(sign) + (digits + rest))) == Integral(Signed(sign == Minus, DigitsValue(digits)))
  {
    var t := SignText(sign) + (digits + rest);
    TrimStartOfSplit(ws, t);
    StripSignOfParts(sign, digits + rest);
    ParseIntOfStripped(ws + t, t, sign == Minus, digits, rest);
  }

  lemma EmptyPrefix<T>(a: seq<T>, c: seq<T>)
    requires a == []
    ensures a + c == c
  {
  }

  lemma ParseIntOfStripped(s: string, t: string, negative: bool, digits: string, rest: string)
    requires TrimStart(s) == t
    requires |digits| >= 1 && AllDigits(digits)
    requires rest == [] || !IsDigit(rest[0])
    requires StripSign(t) == (negative, digits + rest)
    ensures ParseInt(s) == Integral(Signed(negative, DigitsValue(digits)))
  {
    LeadingDigitsOfSplit(digits, rest);
  }

  lemma StripSignOfParts(sign: Sign, x: string)
    requires x == [] || (x[0] != '-' && x[0] != '+')
    ensures StripSign(SignText(sign) + x) == (sign == Minus, x)
  {
    if sign == NoSign {
      assert SignText(sign) + x == x;
    } else {
      assert (SignText(sign) + x)[1..] == x;
    }
  }

  /** Conversely, every string that parses to a number has that shape. */
  lemma ParseIntParts(s: string) returns (ws: string, sign: Sign, digits: string, rest: string)
    requires ParseInt(s).Integral?
    ensures s == ws + (SignText(sign) + (digits + rest))
    ensures AllWhiteSpace(ws)
    ensures |digits| >= 1 && AllDigits(digits)
    ensures rest == [] || !IsDigit(rest[0])
    ensures ParseInt(s).value == Signed(sign == Minus, DigitsValue(digits))
  {
    var t := TrimStart(s);
    ws := s[..|s| - |t|];
    SplitAt(s, |s| - |t|);
    var body;
    sign, body := SignParts(t);
    assert ParseInt(s) == ParseDigits(sign == Minus, body);
    digits, rest := DigitParts(sign == Minus, body);
  }

  lemma SignParts(t: string) returns (sign: Sign, body: string)
    ensures t == SignText(sign) + body
    ensures StripSign(t) == (sign == Minus, body)
  {
    var negative;
    negative, body := StripSign(t).0, StripSign(t).1;
    sign := if negative then Minus else if body == t then NoSign else Plus;
    if sign == NoSign {
      EmptyPrefix(SignText(sign), body);
    }
  }

  lemma DigitParts(negative: bool, body: string) returns (digits: string, rest: string)
    requires ParseDigits(negative, body).Integral?
    ensures body == digits + rest
    ensures |digits| >= 1 && AllDigits(digits)
    ensures rest == [] || !IsDigit(rest[0])
    ensures ParseDigits(negative, body).value == Signed(negative, DigitsValue(digits))
  {
    digits := LeadingDigits(body);
    rest := body[|digits|..];
    SplitAt(body, |digits|);
  }

  lemma SplitAt<T>(s: seq<T>, k: nat)
    requires k <= |s|
    ensures s == s[..k] + s[k..]
  {
  }

  /**
   * The canonical decimal form of a positive number, followed by anything that
   * does not start with a digit ("12abc"), is accepted as that number.
   */
  lemma TransformAcceptsDecimal(n: nat, tail: string, metadata: ArgumentMetadata)
    requires n >= 1
    requires tail == [] || !IsDigit(tail[0])
    ensures Transform(DecimalString(n) + tail, metadata) == Ok(n)
  {
    ParseIntOfParts("", NoSign, DecimalString(n), tail);
    EmptyPrefix(SignText(NoSign), DecimalString(n) + tail);
    EmptyPrefix("", DecimalString(n) + tail);
    DigitsValueOfDecimalString(n);
  }

  /** Zero and negative numbers ("0", "-5") get the "positive" message, not the "integer" one. */
  lemma TransformRejectsNonPositive(sign: Sign, n: nat, tail: string, metadata: ArgumentMetadata)
    requires n == 0 || sign == Minus
    requires tail == [] || !IsDigit(tail[0])
    ensures Transform(SignText(sign) + (DecimalString(n) + tail), metadata) == Err(BadRequest(PositiveExpected))
  {
    ParseIntOfParts("", sign, DecimalString(n), tail);
    EmptyPrefix("", SignText(sign) + (DecimalString(n) + tail));
    DigitsValueOfDecimalString(n);
  }

  /** A string with no digit after its white space and sign gets the "integer" message. */
  lemma TransformRejectsNonNumeric(ws: string, sign: Sign, rest: string, metadata: ArgumentMetadata)
    requires AllWhiteSpace(ws)
    requires rest == [] || !IsDigit(rest[0])
    requires sign == NoSign && rest != [] ==> !IsStrWhiteSpaceChar(rest[0]) && rest[0] != '-' && rest[0] != '+'
    ensures Transform(ws + SignText(sign) + rest, metadata) == Err(BadRequest(IntegerExpected))
  {
    var t := SignText(sign) + rest;
    assert ws + SignText(sign) + rest == ws + t;
    TrimStartOfSplit(ws, t);
    StripSignNoDigits(sign, rest);
    ParseTrimmedNoDigits(t);
  }

  lemma StripSignNoDigits(sign: Sign, rest: string)
    requires sign == NoSign && rest != [] ==> rest[0] != '-' && rest[0] != '+'
    ensures StripSign(SignText(sign) + rest).1 == rest
  {
    if sign == NoSign {
      EmptyPrefix(SignText(sign), rest);
    } else {
      assert (SignText(sign) + rest)[1..] == rest;
    }
  }

  lemma ParseTrimmedNoDigits(t: string)
    requires StripSign(t).1 == [] || !IsDigit(StripSign(t).1[0])
    ensures ParseTrimmed(t) == NaN
  {
  }

  /** Trailing non-digits are ignored: "12abc" is accepted as 12. */
  lemma TransformExampleTrailing(metadata: ArgumentMetadata)
    ensures Transform("12abc", metadata) == Ok(12)
  {
    var d := DecimalString(12);
    assert d == "12";
    assert "12abc" == d + "abc";
    TransformAcceptsDecimal(12, "abc", metadata);
  }

  /** "0" parses but is not positive. */
  lemma TransformExampleZero(metadata: ArgumentMetadata)
    ensures Transform("0", metadata) == Err(BadRequest(PositiveExpected))
  {
    var d := DecimalString(0);
    assert d == "0";
    assert "0" == SignText(NoSign) + (d + "");
    TransformRejectsNonPositive(NoSign, 0, "", metadata);
  }

  /** "-5" parses but is not positive. */
  lemma TransformExampleNegative(metadata: ArgumentMetadata)
    ensures Transform("-5", metadata) == Err(BadRequest(PositiveExpected))
  {
    var d := DecimalString(5);
    assert d == "5";
    assert "-5" == SignText(Minus) + (d + "");
    TransformRejectsNonPositive(Minus, 5, "", metadata);
  }

  /** "abc" has no digits and gets the "integer" message. */
  lemma TransformExampleNonNumeric(metadata: ArgumentMetadata)
    ensures Transform("abc", metadata) == Err(BadRequest(IntegerExpected))
  {
    assert "abc" == "" + SignText(NoSign) + "abc";
    TransformRejectsNonNumeric("", NoSign, "abc", metadata);
  }

  /** The metadata argument never affects the outcome. */
  lemma TransformIgnoresMetadata(value: string, m1: ArgumentMetadata, m2: ArgumentMetadata)
    ensures Transform(value, m1) == Transform(value, m2)
  {
  }
}
