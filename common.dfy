/** Shared vocabulary of the store backend: optional values, results, the uniform
    response envelope every view answers with, and decimal rendering of integers
    used inside the messages the views return. */
module Common {

  datatype Option<+T> = None | Some(value: T) {
    function GetOr(default: T): T {
      match this
      case Some(v) => v
      case None => default
    }
  }

  datatype Result<+T, +E> = Ok(value: T) | Err(error: E)

  /** The JSON object `{}`. */
  datatype Empty = Empty

  /** A response: the HTTP `status` it is sent with, and the body
      `{code, message, data, success}`. `data` is None when the body has no
      "data" key at all. */
  datatype Envelope<+D> = Envelope(status: int, code: int, message: string, data: Option<D>, success: bool)

  // ---------------------------------------------------------------------------
  // Decimal rendering, as Python's str() of an int and f"{x:.2f}" of a
  // two-place decimal print them.

  function DigitChar(d: int): char
    requires 0 <= d < 10
  {
    "0123456789"[d]
  }

  /** The decimal digits of a natural number, most significant first. */
  function NatToString(n: nat): (s: string)
    ensures |s| >= 1 && '0' <= s[0] <= '9' && '0' <= s[|s| - 1] <= '9'
    decreases n
  {
    if n < 10 then [DigitChar(n)] else NatToString(n / 10) + [DigitChar(n % 10)]
  }

  /** str(n) for a Python int. */
  function IntToString(n: int): (s: string)
    ensures |s| >= 1 && '0' <= s[|s| - 1] <= '9'
    ensures (s[0] == '-') == (n < 0)
  {
    if n < 0 then "-" + NatToString(-n) else NatToString(n)
  }

  /** f"{d:.2f}" for a decimal held as a whole number of cents. */
  function CentsToString(cents: int): (s: string)
    ensures |s| >= 4 && s[|s| - 3] == '.'
    ensures (s[0] == '-') == (cents < 0)
  {
    (if cents < 0 then "-" else "") + Unsigned(if cents < 0 then -cents else cents)
  }

  /** The magnitude part: whole units, the point, two decimals. */
  function Unsigned(a: nat): (s: string)
    ensures |s| >= 4 && s[|s| - 3] == '.' && '0' <= s[0] <= '9'
  {
    NatToString(a / 100) + "." + [DigitChar(a % 100 / 10), DigitChar(a % 10)]
  }

  /** Reads back the digits NatToString writes. */
  function DigitsValue(s: string): int
    decreases |s|
  {
    if s == [] then 0 else DigitsValue(s[..|s| - 1]) * 10 + (s[|s| - 1] as int - '0' as int)
  }

  lemma {:induction false} NatToStringRoundTrip(n: nat)
    ensures DigitsValue(NatToString(n)) == n
    decreases n
  {
    var q, d := n / 10, n % 10;
    assert n == q * 10 + d;
    DigitCharValue(d);
    if n >= 10 {
      NatToStringRoundTrip(q);
      DigitsValueSnoc(NatToString(q), DigitChar(d));
    } else {
      assert [DigitChar(d)] == [] + [DigitChar(d)];
      DigitsValueSnoc([], DigitChar(d));
    }
  }

  /** Reads back an amount printed with two decimals: the digits on both
      sides of the point as one number of cents, negated under a leading
      '-'. */
  function ReadAmount(s: string): int
    requires |s| >= 4
  {
    if s[0] == '-' then -ReadUnsigned(s[1..]) else ReadUnsigned(s)
  }

  function ReadUnsigned(u: string): int
    requires |u| >= 3
  {
    DigitsValue(u[..|u| - 3] + u[|u| - 2..])
  }

  /** Printing an amount and reading it back gives the amount. */
  lemma CentsToStringRoundTrip(cents: int)
    ensures ReadAmount(CentsToString(cents)) == cents
  {
    var a := if cents < 0 then -cents else cents;
    var u := Unsigned(a);
    UnsignedRoundTrip(a);
    if cents < 0 {
      assert CentsToString(cents) == "-" + u;
      assert ("-" + u)[1..] == u;
    } else {
      assert CentsToString(cents) == u;
    }
  }

  /** The unsigned amount reads back as the cents. */
  lemma UnsignedRoundTrip(a: nat)
    ensures ReadUnsigned(Unsigned(a)) == a
  {
    var whole := NatToString(a / 100);
    var frac := [DigitChar(a % 100 / 10), DigitChar(a % 10)];
    DropPoint(whole, frac);
    CentsDigitsValue(a);
  }

  /** Removing the point from "<whole>.<two digits>" leaves the digits
      around it. */
  lemma DropPoint(whole: string, frac: string)
    requires |frac| == 2
    ensures var body := whole + "." + frac;
            body[..|body| - 3] + body[|body| - 2..] == whole + frac
  {
    var body := whole + "." + frac;
    assert body[..|body| - 3] == whole;
    assert body[|body| - 2..] == frac;
  }

  /** The digits of the whole units followed by the two decimals read back
      as the amount in cents. */
  lemma CentsDigitsValue(a: nat)
    ensures DigitsValue(NatToString(a / 100) + [DigitChar(a % 100 / 10), DigitChar(a % 10)]) == a
  {
    var whole := NatToString(a / 100);
    var d1, d2 := DigitChar(a % 100 / 10), DigitChar(a % 10);
    assert whole + [d1, d2] == (whole + [d1]) + [d2];
    DigitsValueSnoc(whole + [d1], d2);
    DigitsValueSnoc(whole, d1);
    NatToStringRoundTrip(a / 100);
    DigitCharValue(a % 100 / 10);
    DigitCharValue(a % 10);
    CentsDigits(a);
  }

  /** The digit character of d reads back as d. */
  lemma DigitCharValue(d: int)
    requires 0 <= d < 10
    ensures DigitChar(d) as int - '0' as int == d
  {
  }

  /** Whole units, tenths and hundredths put back together. */
  lemma CentsDigits(a: nat)
    ensures (a / 100 * 10 + a % 100 / 10) * 10 + a % 10 == a
  {
    var q, r := a / 100, a % 100;
    var t, u := r / 10, r % 10;
    assert a == 100 * q + r && r == 10 * t + u;
    assert a == 10 * (10 * q + t) + u;
    assert a % 10 == u;
  }

  /** One more digit: the value so far times ten, plus the digit. */
  lemma DigitsValueSnoc(s: string, c: char)
    ensures DigitsValue(s + [c]) == DigitsValue(s) * 10 + (c as int - '0' as int)
  {
    assert (s + [c])[..|s|] == s;
  }

  /** Reads back what IntToString writes. */
  function ReadInt(s: string): int
    requires |s| >= 1
  {
    if s[0] == '-' then -DigitsValue(s[1..]) else DigitsValue(s)
  }

  lemma IntToStringRoundTrip(n: int)
    ensures ReadInt(IntToString(n)) == n
  {
    if n < 0 {
      var digits := NatToString(-n);
      NatToStringRoundTrip(-n);
      assert IntToString(n) == "-" + digits;
      assert ("-" + digits)[1..] == digits;
    } else {
      NatToStringRoundTrip(n);
    }
  }

  /** Distinct numbers print as distinct strings. */
  lemma IntToStringInjective(a: int, b: int)
    requires IntToString(a) == IntToString(b)
    ensures a == b
  {
    IntToStringRoundTrip(a);
    IntToStringRoundTrip(b);
  }

  // ---------------------------------------------------------------------------
  // The framework's own checks on a string field: a blank value is refused
  // first, then one longer than the field's max_length.

  const BlankMessage: string := "This field may not be blank."
  const RequiredMessage: string := "This field is required."

  function MaxLengthMessage(n: nat): string
  {
    "Ensure this field has no more than " + NatToString(n) + " characters."
  }

  /** The error a non-blank string field with `max_length` reports, if any. */
  function CharFieldError(value: string, maxLength: nat): (r: Option<string>)
    ensures r.None? <==> value != "" && |value| <= maxLength
    ensures value == "" ==> r == Some(BlankMessage)
    ensures value != "" && |value| > maxLength ==> r == Some(MaxLengthMessage(maxLength))
  {
    if value == "" then Some(BlankMessage)
    else if |value| > maxLength then Some(MaxLengthMessage(maxLength))
    else None
  }
}
