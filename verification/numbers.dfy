/** The two JavaScript number conversions the source touches: `String(n)`
    for the integers it interpolates into query text, and the NaN test of
    `Number(s)` on strings (the StringNumericLiteral grammar of section
    7.1.4.1 of ECMA-262). Numbers are integers in this model. */
module Numbers {

  import opened Wrappers
  import opened Text

  predicate IsDigit(c: char) {
    '0' <= c <= '9'
  }

  function DigitChar(d: nat): (c: char)
    requires d < 10
    ensures IsDigit(c) && c as int - '0' as int == d
  {
    (d + '0' as int) as char
  }

  /** Every character of `s` is a decimal digit. */
  function AllDigits(s: string): (r: bool)
    ensures r <==> forall i :: 0 <= i < |s| ==> IsDigit(s[i])
  {
    |s| == 0 || (IsDigit(s[0]) && AllDigits(s[1..]))
  }

  /** Every character of `s` is one of `chars`. */
  function AllIn(s: string, chars: string): (r: bool)
    ensures r <==> forall i :: 0 <= i < |s| ==> s[i] in chars
  {
    |s| == 0 || (s[0] in chars && AllIn(s[1..], chars))
  }

  /** The value of a string of decimal digits, most significant first. */
  function DigitsValue(s: string): nat
    requires AllDigits(s)
  {
    if |s| == 0 then 0
    else
      assert AllDigits(s[..|s| - 1]);
      DigitsValue(s[..|s| - 1]) * 10 + (s[|s| - 1] as int - '0' as int)
  }

  /** Decimal digits of `n`, without leading zeros. */
  function NatToDigits(n: nat): (r: string)
    ensures |r| > 0 && AllDigits(r)
    ensures |r| > 1 ==> r[0] != '0'
    ensures DigitsValue(r) == n
    decreases n
  {
    if n < 10 then [DigitChar(n)]
    else
      var p := NatToDigits(n / 10);
      var r := p + [DigitChar(n % 10)];
      assert r[..|r| - 1] == p;
      r
  }

  /** `String(n)` for an integer-valued number. */
  function IntToString(n: int): (r: string)
    ensures |r| > 0
    ensures n >= 0 ==> AllDigits(r) && DigitsValue(r) == n
    ensures n < 0 ==> r[0] == '-' && AllDigits(r[1..]) && DigitsValue(r[1..]) == -n
  {
    if n < 0 then
      var d := NatToDigits(-n);
      assert ("-" + d)[1..] == d;
      "-" + d
    else NatToDigits(n)
  }

  /** Reads back an optionally signed decimal numeral. */
  function ParseInt(s: string): Option<int> {
    if |s| > 1 && s[0] == '-' && AllDigits(s[1..]) then Some(0 - DigitsValue(s[1..]) as int)
    else if |s| > 0 && AllDigits(s) then Some(DigitsValue(s))
    else None
  }

  /** The numeral `String(n)` reads back as `n`. */
  lemma IntToStringRoundTrip(n: int)
    ensures ParseInt(IntToString(n)) == Some(n)
  {
    var r := IntToString(n);
    if n < 0 {
      assert !IsDigit(r[0]);
    }
  }

  function FirstExponentIndex(u: string): (i: nat)
    ensures i <= |u|
    ensures i < |u| ==> u[i] == 'e' || u[i] == 'E'
  {
    if |u| == 0 then 0
    else if u[0] == 'e' || u[0] == 'E' then 0
    else FirstExponentIndex(u[1..]) + 1
  }

  /** DecimalDigits `.` DecimalDigits, with digits on at least one side of
      an optional point. */
  predicate IsMantissa(m: string) {
    var d := FirstIndexOf(m, '.');
    if d == |m| then |m| > 0 && AllDigits(m)
    else AllDigits(m[..d]) && AllDigits(m[d + 1..]) && (d > 0 || d + 1 < |m|)
  }

  /** ExponentPart: `e` or `E`, an optional sign, one or more digits. */
  predicate IsExponentPart(x: string) {
    |x| >= 2 && (x[0] == 'e' || x[0] == 'E') &&
    var y := if x[1] == '+' || x[1] == '-' then x[2..] else x[1..];
    |y| > 0 && AllDigits(y)
  }

  predicate IsUnsignedDecimalLiteral(u: string) {
    u == "Infinity" ||
    var e := FirstExponentIndex(u);
    IsMantissa(u[..e]) && (e == |u| || IsExponentPart(u[e..]))
  }

  predicate IsDecimalLiteral(t: string) {
    if |t| > 0 && (t[0] == '+' || t[0] == '-') then IsUnsignedDecimalLiteral(t[1..])
    else IsUnsignedDecimalLiteral(t)
  }

  /** `0b`, `0o` or `0x` followed by one or more digits of that base. */
  predicate IsNonDecimalIntegerLiteral(t: string) {
    |t| >= 3 && t[0] == '0' &&
    ((t[1] in "bB" && AllIn(t[2..], "01"))
     || (t[1] in "oO" && AllIn(t[2..], "01234567"))
     || (t[1] in "xX" && AllIn(t[2..], "0123456789abcdefABCDEF")))
  }

  /** `!isNaN(Number(s))` for a string `s`: after trimming white space the
      string is empty (which converts to 0) or a numeric literal. */
  predicate NumberParses(s: string) {
    var t := Trim(s);
    |t| == 0 || IsNonDecimalIntegerLiteral(t) || IsDecimalLiteral(t)
  }
}
