/** The JavaScript built-ins the companion leans on, stated on unbounded numbers:
    String#toLowerCase (ASCII letters), parseInt(s, 10), parseFloat, JSON.parse of the
    literals true/false/null, Number#toString of an integer, and the `%` operator. */
module JsBuiltins {
  import opened Wrappers

  predicate IsDigit(c: char) { '0' <= c <= '9' }

  function DigitValue(c: char): (d: nat)
    requires IsDigit(c)
    ensures d < 10
  {
    c as int - '0' as int
  }

  function DigitChar(d: nat): (c: char)
    requires d < 10
    ensures IsDigit(c) && DigitValue(c) == d
  {
    (d + '0' as int) as char
  }

  predicate AllDigits(s: string) { forall i :: 0 <= i < |s| ==> IsDigit(s[i]) }

  predicate IsAsciiUpper(c: char) { 'A' <= c <= 'Z' }

  /** String#toLowerCase on one character; only ASCII capitals are mapped. */
  function LowerChar(c: char): (r: char)
    ensures !IsAsciiUpper(r)
    ensures IsAsciiUpper(c) ==> 'a' <= r <= 'z' && r as int == c as int + 32
    ensures !IsAsciiUpper(c) ==> r == c
  {
    if IsAsciiUpper(c) then (c as int + 32) as char else c
  }

  function ToLowerCase(s: string): (r: string)
    ensures |r| == |s|
    ensures forall i :: 0 <= i < |r| ==> !IsAsciiUpper(r[i])
    ensures (forall i :: 0 <= i < |s| ==> !IsAsciiUpper(s[i])) ==> r == s
  {
    seq(|s|, i requires 0 <= i < |s| => LowerChar(s[i]))
  }

  // ---------------------------------------------------------------------------
  // Integers as text

  /** The decimal digits of n, most significant first, without leading zeros. */
  function NatToString(n: nat): (s: string)
    ensures |s| >= 1 && AllDigits(s)
    ensures s[0] == '0' ==> n == 0 && s == "0"
    decreases n
  {
    if n < 10 then [DigitChar(n)] else NatToString(n / 10) + [DigitChar(n % 10)]
  }

  /** Number#toString of an integer of magnitude below 10^21. */
  function IntToString(n: int): string {
    if n < 0 then "-" + NatToString(-n) else NatToString(n)
  }

  /** The value of a string of decimal digits. */
  function DigitsValue(ds: string): nat
    requires AllDigits(ds)
  {
    if ds == [] then 0 else 10 * DigitsValue(ds[..|ds| - 1]) + DigitValue(ds[|ds| - 1])
  }

  lemma {:induction false} DigitsValueOfNatToString(n: nat)
    ensures DigitsValue(NatToString(n)) == n
    decreases n
  {
    if n >= 10 {
      var s := NatToString(n);
      assert s[..|s| - 1] == NatToString(n / 10);
      DigitsValueOfNatToString(n / 10);
    }
  }

  /** JavaScript's `%` on integers: it truncates, so the remainder takes the dividend's sign. */
  function Remainder(a: int, b: int): (r: int)
    requires b > 0
    ensures -b < r < b
    ensures a >= 0 ==> 0 <= r
    ensures a <= 0 ==> r <= 0
    ensures a >= 0 ==> r == a % b
  {
    if a >= 0 then a % b else -((-a) % b)
  }

  // ---------------------------------------------------------------------------
  // parseInt and parseFloat

  /** The white space and line terminators that parseInt and parseFloat skip. */
  predicate IsWhiteSpace(c: char) {
    || c == ' ' || c == '\t' || c == '\n' || c == '\r' || c == '\U{000B}' || c == '\U{000C}'
    || c == '\U{00A0}' || c == '\U{1680}' || ('\U{2000}' <= c <= '\U{200A}')
    || c == '\U{2028}' || c == '\U{2029}' || c == '\U{202F}' || c == '\U{205F}'
    || c == '\U{3000}' || c == '\U{FEFF}'
  }

  /** The length of the run of decimal digits that s starts with. */
  function DigitRun(s: string): (n: nat)
    ensures n <= |s|
    ensures AllDigits(s[..n])
    ensures n < |s| ==> !IsDigit(s[n])
  {
    if s != [] && IsDigit(s[0]) then 1 + DigitRun(s[1..]) else 0
  }

  /** An optional leading sign, split off: (negative, rest). */
  function SplitSign(s: string): (bool, string) {
    if s != [] && s[0] == '-' then (true, s[1..])
    else if s != [] && s[0] == '+' then (false, s[1..])
    else (false, s)
  }

  /** parseInt(s, 10): leading white space is skipped, then an optional sign and the
      longest run of digits are read; None stands for NaN (no digit after the sign). */
  function ParseInt(s: string): Option<int> {
    if s != [] && IsWhiteSpace(s[0]) then ParseInt(s[1..]) else ParseSignedInt(s)
  }

  function ParseSignedInt(t: string): Option<int> {
    var (negative, body) := SplitSign(t);
    var n := DigitRun(body);
    if n == 0 then None
    else
      var v: int := DigitsValue(body[..n]);
      Some(if negative then -v else v)
  }

  function Pow10(n: nat): (r: real)
    ensures r >= 1.0
  {
    if n == 0 then 1.0 else 10.0 * Pow10(n - 1)
  }

  function ScaleBy10(m: real, e: int): real {
    if e >= 0 then m * Pow10(e) else m / Pow10(-e)
  }

  /** The exponent ("e" or "E", optional sign, digits) s starts with; 0 when there is none. */
  function ExponentPart(s: string): int {
    if s != [] && (s[0] == 'e' || s[0] == 'E') then
      var (negative, body) := SplitSign(s[1..]);
      var n := DigitRun(body);
      var v: int := DigitsValue(body[..n]);
      if negative then -v else v
    else 0
  }

  /** parseFloat(s): leading white space is skipped, then an optional sign, digits with
      an optional fraction and an optional exponent are read; None stands for NaN (no
      digit in the mantissa). */
  function ParseFloat(s: string): Option<real> {
    if s != [] && IsWhiteSpace(s[0]) then ParseFloat(s[1..]) else ParseSignedFloat(s)
  }

  function ParseSignedFloat(t: string): Option<real> {
    var (negative, body) := SplitSign(t);
    var i := DigitRun(body);
    var afterWhole := body[i..];
    var hasPoint := afterWhole != [] && afterWhole[0] == '.';
    var fraction := if hasPoint then afterWhole[1..] else [];
    var f := DigitRun(fraction);
    if i == 0 && f == 0 then None
    else
      var mantissa := DigitsValue(body[..i]) as real + DigitsValue(fraction[..f]) as real / Pow10(f);
      var rest := if hasPoint then fraction[f..] else afterWhole;
      var magnitude := ScaleBy10(mantissa, ExponentPart(rest));
      Some(if negative then -magnitude else magnitude)
  }

  lemma {:induction false} DigitRunOfDigitsThen(ds: string, tail: string)
    requires AllDigits(ds)
    requires tail == [] || !IsDigit(tail[0])
    ensures DigitRun(ds + tail) == |ds|
    ensures (ds + tail)[..|ds|] == ds
    decreases |ds|
  {
    if ds != [] {
      assert (ds + tail)[1..] == ds[1..] + tail;
      DigitRunOfDigitsThen(ds[1..], tail);
    }
  }

  lemma ParseIntOfNatThen(m: nat, tail: string)
    requires tail == [] || !IsDigit(tail[0])
    ensures ParseInt(NatToString(m) + tail) == Some(m)
  {
    var digits := NatToString(m);
    DigitRunOfDigitsThen(digits, tail);
    DigitsValueOfNatToString(m);
    var text := digits + tail;
    assert text[0] == digits[0];
    assert SplitSign(text) == (false, text);
    assert ParseInt(text) == ParseSignedInt(text);
  }

  /** parseInt reads back every integer's decimal text, and stops at the first
      non-digit after it ("12px" gives 12). */
  lemma ParseIntOfIntToString(n: int, tail: string)
    requires tail == [] || !IsDigit(tail[0])
    ensures ParseInt(IntToString(n) + tail) == Some(n)
  {
    if n < 0 {
      ParseIntOfNegative(n, tail);
    } else {
      ParseIntOfNatThen(n, tail);
    }
  }

  lemma ParseIntOfNegative(n: int, tail: string)
    requires n < 0 && (tail == [] || !IsDigit(tail[0]))
    ensures ParseInt(IntToString(n) + tail) == Some(n)
  {
    assert IntToString(n) == "-" + NatToString(-n);
    ParseIntOfMinusNatThen(-n, tail, IntToString(n) + tail);
  }

  lemma ParseIntOfMinusNatThen(m: nat, tail: string, text: string)
    requires tail == [] || !IsDigit(tail[0])
    requires text == "-" + NatToString(m) + tail
    ensures ParseInt(text) == Some(-(m as int))
  {
    var digits := NatToString(m);
    DigitRunOfDigitsThen(digits, tail);
    DigitsValueOfNatToString(m);
    var body := digits + tail;
    assert text == "-" + body;
    assert SplitSign(text) == (true, body);
    assert DigitRun(body) == |digits| && body[..|digits|] == digits;
    assert ParseSignedInt(text) == Some(-(m as int));
    assert ParseInt(text) == ParseSignedInt(text);
  }

  /** parseFloat of a run of decimal digits, leading zeros and all ("007"), is its value. */
  lemma ParseFloatOfDigits(ds: string)
    requires ds != [] && AllDigits(ds)
    ensures ParseFloat(ds) == Some(DigitsValue(ds) as real)
  {
    assert !IsWhiteSpace(ds[0]);
    assert ParseFloat(ds) == ParseSignedFloat(ds);
    assert SplitSign(ds) == (false, ds);
    DigitRunOfDigitsThen(ds, []);
    assert ds + [] == ds;
    WholeDigitsAsFloat(ds);
  }

  /** parseFloat's reading of sign-free text that is all digits. */
  lemma WholeDigitsAsFloat(ds: string)
    requires ds != [] && AllDigits(ds) && DigitRun(ds) == |ds|
    requires SplitSign(ds) == (false, ds)
    ensures ParseSignedFloat(ds) == Some(DigitsValue(ds) as real)
  {
    var empty: string := [];
    assert ds[..|ds|] == ds && ds[|ds|..] == empty;
    assert DigitRun(empty) == 0 && empty[..0] == empty && empty[0..] == empty;
    assert ExponentPart(empty) == 0;
    NoFractionNoExponent(DigitsValue(ds) as real);
  }

  lemma NoFractionNoExponent(m: real)
    ensures ScaleBy10(m + DigitsValue([]) as real / Pow10(0), 0) == m
  {
    assert Pow10(0) == 1.0;
    assert DigitsValue([]) == 0;
  }

  /** parseFloat reads back every natural number's decimal text. */
  lemma ParseFloatOfNatToString(n: nat)
    ensures ParseFloat(NatToString(n)) == Some(n as real)
  {
    ParseFloatOfDigits(NatToString(n));
    DigitsValueOfNatToString(n);
  }

  /** Leading white space never changes what parseInt or parseFloat return. */
  lemma {:induction false} ParseIgnoresLeadingWhiteSpace(w: string, s: string)
    requires forall i :: 0 <= i < |w| ==> IsWhiteSpace(w[i])
    ensures ParseInt(w + s) == ParseInt(s) && ParseFloat(w + s) == ParseFloat(s)
    decreases |w|
  {
    if w == [] {
      assert w + s == s;
    } else {
      var ws := w + s;
      assert ws[0] == w[0] && ws[1..] == w[1..] + s;
      ParseIgnoresLeadingWhiteSpace(w[1..], s);
    }
  }

  // ---------------------------------------------------------------------------
  // JSON.parse of a flag

  predicate IsJsonWhiteSpace(c: char) { c == ' ' || c == '\t' || c == '\n' || c == '\r' }

  function TrimJsonStart(s: string): string {
    if s != [] && IsJsonWhiteSpace(s[0]) then TrimJsonStart(s[1..]) else s
  }

  function TrimJsonEnd(s: string): string {
    if s != [] && IsJsonWhiteSpace(s[|s| - 1]) then TrimJsonEnd(s[..|s| - 1]) else s
  }

  /** JSON.parse of text holding one of the literals true, false or null, as the
      truthiness of the parsed value; None for any other text. */
  function ParseJsonLiteral(s: string): (r: Option<bool>)
    ensures r == Some(true) <==> TrimJsonEnd(TrimJsonStart(s)) == "true"
    ensures r == Some(false) <==> TrimJsonEnd(TrimJsonStart(s)) == "false" || TrimJsonEnd(TrimJsonStart(s)) == "null"
    ensures r.None? <==> TrimJsonEnd(TrimJsonStart(s)) !in {"true", "false", "null"}
  {
    var t := TrimJsonEnd(TrimJsonStart(s));
    if t == "true" then Some(true)
    else if t == "false" || t == "null" then Some(false)
    else None
  }
}
