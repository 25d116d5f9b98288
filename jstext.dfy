/**
 * The few JavaScript string and number conversions the core relies on:
 * `String.prototype.trim`, `Number(string)` and `String.prototype.toLowerCase`
 * restricted to what the core compares against.
 */
module JsText {

  /** Characters that `trim` removes (ECMAScript WhiteSpace and LineTerminator). */
  predicate IsJsWhitespace(c: char) {
    c == '\t' || c == '\n' || c == '\U{000B}' || c == '\U{000C}' || c == '\r' || c == ' '
    || c == '\U{00A0}' || c == '\U{1680}' || ('\U{2000}' <= c <= '\U{200A}')
    || c == '\U{2028}' || c == '\U{2029}' || c == '\U{202F}' || c == '\U{205F}'
    || c == '\U{3000}' || c == '\U{FEFF}'
  }

  /** `s` with its leading whitespace removed. */
  function TrimStart(s: string): (r: string)
    ensures |r| <= |s| && r == s[|s| - |r|..]
    ensures forall i :: 0 <= i < |s| - |r| ==> IsJsWhitespace(s[i])
    ensures r != [] ==> !IsJsWhitespace(r[0])
  {
    if s != [] && IsJsWhitespace(s[0]) then
      var r := TrimStart(s[1..]);
      assert forall i :: 1 <= i < |s| ==> s[i] == s[1..][i - 1];
      assert s[1..][|s| - 1 - |r|..] == s[|s| - |r|..];
      r
    else s
  }

  /** `s` with its trailing whitespace removed. */
  function TrimEnd(s: string): (r: string)
    ensures |r| <= |s| && r == s[..|r|]
    ensures forall i :: |r| <= i < |s| ==> IsJsWhitespace(s[i])
    ensures r != [] ==> !IsJsWhitespace(r[|r| - 1])
  {
    if s != [] && IsJsWhitespace(s[|s| - 1]) then
      var r := TrimEnd(s[..|s| - 1]);
      assert forall i :: 0 <= i < |s| - 1 ==> s[i] == s[..|s| - 1][i];
      assert s[..|s| - 1][..|r|] == s[..|r|];
      r
    else s
  }

  /** `String.prototype.trim`. */
  function Trim(s: string): (r: string)
    ensures r != [] ==> !IsJsWhitespace(r[0]) && !IsJsWhitespace(r[|r| - 1])
    ensures (forall i :: 0 <= i < |s| ==> IsJsWhitespace(s[i])) <==> r == []
  {
    var t := TrimStart(s);
    var r := TrimEnd(t);
    assert r != [] ==> r[0] == t[0];
    assert (forall i :: 0 <= i < |s| ==> IsJsWhitespace(s[i])) ==> t == [] by {
      if t != [] { assert s[|s| - |t|] == t[0]; }
    }
    r
  }

  /** A string that starts and ends with non-whitespace is its own trim. */
  lemma TrimNoop(s: string)
    requires s != [] ==> !IsJsWhitespace(s[0]) && !IsJsWhitespace(s[|s| - 1])
    ensures Trim(s) == s
  {
  }

  predicate IsDigit(c: char) { '0' <= c <= '9' }

  /** A non-empty run of decimal digits. */
  predicate IsDigits(s: string) {
    |s| > 0 && forall i :: 0 <= i < |s| ==> IsDigit(s[i])
  }

  function DigitValue(c: char): (d: nat)
    requires IsDigit(c)
    ensures d < 10
  {
    (c as int - '0' as int) as nat
  }

  function DigitChar(d: nat): (c: char)
    requires d < 10
    ensures IsDigit(c) && DigitValue(c) == d
  {
    ('0' as int + d) as char
  }

  /** The value of a run of decimal digits, most significant first. */
  function DigitsValue(s: string): nat
    requires forall i :: 0 <= i < |s| ==> IsDigit(s[i])
  {
    if s == [] then 0 else 10 * DigitsValue(s[..|s| - 1]) + DigitValue(s[|s| - 1])
  }

  /** The shortest decimal spelling of a natural number. */
  function NatToDigits(n: nat): (s: string)
    ensures IsDigits(s)
    ensures s[0] != '0' || n == 0
  {
    if n < 10 then [DigitChar(n)] else NatToDigits(n / 10) + [DigitChar(n % 10)]
  }

  lemma {:induction false} DigitsRoundTrip(n: nat)
    ensures DigitsValue(NatToDigits(n)) == n
  {
    if n >= 10 {
      var s := NatToDigits(n);
      assert s[..|s| - 1] == NatToDigits(n / 10);
      DigitsRoundTrip(n / 10);
    }
  }

  // ---------------------------------------------------------------------------
  // Doubles: the values an integer string converts to

  /** 2^52 and 2^53: below 2^53 every natural number is a double. */
  const TwoTo52: nat := 0x10_0000_0000_0000
  const TwoTo53: nat := 0x20_0000_0000_0000

  /**
   * 2^1024 - 2^970: a magnitude from here on rounds to 2^1024, which is not
   * a double and becomes Infinity (section 6.1.6.1 of ECMA-262).
   */
  const OverflowThreshold: nat := 0xfffffffffffffc00000000000000000000000000000000000000000000000000000000000000000000000000000000000000000000000000000000000000000000000000000000000000000000000000000000000000000000000000000000000000000000000000000000000000000000000000000000000000000000000000

  /** The spacing of the doubles in the binade of `v`: 1 below 2^53, doubling with every binade above. */
  function Ulp(v: nat): (u: nat)
    ensures u >= 1
    ensures v < TwoTo53 ==> u == 1
    ensures v >= TwoTo53 ==> TwoTo52 * u <= v < TwoTo53 * u
    decreases v
  {
    if v < TwoTo53 then 1 else 2 * Ulp(v / 2)
  }

  /**
   * A magnitude rounded to the nearest multiple of its `Ulp`, ties to the
   * even multiple: round-to-nearest-even onto the doubles.
   */
  function RoundToDouble(v: nat): (r: nat)
    ensures v <= TwoTo53 ==> r == v
    ensures r % Ulp(v) == 0
    ensures 2 * (if r >= v then r - v else v - r) <= Ulp(v)
    ensures 2 * (if r >= v then r - v else v - r) == Ulp(v) ==> (r / Ulp(v)) % 2 == 0
  {
    var u := Ulp(v);
    var q := v / u;
    var rem := v % u;
    DivMod(v, u);
    assert v == TwoTo53 ==> u == 2 && rem == 0 by {
      if v == TwoTo53 { assert Ulp(v / 2) == 1; }
    }
    var k := if 2 * rem > u || (2 * rem == u && q % 2 == 1) then q + 1 else q;
    NearestEven(v, u, q, rem, k);
    k * u
  }

  /**
   * Rounding `v == q * u + rem` to the multiple `k * u` chosen as above: a
   * multiple of `u` at most half of `u` away, even on a tie, and `v` itself
   * when it was one already.
   */
  lemma NearestEven(v: nat, u: nat, q: nat, rem: nat, k: nat)
    requires u >= 1 && v == q * u + rem && rem < u
    requires k == if 2 * rem > u || (2 * rem == u && q % 2 == 1) then q + 1 else q
    ensures var r := k * u;
      && r % u == 0 && r / u == k
      && (rem == 0 ==> r == v)
      && 2 * (if r >= v then r - v else v - r) <= u
      && (2 * (if r >= v then r - v else v - r) == u ==> k % 2 == 0)
  {
    MultipleOf(k, u);
    if k == q + 1 {
      assert k * u == q * u + u;
    }
  }

  lemma DivMod(v: nat, u: nat)
    requires u >= 1
    ensures v == (v / u) * u + v % u && 0 <= v % u < u
  {
  }

  /** A positive multiple of `u` is at least `u`. */
  lemma {:induction false} AtLeastOnce(d: nat, u: nat)
    requires d >= 1
    ensures d * u >= u
  {
    if d > 1 {
      AtLeastOnce(d - 1, u);
      assert d * u == (d - 1) * u + u;
    }
  }

  /** A multiple of `u` leaves no remainder, and dividing it by `u` gives the factor back. */
  lemma MultipleOf(k: nat, u: nat)
    requires u >= 1
    ensures (k * u) % u == 0 && (k * u) / u == k
  {
    var x := k * u;
    DivMod(x, u);
    var q, rem := x / u, x % u;
    if k > q {
      assert (k - q) * u == rem;
      AtLeastOnce(k - q, u);
      assert false;
    } else if k < q {
      assert (q - k) * u + rem == 0;
      AtLeastOnce(q - k, u);
      assert false;
    }
  }

  /**
   * Above 2^53 not every integer is a double: 2^53 + 1 is a tie and goes down
   * to the even 2^53, while the tie 2^53 + 3 goes up to the even 2^53 + 4.
   */
  lemma FirstGap()
    ensures RoundToDouble(TwoTo53 + 1) == TwoTo53
    ensures RoundToDouble(TwoTo53 + 3) == TwoTo53 + 4
  {
    assert Ulp(TwoTo53 + 1) == 2;
    assert Ulp(TwoTo53 + 3) == 2;
  }

  /** A JavaScript number as far as the core distinguishes them; finite values are integers. */
  datatype JsNumber = Finite(value: int) | PosInfinity | NegInfinity | NaN {
    /** `Number.isFinite`. */
    predicate IsFinite() { Finite? }
  }

  /** The number a magnitude with a sign denotes: infinite from `OverflowThreshold` on, else rounded. */
  function Signed(v: nat, negative: bool): JsNumber {
    if v >= OverflowThreshold then (if negative then NegInfinity else PosInfinity)
    else Finite(if negative then -(RoundToDouble(v) as int) else RoundToDouble(v))
  }

  // ---------------------------------------------------------------------------
  // Binary, octal and hexadecimal literals

  /** The radix a `0b`, `0o` or `0x` prefix (either case) announces, or 0 for none. */
  function PrefixRadix(t: string): (radix: nat)
    ensures radix == 0 || radix == 2 || radix == 8 || radix == 16
    ensures radix != 0 ==> |t| >= 2 && t[0] == '0'
  {
    if |t| < 2 || t[0] != '0' then 0
    else if t[1] == 'b' || t[1] == 'B' then 2
    else if t[1] == 'o' || t[1] == 'O' then 8
    else if t[1] == 'x' || t[1] == 'X' then 16
    else 0
  }

  /** A digit of the radix: `0`, `1` in binary; `0`-`7` in octal; `0`-`9`, `a`-`f`, `A`-`F` in hexadecimal. */
  predicate IsRadixDigit(c: char, radix: nat) {
    if radix == 16 then IsDigit(c) || 'a' <= c <= 'f' || 'A' <= c <= 'F'
    else '0' <= c && (c as int) < '0' as int + radix
  }

  predicate IsRadixDigits(s: string, radix: nat) {
    |s| > 0 && forall i :: 0 <= i < |s| ==> IsRadixDigit(s[i], radix)
  }

  function RadixDigitValue(c: char, radix: nat): (d: nat)
    requires IsRadixDigit(c, radix)
    ensures radix > 0 ==> d < radix
  {
    if 'a' <= c <= 'f' then (c as int - 'a' as int + 10) as nat
    else if 'A' <= c <= 'F' then (c as int - 'A' as int + 10) as nat
    else (c as int - '0' as int) as nat
  }

  /** The value of a run of digits of the radix, most significant first. */
  function RadixValue(s: string, radix: nat): nat
    requires forall i :: 0 <= i < |s| ==> IsRadixDigit(s[i], radix)
  {
    if s == [] then 0 else radix * RadixValue(s[..|s| - 1], radix) + RadixDigitValue(s[|s| - 1], radix)
  }

  // ---------------------------------------------------------------------------
  // Number(string)

  /**
   * `Number(s)` on integer strings: surrounding whitespace is ignored, an empty
   * or blank string is 0, an optionally signed run of decimal digits and an
   * unsigned `0b`/`0o`/`0x` literal denote their value, rounded to a double or
   * infinite when too large, `Infinity` with an optional sign is infinite, and
   * anything else is NaN.
   */
  function ToNumber(s: string): (n: JsNumber)
    ensures (forall i :: 0 <= i < |s| ==> IsJsWhitespace(s[i])) ==> n == Finite(0)
    ensures IsDigits(Trim(s)) ==> n == Signed(DigitsValue(Trim(s)), false)
  {
    var t := Trim(s);
    if t == [] then Finite(0)
    else if IsDigits(t) then Signed(DigitsValue(t), false)
    else if t[0] == '-' && IsDigits(t[1..]) then Signed(DigitsValue(t[1..]), true)
    else if t[0] == '+' && IsDigits(t[1..]) then Signed(DigitsValue(t[1..]), false)
    else if PrefixRadix(t) != 0 && IsRadixDigits(t[2..], PrefixRadix(t)) then
      Signed(RadixValue(t[2..], PrefixRadix(t)), false)
    else if t == "Infinity" || t == "+Infinity" then PosInfinity
    else if t == "-Infinity" then NegInfinity
    else NaN
  }

  /** A word (leading lower-case letter, no surrounding whitespace) is not a number. */
  lemma WordIsNaN(s: string)
    requires s != [] && 'a' <= s[0] <= 'z' && !IsJsWhitespace(s[|s| - 1])
    ensures ToNumber(s) == NaN
  {
    TrimNoop(s);
    assert !IsDigit(s[0]) && s[0] != '0';
    assert s[0] != "Infinity"[0] && s[0] != "+Infinity"[0] && s[0] != "-Infinity"[0];
  }

  /** Decimal digits denote their value: exact up to 2^53, then rounded, then infinite. */
  lemma PlainDigits(d: string)
    requires IsDigits(d)
    ensures ToNumber(d) == Signed(DigitsValue(d), false)
  {
    assert IsDigit(d[0]) && IsDigit(d[|d| - 1]);
    TrimNoop(d);
  }

  /** Parsing the decimal spelling of a natural number up to 2^53 gives the number back. */
  lemma ToNumberRoundTrip(n: nat)
    requires n <= TwoTo53
    ensures ToNumber(NatToDigits(n)) == Finite(n)
  {
    DigitsRoundTrip(n);
    PlainDigits(NatToDigits(n));
  }

  /** A minus sign followed by digits is the negated value of the digits, or -Infinity when too large. */
  lemma NegatedDigits(d: string)
    requires IsDigits(d)
    ensures ToNumber("-" + d) == Signed(DigitsValue(d), true)
  {
    var s := "-" + d;
    assert s[1..] == d;
    assert !IsDigits(s) by { assert !IsDigit(s[0]); }
    assert s[0] == '-' && s[|s| - 1] == d[|d| - 1];
    assert !IsJsWhitespace(s[|s| - 1]) by { assert IsDigit(d[|d| - 1]); }
    TrimNoop(s);
  }

  /** An unsigned `0b`, `0o` or `0x` literal denotes the value of its digits in that radix. */
  lemma PrefixedLiteral(s: string)
    requires PrefixRadix(s) != 0 && IsRadixDigits(s[2..], PrefixRadix(s))
    ensures ToNumber(s) == Signed(RadixValue(s[2..], PrefixRadix(s)), false)
  {
    assert !IsDigits(s) by { assert !IsDigit(s[1]); }
    assert s[0] == '0';
    assert s[|s| - 1] == s[2..][|s| - 3];
    assert !IsJsWhitespace(s[|s| - 1]) by { assert IsRadixDigit(s[2..][|s| - 3], PrefixRadix(s)); }
    TrimNoop(s);
    assert s != "Infinity" && s != "+Infinity" && s != "-Infinity" by { assert s[0] == '0'; }
  }

  /** ASCII upper-case letters to lower case; every other character unchanged. */
  function LowerChar(c: char): char {
    if 'A' <= c <= 'Z' then (c as int + 32) as char else c
  }

  /**
   * `toLowerCase` as far as a comparison with an all-ASCII lower-case word goes:
   * no non-ASCII character lower-cases to one of the ASCII letters compared with.
   */
  function ToLowerAscii(s: string): (r: string)
    ensures |r| == |s|
    ensures forall i :: 0 <= i < |s| ==> r[i] == LowerChar(s[i])
  {
    if s == [] then [] else [LowerChar(s[0])] + ToLowerAscii(s[1..])
  }
}
