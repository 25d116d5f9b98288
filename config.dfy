/**
 * Environment-variable helpers (`envNumber`, `envBool`). The process
 * environment is passed as a map from variable name to value.
 */
module Config {
  import opened JsText

  type Env = map<string, string>

  /**
   * `envNumber`: the fallback when the variable is unset, empty, or does not
   * convert to a finite number; otherwise the converted value.
   */
  function EnvNumber(env: Env, name: string, fallback: int): (r: int)
    ensures name !in env || env[name] == "" ==> r == fallback
    ensures name in env && env[name] != "" ==>
      r == (match ToNumber(env[name]) case Finite(n) => n case _ => fallback)
  {
    var n := if name in env && env[name] != "" then ToNumber(env[name]) else Finite(fallback);
    if n.IsFinite() then n.value else fallback
  }

  /** A variable holding the decimal spelling of a natural number up to 2^53 yields that number. */
  lemma EnvNumberReadsDecimal(env: Env, name: string, fallback: int, n: nat)
    requires name in env && env[name] == NatToDigits(n) && n <= TwoTo53
    ensures EnvNumber(env, name, fallback) == n
  {
    ToNumberRoundTrip(n);
  }

  /** A minus sign followed by decimal digits worth at most 2^53 yields the negated value of the digits. */
  lemma EnvNumberReadsNegative(env: Env, name: string, fallback: int, digits: string)
    requires IsDigits(digits) && DigitsValue(digits) <= TwoTo53 && name in env && env[name] == "-" + digits
    ensures EnvNumber(env, name, fallback) == -(DigitsValue(digits) as int)
  {
    NegatedDigits(digits);
  }

  /**
   * Larger decimal values yield a double: a multiple of the spacing of the
   * doubles around them, at most half that spacing away, and the even
   * multiple on a tie.
   */
  lemma EnvNumberRounds(env: Env, name: string, fallback: int, digits: string)
    requires IsDigits(digits) && DigitsValue(digits) < OverflowThreshold && name in env && env[name] == digits
    ensures var r := EnvNumber(env, name, fallback);
      var v := DigitsValue(digits);
      && r >= 0 && r % Ulp(v) == 0
      && 2 * (if r >= v then r - v else v - r) <= Ulp(v)
      && (2 * (if r >= v then r - v else v - r) == Ulp(v) ==> (r / Ulp(v)) % 2 == 0)
  {
    PlainDigits(digits);
  }

  /** A decimal value too large for a double is Infinity, not finite, so the fallback applies, with either sign. */
  lemma EnvNumberOverflowFallsBack(env: Env, name: string, fallback: int, digits: string)
    requires IsDigits(digits) && DigitsValue(digits) >= OverflowThreshold && name in env
    requires env[name] == digits || env[name] == "-" + digits
    ensures EnvNumber(env, name, fallback) == fallback
  {
    if env[name] == digits {
      PlainDigits(digits);
    } else {
      NegatedDigits(digits);
    }
  }

  /** An unsigned `0b`, `0o` or `0x` literal worth at most 2^53 yields its value in that radix. */
  lemma EnvNumberReadsPrefixed(env: Env, name: string, fallback: int)
    requires name in env && PrefixRadix(env[name]) != 0 && IsRadixDigits(env[name][2..], PrefixRadix(env[name]))
    requires RadixValue(env[name][2..], PrefixRadix(env[name])) <= TwoTo53
    ensures EnvNumber(env, name, fallback) == RadixValue(env[name][2..], PrefixRadix(env[name]))
  {
    PrefixedLiteral(env[name]);
  }

  /** A set but blank (whitespace-only, non-empty) variable yields 0, not the fallback. */
  lemma EnvNumberBlankIsZero(env: Env, name: string, fallback: int)
    requires name in env && env[name] != []
    requires forall i :: 0 <= i < |env[name]| ==> IsJsWhitespace(env[name][i])
    ensures EnvNumber(env, name, fallback) == 0
  {
  }

  /** A value that is not a number, such as "fifty", falls back. */
  lemma EnvNumberGarbageFallsBack(env: Env, name: string, fallback: int)
    requires name in env && env[name] != [] && 'a' <= env[name][0] <= 'z' && !IsJsWhitespace(env[name][|env[name]| - 1])
    ensures EnvNumber(env, name, fallback) == fallback
  {
    WordIsNaN(env[name]);
  }

  /**
   * `envBool`: the fallback only when the variable is unset; otherwise true iff
   * the value is "1" or, ignoring case, "true" or "yes".
   */
  function EnvBool(env: Env, name: string, fallback: bool): (r: bool)
    ensures name !in env ==> r == fallback
    ensures name in env ==>
      (r <==> env[name] == "1" || ToLowerAscii(env[name]) == "true" || ToLowerAscii(env[name]) == "yes")
  {
    if name !in env then fallback
    else
      var v := env[name];
      v == "1" || ToLowerAscii(v) == "true" || ToLowerAscii(v) == "yes"
  }

  /** A set variable can only read as true when it is one, three or four characters long. */
  lemma EnvBoolTrueLengths(env: Env, name: string, fallback: bool)
    requires name in env && EnvBool(env, name, fallback)
    ensures |env[name]| == 1 || |env[name]| == 3 || |env[name]| == 4
  {
    var v := env[name];
    assert |ToLowerAscii(v)| == |v|;
  }

  /** Mixed-case spellings are accepted. */
  lemma EnvBoolIgnoresCase(env: Env, name: string, fallback: bool)
    requires name in env && (env[name] == "TRUE" || env[name] == "True" || env[name] == "YES" || env[name] == "Yes")
    ensures EnvBool(env, name, fallback)
  {
    var v := env[name];
    var l := ToLowerAscii(v);
    if |v| == 4 {
      assert l == "true" by { assert l[0] == 't' && l[1] == 'r' && l[2] == 'u' && l[3] == 'e'; }
    } else {
      assert l == "yes" by { assert l[0] == 'y' && l[1] == 'e' && l[2] == 's'; }
    }
  }

  /** A set but empty variable, like "0" or "false", reads as false whatever the fallback. */
  lemma EnvBoolEmptyIsFalse(env: Env, name: string, fallback: bool)
    requires name in env && (env[name] == "" || env[name] == "0" || env[name] == "false")
    ensures !EnvBool(env, name, fallback)
  {
    var v := env[name];
    var l := ToLowerAscii(v);
    if v == "false" {
      assert l[4] == 'e';
    } else if v == "0" {
      assert l[0] == '0';
    }
  }
}
