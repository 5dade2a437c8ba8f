/** The ECMAScript number conversions the core relies on: `Number.parseInt`
    without a radix (section 19.2.5 of ECMA-262), the `parseInt(x) || d`
    idiom for configuration defaults, and `toString` of a non-negative integer. */
module JsNumber {
  import opened Wrappers
  import opened JsString

  function DigitValue(c: char): (d: nat)
    requires IsDigit(c)
    ensures d < 10
  {
    c as int - '0' as int
  }

  function DigitChar(d: nat): (c: char)
    requires d < 10
    ensures IsDigit(c) && DigitValue(c) == d
  {
    ('0' as int + d) as char
  }

  predicate IsHexDigit(c: char) { IsDigit(c) || 'a' <= c <= 'f' || 'A' <= c <= 'F' }

  function HexDigitValue(c: char): (d: nat)
    requires IsHexDigit(c)
    ensures d < 16
  {
    if IsDigit(c) then DigitValue(c)
    else if 'a' <= c <= 'f' then c as int - 'a' as int + 10
    else c as int - 'A' as int + 10
  }

  /** The value of a string of decimal digits, most significant digit first. */
  function DecimalValue(s: string): nat
    requires AllDigits(s)
  {
    if s == [] then 0 else DecimalValue(s[..|s| - 1]) * 10 + DigitValue(s[|s| - 1])
  }

  /** The value of a string of hexadecimal digits, most significant digit first. */
  function HexValue(s: string): nat
    requires forall i :: 0 <= i < |s| ==> IsHexDigit(s[i])
  {
    if s == [] then 0 else HexValue(s[..|s| - 1]) * 16 + HexDigitValue(s[|s| - 1])
  }

  function Pow10(k: nat): (p: nat)
    ensures p >= 1
  {
    if k == 0 then 1 else 10 * Pow10(k - 1)
  }

  /** `n.toString()` for a non-negative integer: decimal digits, with no
      leading zero unless the number is 0 itself. */
  function NatToDecimal(n: nat): (s: string)
    ensures |s| >= 1 && AllDigits(s)
    ensures |s| > 1 ==> s[0] != '0'
    ensures n >= 10 ==> |s| > 1
  {
    if n < 10 then [DigitChar(n)] else NatToDecimal(n / 10) + [DigitChar(n % 10)]
  }

  /** Reading back what `NatToDecimal` wrote gives the number. */
  lemma {:induction false} DecimalRoundTrip(n: nat)
    ensures DecimalValue(NatToDecimal(n)) == n
  {
    var s := NatToDecimal(n);
    if n >= 10 {
      DecimalRoundTrip(n / 10);
      assert s[..|s| - 1] == NatToDecimal(n / 10);
    }
  }

  /** A number in [10^k, 10^(k+1)) is written with exactly k + 1 digits. */
  lemma {:induction false} DecimalLength(n: nat, k: nat)
    requires Pow10(k) <= n < Pow10(k + 1)
    ensures |NatToDecimal(n)| == k + 1
  {
    if k > 0 {
      DecimalLength(n / 10, k - 1);
    }
  }

  /** The longest prefix of `s` made of decimal digits. */
  function DecimalPrefix(s: string): (r: string)
    ensures |r| <= |s| && r == s[..|r|] && AllDigits(r)
    ensures |r| < |s| ==> !IsDigit(s[|r|])
  {
    if s != [] && IsDigit(s[0]) then [s[0]] + DecimalPrefix(s[1..]) else []
  }

  /** The longest prefix of `s` made of hexadecimal digits. */
  function HexPrefix(s: string): (r: string)
    ensures |r| <= |s| && r == s[..|r|]
    ensures forall i :: 0 <= i < |r| ==> IsHexDigit(r[i])
    ensures |r| < |s| ==> !IsHexDigit(s[|r|])
  {
    if s != [] && IsHexDigit(s[0]) then [s[0]] + HexPrefix(s[1..]) else []
  }

  /** `Number.parseInt(s)` with no radix argument: leading whitespace is
      skipped, one optional sign is read, a `0x`/`0X` prefix selects base 16,
      and the longest run of digits that follows is converted; `None` stands
      for `NaN` when that run is empty. */
  function ParseInt(s: string): Option<int>
  {
    ParseSigned(TrimStart(s))
  }

  /** `parseInt` after the leading whitespace: one optional sign. */
  function ParseSigned(t: string): Option<int>
  {
    if |t| > 0 && t[0] == '-' then
      var magnitude := ParseUnsigned(t[1..]);
      if magnitude.None? then None else Some(0 - magnitude.value as int)
    else if |t| > 0 && t[0] == '+' then Widen(ParseUnsigned(t[1..]))
    else Widen(ParseUnsigned(t))
  }

  function Widen(o: Option<nat>): (r: Option<int>)
    ensures r.Some? <==> o.Some?
    ensures r.Some? ==> r.value == o.value
  {
    if o.None? then None else Some(o.value as int)
  }

  /** `parseInt` after the sign: base 16 behind `0x`/`0X`, else base 10. */
  function ParseUnsigned(b: string): Option<nat>
  {
    if |b| >= 2 && b[0] == '0' && (b[1] == 'x' || b[1] == 'X') then
      var digits := HexPrefix(b[2..]);
      if digits == [] then None else Some(HexValue(digits))
    else
      var digits := DecimalPrefix(b);
      if digits == [] then None else Some(DecimalValue(digits))
  }

  /** `Number.parseInt(env) || default` for an environment variable that may
      be unset (`undefined` converts to the string "undefined"): `NaN` and
      zero are both falsy, so each gives the default. */
  function EnvIntOr(env: Option<string>, default: int): int
  {
    match ParseInt(env.GetOr("undefined"))
    case None => default
    case Some(n) => if n == 0 then default else n
  }

  lemma DecimalPrefixOfDigits(s: string)
    requires AllDigits(s)
    ensures DecimalPrefix(s) == s
  {
  }

  /** `parseInt` reads back what `toString` wrote. */
  lemma ParseIntOfDecimal(n: nat)
    ensures ParseInt(NatToDecimal(n)) == Some(n)
  {
    var s := NatToDecimal(n);
    assert IsDigit(s[0]);
    assert TrimStart(s) == s;
    assert ParseSigned(s) == ParseUnsigned(s);
    DecimalPrefixOfDigits(s);
    DecimalRoundTrip(n);
  }

  /** A configured positive number is taken as it is. */
  lemma EnvIntOrConfigured(n: nat, default: int)
    requires n > 0
    ensures EnvIntOr(Some(NatToDecimal(n)), default) == n
  {
    ParseIntOfDecimal(n);
  }

  /** Text that starts with neither a digit nor a sign holds no number. */
  lemma ParseSignedNoNumber(t: string)
    requires t == [] || !(IsDigit(t[0]) || t[0] == '-' || t[0] == '+')
    ensures ParseSigned(t) == None
  {
    assert DecimalPrefix(t) == [];
  }

  /** Text that does not start with whitespace is read as it is. */
  lemma TrimStartNoBlank(t: string)
    requires t == [] || !IsWhitespace(t[0])
    ensures TrimStart(t) == t
  {
  }

  /** An unset variable, or one that does not start with a number (after
      blanks and a sign), falls back to the default. */
  lemma EnvIntOrFallsBack(env: Option<string>, default: int)
    requires env.Some? ==> var t := TrimStart(env.value);
                           t == [] || !(IsDigit(t[0]) || t[0] == '-' || t[0] == '+')
    ensures EnvIntOr(env, default) == default
  {
    var raw := env.GetOr("undefined");
    if env.None? {
      assert !IsWhitespace('u');
      TrimStartNoBlank(raw);
    }
    ParseSignedNoNumber(TrimStart(raw));
  }

  /** An explicit zero also falls back, because zero is falsy. */
  lemma EnvIntOrZero(default: int)
    ensures EnvIntOr(Some("0"), default) == default
    ensures EnvIntOr(Some("-0"), default) == default
  {
    ParseIntZero();
    ParseIntMinusZero();
  }

  lemma ParseIntZero()
    ensures ParseInt("0") == Some(0)
  {
    ParseUnsignedZero();
    assert !IsWhitespace('0');
    TrimStartNoBlank("0");
    assert ParseSigned("0") == Widen(ParseUnsigned("0"));
  }

  lemma ParseIntMinusZero()
    ensures ParseInt("-0") == Some(0)
  {
    var t := "-0";
    assert !IsWhitespace(t[0]);
    TrimStartNoBlank(t);
    assert t[1..] == "0";
    ParseUnsignedZero();
    assert ParseSigned(t) == Some(0);
  }

  lemma ParseUnsignedZero()
    ensures ParseUnsigned("0") == Some(0)
  {
    assert "0"[1..] == [];
    assert DecimalPrefix("0") == "0";
    assert "0"[..0] == [];
    assert DecimalValue("0") == 0;
  }
}
