/** `short.TryParse`, `decimal.TryParse` and `int.ToString` for the invariant culture. */
module Numbers {
  import opened Wrappers

  const ShortMin: int := -32768
  const ShortMax: int := 32767

  /** The white space that `NumberStyles.AllowLeadingWhite` and `AllowTrailingWhite`
      accept: U+0009..U+000D and U+0020 only (narrower than `char.IsWhiteSpace`). */
  predicate IsNumberWhite(c: char) {
    ('\t' <= c <= '\r') || c == ' '
  }

  predicate IsDigit(c: char) {
    '0' <= c <= '9'
  }

  predicate AllDigits(s: string) {
    forall i :: 0 <= i < |s| ==> IsDigit(s[i])
  }

  /** The number a run of decimal digits denotes, most significant first. */
  function DigitsValue(s: string): nat
    requires AllDigits(s)
    decreases |s|
  {
    if s == [] then 0 else DigitsValue(s[..|s| - 1]) * 10 + ((s[|s| - 1] as int) - ('0' as int))
  }

  /** `s` without the leading and trailing number white space. */
  function StripNumberWhite(s: string): (r: string)
    ensures |r| <= |s|
    ensures r != [] ==> !IsNumberWhite(r[0]) && !IsNumberWhite(r[|r| - 1])
    decreases |s|
  {
    if s != [] && IsNumberWhite(s[0]) then StripNumberWhite(s[1..])
    else if s != [] && IsNumberWhite(s[|s| - 1]) then StripNumberWhite(s[..|s| - 1])
    else s
  }

  /** A leading sign: `-` negates, `+` is allowed and ignored. */
  function SignOf(t: string): (r: (bool, string))
    ensures |r.1| <= |t|
  {
    if t != [] && t[0] == '-' then (true, t[1..])
    else if t != [] && t[0] == '+' then (false, t[1..])
    else (false, t)
  }

  /** `short.TryParse(s, out v)` with `NumberStyles.Integer`: optional white space, an
      optional sign, at least one digit, optional white space, and a value that fits
      in 16 bits. `None` is a `false` return, where the source's `v` is 0. */
  function ParseShort(s: string): (r: Option<int>)
    ensures r.Some? ==> ShortMin <= r.value <= ShortMax
  {
    var (negative, digits) := SignOf(StripNumberWhite(s));
    if digits == [] || !AllDigits(digits) then None
    else
      var v: int := if negative then -(DigitsValue(digits) as int) else DigitsValue(digits);
      if ShortMin <= v <= ShortMax then Some(v) else None
  }

  function Pow10(n: nat): (r: nat)
    ensures r >= 1
  {
    if n == 0 then 1 else 10 * Pow10(n - 1)
  }

  /** A trailing sign, with the white space before it: `-` negates, `+` is allowed
      and ignored. */
  function TrailingSignOf(t: string): (r: (bool, string))
    ensures |r.1| <= |t|
  {
    if t != [] && t[|t| - 1] == '-' then (true, StripNumberWhite(t[..|t| - 1]))
    else if t != [] && t[|t| - 1] == '+' then (false, StripNumberWhite(t[..|t| - 1]))
    else (false, t)
  }

  /** `decimal.TryParse(s, out v)` with `NumberStyles.Number` and `.` as the decimal
      point: optional white space, then either a leading sign right before the
      number or a trailing sign after it (white space may stand between the number
      and a trailing sign), digits with at most one `.` and at least one digit in
      all, optional white space. */
  function ParseDecimal(s: string): (r: Option<real>)
  {
    var t := StripNumberWhite(s);
    var (negative, body) := SignOf(t);
    if |body| < |t| then DecimalBody(negative, body)
    else
      var (trailingNegative, rest) := TrailingSignOf(t);
      DecimalBody(trailingNegative, rest)
  }

  /** The number after the sign: digits with at most one `.`, at least one digit in all. */
  function DecimalBody(negative: bool, body: string): (r: Option<real>)
  {
    var dot := DotIndex(body);
    var whole := body[..dot];
    var fraction := if dot < |body| then body[dot + 1..] else [];
    if whole + fraction == [] || !AllDigits(whole) || !AllDigits(fraction) then None
    else
      var magnitude := DigitsValue(whole) as real + FractionValue(fraction);
      Some(if negative then -magnitude else magnitude)
  }

  /** `k` digits denote less than 10^k. */
  lemma {:induction false} DigitsBelow(s: string)
    requires AllDigits(s)
    ensures DigitsValue(s) < Pow10(|s|)
    decreases |s|
  {
    if s != [] {
      var init := s[..|s| - 1];
      assert AllDigits(init) by {
        forall i | 0 <= i < |init| ensures IsDigit(init[i]) { assert init[i] == s[i]; }
      }
      DigitsBelow(init);
      assert IsDigit(s[|s| - 1]);
    }
  }

  /** The value of the digits after the point. */
  function FractionValue(digits: string): (r: real)
    requires AllDigits(digits)
    ensures 0.0 <= r < 1.0
    ensures digits == [] ==> r == 0.0
  {
    DigitsBelow(digits);
    QuotientBelowOne(DigitsValue(digits) as real, Pow10(|digits|) as real);
    DigitsValue(digits) as real / Pow10(|digits|) as real
  }

  /** A proper fraction of a positive number is in [0, 1). */
  lemma QuotientBelowOne(d: real, p: real)
    requires 0.0 <= d < p
    ensures 0.0 <= d / p < 1.0
  {
    assert d / p * p == d;
  }

  /** The index of the first `.` in `s`, or |s| when there is none. */
  function DotIndex(s: string): (i: nat)
    ensures i <= |s| && '.' !in s[..i] && (i < |s| ==> s[i] == '.')
    decreases |s|
  {
    if s == [] then 0 else if s[0] == '.' then 0 else 1 + DotIndex(s[1..])
  }

  /** The decimal digits of `n`, without leading zeros (`n.ToString()` for n >= 0). */
  function NatToString(n: nat): (s: string)
    ensures s != [] && AllDigits(s)
    decreases n
  {
    var d := ['0' + ((n % 10) as char)];
    if n < 10 then d else NatToString(n / 10) + d
  }

  /** `n.ToString()` for an integer, with `-` in front of a negative one. */
  function IntToString(n: int): (s: string)
  {
    if n < 0 then "-" + NatToString(-n) else NatToString(n)
  }

  lemma {:induction false} NatToStringValue(n: nat)
    ensures DigitsValue(NatToString(n)) == n
    decreases n
  {
    var s := NatToString(n);
    if n >= 10 {
      NatToStringValue(n / 10);
      assert s[..|s| - 1] == NatToString(n / 10);
    }
  }

  lemma StripNothing(s: string)
    requires s != [] && !IsNumberWhite(s[0]) && !IsNumberWhite(s[|s| - 1])
    ensures StripNumberWhite(s) == s
  {
  }

  /** `ToString` writes a sign exactly for a negative value, then the digits of its
      magnitude; neither end is white space. */
  lemma ToStringParts(n: int)
    ensures var m: nat := if n < 0 then -n else n;
      && SignOf(StripNumberWhite(IntToString(n))) == (n < 0, NatToString(m))
      && DigitsValue(NatToString(m)) == m
  {
    var s := IntToString(n);
    var m: nat := if n < 0 then -n else n;
    var digits := NatToString(m);
    NatToStringValue(m);
    StripNothing(s);
    if n < 0 {
      assert s[1..] == digits;
    } else {
      assert digits[0] != '-' && digits[0] != '+';
    }
  }

  /** A run of digits holds no decimal point. */
  lemma {:induction false} NoDot(s: string)
    requires AllDigits(s)
    ensures DotIndex(s) == |s|
    decreases |s|
  {
    if s != [] {
      assert IsDigit(s[0]);
      NoDot(s[1..]);
    }
  }

  /** `short.TryParse` reads back every 16-bit value that `ToString` writes. */
  lemma ParseShortOfToString(n: int)
    requires ShortMin <= n <= ShortMax
    ensures ParseShort(IntToString(n)) == Some(n)
  {
    ToStringParts(n);
  }

  /** Digits without a point read as the whole number they denote. */
  lemma DecimalOfDigits(negative: bool, digits: string)
    requires digits != [] && AllDigits(digits)
    ensures DecimalBody(negative, digits)
         == Some(if negative then -(DigitsValue(digits) as real) else DigitsValue(digits) as real)
  {
    NoDot(digits);
    var dot := DotIndex(digits);
    var whole: string, fraction: string := digits[..dot], [];
    assert whole == digits;
    assert dot == |digits|;
    assert whole + fraction != [];
    assert AllDigits(whole) && AllDigits(fraction);
    var magnitude := DigitsValue(whole) as real + FractionValue(fraction);
    assert magnitude == DigitsValue(digits) as real;
    assert DecimalBody(negative, digits) == Some(if negative then -magnitude else magnitude);
  }

  /** `decimal.TryParse` reads back every integer that `ToString` writes. */
  lemma ParseDecimalOfToString(n: int)
    ensures ParseDecimal(IntToString(n)) == Some(n as real)
  {
    var m: nat := if n < 0 then -n else n;
    var digits := NatToString(m);
    var t := StripNumberWhite(IntToString(n));
    ToStringParts(n);
    DecimalOfDigits(n < 0, digits);
    if n < 0 {
      assert ParseDecimal(IntToString(n)) == DecimalBody(true, digits);
    } else {
      assert t == digits;
      assert IsDigit(t[0]) && IsDigit(t[|t| - 1]);
      UnsignedDecimal(IntToString(n));
    }
  }

  /** Without a sign at either end, the whole stripped text is the number. */
  lemma UnsignedDecimal(s: string)
    requires var t := StripNumberWhite(s);
      t != [] && IsDigit(t[0]) && IsDigit(t[|t| - 1])
    ensures ParseDecimal(s) == DecimalBody(false, StripNumberWhite(s))
  {
  }

  /** A sign may also follow the number, after white space or not: `-` negates it. */
  lemma DecimalTrailingSign(digits: string, white: string, sign: char)
    requires digits != [] && AllDigits(digits)
    requires forall i :: 0 <= i < |white| ==> IsNumberWhite(white[i])
    requires sign == '-' || sign == '+'
    ensures ParseDecimal(digits + white + [sign])
         == Some(if sign == '-' then -(DigitsValue(digits) as real) else DigitsValue(digits) as real)
  {
    var t := digits + white + [sign];
    assert IsDigit(digits[0]);
    StripNothing(t);
    assert t[..|t| - 1] == digits + white;
    StripTrailing(digits, white);
    DecimalOfDigits(sign == '-', digits);
  }

  /** Trailing white space is stripped from a run of digits. */
  lemma {:induction false} StripTrailing(digits: string, white: string)
    requires digits != [] && AllDigits(digits)
    requires forall i :: 0 <= i < |white| ==> IsNumberWhite(white[i])
    ensures StripNumberWhite(digits + white) == digits
    decreases |white|
  {
    assert IsDigit(digits[0]) && IsDigit(digits[|digits| - 1]);
    if white == [] {
      assert digits + white == digits;
      StripNothing(digits);
    } else {
      var w := white[..|white| - 1];
      assert (digits + white)[..|digits + white| - 1] == digits + w;
      StripTrailing(digits, w);
    }
  }
}
