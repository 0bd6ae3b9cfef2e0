/** `parseInt(value, 10) || 0`, the rule the admin form applies to the
    downloads field, following the steps of `parseInt` in section 19.2.5 of
    ECMA-262 for radix 10, and `Number.prototype.toString` for the integers
    the field displays. */
module JsParseInt {
  import opened Types

  /** Unicode general category Zs (space separators). */
  predicate IsSpaceSeparator(c: char)
  {
    c == ' ' || c == '\U{00A0}' || c == '\U{1680}' || ('\U{2000}' <= c <= '\U{200A}')
    || c == '\U{202F}' || c == '\U{205F}' || c == '\U{3000}'
  }

  /** StrWhiteSpaceChar: the white space and line terminators `parseInt`
      skips before the number. */
  predicate IsStrWhiteSpace(c: char)
  {
    c == '\t' || c == '\U{000B}' || c == '\U{000C}' || c == '\U{FEFF}'
    || c == '\n' || c == '\r' || c == '\U{2028}' || c == '\U{2029}'
    || IsSpaceSeparator(c)
  }

  predicate IsDigit(c: char)
  {
    '0' <= c <= '9'
  }

  predicate AllDigits(d: string)
  {
    forall k :: 0 <= k < |d| ==> IsDigit(d[k])
  }

  /** `s` without its leading white space. */
  function TrimStart(s: string): (r: string)
    ensures r == [] || !IsStrWhiteSpace(r[0])
  {
    if s != [] && IsStrWhiteSpace(s[0]) then TrimStart(s[1..]) else s
  }

  /** What `TrimStart` removes is a prefix of white space. */
  lemma {:induction false} TrimStartRemovesWhiteSpace(s: string)
    ensures |TrimStart(s)| <= |s| && TrimStart(s) == s[|s| - |TrimStart(s)|..]
    ensures forall k :: 0 <= k < |s| - |TrimStart(s)| ==> IsStrWhiteSpace(s[k])
  {
    if s != [] && IsStrWhiteSpace(s[0]) {
      TrimStartRemovesWhiteSpace(s[1..]);
      forall k | 1 <= k < |s| - |TrimStart(s)| ensures IsStrWhiteSpace(s[k]) {
        assert s[k] == s[1..][k - 1];
      }
    }
  }

  /** The longest prefix of `s` made of decimal digits. */
  function LeadingDigits(s: string): (r: string)
    ensures r <= s && AllDigits(r)
    ensures |r| == |s| || !IsDigit(s[|r|])
  {
    if s != [] && IsDigit(s[0]) then [s[0]] + LeadingDigits(s[1..]) else []
  }

  /** The value of a string of decimal digits, most significant first. */
  function DigitsValue(d: string): nat
    requires AllDigits(d)
  {
    if d == [] then 0 else DigitsValue(d[..|d| - 1]) * 10 + (d[|d| - 1] as int - '0' as int)
  }

  /** `t` without the one sign character it may start with. */
  function Unsigned(t: string): string
  {
    if t != [] && (t[0] == '-' || t[0] == '+') then t[1..] else t
  }

  /** `parseInt(s, 10)`; `None` stands for NaN. */
  function ParseInt(s: string): Option<int>
  {
    ParseTrimmed(TrimStart(s))
  }

  /** `parseInt` once the leading white space is gone: an optional sign,
      then the longest run of digits. */
  function ParseTrimmed(t: string): Option<int>
  {
    var digits := LeadingDigits(Unsigned(t));
    if digits == [] then None
    else if t[0] == '-' then Some(-(DigitsValue(digits) as int))
    else Some(DigitsValue(digits))
  }

  /** `parseInt(s, 10) || 0`: NaN and zero both give 0. */
  function ParseDownloads(s: string): int
  {
    match ParseInt(s)
    case None => 0
    case Some(n) => n
  }

  /** The decimal digits of `n`, without leading zeros. */
  function NatDigits(n: nat): (d: string)
    ensures d != [] && AllDigits(d)
    ensures d[0] == '0' ==> n == 0
  {
    if n < 10 then [('0' as int + n) as char]
    else NatDigits(n / 10) + [('0' as int + n % 10) as char]
  }

  /** `String(n)` for an integer `n`: how the form displays the field. */
  function DecimalString(n: int): string
  {
    if n < 0 then ['-'] + NatDigits(-n) else NatDigits(n)
  }

  lemma {:induction false} NatDigitsValue(n: nat)
    ensures DigitsValue(NatDigits(n)) == n
  {
    if n >= 10 {
      NatDigitsValue(n / 10);
      var d := NatDigits(n);
      assert d[..|d| - 1] == NatDigits(n / 10);
    }
  }

  lemma {:induction false} LeadingDigitsOfDigits(d: string, rest: string)
    requires AllDigits(d)
    requires rest == [] || !IsDigit(rest[0])
    ensures LeadingDigits(d + rest) == d
  {
    if d == [] {
      assert d + rest == rest;
    } else {
      assert (d + rest)[1..] == d[1..] + rest;
      LeadingDigitsOfDigits(d[1..], rest);
    }
  }

  /** Nothing, or one sign character. */
  predicate IsSignPrefix(sign: string)
  {
    |sign| <= 1 && (sign != [] ==> sign[0] == '-' || sign[0] == '+')
  }

  /** The first character of a string that starts with an optional sign
      and then a digit is not white space, and is `-` exactly when the sign
      is. */
  lemma SignOrDigitStart(sign: string, d: string, rest: string)
    requires IsSignPrefix(sign)
    requires d != [] && IsDigit(d[0])
    ensures TrimStart(sign + d + rest) == sign + d + rest
    ensures Unsigned(sign + d + rest) == d + rest
    ensures (sign + d + rest)[0] == '-' <==> sign != [] && sign[0] == '-'
  {
    var s := sign + d + rest;
    if sign == [] {
      assert s == d + rest;
      assert s[0] == d[0];
    } else {
      assert s[0] == sign[0];
      assert s[1..] == d + rest;
    }
    assert !IsStrWhiteSpace(s[0]);
  }

  /** Once the white space is gone, `parseInt` reads the leading digits of
      what follows the sign, negated after `-`. */
  lemma ParseTrimmedDigits(t: string, d: string)
    requires d != [] && AllDigits(d)
    requires LeadingDigits(Unsigned(t)) == d
    ensures t != []
    ensures ParseTrimmed(t) == Some(if t[0] == '-' then -(DigitsValue(d) as int) else DigitsValue(d))
  {
  }

  /** `parseInt` reads the digits after an optional sign and stops at the
      first character that is not a digit: `"12px"` gives 12. */
  lemma ParseIntDigitPrefix(sign: string, d: string, rest: string)
    requires IsSignPrefix(sign)
    requires d != [] && AllDigits(d)
    requires rest == [] || !IsDigit(rest[0])
    ensures ParseInt(sign + d + rest) == Some(if sign != [] && sign[0] == '-' then -(DigitsValue(d) as int) else DigitsValue(d))
  {
    var s := sign + d + rest;
    SignOrDigitStart(sign, d, rest);
    LeadingDigitsOfDigits(d, rest);
    ParseTrimmedDigits(s, d);
  }

  /** Leading white space is skipped whatever follows it. */
  lemma {:induction false} TrimStartSkips(w: string, s: string)
    requires forall k :: 0 <= k < |w| ==> IsStrWhiteSpace(w[k])
    ensures TrimStart(w + s) == TrimStart(s)
  {
    if w != [] {
      assert (w + s)[0] == w[0] && IsStrWhiteSpace(w[0]);
      assert (w + s)[1..] == w[1..] + s;
      assert TrimStart(w + s) == TrimStart(w[1..] + s);
      assert forall k :: 0 <= k < |w[1..]| ==> w[1..][k] == w[k + 1];
      TrimStartSkips(w[1..], s);
    } else {
      assert w + s == s;
    }
  }

  /** `parseInt` ignores the white space before the number: `" 42"` parses
      like `"42"`. */
  lemma ParseIntSkipsWhiteSpace(w: string, s: string)
    requires forall k :: 0 <= k < |w| ==> IsStrWhiteSpace(w[k])
    ensures ParseInt(w + s) == ParseInt(s)
  {
    TrimStartSkips(w, s);
  }

  /** Without a digit after the optional sign, `parseInt` gives NaN. */
  lemma ParseIntNoDigits(sign: string, rest: string)
    requires IsSignPrefix(sign)
    requires rest == [] || !IsDigit(rest[0])
    requires sign == [] && rest != [] ==> !IsStrWhiteSpace(rest[0]) && rest[0] != '-' && rest[0] != '+'
    ensures ParseInt(sign + rest) == None && ParseDownloads(sign + rest) == 0
  {
    var s := sign + rest;
    if sign == [] {
      assert s == rest;
    } else {
      assert s[0] == sign[0] && s[1..] == rest;
      assert !IsStrWhiteSpace(s[0]);
    }
    assert TrimStart(s) == s;
  }

  /** Typing back the number the field displays gives the same number. */
  lemma ParseDownloadsRoundTrip(n: int)
    ensures ParseDownloads(DecimalString(n)) == n
  {
    var m: nat := if n < 0 then -n else n;
    var sign: string := if n < 0 then ['-'] else [];
    var d := NatDigits(m);
    assert DecimalString(n) == sign + d + [];
    assert ParseInt(sign + d + []) == Some(n) by {
      NatDigitsValue(m);
      ParseIntDigitPrefix(sign, d, []);
    }
  }
}
