/** The three Python string operations the backend relies on: `str.strip()` (blank
    chat messages), `str(int)` (the token subject) and `int(str)` (reading the
    subject back). */
module Text {
  import opened Outcomes

  /** Python's `str.isspace()` for one character: the ASCII separators and the
      Unicode space characters. */
  predicate IsSpace(c: char)
  {
    || c == ' '
    || ('\t' <= c <= '\r')
    || ('\U{1c}' <= c <= '\U{1f}')
    || c == '\U{85}' || c == '\U{a0}' || c == '\U{1680}'
    || ('\U{2000}' <= c <= '\U{200a}')
    || c == '\U{2028}' || c == '\U{2029}' || c == '\U{202f}' || c == '\U{205f}' || c == '\U{3000}'
  }

  /** The whitespace `int()` skips around a number: the ASCII space and '\t' to
      '\r', and every non-ASCII character `isspace()` accepts (those are turned into
      spaces first). Unlike `isspace()`, not the separators U+001C to U+001F. */
  predicate IsIntSpace(c: char)
  {
    IsSpace(c) && !('\U{1c}' <= c <= '\U{1f}')
  }

  /** Number of characters at the start of `s` that `space` accepts. */
  function LeadingSpaces(s: string, space: char -> bool): (k: nat)
    ensures k <= |s|
    ensures forall i :: 0 <= i < k ==> space(s[i])
    ensures k < |s| ==> !space(s[k])
  {
    if s == [] || !space(s[0]) then 0 else 1 + LeadingSpaces(s[1..], space)
  }

  /** Number of characters at the end of `s` that `space` accepts. */
  function TrailingSpaces(s: string, space: char -> bool): (k: nat)
    ensures k <= |s|
    ensures forall i :: |s| - k <= i < |s| ==> space(s[i])
    ensures k < |s| ==> !space(s[|s| - 1 - k])
  {
    if s == [] || !space(s[|s| - 1]) then 0 else 1 + TrailingSpaces(s[..|s| - 1], space)
  }

  /** `s` without the characters `space` accepts at either end. */
  function StripBy(s: string, space: char -> bool): (r: string)
    ensures |r| <= |s|
    ensures r == [] <==> forall i :: 0 <= i < |s| ==> space(s[i])
    ensures r != [] ==> !space(r[0]) && !space(r[|r| - 1])
    ensures r != [] ==> LeadingSpaces(s, space) + |r| <= |s|
                        && r == s[LeadingSpaces(s, space)..LeadingSpaces(s, space) + |r|]
    ensures r != [] ==> forall i :: LeadingSpaces(s, space) + |r| <= i < |s| ==> space(s[i])
  {
    var lead := LeadingSpaces(s, space);
    if lead == |s| then []
    else
      var trail := TrailingSpaces(s, space);
      assert !space(s[lead]);
      s[lead..|s| - trail]
  }

  /** Python's `str.strip()` with no argument. */
  function Strip(s: string): (r: string)
    ensures r == [] <==> forall i :: 0 <= i < |s| ==> IsSpace(s[i])
    ensures r != [] ==> !IsSpace(r[0]) && !IsSpace(r[|r| - 1])
    ensures r != [] ==>
      var k := LeadingSpaces(s, IsSpace);
      && k + |r| <= |s| && r == s[k..k + |r|]
      && (forall i :: k + |r| <= i < |s| ==> IsSpace(s[i]))
  {
    StripBy(s, IsSpace)
  }

  predicate IsDigit(c: char)
  {
    '0' <= c <= '9'
  }

  predicate AllDigits(s: string)
  {
    forall i :: 0 <= i < |s| ==> IsDigit(s[i])
  }

  function DigitChar(d: nat): (c: char)
    requires d < 10
    ensures IsDigit(c) && (c as int) - ('0' as int) == d
  {
    ('0' as int + d) as char
  }

  /** Value of a run of decimal digits, most significant first. */
  function DigitsValue(s: string): nat
    requires AllDigits(s)
  {
    if s == [] then 0
    else DigitsValue(s[..|s| - 1]) * 10 + ((s[|s| - 1] as int) - ('0' as int))
  }

  /** Decimal digits of a natural number, no leading zero. */
  function NatToString(n: nat): (s: string)
    ensures s != [] && AllDigits(s)
    ensures |s| > 1 ==> s[0] != '0'
    ensures DigitsValue(s) == n
  {
    if n < 10 then [DigitChar(n)]
    else
      var prefix := NatToString(n / 10);
      var s := prefix + [DigitChar(n % 10)];
      assert s[..|s| - 1] == prefix;
      s
  }

  /** Python's `str(n)` for an integer. */
  function IntToString(n: int): (s: string)
    ensures s != []
    ensures s[0] == '-' <==> n < 0
  {
    if n < 0 then "-" + NatToString(-n) else NatToString(n)
  }

  /** The digits of `s` with the separating underscores removed. */
  function WithoutUnderscores(s: string): (r: string)
    ensures |r| <= |s| && '_' !in r
    ensures |s| == 1 ==> r == if s[0] == '_' then [] else s
    ensures (forall i :: 0 <= i < |s| ==> IsDigit(s[i]) || s[i] == '_') ==> AllDigits(r)
    ensures AllDigits(s) ==> r == s
    ensures s != [] && IsDigit(s[0]) ==> r != [] && r[0] == s[0]
  {
    if s == [] then []
    else if s[0] == '_' then WithoutUnderscores(s[1..])
    else [s[0]] + WithoutUnderscores(s[1..])
  }

  /** Removal works piecewise: together with the one-character case above, the
      result is `s` with exactly its underscores dropped, the rest kept in order. */
  lemma {:induction false} WithoutUnderscoresConcat(a: string, b: string)
    ensures WithoutUnderscores(a + b) == WithoutUnderscores(a) + WithoutUnderscores(b)
  {
    if a != [] {
      assert (a + b)[1..] == a[1..] + b;
      WithoutUnderscoresConcat(a[1..], b);
    } else {
      assert a + b == b;
    }
  }

  /** Digits that Python's `int()` accepts after the sign: at least one digit,
      single underscores allowed only between two digits. */
  predicate IsDigitGroup(s: string)
  {
    && s != []
    && IsDigit(s[0])
    && IsDigit(s[|s| - 1])
    && (forall i :: 0 <= i < |s| ==> IsDigit(s[i]) || s[i] == '_')
    && (forall i :: 0 <= i < |s| - 1 && s[i] == '_' ==> s[i + 1] != '_')
  }

  /** The value of a digit group; `None` where Python raises ValueError. */
  function ParseDigits(s: string): (r: Option<nat>)
    ensures r.Some? <==> IsDigitGroup(s)
    ensures s != [] && AllDigits(s) ==> r == Some(DigitsValue(s))
  {
    if IsDigitGroup(s) then
      Some(DigitsValue(WithoutUnderscores(s)))
    else None
  }

  /** The underscores of a digit group do not change its value: the group reads as
      the plain digit string left after removing them. */
  lemma ParseDigitsIgnoresUnderscores(s: string)
    requires IsDigitGroup(s)
    ensures IsDigitGroup(WithoutUnderscores(s))
    ensures ParseDigits(WithoutUnderscores(s)) == ParseDigits(s)
  {
    var d := WithoutUnderscores(s);
    assert d != [] && AllDigits(d);
    assert d[|d| - 1] in d;
  }

  /** `int()` on text already stripped: an optional sign and a digit group. */
  function ParseSigned(t: string): (r: Option<int>)
    ensures r.Some? <==> IsDigitGroup(t) || (t != [] && (t[0] == '+' || t[0] == '-') && IsDigitGroup(t[1..]))
    ensures IsDigitGroup(t) ==> r == Some(ParseDigits(t).value as int)
    ensures t != [] && t[0] == '+' && IsDigitGroup(t[1..]) ==> r == Some(ParseDigits(t[1..]).value as int)
    ensures t != [] && t[0] == '-' && IsDigitGroup(t[1..]) ==> r == Some(-(ParseDigits(t[1..]).value as int))
  {
    if t != [] && (t[0] == '+' || t[0] == '-') then
      match ParseDigits(t[1..])
      case None => None
      case Some(v) => Some(if t[0] == '-' then -(v as int) else v as int)
    else
      match ParseDigits(t)
      case None => None
      case Some(v) => Some(v)
  }

  /** Python's `int(s)` for base 10: surrounding whitespace, an optional sign and a
      digit group; `None` where Python raises ValueError. */
  function ParseInt(s: string): (r: Option<int>)
    // accepted: a digit group, or a sign followed by one, once whitespace is stripped
    ensures var t := StripBy(s, IsIntSpace);
      r.Some? <==> IsDigitGroup(t) || (t != [] && (t[0] == '+' || t[0] == '-') && IsDigitGroup(t[1..]))
    // the value: that of the digit group, negated after '-'
    ensures var t := StripBy(s, IsIntSpace); IsDigitGroup(t) ==> r == Some(ParseDigits(t).value as int)
    ensures var t := StripBy(s, IsIntSpace);
      t != [] && t[0] == '+' && IsDigitGroup(t[1..]) ==> r == Some(ParseDigits(t[1..]).value as int)
    ensures var t := StripBy(s, IsIntSpace);
      t != [] && t[0] == '-' && IsDigitGroup(t[1..]) ==> r == Some(-(ParseDigits(t[1..]).value as int))
  {
    ParseSigned(StripBy(s, IsIntSpace))
  }

  /** A string whose two ends `space` rejects is its own strip. */
  lemma StripUnchanged(s: string, space: char -> bool)
    requires s != [] && !space(s[0]) && !space(s[|s| - 1])
    ensures StripBy(s, space) == s
  {
    assert LeadingSpaces(s, space) == 0;
    assert TrailingSpaces(s, space) == 0;
  }

  /** `int()` does not skip the separators U+001C to U+001F, which `strip()` removes:
      `int("\x1c5")` raises ValueError. */
  lemma IntKeepsSeparators()
    ensures Strip("\U{1c}5") == "5"
    ensures ParseInt("\U{1c}5") == None
  {
    assert StripBy("\U{1c}5", IsIntSpace) == "\U{1c}5" by {
      StripUnchanged("\U{1c}5", IsIntSpace);
    }
    assert LeadingSpaces("\U{1c}5", IsSpace) == 1 by {
      assert "\U{1c}5"[1..] == "5";
    }
  }

  /** `int(str(n)) == n`: the token subject written by `create_token` reads back
      as the same user id. */
  lemma {:induction false} ParseIntToString(n: int)
    ensures ParseInt(IntToString(n)) == Some(n)
  {
    var s := IntToString(n);
    var digits := NatToString(if n < 0 then -n else n);
    assert s[|s| - 1] == digits[|digits| - 1];
    assert IsDigit(s[|s| - 1]);
    StripUnchanged(s, IsIntSpace);
    assert IsDigitGroup(digits);
    if n < 0 {
      assert s[1..] == digits;
    }
  }
}
