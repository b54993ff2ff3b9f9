/** The pieces of .NET string handling the SQL generator relies on: String.Join,
    String.Trim, String.TrimStart(char), String.Format with the placeholders
    {0} and {1}, and the decimal rendering of integers. */
module Strings {

  /** char.IsWhiteSpace: the Unicode space separators (Zs), the line and paragraph
      separators, and the controls U+0009..U+000D and U+0085. */
  predicate IsWhiteSpace(c: char) {
    || c == ' ' || c == '\t' || c == '\n' || c == '\U{000B}' || c == '\U{000C}' || c == '\r'
    || c == '\U{0085}' || c == '\U{00A0}' || c == '\U{1680}'
    || ('\U{2000}' <= c <= '\U{200A}')
    || c == '\U{2028}' || c == '\U{2029}' || c == '\U{202F}' || c == '\U{205F}' || c == '\U{3000}'
  }

  /** `s` is not empty and does not end in white space, so trimming cannot shorten it. */
  predicate EndsSolid(s: string) {
    |s| > 0 && !IsWhiteSpace(s[|s| - 1])
  }

  /** `s` holds a character that is not white space. */
  predicate HasSolid(s: string) {
    exists i :: 0 <= i < |s| && !IsWhiteSpace(s[i])
  }

  predicate AllWhiteSpace(s: string) {
    forall i :: 0 <= i < |s| ==> IsWhiteSpace(s[i])
  }

  // ---------------------------------------------------------------- trimming

  /** String.TrimEnd(): the longest prefix of `s` that does not end in white space. */
  function TrimEnd(s: string): (r: string)
    decreases |s|
    ensures r <= s
    ensures r == [] || EndsSolid(r)
    ensures AllWhiteSpace(s[|r|..])
  {
    if |s| > 0 && IsWhiteSpace(s[|s| - 1]) then
      var r := TrimEnd(s[..|s| - 1]);
      assert s[|r|..] == s[..|s| - 1][|r|..] + [s[|s| - 1]];
      r
    else s
  }

  /** String.TrimStart(): the longest suffix of `s` that does not start with white space. */
  function TrimStart(s: string): (r: string)
    decreases |s|
    ensures |r| <= |s| && r == s[|s| - |r|..]
    ensures r == [] || !IsWhiteSpace(r[0])
    ensures AllWhiteSpace(s[..|s| - |r|])
  {
    if |s| > 0 && IsWhiteSpace(s[0]) then
      var r := TrimStart(s[1..]);
      assert s[..|s| - |r|] == [s[0]] + s[1..][..|s[1..]| - |r|];
      r
    else s
  }

  /** String.Trim(): drop white space at both ends, and only there. */
  function Trim(s: string): string {
    TrimEnd(TrimStart(s))
  }

  /** String.TrimStart(c): drop every leading copy of `c`. */
  function TrimStartChar(s: string, c: char): (r: string)
    decreases |s|
    ensures |r| <= |s| && r == s[|s| - |r|..]
    ensures r == [] || r[0] != c
    ensures forall i :: 0 <= i < |s| - |r| ==> s[i] == c
  {
    if |s| > 0 && s[0] == c then TrimStartChar(s[1..], c) else s
  }

  /** TrimEnd is determined by its three properties. */
  lemma TrimEndUnique(s: string, r: string)
    requires r <= s && (r == [] || EndsSolid(r)) && AllWhiteSpace(s[|r|..])
    ensures TrimEnd(s) == r
  {
  }

  /** Trailing white space added to `a` is all removed again. */
  lemma TrimEndDropsBlank(a: string, b: string)
    requires AllWhiteSpace(b)
    ensures TrimEnd(a + b) == TrimEnd(a)
  {
    var t := TrimEnd(a);
    assert (a + b)[|t|..] == a[|t|..] + b;
    TrimEndUnique(a + b, t);
  }

  /** Trimming the end of `a + b` never reaches into `a` when `b` has a solid character. */
  lemma TrimEndKeepsPrefix(a: string, b: string)
    requires HasSolid(b)
    ensures TrimEnd(a + b) == a + TrimEnd(b)
  {
    var t := TrimEnd(b);
    assert (a + b)[|a + t|..] == b[|t|..];
    TrimEndUnique(a + b, a + t);
  }

  // ---------------------------------------------------------------- joining

  /** String.Join(sep, xs). */
  function Join(sep: string, xs: seq<string>): string
    decreases |xs|
  {
    if |xs| == 0 then ""
    else if |xs| == 1 then xs[0]
    else Join(sep, xs[..|xs| - 1]) + sep + xs[|xs| - 1]
  }

  lemma JoinAppend(sep: string, xs: seq<string>, x: string)
    requires |xs| > 0
    ensures Join(sep, xs + [x]) == Join(sep, xs) + sep + x
  {
    assert (xs + [x])[..|xs|] == xs;
  }

  lemma EndsSolidSuffix(init: string, last: string)
    requires EndsSolid(last)
    ensures EndsSolid(init + last)
  {
    assert (init + last)[|init + last| - 1] == last[|last| - 1];
  }

  /** A join whose last item ends solid ends solid itself. */
  lemma JoinEndsSolid(sep: string, xs: seq<string>)
    requires |xs| > 0 && EndsSolid(xs[|xs| - 1])
    ensures EndsSolid(Join(sep, xs))
  {
    if |xs| > 1 {
      EndsSolidSuffix(Join(sep, xs[..|xs| - 1]) + sep, xs[|xs| - 1]);
    }
  }

  // ---------------------------------------------------------------- String.Format

  /** String.Format(format, arg0, arg1): each {0} becomes arg0, each {1} becomes arg1,
      every other character is copied. The formats the generator uses hold no other
      braces, so escapes ({{, }}) and wider placeholders are not modelled. */
  function Format(format: string, arg0: string, arg1: string): string
    decreases |format|
  {
    if |format| >= 3 && format[0] == '{' && format[2] == '}' && (format[1] == '0' || format[1] == '1') then
      (if format[1] == '0' then arg0 else arg1) + Format(format[3..], arg0, arg1)
    else if format == [] then ""
    else [format[0]] + Format(format[1..], arg0, arg1)
  }

  /** Text without an opening brace passes through String.Format unchanged. */
  lemma {:induction false} FormatLiteral(text: string, rest: string, arg0: string, arg1: string)
    requires forall i :: 0 <= i < |text| ==> text[i] != '{'
    ensures Format(text + rest, arg0, arg1) == text + Format(rest, arg0, arg1)
    decreases |text|
  {
    if text != [] {
      var format := text + rest;
      assert format[0] == text[0] && format[1..] == text[1..] + rest;
      assert Format(format, arg0, arg1) == [text[0]] + Format(text[1..] + rest, arg0, arg1);
      FormatLiteral(text[1..], rest, arg0, arg1);
      var after := Format(rest, arg0, arg1);
      assert [text[0]] + (text[1..] + after) == ([text[0]] + text[1..]) + after;
      assert [text[0]] + text[1..] == text;
    } else {
      assert text + rest == rest;
    }
  }

  /** A placeholder `{0}` or `{1}` becomes its argument. */
  lemma FormatPlaceholder(hole: string, rest: string, arg0: string, arg1: string)
    requires hole == "{0}" || hole == "{1}"
    ensures Format(hole + rest, arg0, arg1) == (if hole == "{0}" then arg0 else arg1) + Format(rest, arg0, arg1)
  {
    var format := hole + rest;
    assert format[0] == '{' && format[2] == '}' && format[1] == hole[1];
    assert format[3..] == rest;
  }

  /** A two-placeholder template `open{0}middle{1}close` puts the arguments in its holes. */
  lemma FormatTemplate(open: string, middle: string, close: string, arg0: string, arg1: string)
    requires forall i :: 0 <= i < |open| ==> open[i] != '{'
    requires forall i :: 0 <= i < |middle| ==> middle[i] != '{'
    requires forall i :: 0 <= i < |close| ==> close[i] != '{'
    ensures Format(open + "{0}" + middle + "{1}" + close, arg0, arg1) == open + arg0 + middle + arg1 + close
  {
    var tail0 := "{0}" + (middle + ("{1}" + close));
    TemplateText(open, middle, close);
    FormatLiteral(open, tail0, arg0, arg1);
    FormatTemplateTail(middle, close, arg0, arg1);
    TemplateText(open, arg0, middle + arg1 + close);
    TemplateText(arg0, middle, arg1 + close);
  }

  lemma TemplateText(a: string, b: string, c: string)
    ensures a + "{0}" + b + "{1}" + c == a + ("{0}" + (b + ("{1}" + c)))
    ensures a + b + c == a + (b + c)
  {
  }

  /** `{0}middle{1}close` after the opening text. */
  lemma FormatTemplateTail(middle: string, close: string, arg0: string, arg1: string)
    requires forall i :: 0 <= i < |middle| ==> middle[i] != '{'
    requires forall i :: 0 <= i < |close| ==> close[i] != '{'
    ensures Format("{0}" + (middle + ("{1}" + close)), arg0, arg1) == arg0 + (middle + (arg1 + close))
  {
    var tail1 := "{1}" + close;
    FormatPlaceholder("{0}", middle + tail1, arg0, arg1);
    FormatLiteral(middle, tail1, arg0, arg1);
    FormatPlaceholder("{1}", close, arg0, arg1);
    FormatLiteral(close, "", arg0, arg1);
    assert close + "" == close;
  }

  // ---------------------------------------------------------------- numbers

  function DigitChar(d: nat): (c: char)
    requires d < 10
    ensures '0' <= c <= '9'
  {
    "0123456789"[d]
  }

  predicate IsDigits(s: string) {
    forall i :: 0 <= i < |s| ==> '0' <= s[i] <= '9'
  }

  /** The decimal rendering of a natural number (Int32.ToString() of a non-negative value). */
  function NatToString(n: nat): (r: string)
    decreases n
    ensures |r| > 0 && IsDigits(r)
  {
    if n < 10 then [DigitChar(n)] else NatToString(n / 10) + [DigitChar(n % 10)]
  }

  /** The value of a string of decimal digits: the inverse of NatToString. */
  function ParseNat(s: string): nat
    requires IsDigits(s)
    decreases |s|
  {
    if s == [] then 0 else ParseNat(s[..|s| - 1]) * 10 + (s[|s| - 1] as int - '0' as int)
  }

  lemma DigitCharValue(d: nat)
    requires d < 10
    ensures DigitChar(d) as int - '0' as int == d
  {
  }

  lemma {:induction false} ParseNatRoundTrip(n: nat)
    ensures ParseNat(NatToString(n)) == n
    decreases n
  {
    var s := NatToString(n);
    DigitCharValue(n % 10);
    if n >= 10 {
      ParseNatRoundTrip(n / 10);
      assert s[..|s| - 1] == NatToString(n / 10);
    } else {
      assert s[..|s| - 1] == [];
    }
  }

  /** Different numbers render differently. */
  lemma NatToStringInjective(m: nat, n: nat)
    requires NatToString(m) == NatToString(n)
    ensures m == n
  {
    ParseNatRoundTrip(m);
    ParseNatRoundTrip(n);
  }

  /** Int32.ToString() (culture-neutral minus sign). */
  function IntToString(i: int): (r: string)
  {
    if i < 0 then "-" + NatToString(-i) else NatToString(i)
  }
}
