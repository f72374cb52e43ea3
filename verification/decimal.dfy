/** Decimal text of integers: the spelling JavaScript gives a non-negative
    integer in a template literal, and `parseInt(text, 10)`, which the remove
    command uses to read a task number. */
module Decimal {
  import opened Results

  predicate IsDigit(c: char) {
    '0' <= c <= '9'
  }

  predicate AllDigits(s: string) {
    forall i :: 0 <= i < |s| ==> IsDigit(s[i])
  }

  function DigitValue(c: char): (d: nat)
    requires IsDigit(c)
    ensures d < 10
  {
    c as int - '0' as int
  }

  function DigitChar(d: nat): (c: char)
    requires d < 10
    ensures IsDigit(c) && DigitValue(c) == d
  {
    ('0' as int + d) as char
  }

  /** The shortest decimal spelling of `n`: digits only, no leading zero. */
  function NatToString(n: nat): (s: string)
    ensures |s| >= 1
    ensures AllDigits(s)
    ensures s[0] == '0' ==> n == 0
    decreases n
  {
    if n < 10 then [DigitChar(n)] else NatToString(n / 10) + [DigitChar(n % 10)]
  }

  /** The number a run of decimal digits denotes, most significant digit first. */
  function DigitsValue(ds: string): nat
    requires AllDigits(ds)
    decreases |ds|
  {
    if |ds| == 0 then 0 else DigitsValue(ds[..|ds| - 1]) * 10 + DigitValue(ds[|ds| - 1])
  }

  /** One more digit at the end multiplies the value by ten and adds the digit. */
  lemma DigitsValueAppend(ds: string, c: char)
    requires AllDigits(ds) && IsDigit(c)
    ensures AllDigits(ds + [c])
    ensures DigitsValue(ds + [c]) == DigitsValue(ds) * 10 + DigitValue(c)
  {
    var t := ds + [c];
    assert t[..|t| - 1] == ds;
  }

  /** Reading the decimal spelling of `n` gives back `n`. */
  lemma {:induction false} DigitsValueOfNatToString(n: nat)
    ensures DigitsValue(NatToString(n)) == n
    decreases n
  {
    if n < 10 {
      var s := [DigitChar(n)];
      assert s[..0] == [];
    } else {
      var q, d := n / 10, n % 10;
      assert NatToString(n) == NatToString(q) + [DigitChar(d)];
      DigitsValueAppend(NatToString(q), DigitChar(d));
      DigitsValueOfNatToString(q);
      assert n == q * 10 + d;
    }
  }

  /** Different numbers are spelled differently. */
  lemma NatToStringInjective(a: nat, b: nat)
    requires NatToString(a) == NatToString(b)
    ensures a == b
  {
    DigitsValueOfNatToString(a);
    DigitsValueOfNatToString(b);
  }

  /** The characters `parseInt` skips before the number: ECMAScript's
      WhiteSpace and LineTerminator code points. */
  predicate IsJsWhitespace(c: char) {
    || c == '\t' || c == '\n' || c == '\U{000B}' || c == '\U{000C}' || c == '\r'
    || c == ' ' || c == '\U{00A0}' || c == '\U{1680}'
    || ('\U{2000}' <= c <= '\U{200A}')
    || c == '\U{2028}' || c == '\U{2029}' || c == '\U{202F}' || c == '\U{205F}'
    || c == '\U{3000}' || c == '\U{FEFF}'
  }

  predicate IsSign(c: char) {
    c == '+' || c == '-'
  }

  /** `s` without its leading white space. */
  function TrimStart(s: string): (r: string)
    ensures |r| <= |s|
    ensures |r| == 0 || !IsJsWhitespace(r[0])
  {
    if |s| > 0 && IsJsWhitespace(s[0]) then TrimStart(s[1..]) else s
  }

  /** `TrimStart` drops white space and nothing else: what it removes is a
      run of white space, and what it keeps is the rest of `s` unchanged. */
  lemma {:induction false} TrimStartDropsOnlyWhitespace(s: string)
    ensures var r := TrimStart(s);
      && r == s[|s| - |r|..]
      && forall i :: 0 <= i < |s| - |r| ==> IsJsWhitespace(s[i])
    decreases |s|
  {
    if |s| > 0 && IsJsWhitespace(s[0]) {
      TrimStartDropsOnlyWhitespace(s[1..]);
      var r := TrimStart(s);
      forall i | 0 <= i < |s| - |r|
        ensures IsJsWhitespace(s[i])
      {
        if i > 0 {
          assert s[i] == s[1..][i - 1];
        }
      }
    }
  }

  /** The longest prefix of `s` made of decimal digits. */
  function LeadingDigits(s: string): (ds: string)
    ensures |ds| <= |s|
    ensures AllDigits(ds)
  {
    if |s| > 0 && IsDigit(s[0]) then [s[0]] + LeadingDigits(s[1..]) else []
  }

  /** `LeadingDigits` is a prefix of `s` that cannot be extended by a digit. */
  lemma {:induction false} LeadingDigitsIsLongestPrefix(s: string)
    ensures var ds := LeadingDigits(s);
      && ds <= s
      && (|ds| == |s| || !IsDigit(s[|ds|]))
    decreases |s|
  {
    if |s| > 0 && IsDigit(s[0]) {
      LeadingDigitsIsLongestPrefix(s[1..]);
    }
  }

  /** `t` (already trimmed) starts a number: a digit, or a sign and then a digit. */
  predicate StartsNumber(t: string) {
    || (|t| > 0 && IsDigit(t[0]))
    || (|t| > 1 && IsSign(t[0]) && IsDigit(t[1]))
  }

  /** `parseInt(s, 10)`, with `None` for NaN: leading white space is skipped,
      one optional sign is read, then the longest run of decimal digits;
      whatever follows the digits is ignored. */
  function ParseInt(s: string): (r: Option<int>)
    ensures r.Some? <==> StartsNumber(TrimStart(s))
    ensures r.Some? && r.value < 0 ==> TrimStart(s)[0] == '-'
  {
    ParseTrimmed(TrimStart(s))
  }

  /** What `parseInt` reads from text whose leading white space is gone. */
  function ParseTrimmed(t: string): Option<int> {
    if |t| > 0 && IsSign(t[0]) then ParseDigits(t[0] == '-', t[1..]) else ParseDigits(false, t)
  }

  /** The number the leading digits of `u` denote, negated if `negative`;
      `None` when `u` does not start with a digit. */
  function ParseDigits(negative: bool, u: string): Option<int> {
    var ds := LeadingDigits(u);
    if |ds| == 0 then None
    else if negative then Some(-(DigitsValue(ds) as int))
    else Some(DigitsValue(ds))
  }

  /** The digits of a run that `rest` does not continue are all that
      `ParseDigits` reads. */
  lemma ParseDigitsOfDigits(ds: string, rest: string)
    requires |ds| > 0 && AllDigits(ds)
    requires |rest| == 0 || !IsDigit(rest[0])
    ensures ParseDigits(false, ds + rest) == Some(DigitsValue(ds))
  {
    LeadingDigitsOfDigits(ds, rest);
    ParseDigitsOfLeading(false, ds + rest, ds);
  }

  /** The same, negated. */
  lemma ParseDigitsOfNegatedDigits(ds: string, rest: string)
    requires |ds| > 0 && AllDigits(ds)
    requires |rest| == 0 || !IsDigit(rest[0])
    ensures ParseDigits(true, ds + rest) == Some(-(DigitsValue(ds) as int))
  {
    LeadingDigitsOfDigits(ds, rest);
    ParseDigitsOfLeading(true, ds + rest, ds);
  }

  /** `ParseDigits` applies the sign to the value of the leading digits. */
  lemma ParseDigitsOfLeading(negative: bool, u: string, ds: string)
    requires |ds| > 0 && AllDigits(ds)
    requires LeadingDigits(u) == ds
    ensures ParseDigits(negative, u) == Some(if negative then -(DigitsValue(ds) as int) else DigitsValue(ds))
  {
  }

  /** A leading minus sign makes `parseInt` negate what follows. */
  lemma ParseTrimmedOfMinus(u: string)
    ensures ParseTrimmed("-" + u) == ParseDigits(true, u)
  {
    var t := "-" + u;
    assert t[0] == '-' && t[1..] == u;
  }

  /** A run of digits that is not continued by `rest` is what `parseInt`
      reads from `ds + rest` when the text is already trimmed. */
  lemma ParseTrimmedOfDigits(ds: string, rest: string)
    requires |ds| > 0 && AllDigits(ds)
    requires |rest| == 0 || !IsDigit(rest[0])
    ensures ParseTrimmed(ds + rest) == Some(DigitsValue(ds))
  {
    assert (ds + rest)[0] == ds[0];
    ParseDigitsOfDigits(ds, rest);
  }

  /** The same run of digits behind a minus sign is read as its negation. */
  lemma ParseTrimmedOfNegatedDigits(ds: string, rest: string)
    requires |ds| > 0 && AllDigits(ds)
    requires |rest| == 0 || !IsDigit(rest[0])
    ensures ParseTrimmed("-" + ds + rest) == Some(-(DigitsValue(ds) as int))
  {
    assert "-" + ds + rest == "-" + (ds + rest);
    ParseTrimmedOfMinus(ds + rest);
    ParseDigitsOfNegatedDigits(ds, rest);
  }

  /** Text that starts with a digit or a minus sign is not trimmed. */
  lemma TrimStartOfNumber(t: string)
    requires |t| > 0 && (IsDigit(t[0]) || t[0] == '-')
    ensures TrimStart(t) == t
  {
  }

  /** The digits of `n` followed by anything that does not start with a digit
      parse back to `n`: the decimal spelling round-trips and trailing text is
      ignored. */
  lemma ParseIntOfNatToString(n: nat, rest: string)
    requires |rest| == 0 || !IsDigit(rest[0])
    ensures ParseInt(NatToString(n) + rest) == Some(n)
  {
    var ds := NatToString(n);
    assert (ds + rest)[0] == ds[0];
    TrimStartOfNumber(ds + rest);
    ParseTrimmedOfDigits(ds, rest);
    DigitsValueOfNatToString(n);
  }

  /** A minus sign in front of the digits of `n` gives `-n`. */
  lemma ParseIntOfNegated(n: nat, rest: string)
    requires |rest| == 0 || !IsDigit(rest[0])
    ensures ParseInt("-" + NatToString(n) + rest) == Some(-(n as int))
  {
    var ds := NatToString(n);
    assert ("-" + ds + rest)[0] == '-';
    TrimStartOfNumber("-" + ds + rest);
    ParseTrimmedOfNegatedDigits(ds, rest);
    DigitsValueOfNatToString(n);
  }

  /** The decimal spelling of `n` on its own parses back to `n`. */
  lemma ParseIntOfNatToStringAlone(n: nat)
    ensures ParseInt(NatToString(n)) == Some(n)
  {
    ParseIntOfNatToString(n, "");
    assert NatToString(n) + "" == NatToString(n);
  }

  /** Leading white space does not change what `parseInt` reads. */
  lemma ParseIntSkipsWhitespace(ws: string, s: string)
    requires forall i :: 0 <= i < |ws| ==> IsJsWhitespace(ws[i])
    ensures ParseInt(ws + s) == ParseInt(s)
  {
    TrimStartSkipsWhitespace(ws, s);
  }

  lemma {:induction false} TrimStartSkipsWhitespace(ws: string, s: string)
    requires forall i :: 0 <= i < |ws| ==> IsJsWhitespace(ws[i])
    ensures TrimStart(ws + s) == TrimStart(s)
    decreases |ws|
  {
    if |ws| > 0 {
      assert (ws + s)[0] == ws[0];
      assert (ws + s)[1..] == ws[1..] + s;
      TrimStartSkipsWhitespace(ws[1..], s);
    } else {
      assert ws + s == s;
    }
  }

  /** The longest digit prefix of `ds + rest` is `ds` when `rest` does not
      continue the run of digits. */
  lemma {:induction false} LeadingDigitsOfDigits(ds: string, rest: string)
    requires AllDigits(ds)
    requires |rest| == 0 || !IsDigit(rest[0])
    ensures LeadingDigits(ds + rest) == ds
    decreases |ds|
  {
    if |ds| > 0 {
      assert (ds + rest)[1..] == ds[1..] + rest;
      LeadingDigitsOfDigits(ds[1..], rest);
    } else {
      assert ds + rest == rest;
    }
  }
}
