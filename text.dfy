/**
 * The pieces of JavaScript string behaviour the gateway relies on: the `\w` and
 * `\d` regular-expression classes, `toLowerCase` on ASCII text, global
 * `replace` with a negated character class (a filter), number-to-string
 * conversion of non-negative integers, `parseInt(s, 10)` and `RegExp.test`
 * with a literal pattern.
 */
module Text {
  import opened Common

  predicate IsDigit(c: char) { '0' <= c <= '9' }
  predicate IsUpper(c: char) { 'A' <= c <= 'Z' }
  predicate IsLower(c: char) { 'a' <= c <= 'z' }

  /** The `\w` class of a JavaScript regular expression (no `u` flag). */
  predicate IsWordChar(c: char) { IsUpper(c) || IsLower(c) || IsDigit(c) || c == '_' }

  /** `toLowerCase` restricted to one character of ASCII text. */
  function ToLower(c: char): (r: char)
    ensures !IsUpper(r)
    ensures IsWordChar(r) <==> IsWordChar(c)
    ensures !IsUpper(c) ==> r == c
    ensures IsUpper(c) ==> r as int == c as int + 32
  {
    if IsUpper(c) then (c as int + 32) as char else c
  }

  function LowerCase(s: string): (r: string)
    ensures |r| == |s|
    ensures forall i :: 0 <= i < |s| ==> r[i] == ToLower(s[i])
  {
    seq(|s|, i requires 0 <= i < |s| => ToLower(s[i]))
  }

  /**
   * `s.replace(/[^...]/g, '')`: every character outside the allowed class is
   * removed and the others keep their order.
   */
  function Keep(s: string, allowed: char -> bool): (r: string)
    ensures |r| <= |s|
    ensures forall i :: 0 <= i < |r| ==> allowed(r[i]) && r[i] in s
    ensures (forall i :: 0 <= i < |s| ==> allowed(s[i])) ==> r == s
  {
    if s == [] then []
    else (if allowed(s[0]) then [s[0]] else []) + Keep(s[1..], allowed)
  }

  function DigitChar(d: nat): (c: char)
    requires d < 10
    ensures IsDigit(c)
  {
    ('0' as int + d) as char
  }

  function DigitValue(c: char): (d: nat)
    requires IsDigit(c)
    ensures d < 10 && DigitChar(d) == c
  {
    c as int - '0' as int
  }

  /** Template-literal conversion `${n}` of a non-negative integer. */
  function Decimal(n: nat): (s: string)
    ensures 1 <= |s|
    ensures forall i :: 0 <= i < |s| ==> IsDigit(s[i])
    ensures n >= 10 ==> |s| >= 2
    ensures n >= 100 ==> |s| >= 3
    decreases n
  {
    if n < 10 then [DigitChar(n)] else Decimal(n / 10) + [DigitChar(n % 10)]
  }

  predicate AllDigits(s: string) { forall i :: 0 <= i < |s| ==> IsDigit(s[i]) }

  /** The number a run of decimal digits denotes. */
  function DigitsValue(s: string): nat
    requires AllDigits(s)
  {
    if s == [] then 0 else DigitsValue(s[..|s| - 1]) * 10 + DigitValue(s[|s| - 1])
  }

  lemma {:induction false} DecimalValue(n: nat)
    ensures DigitsValue(Decimal(n)) == n
    decreases n
  {
    var s := Decimal(n);
    if n >= 10 {
      assert s[..|s| - 1] == Decimal(n / 10);
      DecimalValue(n / 10);
    }
  }

  /** Length of the longest prefix made of digits. */
  function LeadingDigitCount(s: string): (n: nat)
    ensures n <= |s|
    ensures forall i :: 0 <= i < n ==> IsDigit(s[i])
    ensures n < |s| ==> !IsDigit(s[n])
  {
    if s == [] || !IsDigit(s[0]) then 0 else 1 + LeadingDigitCount(s[1..])
  }

  lemma AllDigitsLeading(s: string)
    requires AllDigits(s)
    ensures LeadingDigitCount(s) == |s|
  {
  }

  /**
   * The characters `parseInt` skips before the number: white space (tab,
   * vertical tab, form feed, U+FEFF and every space separator of category Zs)
   * and the line terminators (LF, CR, U+2028, U+2029).
   */
  predicate IsJsSpace(c: char)
  {
    || c == '\t' || c as int == 0x0B || c as int == 0x0C || c as int == 0xFEFF
    || c == '\n' || c == '\r' || c as int == 0x2028 || c as int == 0x2029
    || IsSpaceSeparator(c)
  }

  /** The Zs category: U+0020, U+00A0, U+1680, U+2000 to U+200A, U+202F, U+205F and U+3000. */
  predicate IsSpaceSeparator(c: char)
  {
    || c == ' ' || c as int == 0xA0 || c as int == 0x1680
    || (0x2000 <= c as int <= 0x200A)
    || c as int == 0x202F || c as int == 0x205F || c as int == 0x3000
  }

  /** `s` with its leading white space removed: exactly the longest white-space prefix is dropped. */
  function TrimStart(s: string): (r: string)
    ensures r == [] || !IsJsSpace(r[0])
    ensures |r| <= |s| && r == s[|s| - |r|..]
    ensures forall i :: 0 <= i < |s| - |r| ==> IsJsSpace(s[i])
  {
    if s != [] && IsJsSpace(s[0]) then
      var r := TrimStart(s[1..]);
      assert forall i :: 1 <= i < |s| - |r| ==> s[i] == s[1..][i - 1];
      r
    else s
  }

  /**
   * `parseInt(s, 10)`: leading white space is skipped, one optional sign is
   * read, then the longest run of digits; with no digit the result is NaN
   * (`None`). Anything after the digits is ignored.
   */
  function ParseInt(s: string): (r: Option<int>)
  {
    var t := TrimStart(s);
    var signed := t != [] && (t[0] == '-' || t[0] == '+');
    var body := if signed then t[1..] else t;
    var n := LeadingDigitCount(body);
    var magnitude: int := DigitsValue(body[..n]);
    if n == 0 then None
    else if t[0] == '-' then Some(-magnitude)
    else Some(magnitude)
  }

  /** `parseInt` reads back every number written by `Decimal`. */
  lemma ParseDecimal(n: nat)
    ensures ParseInt(Decimal(n)) == Some(n)
  {
    var s := Decimal(n);
    assert IsDigit(s[0]);
    assert TrimStart(s) == s;
    AllDigitsLeading(s);
    assert s[..|s|] == s;
    DecimalValue(n);
  }

  /** After a run of digits and a non-digit separator, the digit run is exactly the first part. */
  lemma LeadingDigitsBeforeSeparator(d: string, sep: char, t: string)
    requires AllDigits(d) && !IsDigit(sep)
    ensures LeadingDigitCount(d + [sep] + t) == |d|
  {
    var s := d + [sep] + t;
    assert forall i :: 0 <= i < |d| ==> IsDigit(s[i]);
    assert !IsDigit(s[|d|]);
  }

  predicate IsPrefix(p: string, s: string) { |p| <= |s| && s[..|p|] == p }

  /** `new RegExp(p).test(s)` for a pattern `p` without special characters. */
  predicate Contains(s: string, p: string)
    decreases |s|
  {
    IsPrefix(p, s) || (s != [] && Contains(s[1..], p))
  }

  lemma {:induction false} ContainsInfix(a: string, p: string, b: string)
    ensures Contains(a + p + b, p)
    decreases |a|
  {
    var s := a + p + b;
    if a == [] {
      assert s[..|p|] == p;
    } else {
      assert s[1..] == a[1..] + p + b;
      ContainsInfix(a[1..], p, b);
    }
  }

  lemma {:induction false} ContainsWitness(s: string, p: string) returns (i: nat)
    requires Contains(s, p)
    ensures i + |p| <= |s| && s[i..i + |p|] == p
    decreases |s|
  {
    if IsPrefix(p, s) {
      i := 0;
    } else {
      var j := ContainsWitness(s[1..], p);
      i := j + 1;
      assert s[i..i + |p|] == s[1..][j..j + |p|];
    }
  }
}
