/**
 Decimal text: how the servers print integers (operator<< and std::to_string) and how they read
 them back (std::stoi and std::stoll).  A reader that throws is modelled by None.
 */
module Decimal {
  import opened Common

  const INT32_MIN := -0x8000_0000
  const INT32_MAX := 0x7fff_ffff
  const INT64_MIN := -0x8000_0000_0000_0000
  const INT64_MAX := 0x7fff_ffff_ffff_ffff

  type Int32 = x: int | INT32_MIN <= x <= INT32_MAX
  type Int64 = x: int | INT64_MIN <= x <= INT64_MAX

  predicate IsDigit(c: char) { '0' <= c <= '9' }

  function DigitValue(c: char): (d: nat)
    requires IsDigit(c)
    ensures d < 10
  {
    (c as int) - ('0' as int)
  }

  function DigitChar(d: nat): (c: char)
    requires d < 10
    ensures IsDigit(c) && DigitValue(c) == d
  {
    (('0' as int) + d) as char
  }

  function PrintNat(n: nat): (s: string)
    ensures |s| > 0 && forall i :: 0 <= i < |s| ==> IsDigit(s[i])
  {
    if n < 10 then [DigitChar(n)] else PrintNat(n / 10) + [DigitChar(n % 10)]
  }

  function PrintInt(x: int): string
  {
    if x < 0 then "-" + PrintNat(-x) else PrintNat(x)
  }

  /** std::isspace in the "C" locale. */
  predicate IsSpace(c: char)
  {
    c == ' ' || 9 <= c as int <= 13
  }

  function SkipSpaces(s: string): string
  {
    if s != "" && IsSpace(s[0]) then SkipSpaces(s[1..]) else s
  }

  /** Length of the longest all-digit prefix. */
  function DigitRun(s: string): (n: nat)
    ensures n <= |s| && (forall i :: 0 <= i < n ==> IsDigit(s[i])) && (n < |s| ==> !IsDigit(s[n]))
  {
    if s != "" && IsDigit(s[0]) then 1 + DigitRun(s[1..]) else 0
  }

  function DigitsValue(s: string): nat
    requires forall i :: 0 <= i < |s| ==> IsDigit(s[i])
  {
    if s == "" then 0 else 10 * DigitsValue(s[..|s| - 1]) + DigitValue(s[|s| - 1])
  }

  /** strtol semantics: blanks, an optional sign, at least one digit; whatever follows is ignored. */
  function ParsePrefix(s: string): Option<int>
  {
    var t := SkipSpaces(s);
    var negative := t != "" && t[0] == '-';
    var body := if t != "" && (t[0] == '-' || t[0] == '+') then t[1..] else t;
    var run := DigitRun(body);
    if run == 0 then None
    else
      var magnitude: int := DigitsValue(body[..run]);
      Some(if negative then -magnitude else magnitude)
  }

  function ParseWithin(s: string, lo: int, hi: int): Option<int>
  {
    var x := ParsePrefix(s);
    if x.Some? && lo <= x.value <= hi then x else None
  }

  function Stoi(s: string): Option<int> { ParseWithin(s, INT32_MIN, INT32_MAX) }

  function Stoll(s: string): Option<int> { ParseWithin(s, INT64_MIN, INT64_MAX) }

  predicate StartsWithDigit(s: string) { s != "" && IsDigit(s[0]) }

  lemma {:induction false} PrintedNatValue(n: nat)
    ensures DigitsValue(PrintNat(n)) == n
  {
    if n >= 10 {
      PrintedNatValue(n / 10);
      var s := PrintNat(n);
      assert s[..|s| - 1] == PrintNat(n / 10);
    }
  }

  lemma {:induction false} RunOfDigits(digits: string, rest: string)
    requires forall i :: 0 <= i < |digits| ==> IsDigit(digits[i])
    requires !StartsWithDigit(rest)
    ensures DigitRun(digits + rest) == |digits|
  {
    if digits == "" {
      assert digits + rest == rest;
    } else {
      assert (digits + rest)[1..] == digits[1..] + rest;
      RunOfDigits(digits[1..], rest);
    }
  }

  lemma SignOff(x: int, rest: string)
    requires !StartsWithDigit(rest)
    ensures var s, digits := PrintInt(x) + rest, PrintNat(if x < 0 then -x else x);
            && s != "" && SkipSpaces(s) == s && (s[0] == '-' <==> x < 0) && s[0] != '+'
            && (if x < 0 then s[1..] else s) == digits + rest
  {
    hide PrintNat;
    var s, digits := PrintInt(x) + rest, PrintNat(if x < 0 then -x else x);
    assert s[0] == PrintInt(x)[0];
    if x < 0 { assert s == "-" + (digits + rest); }
  }

  /** Reading a printed integer gives it back, whatever non-digit text follows. */
  lemma {:induction false} ParsePrinted(x: int, rest: string)
    requires !StartsWithDigit(rest)
    ensures ParsePrefix(PrintInt(x) + rest) == Some(x)
  {
    hide PrintNat, PrintInt, DigitsValue, SkipSpaces, DigitRun;
    var magnitude := if x < 0 then -x else x;
    var digits := PrintNat(magnitude);
    SignOff(x, rest);
    RunOfDigits(digits, rest);
    assert (digits + rest)[..|digits|] == digits;
    PrintedNatValue(magnitude);
  }

  /** Digits with no zero in front, and a minus sign in front of those of a negative number. */
  predicate Canonical(s: string)
  {
    if s != "" && s[0] == '-' then IsNumeral(s[1..]) && s[1] != '0' else IsNumeral(s)
  }

  predicate IsNumeral(s: string)
  {
    s != "" && (forall i :: 0 <= i < |s| ==> IsDigit(s[i])) && (s[0] == '0' ==> |s| == 1)
  }

  lemma {:induction false} DigitsPrinted(s: string)
    requires IsNumeral(s)
    ensures PrintNat(DigitsValue(s)) == s && (DigitsValue(s) == 0 ==> s == "0")
  {
    var front, last := s[..|s| - 1], s[|s| - 1];
    assert s == front + [last] && DigitChar(DigitValue(last)) == last;
    if front == "" {
      assert DigitsValue(front) == 0;
    } else {
      assert front[0] == s[0];
      DigitsPrinted(front);
      assert DigitsValue(s) == 10 * DigitsValue(front) + DigitValue(last);
      assert DigitsValue(s) / 10 == DigitsValue(front) && DigitsValue(s) % 10 == DigitValue(last);
    }
  }

  lemma {:induction false} NoZeroInFront(n: nat)
    ensures PrintNat(n)[0] == '0' ==> n == 0 && PrintNat(n) == "0"
  {
    if n >= 10 { NoZeroInFront(n / 10); }
  }

  lemma CanonicalIsPrinted(s: string)
    requires Canonical(s)
    ensures ParsePrefix(s).Some? && PrintInt(ParsePrefix(s).value) == s
  {
    hide PrintNat, DigitsValue;
    var digits := if s[0] == '-' then s[1..] else s;
    RunOfDigits(digits, "");
    DigitsPrinted(digits);
    assert digits + "" == digits && digits[..|digits|] == digits;
    assert SkipSpaces(s) == s;
    assert s[0] == '-' ==> s == "-" + digits;
  }

  /** A printed integer is the one canonical text that reads as it. */
  lemma PrintsExactly(x: int, s: string)
    ensures PrintInt(x) == s <==> Canonical(s) && ParsePrefix(s) == Some(x)
  {
    hide ParsePrefix, PrintNat;
    if PrintInt(x) == s {
      ParsePrinted(x, "");
      assert s + "" == s;
      NoZeroInFront(if x < 0 then -x else x);
    } else if Canonical(s) {
      CanonicalIsPrinted(s);
    }
  }

  lemma StoiPrinted(x: int)
    requires INT32_MIN <= x <= INT32_MAX
    ensures Stoi(PrintInt(x)) == Some(x)
  {
    ParsePrinted(x, "");
    assert PrintInt(x) + "" == PrintInt(x);
  }

  lemma StollPrinted(x: int)
    requires INT64_MIN <= x <= INT64_MAX
    ensures Stoll(PrintInt(x)) == Some(x)
  {
    ParsePrinted(x, "");
    assert PrintInt(x) + "" == PrintInt(x);
  }

  /** Two printed integers each followed by a separator can be told apart from the left. */
  lemma {:induction false} PrintedIntSplits(x: int, y: int, rest: string, rest': string)
    requires !StartsWithDigit(rest) && !StartsWithDigit(rest')
    requires PrintInt(x) + rest == PrintInt(y) + rest'
    ensures x == y && rest == rest'
  {
    ParsePrinted(x, rest);
    ParsePrinted(y, rest');
    var n := |PrintInt(x)|;
    assert (PrintInt(x) + rest)[n..] == rest;
    assert (PrintInt(y) + rest')[n..] == rest';
  }

  /** "<prefix><a>-<b>-<n>": the shape of battle ids and session ids. */
  function TaggedId(prefix: string, a: int, b: int, n: nat): string
  {
    prefix + (PrintInt(a) + ("-" + (PrintInt(b) + ("-" + PrintInt(n)))))
  }

  lemma DropCommonPrefix(prefix: string, s: string, t: string)
    requires prefix + s == prefix + t
    ensures s == t
  {
    assert s == (prefix + s)[|prefix|..];
    assert t == (prefix + t)[|prefix|..];
  }

  /** Ids with the same prefix are equal only when all three numbers are, even though a negative
      number brings a '-' of its own. */
  lemma TaggedIdInjective(prefix: string, a: int, b: int, n: nat, a': int, b': int, n': nat)
    requires TaggedId(prefix, a, b, n) == TaggedId(prefix, a', b', n')
    ensures a == a' && b == b' && n == n'
  {
    var last, last' := PrintInt(n), PrintInt(n');
    var tail, tail' := PrintInt(b) + ("-" + last), PrintInt(b') + ("-" + last');
    DropCommonPrefix(prefix, PrintInt(a) + ("-" + tail), PrintInt(a') + ("-" + tail'));
    PrintedIntSplits(a, a', "-" + tail, "-" + tail');
    DropCommonPrefix("-", tail, tail');
    PrintedIntSplits(b, b', "-" + last, "-" + last');
    DropCommonPrefix("-", last, last');
    assert last + "" == last && last' + "" == last';
    PrintedIntSplits(n, n', "", "");
  }
}
