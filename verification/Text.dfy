/**
 The pieces of the C++ string library that the parsers and printers lean on:
 searching, line extraction, and decimal numbers.
 */
module Text {

  datatype Option<+T> = None | Some(value: T)

  // ---------------------------------------------------------------- searching

  /** std::string::find(c), with |s| standing for npos. */
  function IndexOfChar(s: string, c: char): (i: nat)
    ensures i <= |s|
    ensures c !in s[..i]
    ensures i < |s| ==> s[i] == c
  {
    if s == "" || s[0] == c then 0 else
    var i := IndexOfChar(s[1..], c) + 1;
    assert s[..i] == [s[0]] + s[1..][..i - 1];
    i
  }

  predicate OccursAt(s: string, pat: string, i: nat) {
    i + |pat| <= |s| && s[i..i + |pat|] == pat
  }

  /** std::string::find(pat, from): the first occurrence at or after `from`. */
  function FindFrom(s: string, pat: string, from: nat): (r: Option<nat>)
    ensures r.Some? ==> from <= r.value && OccursAt(s, pat, r.value)
    ensures r.Some? ==> forall j :: from <= j < r.value ==> !OccursAt(s, pat, j)
    ensures r.None? ==> forall j :: from <= j ==> !OccursAt(s, pat, j)
    decreases |s| - from
  {
    if from + |pat| > |s| then None
    else if s[from..from + |pat|] == pat then Some(from)
    else FindFrom(s, pat, from + 1)
  }

  function Find(s: string, pat: string): Option<nat> {
    FindFrom(s, pat, 0)
  }

  /** The first occurrence is the only position with this property. */
  lemma FindIs(s: string, pat: string, i: nat)
    requires OccursAt(s, pat, i)
    requires forall j: nat :: j < i ==> !OccursAt(s, pat, j)
    ensures Find(s, pat) == Some(i)
  {
  }

  lemma OccursAfter(a: string, b: string, pat: string, i: nat)
    ensures OccursAt(a + b, pat, |a| + i) <==> OccursAt(b, pat, i)
  {
    if |a| + i + |pat| <= |a + b| {
      assert (a + b)[|a| + i..|a| + i + |pat|] == b[i..i + |pat|];
    }
  }

  // -------------------------------------------------------------------- lines

  /** std::getline on the remaining characters: the line and what is left. */
  function GetLine(s: string): (r: (string, string))
    ensures '\n' !in r.0
    ensures s != "" ==> |r.1| < |s|
  {
    var i := IndexOfChar(s, '\n');
    (s[..i], if i < |s| then s[i + 1..] else "")
  }

  lemma IndexOfCharIs(a: string, c: char, b: string)
    requires c !in a
    ensures IndexOfChar(a + [c] + b, c) == |a|
  {
    var s := a + [c] + b;
    var i := IndexOfChar(s, c);
    assert i <= |a| by { assert s[|a|] == c && forall j :: 0 <= j < i ==> s[j] in s[..i]; }
    assert i >= |a| by { assert forall j :: 0 <= j < |a| ==> s[j] == a[j]; }
  }

  lemma GetLineOf(line: string, rest: string)
    requires '\n' !in line
    ensures GetLine(line + "\n" + rest) == (line, rest)
  {
    IndexOfCharIs(line, '\n', rest);
    assert line + "\n" + rest == line + ['\n'] + rest;
    var s := line + "\n" + rest;
    assert s[..|line|] == line && s[|line| + 1..] == rest;
  }

  // ------------------------------------------------------------------ numbers

  predicate IsDigit(c: char) { '0' <= c <= '9' }

  /** std::isspace in the "C" locale. */
  predicate IsSpace(c: char) {
    c == ' ' || c == '\t' || c == '\n' || c == '\r' || c as int == 11 || c as int == 12
  }

  function DigitChar(d: nat): (c: char)
    requires d < 10
    ensures IsDigit(c) && DigitValue(c) == d
  {
    '0' + d as char
  }

  function DigitValue(c: char): (d: nat)
    requires IsDigit(c)
    ensures d < 10
  {
    (c - '0') as nat
  }

  predicate AllDigits(s: string) {
    forall i :: 0 <= i < |s| ==> IsDigit(s[i])
  }

  /** How an unsigned number is printed by operator<< and std::to_string. */
  function ToDecimal(n: nat): (s: string)
    ensures s != "" && AllDigits(s)
  {
    if n < 10 then [DigitChar(n)] else ToDecimal(n / 10) + [DigitChar(n % 10)]
  }

  function Value(s: string): nat
    requires AllDigits(s)
  {
    if s == "" then 0 else Value(s[..|s| - 1]) * 10 + DigitValue(s[|s| - 1])
  }

  lemma {:induction false} ValueOfDecimal(n: nat)
    ensures Value(ToDecimal(n)) == n
  {
    if n >= 10 {
      ValueOfDecimal(n / 10);
      assert ToDecimal(n)[..|ToDecimal(n)| - 1] == ToDecimal(n / 10);
    } else {
      assert ToDecimal(n)[..0] == "";
    }
  }

  lemma DecimalInjective(m: nat, n: nat)
    requires ToDecimal(m) == ToDecimal(n)
    ensures m == n
  {
    ValueOfDecimal(m);
    ValueOfDecimal(n);
  }

  lemma DigitIsItself(d: nat)
    requires d < 10
    ensures DigitChar(d) == "0123456789"[d] && DigitValue("0123456789"[d]) == d
  {
  }

  /** No printed number but 0 starts with a 0. */
  lemma {:induction false} NoLeadingZero(n: nat)
    requires n > 0
    ensures ToDecimal(n)[0] != '0'
  {
    if n >= 10 {
      NoLeadingZero(n / 10);
    }
  }

  const ULONG_MAX: nat := 0xFFFF_FFFF_FFFF_FFFF

  /** The longest prefix made of digits. */
  function DigitRun(s: string): (r: string)
    ensures AllDigits(r) && r <= s
  {
    if s == "" || !IsDigit(s[0]) then "" else [s[0]] + DigitRun(s[1..])
  }

  lemma {:induction false} DigitRunOf(digits: string, rest: string)
    requires AllDigits(digits)
    requires rest == "" || !IsDigit(rest[0])
    ensures DigitRun(digits + rest) == digits
  {
    if digits == "" {
      assert digits + rest == rest;
    } else {
      DigitRunOf(digits[1..], rest);
      assert (digits + rest)[1..] == digits[1..] + rest;
    }
  }

  function SkipSpace(s: string): (r: string)
    ensures |r| <= |s|
    ensures r != "" ==> !IsSpace(r[0])
  {
    if s != "" && IsSpace(s[0]) then SkipSpace(s[1..]) else s
  }

  /**
   std::stoul(s) in base 10: None stands for the two exceptions
   (no digits, value out of range); a minus sign negates modulo 2^64.
   */
  function Stoul(s: string): Option<nat> {
    var t := SkipSpace(s);
    var negative := t != "" && t[0] == '-';
    var digits := DigitRun(if t != "" && (t[0] == '-' || t[0] == '+') then t[1..] else t);
    if digits == "" || Value(digits) > ULONG_MAX then None
    else if negative && Value(digits) > 0 then Some(ULONG_MAX + 1 - Value(digits))
    else Some(Value(digits))
  }

  /** A printed size is read back, whatever non-digit follows it. */
  lemma StoulOfDecimal(n: nat, rest: string)
    requires n <= ULONG_MAX
    requires rest == "" || !IsDigit(rest[0])
    ensures Stoul(ToDecimal(n) + rest) == Some(n)
  {
    var s := ToDecimal(n) + rest;
    assert IsDigit(s[0]);
    assert SkipSpace(s) == s;
    DigitRunOf(ToDecimal(n), rest);
    ValueOfDecimal(n);
  }

  lemma IsSpaceIff(c: char)
    ensures IsSpace(c) <==> c as int in {9, 10, 11, 12, 13, 32}
  {
  }

  predicate AllSpace(s: string) {
    forall i :: 0 <= i < |s| ==> IsSpace(s[i])
  }

  lemma {:induction false} SkipSpaces(spaces: string, rest: string)
    requires AllSpace(spaces) && (rest == "" || !IsSpace(rest[0]))
    ensures SkipSpace(spaces + rest) == rest
  {
    if spaces == "" {
      assert spaces + rest == rest;
    } else {
      assert (spaces + rest)[1..] == spaces[1..] + rest;
      SkipSpaces(spaces[1..], rest);
    }
  }

  function Signed(sign: string, n: nat): Option<nat> {
    if n > 0xFFFF_FFFF_FFFF_FFFF then None
    else if sign == "-" && n > 0 then Some(0x1_0000_0000_0000_0000 - n) else Some(n)
  }

  /** White space and a sign in front of a number: a minus takes it from 2^64; past 2^64 - 1 it throws. */
  lemma StoulOfSigned(spaces: string, sign: string, n: nat, rest: string)
    requires AllSpace(spaces) && sign in ["", "+", "-"] && (rest == "" || !IsDigit(rest[0]))
    ensures Stoul(spaces + (sign + (ToDecimal(n) + rest))) == Signed(sign, n)
  {
    var number := ToDecimal(n) + rest;
    SignedStart(sign, number);
    StoulSkips(spaces, sign + number);
    DigitRunOf(ToDecimal(n), rest);
    StoulOfNumber(sign, number, n);
  }

  lemma StoulOfNumber(sign: string, number: string, n: nat)
    requires sign in ["", "+", "-"] && number != "" && IsDigit(number[0]) && DigitRun(number) == ToDecimal(n)
    ensures Stoul(sign + number) == Signed(sign, n)
  {
    SignedStart(sign, number);
    StoulOfRun(sign + number, number, ToDecimal(n));
    ValueOfDecimal(n);
  }

  lemma StoulOfRun(t: string, number: string, digits: string)
    requires t != "" && !IsSpace(t[0]) && number == (if t[0] == '-' || t[0] == '+' then t[1..] else t)
    requires digits == DigitRun(number) && digits != ""
    ensures AllDigits(digits)
    ensures Stoul(t) == if Value(digits) > ULONG_MAX then None
                        else if t[0] == '-' && Value(digits) > 0 then Some(ULONG_MAX + 1 - Value(digits)) else Some(Value(digits))
  {
  }

  lemma StoulSkips(spaces: string, t: string)
    requires AllSpace(spaces) && (t == "" || !IsSpace(t[0]))
    ensures Stoul(spaces + t) == Stoul(t)
  {
    SkipSpaces(spaces, t);
  }

  lemma SignedStart(sign: string, number: string)
    requires sign in ["", "+", "-"] && number != "" && IsDigit(number[0])
    ensures var t := sign + number;
            && t != "" && !IsSpace(t[0]) && (t[0] == '-' <==> sign == "-") && (t[0] == '+' <==> sign == "+")
            && (if t[0] == '-' || t[0] == '+' then t[1..] else t) == number
  {
  }

  lemma StoulOfNoNumber(spaces: string, sign: string, rest: string)
    requires AllSpace(spaces) && sign in ["", "+", "-"] && (rest == "" || !IsDigit(rest[0]))
    requires sign == "" ==> rest == "" || (!IsSpace(rest[0]) && rest[0] != '-' && rest[0] != '+')
    ensures Stoul(spaces + (sign + rest)) == None
  {
    var t := sign + rest;
    StoulSkips(spaces, t);
    assert sign != "" ==> t[1..] == rest;
    assert sign == "" ==> t == rest;
  }
}
