/** `to_string` and `int.parse` (C `atoi`), which carry every integer of a property list. */
module Decimals {
  import opened Outcomes

  function DigitChar(d: nat): char
    requires d < 10
  {
    '0' + d as char
  }

  predicate IsDigit(c: char) {
    '0' <= c <= '9'
  }

  function DigitValue(c: char): nat
    requires IsDigit(c)
  {
    (c - '0') as nat
  }

  function PrintNat(n: nat): (s: string)
    ensures |s| > 0 && forall c <- s :: IsDigit(c)
    ensures if n == 0 then s == "0" else s[0] != '0'
  {
    if n < 10 then [DigitChar(n)] else PrintNat(n / 10) + [DigitChar(n % 10)]
  }

  function PrintInt(i: int): string {
    if i < 0 then "-" + PrintNat(-i) else PrintNat(i)
  }

  /** Value of the longest run of digits that `s` starts with, after `acc`. */
  function LeadingDigits(s: string, acc: nat): nat {
    if s == "" || !IsDigit(s[0]) then acc
    else LeadingDigits(s[1..], 10 * acc + DigitValue(s[0]))
  }

  predicate IsSpace(c: char) {
    c == ' ' || 9 as char <= c <= 13 as char
  }

  function SkipSpaces(s: string): string {
    if s != "" && IsSpace(s[0]) then SkipSpaces(s[1..]) else s
  }

  function Clamp64(x: int): int {
    if x < -0x8000_0000_0000_0000 then -0x8000_0000_0000_0000
    else if x > 0x7fff_ffff_ffff_ffff then 0x7fff_ffff_ffff_ffff
    else x
  }

  /** `atoi`: `(int) strtol (s, NULL, 10)` with a 64-bit `long`. */
  function ParseInt(s: string): int32 {
    var t := SkipSpaces(s);
    var magnitude := if t != "" && (t[0] == '-' || t[0] == '+') then LeadingDigits(t[1..], 0) else LeadingDigits(t, 0);
    ToInt32(Clamp64(if t != "" && t[0] == '-' then -magnitude else magnitude))
  }

  lemma {:induction false} LeadingDigitsAppend(s: string, d: nat, acc: nat)
    requires forall c <- s :: IsDigit(c)
    requires d < 10
    ensures LeadingDigits(s + [DigitChar(d)], acc) == 10 * LeadingDigits(s, acc) + d
  {
    var t := s + [DigitChar(d)];
    if s == "" {
      assert t[1..] == "";
    } else {
      assert s[0] in s;
      assert t[1..] == s[1..] + [DigitChar(d)];
      LeadingDigitsAppend(s[1..], d, 10 * acc + DigitValue(s[0]));
    }
  }

  lemma {:induction false} LeadingDigitsPrint(n: nat)
    ensures LeadingDigits(PrintNat(n), 0) == n
  {
    if n >= 10 {
      LeadingDigitsPrint(n / 10);
      LeadingDigitsAppend(PrintNat(n / 10), n % 10, 0);
    } else {
      LeadingDigitsAppend("", n, 0);
      assert "" + [DigitChar(n)] == PrintNat(n);
    }
  }

  lemma ParseAsSigned(i: int)
    requires -0x8000_0000 <= i < 0x1_0000_0000
    ensures ParseInt(PrintInt(i)) == ToInt32(i)
  {
    hide PrintNat, LeadingDigits, ToInt32;
    var magnitude := if i < 0 then -i else i;
    var digits := PrintNat(magnitude);
    LeadingDigitsPrint(magnitude);
    assert digits[0] in digits && IsDigit(digits[0]);
    if i < 0 {
      assert PrintInt(i)[1..] == digits;
    }
  }

  /** Reading back a printed integer keeps its low 32 bits, so exactly the integers an `int` can hold survive. */
  lemma ParsePrint(i: int)
    requires -0x8000_0000 <= i < 0x1_0000_0000
    ensures ParseInt(PrintInt(i)) == ToInt32(i)
    ensures ParseInt(PrintInt(i)) == i <==> i < 0x8000_0000
  {
    hide ParseInt, PrintInt;
    ParseAsSigned(i);
  }

  lemma {:induction false} SkipLeading(spaces: string, s: string)
    requires forall c <- spaces :: IsSpace(c)
    requires s == "" || !IsSpace(s[0])
    ensures SkipSpaces(spaces + s) == s
  {
    if spaces == "" {
      assert spaces + s == s;
    } else {
      assert spaces[0] in spaces && (spaces + s)[1..] == spaces[1..] + s;
      SkipLeading(spaces[1..], s);
    }
  }

  lemma {:induction false} LeadingDigitsStop(digits: string, rest: string, acc: nat)
    requires forall c <- digits :: IsDigit(c)
    requires rest == "" || !IsDigit(rest[0])
    ensures LeadingDigits(digits + rest, acc) == LeadingDigits(digits, acc)
  {
    if digits == "" {
      assert digits + rest == rest;
    } else {
      assert digits[0] in digits && (digits + rest)[1..] == digits[1..] + rest;
      LeadingDigitsStop(digits[1..], rest, 10 * acc + DigitValue(digits[0]));
    }
  }

  /** White space, a sign, the digits of a number and anything after them: the number, of which the low 32 bits
      are kept if it has up to 63 bits. Larger ones become the largest there is, whose low bits are all the same. */
  lemma ParseForeign(spaces: string, sign: string, n: nat, rest: string)
    requires forall c <- spaces :: c == ' ' || 9 <= c as int <= 13
    requires sign in {"", "+", "-"} && (rest == "" || !IsDigit(rest[0]))
    ensures var value: int := if sign == "-" then 0 - n else n;
            ParseInt(spaces + (sign + (PrintNat(n) + rest)))
            == if value < -0x8000_0000_0000_0000 then 0
               else if value >= 0x8000_0000_0000_0000 then -1
               else ToInt32(value)
  {
    var digits := PrintNat(n);
    assert digits[0] in digits && IsDigit(digits[0]);
    LeadingDigitsPrint(n);
    LeadingDigitsStop(digits, rest, 0);
    hide PrintNat, LeadingDigits;
    SignedDigits(sign, digits + rest);
    SkipLeading(spaces, sign + (digits + rest));
    hide SkipSpaces, ToInt32;
    assert ToInt32(-0x8000_0000_0000_0000) == 0 && ToInt32(0x7fff_ffff_ffff_ffff) == -1 by { Extremes(); }
  }

  lemma Extremes()
    ensures ToInt32(-0x8000_0000_0000_0000) == 0 && ToInt32(0x7fff_ffff_ffff_ffff) == -1
  {
  }

  lemma SignedDigits(sign: string, t: string)
    requires sign in {"", "+", "-"} && t != "" && IsDigit(t[0])
    ensures var s := sign + t;
            && s != "" && !IsSpace(s[0]) && (s[0] == '-' <==> sign == "-")
            && (if s[0] == '-' || s[0] == '+' then s[1..] else s) == t
  {
    var s := sign + t;
    assert s[0] == if sign == "" then t[0] else sign[0];
    assert sign != "" ==> s[1..] == t;
    assert sign == "" ==> s == t;
  }

  lemma ParseNothing(spaces: string, rest: string)
    requires forall c <- spaces :: c == ' ' || 9 <= c as int <= 13
    requires rest == "" || !(IsDigit(rest[0]) || IsSpace(rest[0]) || rest[0] in "+-")
    ensures ParseInt(spaces + rest) == 0
  {
    SkipLeading(spaces, rest);
  }
}
