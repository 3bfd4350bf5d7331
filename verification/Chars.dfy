/** ASCII characters and the few string operations the tokeniser is made of (scripts/tokeniser.py). */
module Chars {

  predicate IsLetter(c: char) {
    'a' <= c <= 'z' || 'A' <= c <= 'Z'
  }

  predicate IsDigit(c: char) {
    '0' <= c <= '9'
  }

  predicate IsAlnum(c: char) {
    IsLetter(c) || IsDigit(c)
  }

  /** What strip removes. */
  predicate IsSpace(c: char) {
    c == ' ' || '\t' <= c <= '\r' || (0x1c as char) <= c <= (0x1f as char)
  }

  function LowerChar(c: char): char {
    if 'A' <= c <= 'Z' then c + ((32) as char) else c
  }

  function UpperChar(c: char): char {
    if 'a' <= c <= 'z' then c - ((32) as char) else c
  }

  function Lower(s: string): (t: string)
    ensures |t| == |s|
  {
    seq(|s|, i requires 0 <= i < |s| => LowerChar(s[i]))
  }

  function Upper(s: string): (t: string)
    ensures |t| == |s|
  {
    seq(|s|, i requires 0 <= i < |s| => UpperChar(s[i]))
  }

  /** Lower-case text survives being written in capitals. */
  lemma LowerOfUpper(s: string)
    requires Lower(s) == s
    ensures Lower(Upper(s)) == s
  {
    forall i | 0 <= i < |s|
      ensures Lower(Upper(s))[i] == s[i]
    {
      assert Lower(s)[i] == s[i];
    }
  }

  function StripLeft(s: string): (t: string)
    ensures |t| <= |s|
  {
    if s != "" && IsSpace(s[0]) then StripLeft(s[1..]) else s
  }

  function StripRight(s: string): (t: string)
    ensures |t| <= |s|
  {
    if s != "" && IsSpace(s[|s| - 1]) then StripRight(s[..|s| - 1]) else s
  }

  function Strip(s: string): (t: string)
    ensures |t| <= |s|
  {
    StripRight(StripLeft(s))
  }

  predicate AllSpace(s: string) {
    forall i :: 0 <= i < |s| ==> IsSpace(s[i])
  }

  /** No space at either end. */
  predicate Bare(s: string) {
    s != "" && !IsSpace(s[0]) && !IsSpace(s[|s| - 1])
  }

  lemma {:induction false} StripLeftPad(pad: string, s: string)
    requires AllSpace(pad) && (s != "" ==> !IsSpace(s[0]))
    ensures StripLeft(pad + s) == s
    decreases |pad|
  {
    if pad == "" {
      assert pad + s == s;
    } else {
      assert (pad + s)[1..] == pad[1..] + s;
      StripLeftPad(pad[1..], s);
    }
  }

  lemma {:induction false} StripRightPad(s: string, pad: string)
    requires AllSpace(pad) && (s != "" ==> !IsSpace(s[|s| - 1]))
    ensures StripRight(s + pad) == s
    decreases |pad|
  {
    if pad == "" {
      assert s + pad == s;
    } else {
      assert (s + pad)[..|s + pad| - 1] == s + pad[..|pad| - 1];
      StripRightPad(s, pad[..|pad| - 1]);
    }
  }

  lemma StripPad(left: string, s: string, right: string)
    requires AllSpace(left) && AllSpace(right) && Bare(s)
    ensures Strip(left + s + right) == s
  {
    assert left + s + right == left + (s + right);
    StripLeftPad(left, s + right);
    StripRightPad(s, right);
  }

  lemma StripSpaces(pad: string)
    requires AllSpace(pad)
    ensures Strip(pad) == ""
  {
    StripLeftPad(pad, "");
    assert pad + "" == pad;
  }

  /** How many characters at the front are letters or digits. */
  function AlnumRun(s: string): (n: nat)
    ensures n <= |s| && (forall i :: 0 <= i < n ==> IsAlnum(s[i])) && (n < |s| ==> !IsAlnum(s[n]))
  {
    if s == "" || !IsAlnum(s[0]) then 0 else 1 + AlnumRun(s[1..])
  }

  function DigitRun(s: string): (n: nat)
    ensures n <= |s| && (forall i :: 0 <= i < n ==> IsDigit(s[i])) && (n < |s| ==> !IsDigit(s[n]))
  {
    if s == "" || !IsDigit(s[0]) then 0 else 1 + DigitRun(s[1..])
  }

  /** The first quote at or after a place, or the length. */
  function QuoteAt(s: string, from: nat): (n: nat)
    requires from <= |s|
    ensures from <= n <= |s| && (forall i :: from <= i < n ==> s[i] != '"') && (n < |s| ==> s[n] == '"')
    decreases |s| - from
  {
    if from == |s| || s[from] == '"' then from else QuoteAt(s, from + 1)
  }

  // ----- numbers

  function DigitChar(d: nat): char
    requires d < 10
  {
    '0' + (d as char)
  }

  function DigitValue(c: char): nat
    requires IsDigit(c)
  {
    (c - '0') as nat
  }

  /** The decimal digits of a number, without leading zeros. */
  function Digits(n: nat): (s: string)
    ensures s != "" && forall i :: 0 <= i < |s| ==> IsDigit(s[i])
  {
    if n < 10 then [DigitChar(n)] else Digits(n / 10) + [DigitChar(n % 10)]
  }

  /** The number a run of digits stands for. */
  function Value(s: string): nat
    requires forall i :: 0 <= i < |s| ==> IsDigit(s[i])
  {
    if s == "" then 0 else 10 * Value(s[..|s| - 1]) + DigitValue(s[|s| - 1])
  }

  lemma {:induction false} DigitsValue(n: nat)
    ensures Value(Digits(n)) == n
  {
    if n >= 10 {
      DigitsValue(n / 10);
      var s := Digits(n);
      assert s[..|s| - 1] == Digits(n / 10);
    } else {
      assert Digits(n)[..0] == "";
    }
  }
}
