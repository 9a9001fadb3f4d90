/** Decimal text of integers and its reading, as JSON number tokens use it. */
module Decimal {
  import opened Basics

  predicate IsDigit(c: char) { '0' <= c <= '9' }

  function DigitValue(c: char): (d: nat)
    requires IsDigit(c)
    ensures d < 10
  { c as int - '0' as int }

  function Digit(d: nat): (c: char)
    requires d < 10
    ensures IsDigit(c) && DigitValue(c) == d
  { ('0' as int + d) as char }

  function Digits(n: nat): string {
    if n < 10 then [Digit(n)] else Digits(n / 10) + [Digit(n % 10)]
  }

  function Text(n: int): string {
    if n < 0 then "-" + Digits(-n) else Digits(n)
  }

  function Value(s: string): nat
    requires forall c :: c in s ==> IsDigit(c)
  {
    if s == "" then 0
    else Value(s[..|s| - 1]) * 10 + DigitValue(s[|s| - 1])
  }

  predicate IsNumeral(s: string) {
    s != "" && (forall c :: c in s ==> IsDigit(c)) && (s[0] == '0' ==> |s| == 1)
  }

  /** Reads an integer token: an optional minus sign and digits without a leading zero. */
  function Read(tok: string): Option<int> {
    if IsNumeral(tok) then
      var n: int := Value(tok);
      Some(n)
    else if tok != "" && tok[0] == '-' && IsNumeral(tok[1..]) then
      var n: int := Value(tok[1..]);
      Some(-n)
    else None
  }

  lemma {:induction false} DigitsRead(n: nat)
    ensures IsNumeral(Digits(n)) && Value(Digits(n)) == n
    ensures n > 0 ==> Digits(n)[0] != '0'
  {
    if n >= 10 {
      DigitsRead(n / 10);
      var s := Digits(n);
      assert s[..|s| - 1] == Digits(n / 10);
    } else {
      assert Value([Digit(n)][..0]) == 0;
    }
  }

  lemma {:induction false} ReadText(n: int)
    ensures Read(Text(n)) == Some(n)
  {
    if n < 0 {
      DigitsRead(-n);
      assert Text(n)[1..] == Digits(-n);
      assert !IsDigit(Text(n)[0]);
      assert Text(n)[0] in Text(n);
    } else {
      DigitsRead(n);
    }
  }

  // ---------------------------------------------------------------- JSON numbers

  /** How many digits s begins with. */
  function DigitRun(s: string): (n: nat)
    ensures n <= |s|
  { if s == "" || !IsDigit(s[0]) then 0 else 1 + DigitRun(s[1..]) }

  predicate IsExponent(s: string) {
    s != "" ==>
      && (s[0] == 'e' || s[0] == 'E')
      && var t := if |s| > 1 && (s[1] == '+' || s[1] == '-') then s[2..] else s[1..];
         t != "" && DigitRun(t) == |t|
  }

  predicate IsFraction(s: string) {
    if s != "" && s[0] == '.' then DigitRun(s[1..]) > 0 && IsExponent(s[1..][DigitRun(s[1..])..]) else IsExponent(s)
  }

  /** The numbers of section 6 of RFC 8259. */
  predicate IsNumber(tok: string) {
    var t := if tok != "" && tok[0] == '-' then tok[1..] else tok;
    DigitRun(t) > 0 && (t[0] == '0' ==> DigitRun(t) == 1) && IsFraction(t[DigitRun(t)..])
  }

  lemma {:induction false} RunOfDigits(ds: string, rest: string)
    requires (forall c :: c in ds ==> IsDigit(c)) && (rest == "" || !IsDigit(rest[0]))
    ensures DigitRun(ds + rest) == |ds|
  {
    if ds == "" {
      assert ds + rest == rest;
    } else {
      assert (ds + rest)[0] == ds[0] && (ds + rest)[1..] == ds[1..] + rest;
      RunOfDigits(ds[1..], rest);
    }
  }
}
