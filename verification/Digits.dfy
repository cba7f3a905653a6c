/** Printing numbers in a base up to sixteen and reading them back. */
module Digits {
  import opened Verdicts

  const DIGITS := "0123456789abcdef"

  predicate IsBase(base: nat) {
    base == 10 || base == 16
  }

  /** fmt's %d (base 10) and %x (base 16) for numbers that are not negative. */
  function Print(n: nat, base: nat): (s: string)
    requires IsBase(base)
    ensures s != "" && forall c :: c in s ==> c in DIGITS
  {
    if n < base then [DIGITS[n]] else Print(n / base, base) + [DIGITS[n % base]]
  }

  /** fmt's %d. */
  function PrintInt(n: int): string {
    if n < 0 then "-" + Print(-n, 10) else Print(n, 10)
  }

  function Negative(n: int): int {
    -n
  }

  /** A number with or without a minus sign. */
  function ParseInt(s: string): Option<int> {
    if s == "" then None
    else if s[0] == '-' then
      var n := Parse(s[1..], 10);
      if n.None? then None else Some(Negative(n.value))
    else Parse(s, 10)
  }

  lemma NoMinus(c: char)
    requires c in DIGITS
    ensures c != '-'
  {
  }

  lemma ParseUnsigned(s: string, n: nat)
    requires s != "" && s[0] in DIGITS && Parse(s, 10) == Some(n)
    ensures ParseInt(s) == Some(n)
  {
    NoMinus(s[0]);
  }

  lemma ParseSigned(s: string, n: nat)
    requires Parse(s, 10) == Some(n)
    ensures ParseInt("-" + s) == Some(Negative(n))
  {
    assert ("-" + s)[0] == '-' && ("-" + s)[1..] == s;
  }

  lemma ParsePrintInt(n: int)
    ensures ParseInt(PrintInt(n)) == Some(n)
  {
    if n < 0 {
      ParsePrint(-n, 10);
      ParseSigned(Print(-n, 10), -n);
    } else {
      ParsePrint(n, 10);
      assert Print(n, 10)[0] in Print(n, 10);
      ParseUnsigned(Print(n, 10), n);
    }
  }

  function DigitValue(c: char): Option<nat> {
    if '0' <= c <= '9' then Some((c - '0') as nat)
    else if 'a' <= c <= 'f' then Some((c - 'a') as nat + 10)
    else if 'A' <= c <= 'F' then Some((c - 'A') as nat + 10)
    else None
  }

  /** A non-empty string of digits as a number. */
  function Parse(s: string, base: nat): Option<nat>
    requires IsBase(base)
  {
    if s == "" then None
    else
      var last := DigitValue(s[|s| - 1]);
      if last.None? || last.value >= base then None
      else if |s| == 1 then last
      else
        var front := Parse(s[..|s| - 1], base);
        if front.None? then None else Some(front.value * base + last.value)
  }

  lemma DigitRoundTrip(d: nat)
    requires d < 16
    ensures DigitValue(DIGITS[d]) == Some(d)
  {
  }

  lemma DivMod(n: nat, base: nat)
    requires IsBase(base)
    ensures n / base * base + n % base == n
  {
  }

  /** One more digit, written after a number that reads back. */
  lemma ParseMore(front: string, d: nat, n: nat, base: nat)
    requires IsBase(base) && d < base && front != "" && Parse(front, base) == Some(n)
    ensures Parse(front + [DIGITS[d]], base) == Some(n * base + d)
  {
    DigitRoundTrip(d);
    var s := front + [DIGITS[d]];
    assert s[..|s| - 1] == front && s[|s| - 1] == DIGITS[d];
  }

  lemma {:induction false} ParsePrint(n: nat, base: nat)
    requires IsBase(base)
    ensures Parse(Print(n, base), base) == Some(n)
    decreases n
  {
    if n < base {
      DigitRoundTrip(n);
      assert Print(n, base) == [DIGITS[n]];
    } else {
      ParsePrint(n / base, base);
      ParseMore(Print(n / base, base), n % base, n / base, base);
      DivMod(n, base);
    }
  }
}
