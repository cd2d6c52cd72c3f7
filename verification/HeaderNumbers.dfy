/**
 * The retry count travels as text in the `x-retry-count` header: written with
 * String(n), read back with parseInt(text, 10) (packages/events/src/handler.ts).
 * Numbers are exact integers here.
 */
module HeaderNumbers {
  import opened Wrappers
  import opened Text

  /** The value of the digits that a string starts with, after digits worth `acc`. */
  function LeadingDigits(s: string, acc: nat): nat {
    if s == "" || !IsDigit(s[0]) then acc else LeadingDigits(s[1..], 10 * acc + (s[0] - '0') as nat)
  }

  /** parseInt(s, 10); None is NaN. */
  function ParseInt(s: string): Option<int> {
    var t := TrimStart(s);
    var negative := t != "" && t[0] == '-';
    var digits := if t != "" && (t[0] == '-' || t[0] == '+') then t[1..] else t;
    if digits == "" || !IsDigit(digits[0]) then None
    else
      var n: int := LeadingDigits(digits, 0);
      Some(if negative then -n else n)
  }

  function Digit(d: nat): char
    requires d < 10
  {
    '0' + d as char
  }

  function PrintNat(n: nat): (s: string)
    ensures s != "" && forall c :: c in s ==> IsDigit(c)
  {
    if n < 10 then [Digit(n)] else PrintNat(n / 10) + [Digit(n % 10)]
  }

  /** String(n). */
  function Print(n: int): string {
    if n < 0 then "-" + PrintNat(-n) else PrintNat(n)
  }

  lemma {:induction false} LeadingDigitsAppend(s: string, c: char, acc: nat)
    requires IsDigit(c) && forall x :: x in s ==> IsDigit(x)
    ensures LeadingDigits(s + [c], acc) == 10 * LeadingDigits(s, acc) + (c - '0') as nat
  {
    if s == "" {
      assert s + [c] == [c] && [c][1..] == "";
    } else {
      assert (s + [c])[1..] == s[1..] + [c];
      assert s[0] in s;
      LeadingDigitsAppend(s[1..], c, 10 * acc + (s[0] - '0') as nat);
    }
  }

  lemma {:induction false} PrintNatReads(n: nat)
    ensures LeadingDigits(PrintNat(n), 0) == n
  {
    if n < 10 {
      assert [Digit(n)][1..] == "";
    } else {
      PrintNatReads(n / 10);
      LeadingDigitsAppend(PrintNat(n / 10), Digit(n % 10), 0);
    }
  }

  /** Every printed number parses back to itself. */
  lemma PrintParses(n: int)
    ensures ParseInt(Print(n)) == Some(n)
  {
    var digits := PrintNat(if n < 0 then -n else n);
    PrintNatReads(if n < 0 then -n else n);
    assert digits[0] in digits;
    assert ("-" + digits)[1..] == digits;
  }
}
