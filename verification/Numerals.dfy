/** Numbers written in a positional base, as `%d` and `%x` write them. */
module Numerals {

  /** The value of a digit of base 16, in either case; 16 for any other character. */
  function DigitValue(c: char): (v: nat)
    ensures v <= 16
  {
    if '0' <= c <= '9' then (c as int - '0' as int)
    else if 'a' <= c <= 'f' then 10 + (c as int - 'a' as int)
    else if 'A' <= c <= 'F' then 10 + (c as int - 'A' as int)
    else 16
  }

  function DigitChar(d: nat): (c: char)
    requires d < 16
    ensures DigitValue(c) == d
  {
    if d < 10 then '0' + d as char else 'a' + (d - 10) as char
  }

  lemma Divide(n: nat, base: nat)
    requires 2 <= base <= n
    ensures 0 <= n % base < base && n / base < n && (n / base) * base + n % base == n
  {
    var q, r := n / base, n % base;
    Quotient(n, base);
    Double(q, base, r);
  }

  lemma Quotient(n: nat, base: nat)
    requires base > 0
    ensures 0 <= n % base < base && (n / base) * base + n % base == n && n / base >= 0
  {
  }

  lemma Double(q: nat, base: nat, r: nat)
    requires base >= 2
    ensures q * base >= q * 2
    ensures q * base + r >= base > r ==> q < q * base + r
  {
    assert q * (base - 2) >= 0 && q * base == q * (base - 2) + q * 2;
    if q == 0 {
      assert q * base == 0;
    }
  }

  function Show(n: nat, base: nat): (s: string)
    requires 2 <= base <= 16
    ensures s != [] && AreDigits(s, base)
  {
    if n < base then [DigitChar(n)] else Divide(n, base); Show(n / base, base) + [DigitChar(n % base)]
  }

  predicate AreDigits(s: string, base: nat) {
    forall i :: 0 <= i < |s| ==> DigitValue(s[i]) < base
  }

  function Read(s: string, base: nat): nat {
    if s == [] then 0 else Read(s[..|s| - 1], base) * base + DigitValue(s[|s| - 1])
  }

  lemma {:induction false} ReadShow(n: nat, base: nat)
    requires 2 <= base <= 16
    ensures Read(Show(n, base), base) == n
  {
    if n >= base {
      Divide(n, base);
      ReadShow(n / base, base);
      ReadMore(Show(n / base, base), n % base, base);
    } else {
      ReadMore([], n, base);
      assert [] + [DigitChar(n)] == [DigitChar(n)];
    }
  }

  lemma ReadMore(s: string, d: nat, base: nat)
    requires d < base <= 16
    ensures Read(s + [DigitChar(d)], base) == Read(s, base) * base + d
  {
    var t := s + [DigitChar(d)];
    assert t[..|t| - 1] == s;
  }

  lemma ShowInjective(m: nat, n: nat, base: nat)
    requires 2 <= base <= 16 && Show(m, base) == Show(n, base)
    ensures m == n
  {
    ReadShow(m, base);
    ReadShow(n, base);
  }
}
