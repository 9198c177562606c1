/** Decimal numbers as strings, written and read. */
module Decimals {
  predicate IsDigit(c: char) { '0' <= c <= '9' }

  predicate AllDigits(s: string) { forall i :: 0 <= i < |s| ==> IsDigit(s[i]) }

  function DigitValue(c: char): int { c as int - '0' as int }

  function DigitChar(d: int): char
    requires 0 <= d < 10
  {
    ('0' as int + d) as char
  }

  /** The number a string of digits stands for. */
  function Number(s: string): int { if s == "" then 0 else 10 * Number(s[..|s| - 1]) + DigitValue(s[|s| - 1]) }

  /** The decimal form of a number. */
  function Decimal(n: nat): (s: string)
    ensures s != ""
  {
    if n < 10 then [DigitChar(n)] else Decimal(n / 10) + [DigitChar(n % 10)]
  }

  function FormatInt(n: int): string { if n < 0 then "-" + Decimal(-n) else Decimal(n) }

  method ParseInt(raw: string) returns (n: int)
    ensures n == Number(raw)
  {
    n := 0;
    for i := 0 to |raw|
      invariant n == Number(raw[..i])
    {
      assert raw[..i + 1][..i] == raw[..i];
      n := 10 * n + DigitValue(raw[i]);
    }
    assert raw[..|raw|] == raw;
  }

  lemma {:induction false} NumberOfDecimal(n: nat)
    ensures Number(Decimal(n)) == n && AllDigits(Decimal(n)) && (n >= 1 ==> '1' <= Decimal(n)[0])
  {
    if n >= 10 {
      NumberOfDecimal(n / 10);
      var front := Decimal(n / 10);
      assert (front + [DigitChar(n % 10)])[..|front|] == front;
    }
  }

  lemma {:induction false} DecimalOfNumber(s: string)
    requires s != "" && AllDigits(s) && '1' <= s[0]
    ensures Number(s) >= 1 && Decimal(Number(s)) == s
  {
    var last := s[|s| - 1];
    if |s| == 1 {
      assert s[..0] == "" && s == [last];
    } else {
      var front := s[..|s| - 1];
      DecimalOfNumber(front);
      assert Number(s) / 10 == Number(front) && Number(s) % 10 == DigitValue(last);
      assert s == front + [last];
    }
  }

  function Pow10(k: nat): nat { if k == 0 then 1 else 10 * Pow10(k - 1) }

  lemma {:induction false} DecimalIsShort(n: nat, k: nat)
    requires n < Pow10(k) && k >= 1
    ensures |Decimal(n)| <= k
    decreases k
  {
    if n >= 10 { DecimalIsShort(n / 10, k - 1); }
  }
}
