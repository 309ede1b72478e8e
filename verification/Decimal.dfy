// Decimal numerals, as `%d`, FormatUint and `{:02}` print them.
module Decimal {

  function Digit(d: nat): char
    requires d < 10
  {
    '0' + d as char
  }

  predicate IsDigit(c: char) { '0' <= c <= '9' }

  predicate Digits(s: string) { forall i :: 0 <= i < |s| ==> IsDigit(s[i]) }

  function Format(n: nat): (s: string)
    ensures |s| > 0 && Digits(s)
    ensures s[0] == '0' <==> n == 0
  {
    if n < 10 then [Digit(n)] else Format(n / 10) + [Digit(n % 10)]
  }

  // The number a string of digits denotes.
  function Parse(s: string): nat
    requires Digits(s)
  {
    if s == [] then 0
    else
      assert IsDigit(s[|s| - 1]);
      10 * Parse(s[..|s| - 1]) + (s[|s| - 1] as int - '0' as int)
  }

  lemma {:induction false} ParseFormat(n: nat)
    ensures Parse(Format(n)) == n
  {
    if n < 10 {
      assert Format(n)[..0] == [];
    } else {
      ParseFormat(n / 10);
      assert Format(n)[..|Format(n)| - 1] == Format(n / 10);
    }
  }

  // The most significant digit comes first.
  lemma FormatsInOrder()
    ensures Format(1207) == "1207" && Padded(7) == "07" && Padded(120) == "120"
  {
    assert Format(1) == "1" && Format(12) == "12" && Format(120) == "120";
  }

  lemma FormatInjective(m: nat, n: nat)
    ensures Format(m) == Format(n) ==> m == n
  {
    ParseFormat(m);
    ParseFormat(n);
  }

  // `{:02}`: at least two digits.
  function Padded(n: nat): string { if n < 10 then "0" + Format(n) else Format(n) }

  lemma PaddedInjective(m: nat, n: nat)
    ensures Padded(m) == Padded(n) ==> m == n
  {
    ParsePadded(m);
    ParsePadded(n);
  }

  lemma ParsePadded(n: nat)
    ensures Digits(Padded(n)) && Parse(Padded(n)) == n
  {
    ParseFormat(n);
    if n < 10 {
      assert Padded(n) == ['0', Digit(n)];
      assert Padded(n)[..1] == ['0'] && ['0'][..0] == [];
    }
  }
}
