/** Decimal numbers as text: printing, reading, and that each undoes the other. */
module Decimals {
  import opened Octets

  function DigitOf(n: nat): char
    requires n < 10
  {
    '0' + n as char
  }

  function ValueOf(c: char): nat
    requires Digit(c)
  {
    (c - '0') as nat
  }

  function Show(n: nat): (s: string)
    ensures s != []
  {
    if n < 10 then [DigitOf(n)] else Show(n / 10) + [DigitOf(n % 10)]
  }

  predicate Digits(s: string) {
    forall i :: 0 <= i < |s| ==> Digit(s[i])
  }

  function Value(s: string): nat
    requires Digits(s)
  {
    if s == [] then 0 else Value(s[..|s| - 1]) * 10 + ValueOf(s[|s| - 1])
  }

  lemma {:induction false} ValueOfShow(n: nat)
    ensures Digits(Show(n)) && Value(Show(n)) == n
  {
    if n < 10 {
      assert Show(n)[..0] == [];
    } else {
      ValueOfShow(n / 10);
      var s := Show(n);
      assert s[..|s| - 1] == Show(n / 10) && s[|s| - 1] == DigitOf(n % 10);
    }
  }

  function Pow10(k: nat): nat {
    if k == 0 then 1 else 10 * Pow10(k - 1)
  }

  lemma {:induction false} ShowFits(n: nat, k: nat)
    requires n < Pow10(k) && k > 0
    ensures |Show(n)| <= k
  {
    if n >= 10 {
      assert k > 1;
      ShowFits(n / 10, k - 1);
    }
  }

  /** Twenty digits are enough for every 64-bit number. */
  lemma ShowFits64(n: nat)
    requires n < 0x1_0000_0000_0000_0000
    ensures |Show(n)| <= 20
  {
    assert Pow10(5) == 100_000;
    assert Pow10(10) == 10_000_000_000;
    assert Pow10(15) == 1_000_000_000_000_000;
    assert Pow10(20) == 100_000_000_000_000_000_000;
    ShowFits(n, 20);
  }
}
