/** Decimal notation of natural numbers, most significant digit first, and its inversion */
module Decimal {

  type digit = d: nat | d < 10

  function Digits(n: nat): (ds: seq<digit>)
    ensures |ds| > 0
  {
    if n < 10 then [n] else Digits(n / 10) + [n % 10]
  }

  function Value(ds: seq<digit>): nat {
    if ds == [] then 0 else Value(ds[..|ds| - 1]) * 10 + ds[|ds| - 1]
  }

  /** Reading back the digits of a number gives the number. */
  lemma {:induction false} ValueOfDigits(n: nat)
    ensures Value(Digits(n)) == n
  {
    if n < 10 {
      assert [n][..0] == [];
    } else {
      ValueOfDigits(n / 10);
      assert Digits(n)[..|Digits(n)| - 1] == Digits(n / 10);
    }
  }

  /** Leading digits alone never make a larger number. */
  lemma {:induction false} ValueOfPrefix(ds: seq<digit>, i: nat)
    requires i <= |ds|
    ensures Value(ds[..i]) <= Value(ds)
    decreases |ds| - i
  {
    if i == |ds| {
      assert ds[..i] == ds;
    } else {
      ValueOfPrefix(ds, i + 1);
      assert ds[..i + 1][..i] == ds[..i];
    }
  }
}
