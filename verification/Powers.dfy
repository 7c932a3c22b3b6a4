/** Powers of ten, and products that grow with a factor. */
module Powers {

  function Pow10(n: nat): nat {
    if n == 0 then 1 else 10 * Pow10(n - 1)
  }

  lemma {:induction false} Pow10Positive(n: nat)
    ensures Pow10(n) > 0
  {
    if n > 0 {
      Pow10Positive(n - 1);
    }
  }

  lemma AtMost(d: nat, e: nat, p: nat)
    requires d <= e
    ensures 0 <= d * p <= e * p
  {
    assert e * p == d * p + (e - d) * p;
    assert (e - d) * p >= 0;
  }
}
