/** Division of whole numbers: what quotient and remainder are, from any way to write the number. */
module Arithmetic {
  lemma Remainder(n: int, d: nat, q: int, r: nat)
    requires d > 0 && n == q * d + r && r < d
    ensures n % d == r && n / d == q
  {
    var k := n / d - q;
    assert n == (n / d) * d + n % d;
    assert k * d == r - n % d by {
      assert (n / d) * d - q * d == k * d;
    }
    Multiple(k, d);
  }

  lemma Multiple(k: int, d: nat)
    ensures k >= 1 ==> k * d >= d
    ensures k <= -1 ==> k * d + d <= 0
  {
  }
}
