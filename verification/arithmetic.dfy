/** Facts about division that the solver needs to be told. */
module Arithmetic {
  lemma QuotientAtLeast(a: nat, b: nat, q: nat)
    requires b > 0
    ensures a / b >= q <==> a >= q * b
  {
    assert a == b * (a / b) + a % b;
    if a / b >= q {
      assert b * (a / b) >= b * q;
    } else {
      assert b * (a / b + 1) <= b * q;
    }
  }
}
