/** Quotients of natural numbers. */
module Arithmetic {
  lemma {:induction false} PositiveMultiple(every: nat, d: nat)
    requires d > 0
    ensures every * d >= every
  {
    if d > 1 {
      PositiveMultiple(every, d - 1);
      assert every * d == every * (d - 1) + every;
    }
  }

  lemma NonzeroMultiple(every: int, d: int)
    requires every > 0 && d != 0
    ensures every * d >= every || every * d <= -every
  {
    if d > 0 {
      PositiveMultiple(every, d);
    } else {
      PositiveMultiple(every, -d);
      assert every * -d == -(every * d);
    }
  }

  lemma QuotientIs(n: nat, every: nat, q: int, r: nat)
    requires 0 <= r < every && n == every * q + r
    ensures n / every == q && n % every == r
  {
    var d := n / every - q;
    assert every * d == r - n % every;
    if d != 0 {
      NonzeroMultiple(every, d);
      assert false;
    }
  }
}
