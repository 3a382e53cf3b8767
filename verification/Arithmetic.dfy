/** Quotients and remainders by a variable divisor. */
module Arithmetic {
  lemma {:induction false} Gap(a: int, b: int, q: nat)
    requires a < b
    ensures a * q + q <= b * q
  {
    Grows(b - a, q);
    assert b * q == a * q + (b - a) * q;
  }

  lemma {:induction false} Grows(k: int, q: nat)
    requires k >= 1
    ensures k * q >= q
  {
    assert k * q == (k - 1) * q + q;
  }

  lemma {:induction false} SameMultiple(a: int, r: nat, b: int, t: nat, q: nat)
    requires r < q && t < q && a * q + r == b * q + t
    ensures a == b && r == t
  {
    if a < b {
      Gap(a, b, q);
    } else if b < a {
      Gap(b, a, q);
    }
  }

  lemma {:induction false} Quotient(x: int, a: int, r: nat, q: nat)
    requires r < q && x == a * q + r
    ensures x / q == a && x % q == r
  {
    var b, t := x / q, x % q;
    assert x == b * q + t;
    SameMultiple(a, r, b, t, q);
  }
}

/** Concatenation. */
module Sequences {
  lemma {:induction false} Associates<T>(x: seq<T>, y: seq<T>, z: seq<T>)
    ensures x + (y + z) == x + y + z
  {
  }
}
