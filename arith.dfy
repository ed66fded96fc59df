/** Small facts of integer arithmetic the index maps rest on. Each states
    one step the solver would otherwise have to find among products. */
module Arith {

  lemma MulMono(a: int, b: int, c: int)
    requires a <= b && c >= 0
    ensures a * c <= b * c
  {
  }

  lemma MulStrict(a: int, b: int, c: int)
    requires a < b && c > 0
    ensures a * c < b * c
  {
  }

  lemma MulAssoc(a: int, b: int, c: int)
    ensures a * (b * c) == (a * b) * c
  {
  }

  lemma MulComm(a: int, b: int)
    ensures a * b == b * a
  {
  }

  lemma MulSucc(a: int, c: int)
    ensures (a + 1) * c == a * c + c
  {
  }

  lemma MulAddLeft(a: int, b: int, c: int)
    ensures (a + b) * c == a * c + b * c
  {
  }

  /** a * c <= b * c with c positive gives a <= b. */
  lemma MulCancel(a: int, b: int, c: int)
    requires c > 0 && a * c <= b * c
    ensures a <= b
  {
    if a > b {
      MulStrict(b, a, c);
    }
  }

  /** a * c < b * c with c non-negative gives a < b. */
  lemma MulCancelStrict(a: int, b: int, c: int)
    requires c >= 0 && a * c < b * c
    ensures a < b
  {
    if a >= b {
      MulMono(b, a, c);
    }
  }

  /** Two cells [k * d, k * d + d) that hold the same x are the same cell. */
  lemma CellUnique(k1: int, k2: int, d: int, x: int)
    requires d > 0
    requires k1 * d <= x < k1 * d + d
    requires k2 * d <= x < k2 * d + d
    ensures k1 == k2
  {
    if k1 < k2 {
      MulMono(k1 + 1, k2, d);
      MulSucc(k1, d);
    } else if k2 < k1 {
      MulMono(k2 + 1, k1, d);
      MulSucc(k2, d);
    }
  }

  /** The quotient's cell holds the dividend. */
  lemma DivBounds(a: nat, d: nat)
    requires d > 0
    ensures (a / d) * d <= a < (a / d) * d + d
    ensures a / d >= 0
  {
  }

  /** The quotient is the k whose cell [k * d, k * d + d) holds a. */
  lemma DivUnique(a: nat, d: nat, k: nat)
    requires d > 0 && k * d <= a < k * d + d
    ensures a / d == k
  {
    DivBounds(a, d);
    CellUnique(a / d, k, d, a);
  }
}
