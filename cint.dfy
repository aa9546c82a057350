/**
 * Integer semantics of the kernel's C code: the range of `int32_t` and C's
 * integer division, which truncates toward zero (Dafny's own `/` on `int` is
 * Euclidean, so it cannot stand in for C's on negative operands).
 */
module CInt {

  const Int32Max := 0x7FFF_FFFF
  const Int32Min := -0x8000_0000

  /** v is representable as an `int32_t`. */
  predicate Int32(v: int) {
    Int32Min <= v <= Int32Max
  }

  /** v is an `int32_t` whose negation is one too: everything except INT32_MIN. */
  predicate Negatable(v: int) {
    -Int32Max <= v <= Int32Max
  }

  function Abs(v: int): nat {
    if v < 0 then -v else v
  }

  /** C's `n / d`: the quotient of the magnitudes, negated when the signs differ. */
  function TruncDiv(n: int, d: int): int
    requires d != 0
  {
    var m: int := Abs(n) / Abs(d);
    if (n < 0) == (d < 0) then m else -m
  }

  /**
   * The quotient is rounded toward zero: the remainder `n - q*d` is smaller
   * than the divisor in magnitude and never has the opposite sign of the
   * dividend, and the quotient is no larger than the dividend in magnitude.
   */
  lemma TruncDivRemainder(n: int, d: int)
    requires d != 0
    ensures var q := TruncDiv(n, d);
      && Abs(n - q * d) < Abs(d)
      && (n - q * d == 0 || (n - q * d > 0 <==> n > 0))
      && Abs(q) <= Abs(n)
  {
    QuotientOfMagnitudes(n, d, TruncDiv(n, d));
  }

  /** The facts about `|n| / |d|` that TruncDiv's contract rests on. */
  lemma QuotientOfMagnitudes(n: int, d: int, q: int)
    requires d != 0
    requires q == if (n < 0) == (d < 0) then Abs(n) / Abs(d) else -(Abs(n) / Abs(d))
    ensures Abs(n - q * d) < Abs(d)
    ensures n - q * d == 0 || (n - q * d > 0 <==> n > 0)
    ensures Abs(q) <= Abs(n)
  {
    EuclideanSplit(Abs(n), Abs(d));
    SignedQuotient(n, d, q, Abs(n) / Abs(d));
  }

  /** The same facts for a quotient `q` whose magnitude `m` leaves a remainder in `0..|d|-1`. */
  lemma SignedQuotient(n: int, d: int, q: int, m: int)
    requires d != 0 && m >= 0 && 0 <= Abs(n) - m * Abs(d) < Abs(d)
    requires q == if (n < 0) == (d < 0) then m else -m
    ensures Abs(n - q * d) < Abs(d)
    ensures n - q * d == 0 || (n - q * d > 0 <==> n > 0)
    ensures Abs(q) <= Abs(n)
  {
    if n >= 0 {
      NonNegativeDividend(n, d, q, m);
    } else {
      NegativeDividend(n, d, q, m);
    }
    MulMonotone(m, Abs(d));
  }

  /** For n >= 0 the remainder is `|n| - m*|d|`. */
  lemma NonNegativeDividend(n: int, d: int, q: int, m: int)
    requires n >= 0 && d != 0 && m >= 0 && q == (if d < 0 then -m else m)
    ensures n - q * d == Abs(n) - m * Abs(d)
  {
    SignedProduct(q, d, m, Abs(d));
  }

  /** For n < 0 the remainder is `-(|n| - m*|d|)`. */
  lemma NegativeDividend(n: int, d: int, q: int, m: int)
    requires n < 0 && d != 0 && m >= 0 && q == (if d < 0 then m else -m)
    ensures n - q * d == -(Abs(n) - m * Abs(d))
  {
    SignedProduct(q, d, m, Abs(d));
  }

  lemma EuclideanSplit(an: nat, ad: int)
    requires ad > 0
    ensures an / ad >= 0 && 0 <= an - (an / ad) * ad < ad
  {
  }

  /** q*d in terms of magnitudes, given that q's sign is the product of the signs. */
  lemma SignedProduct(q: int, d: int, m: int, ad: int)
    requires d != 0 && ad == Abs(d) && m >= 0
    requires q == m || q == -m
    ensures (q == m) == (d > 0) || m == 0 ==> q * d == m * ad
    ensures (q == m) != (d > 0) ==> q * d == -(m * ad)
  {
  }

  lemma MulMonotone(m: nat, k: nat)
    requires k >= 1
    ensures m <= m * k
  {
  }

  /**
   * When d divides n, C's division is exact: the quotient times the divisor
   * gives back the dividend.
   */
  lemma TruncDivExact(n: int, d: int, k: int)
    requires d != 0 && n == k * d
    ensures TruncDiv(n, d) == k
  {
    TruncDivRemainder(n, d);
    OnlyMultipleWithin(n, d, k, TruncDiv(n, d));
  }

  /** Only one multiple of d lies closer to a multiple of d than |d|: itself. */
  lemma OnlyMultipleWithin(n: int, d: int, k: int, q: int)
    requires d != 0 && n == k * d && Abs(n - q * d) < Abs(d)
    ensures q == k
  {
    var r := n - q * d;
    assert r == (k - q) * d;
    if k - q != 0 {
      assert Abs(r) == Abs(k - q) * Abs(d) by {
        AbsMul(k - q, d);
      }
      MulMonotone(Abs(d), Abs(k - q));
      assert false;
    }
  }

  lemma AbsMul(x: int, y: int)
    ensures Abs(x * y) == Abs(x) * Abs(y)
  {
    if x < 0 && y >= 0 {
      assert x * y == -((-x) * y);
    } else if x >= 0 && y < 0 {
      assert x * y == -(x * (-y));
    } else if x < 0 && y < 0 {
      assert x * y == (-x) * (-y);
    }
  }
}
