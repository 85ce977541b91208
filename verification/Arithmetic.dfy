// Division and remainder facts shared by the addressing proofs. All operands
// are non-negative, where Dafny's operators agree with Python's and Triton's.
module Arithmetic {

  function Min(a: int, b: int): int {
    if a < b then a else b
  }

  lemma Split(a: nat, b: nat)
    requires 0 < b
    ensures a == a / b * b + a % b
    ensures 0 <= a % b < b
    ensures 0 <= a / b <= a
  {
    assert a / b <= a by {
      if a / b > a {
        MulMonotone(1, b, a / b);
      }
    }
  }

  lemma Successor(a: int, b: int)
    ensures (a + 1) * b == a * b + b
  {
  }

  lemma Associates(a: int, b: int, c: int)
    ensures a * (b * c) == a * b * c
  {
  }

  lemma Distributes(a: int, b: int, c: int)
    ensures (a + b) * c == a * c + b * c
  {
  }

  lemma MulMonotone(a: nat, b: nat, c: nat)
    requires a <= b
    ensures a * c <= b * c
    ensures c * a <= c * b
  {
  }

  // A multiple of b smaller than b in magnitude is zero.
  lemma SmallMultiple(k: int, b: int)
    requires 0 < b && -b < k * b < b
    ensures k == 0
  {
  }

  lemma QuotientUnique(a: nat, b: nat, q: int, r: int)
    requires 0 < b && a == q * b + r && 0 <= r < b
    ensures a / b == q && a % b == r
  {
    var d, m := a / b, a % b;
    assert a == d * b + m && 0 <= m < b by { Split(a, b); }
    assert (q - d) * b == m - r;
    SmallMultiple(q - d, b);
  }

  // floor(a / b) <= floor(c / b) for a <= c.
  lemma DivMonotone(a: nat, c: nat, b: nat)
    requires 0 < b && a <= c
    ensures a / b <= c / b
  {
    Split(a, b);
    Split(c, b);
    if a / b > c / b {
      MulMonotone(c / b + 1, a / b, b);
    }
  }

  // q <= a / b exactly when q * b <= a.
  lemma DivGalois(a: nat, b: nat, q: nat)
    requires 0 < b
    ensures q <= a / b <==> q * b <= a
  {
    Split(a, b);
    if q <= a / b {
      MulMonotone(q, a / b, b);
    } else {
      MulMonotone(a / b + 1, q, b);
    }
  }

  // Adding whole multiples shifts the quotient and keeps the remainder.
  lemma DivAddMultiple(k: nat, b: nat, a: nat)
    requires 0 < b
    ensures (k * b + a) / b == k + a / b
    ensures (k * b + a) % b == a % b
  {
    Split(a, b);
    assert k * b + a == (k + a / b) * b + a % b;
    QuotientUnique(k * b + a, b, k + a / b, a % b);
  }

  // Two positions of a window no longer than the ring that share a remainder
  // are the same position.
  lemma RingInjective(a: nat, c: nat, ring: nat)
    requires 0 < ring && a <= c < a + ring
    requires a % ring == c % ring
    ensures a == c
  {
    Split(a, ring);
    Split(c, ring);
    if c / ring > a / ring {
      MulMonotone(a / ring + 1, c / ring, ring);
    } else {
      MulMonotone(c / ring, a / ring, ring);
    }
  }

  // Rows of a flattened two-dimensional table do not overlap.
  lemma RowsDisjoint(q: nat, a: nat, p: nat, b: nat, width: nat)
    requires a < width && b < width
    requires q * width + a == p * width + b
    ensures q == p && a == b
  {
    QuotientUnique(q * width + a, width, q, a);
    QuotientUnique(p * width + b, width, p, b);
  }

  // A row ends before a later one begins.
  lemma RowsInOrder(q: nat, p: nat, width: nat)
    requires q < p
    ensures q * width + width <= p * width
  {
    MulMonotone(q + 1, p, width);
    assert (q + 1) * width == q * width + width;
  }

  lemma RowInBounds(q: nat, a: nat, rows: nat, width: nat)
    requires q < rows && a < width
    ensures 0 <= q * width + a < rows * width
  {
    MulMonotone(q + 1, rows, width);
  }

  // The sum of the first n values.
  function SumTo(values: seq<nat>, n: nat): nat
    requires n <= |values|
  {
    if n == 0 then 0 else SumTo(values, n - 1) + values[n - 1]
  }

  lemma {:induction false} SumToGrows(values: seq<nat>, m: nat, n: nat)
    requires m <= n <= |values|
    ensures SumTo(values, m) <= SumTo(values, n)
  {
    if m < n { SumToGrows(values, m, n - 1); }
  }
}
