/** Division facts that the even distribution of slots rests on. */
module Arithmetic {

  function CeilDiv(a: nat, b: nat): nat
    requires b > 0
  {
    (a + b - 1) / b
  }

  lemma SignedMultiple(n: int, d: int)
    requires n > 0
    ensures d >= 1 ==> n * d >= n
    ensures d <= -1 ==> n * d <= -n
  {
  }

  lemma DivUnique(m: int, n: int, q: int, r: int)
    requires n > 0 && m == n * q + r && 0 <= r < n
    ensures m / n == q && m % n == r
  {
    DivDefinition(m, n);
    MultiplesDiffer(n, q, m / n);
    SignedMultiple(n, q - m / n);
  }

  lemma DivDefinition(m: int, n: int)
    requires n > 0
    ensures m == n * (m / n) + m % n && 0 <= m % n < n
  {
  }

  lemma MultiplesDiffer(n: int, a: int, b: int)
    ensures n * a - n * b == n * (a - b)
  {
  }

  lemma MultipleNext(n: int, q: int)
    ensures n * (q + 1) == n * q + n
  {
  }

  lemma CeilDivFacts(h: nat, n: nat)
    requires n > 0
    ensures CeilDiv(h, n) == h / n + (if h % n == 0 then 0 else 1)
    ensures n * CeilDiv(h, n) >= h
    ensures h >= 1 ==> CeilDiv(h, n) >= 1
  {
    DivDefinition(h, n);
    MultipleNext(n, h / n);
    if h % n == 0 {
      DivUnique(h + n - 1, n, h / n, n - 1);
    } else {
      DivUnique(h + n - 1, n, h / n + 1, h % n - 1);
    }
    QuotientPositive(h, n);
  }

  lemma QuotientPositive(h: nat, n: nat)
    requires n > 0
    ensures h / n >= 0
    ensures h >= n ==> h / n >= 1
  {
  }

  lemma ScaledOrder(x: real, y: real, n: real)
    requires n > 0.0
    ensures x < y <==> x * n < y * n
    ensures x == y <==> x * n == y * n
  {
  }

  lemma RatioTimes(h: real, n: real)
    requires n != 0.0
    ensures (h / n) * n == h && n * (h / n) == h
  {
  }

  lemma RealProduct(a: int, b: int)
    ensures (a * b) as real == a as real * b as real
  {
  }

  /** The real quotient lies between the integer quotient and the next integer. */
  lemma RatioFacts(h: nat, n: nat)
    requires n > 0
    ensures (h / n) as real <= h as real / n as real < (h / n) as real + 1.0
    ensures h % n == 0 ==> h as real / n as real == (h / n) as real
  {
    var x, q := h as real / n as real, h / n;
    DivDefinition(h, n);
    RatioTimes(h as real, n as real);
    RealProduct(q, n);
    RealProduct(q + 1, n);
    MultipleNext(n, q);
    ScaledOrder(x, q as real, n as real);
    ScaledOrder(x, (q + 1) as real, n as real);
  }

  lemma FloorStep(y: real, x: real, q: int)
    requires q as real <= x < q as real + 1.0
    ensures q <= (y + x).Floor - y.Floor <= q + 1
    ensures x == q as real ==> (y + x).Floor - y.Floor == q
  {
  }
}
