/** Facts about products and quotients, stated apart so that the proofs that need them stay linear. */
module Arith {

  const U32MAX: nat := 0xFFFF_FFFF
  const U32_LIMIT: nat := 0x1_0000_0000

  function Min(a: nat, b: nat): nat {
    if a < b then a else b
  }

  lemma MulMono(a: int, b: int, c: int, d: int)
    requires 0 <= a <= b && 0 <= c <= d
    ensures a * c <= b * d
  {
    assert a * c <= b * c by { assert (b - a) * c >= 0; }
    assert b * c <= b * d by { assert b * (d - c) >= 0; }
  }

  lemma MulLe(a: nat, c: nat, b: nat)
    requires a <= c
    ensures a * b <= c * b && (a + 1) * b == a * b + b
  {
    assert (c - a) * b >= 0;
  }

  lemma MulAssoc(a: int, b: int, c: int)
    ensures a * b * c == a * (b * c)
  {
  }

  lemma Distribute(a: nat, b: nat, m: nat)
    ensures (a + b) * m == a * m + b * m
  {
  }

  /** Multiples of `m` with a remainder come in the order of their quotients. */
  lemma MulOrder(a: nat, c: nat, m: nat, r: nat)
    requires r < m && a * m <= c * m + r
    ensures a <= c
  {
    if c < a {
      MulLe(c + 1, a, m);
      MulLe(c, c, m);
    }
  }

  lemma DivBounds(x: nat, b: nat)
    requires b > 0
    ensures x / b * b <= x && x < (x / b + 1) * b
  {
  }

  lemma Division(x: nat, m: nat)
    requires m > 0
    ensures x == x / m * m + x % m
  {
  }

  // Products, quotients and remainders as plain terms, for proofs that only add them up.

  function Times(a: nat, b: nat): nat { a * b }

  function Quot(x: nat, m: nat): nat
    requires m > 0
  {
    x / m
  }

  function Rest(x: nat, m: nat): (r: nat)
    requires m > 0
    ensures r < m
  {
    x % m
  }

  lemma QuotRest(x: nat, m: nat)
    requires m > 0
    ensures x == Times(Quot(x, m), m) + Rest(x, m) && Rest(x, m) < m
  {
    Division(x, m);
  }

  lemma TimesAdd(a: nat, b: nat, m: nat)
    ensures Times(a + b, m) == Times(a, m) + Times(b, m) && Times(1, m) == m
  {
    Distribute(a, b, m);
  }

  lemma TimesSame(a: nat, b: nat, m: nat, x: nat, y: nat)
    requires m > 0 && x < m && y < m && Times(a, m) + x == Times(b, m) + y
    ensures x == y && a == b
  {
    SameQuotient(a, b, m, x, y);
  }

  /** Two numbers have the same remainder exactly when their difference has none. */
  lemma SameRest(c: nat, n: nat, m: nat)
    requires m > 0 && c <= n
    ensures Rest(c, m) == Rest(n, m) <==> Rest(n - c, m) == 0
  {
    hide Times, Quot, Rest;
    QuotRest(c, m);
    QuotRest(n, m);
    QuotRest(n - c, m);
    TimesAdd(Quot(c, m), Quot(n - c, m), m);
    if Rest(c, m) == Rest(n, m) {
      TimesSame(Quot(n, m), Quot(c, m) + Quot(n - c, m), m, 0, Rest(n - c, m));
    }
    if Rest(n - c, m) == 0 {
      TimesSame(Quot(n, m), Quot(c, m) + Quot(n - c, m), m, Rest(n, m), Rest(c, m));
    }
  }

  lemma RestPlusOne(x: nat, m: nat)
    requires m > 0
    ensures Rest(Rest(x, m) + 1, m) == Rest(x + 1, m)
  {
    hide Times, Quot, Rest;
    var r := Rest(x, m);
    QuotRest(x, m);
    QuotRest(x + 1, m);
    QuotRest(r + 1, m);
    TimesAdd(Quot(x, m), Quot(r + 1, m), m);
    TimesSame(Quot(x + 1, m), Quot(x, m) + Quot(r + 1, m), m, Rest(x + 1, m), Rest(r + 1, m));
  }

  lemma MulDiv(a: nat, b: nat)
    requires b > 0
    ensures a * b / b == a
  {
    SameQuotient(a, a * b / b, b, 0, a * b % b);
  }

  lemma SameQuotient(a: nat, b: nat, m: nat, x: nat, y: nat)
    requires m > 0 && x < m && y < m && a * m + x == b * m + y
    ensures x == y && a == b
  {
    MulOrder(a, b, m, y);
    MulOrder(b, a, m, x);
  }
}
