/** Division, remainder and powers: the facts the addressing and colour arithmetic rest on. */
module Arithmetic {

  function Pow2(n: nat): (p: nat)
    ensures p > 0
  {
    if n == 0 then 1 else 2 * Pow2(n - 1)
  }

  function Pow256(n: nat): (p: nat)
    ensures p > 0
  {
    if n == 0 then 1 else 256 * Pow256(n - 1)
  }

  lemma MulMonotone(x: int, y: int, k: nat)
    requires x <= y
    ensures x * k <= y * k
  {
  }

  /** Quotient and remainder are unique. */
  lemma DivModUnique(n: int, k: int, q: int, r: int)
    requires 0 <= r < k
    requires n == q * k + r
    ensures n / k == q && n % k == r
  {
    var q', r' := n / k, n % k;
    assert n == q' * k + r';
    assert (q - q') * k == r' - r;
    if q > q' {
      MulMonotone(1, q - q', k);
    } else if q < q' {
      MulMonotone(q - q', -1, k);
    }
  }

  // Products and quotients of two variables, by repeated addition and subtraction. They are
  // a * b, n / k and n % k (the three lemmas below say so), in a form that unfolds linearly.

  function Times(a: nat, b: nat): nat {
    if a == 0 then 0 else Times(a - 1, b) + b
  }

  function Quotient(n: nat, k: nat): nat
    requires k > 0
  {
    if n < k then 0 else Quotient(n - k, k) + 1
  }

  function Remainder(n: nat, k: nat): (r: nat)
    requires k > 0
    ensures r < k
  {
    if n < k then n else Remainder(n - k, k)
  }

  lemma {:induction false} TimesIsProduct(a: nat, b: nat)
    ensures Times(a, b) == a * b
  {
    if a > 0 {
      TimesIsProduct(a - 1, b);
      assert a * b == (a - 1) * b + b;
    }
  }

  lemma {:induction false} QuotientRemainder(n: nat, k: nat)
    requires k > 0
    ensures n == Times(Quotient(n, k), k) + Remainder(n, k)
  {
    if n >= k {
      QuotientRemainder(n - k, k);
    }
  }

  lemma {:induction false} QuotientBound(n: nat, k: nat)
    requires k > 0
    ensures Quotient(n, k) <= n && (Quotient(n, k) > 0 <==> n >= k)
  {
    if n >= k {
      QuotientBound(n - k, k);
    }
  }

  lemma QuotientIsDivision(n: nat, k: nat)
    requires k > 0
    ensures Quotient(n, k) == n / k && Remainder(n, k) == n % k
  {
    QuotientRemainder(n, k);
    TimesIsProduct(Quotient(n, k), k);
    DivModUnique(n, k, Quotient(n, k), Remainder(n, k));
  }

  lemma {:induction false} TimesGap(a: nat, a': nat, b: nat)
    requires a < a'
    ensures Times(a, b) + b <= Times(a', b)
  {
    if a + 1 < a' {
      TimesGap(a, a' - 1, b);
    }
  }

  lemma {:induction false} TimesMonotone(a: nat, b: nat, b': nat)
    requires b <= b'
    ensures Times(a, b) <= Times(a, b')
  {
    if a > 0 {
      TimesMonotone(a - 1, b, b');
    }
  }

  lemma {:induction false} TimesSum(a: nat, b: nat, k: nat)
    ensures Times(a + b, k) == Times(a, k) + Times(b, k)
  {
    if b > 0 {
      TimesSum(a, b - 1, k);
    }
  }

  /** Row-major numbering: (column, row) with column < width is determined by row * width + column. */
  lemma RowMajorUnique(c: nat, r: nat, c': nat, r': nat, width: nat)
    requires c < width && c' < width
    ensures Times(r, width) + c == Times(r', width) + c' <==> c == c' && r == r'
  {
    if r < r' {
      TimesGap(r, r', width);
    } else if r' < r {
      TimesGap(r', r, width);
    }
  }

  lemma RowMajorBound(c: nat, r: nat, width: nat, height: nat)
    requires c < width && r < height
    ensures Times(r, width) + c < Times(height, width)
  {
    TimesGap(r, height, width);
  }

  /** Quotient and remainder are the row and the column. */
  lemma QuotientUnique(n: nat, k: nat, q: nat)
    requires k > 0
    ensures Quotient(n, k) == q <==> Times(q, k) <= n < Times(q, k) + k
  {
    QuotientRemainder(n, k);
    if Times(q, k) <= n < Times(q, k) + k {
      RowMajorUnique(Remainder(n, k), Quotient(n, k), n - Times(q, k), q, k);
    }
  }

  lemma QuotientBelow(n: nat, k: nat, q: nat)
    requires k > 0
    ensures Quotient(n, k) < q <==> n < Times(q, k)
  {
    QuotientRemainder(n, k);
    if Quotient(n, k) < q {
      TimesGap(Quotient(n, k), q, k);
    } else if q < Quotient(n, k) {
      TimesGap(q, Quotient(n, k), k);
    }
  }

  lemma ModShift(n: int, q: int, k: int)
    requires k > 0
    ensures (n + q * k) % k == n % k
  {
    assert n + q * k == (n / k + q) * k + n % k;
    DivModUnique(n + q * k, k, n / k + q, n % k);
  }

  lemma ModOfMod(n: int, j: nat, k: nat)
    requires j > 0 && k > 0
    ensures j * k > 0 && (n % (j * k)) % k == n % k
  {
    var q := n / (j * k);
    assert n == q * (j * k) + n % (j * k);
    assert q * (j * k) == (q * j) * k;
    ModShift(n % (j * k), q * j, k);
  }

  /** Moving two numbers by the same distance keeps them congruent. */
  lemma ModMove(x: int, y: int, x': int, y': int, k: int)
    requires k > 0 && x % k == y % k
    requires x' - x == y' - y
    ensures x' % k == y' % k
  {
    var q := x / k - y / k;
    assert x == y + q * k;
    ModShift(y', q, k);
  }

  /** Dividing by a product is dividing twice, and the remainder splits the same way. */
  lemma DivModProduct(n: nat, j: nat, k: nat)
    requires j > 0 && k > 0
    ensures j * k > 0
    ensures n / (j * k) == (n / j) / k
    ensures n % (j * k) == n % j + j * ((n / j) % k)
  {
    var q, r := (n / j) / k, (n / j) % k;
    MulMonotone(r, k - 1, j);
    assert r * j <= k * j - j;
    assert n == (n / j) * j + n % j;
    assert n / j == q * k + r;
    assert (q * k + r) * j == q * (j * k) + j * r;
    DivModUnique(n, j * k, q, n % j + j * r);
  }

  lemma {:induction false} Pow2Add(a: nat, b: nat)
    ensures Pow2(a + b) == Pow2(a) * Pow2(b)
  {
    if a > 0 {
      Pow2Add(a - 1, b);
      assert Pow2(a + b) == 2 * (Pow2(a - 1) * Pow2(b));
    }
  }

  lemma {:induction false} Pow2Monotone(a: nat, b: nat)
    requires a <= b
    ensures Pow2(a) <= Pow2(b)
  {
    if a < b {
      Pow2Monotone(a, b - 1);
    }
  }

  lemma {:induction false} Pow256IsPow2(n: nat)
    ensures Pow256(n) == Pow2(8 * n)
  {
    if n > 0 {
      Pow256IsPow2(n - 1);
      Pow2Add(8, 8 * (n - 1));
      assert Pow2(8) == 256;
      assert 8 + 8 * (n - 1) == 8 * n;
    }
  }

  lemma Pow2At32()
    ensures Pow2(32) == 0x1_0000_0000
  {
    Pow2Add(16, 16);
    assert Pow2(16) == 0x1_0000 by {
      Pow2Add(8, 8);
      assert Pow2(8) == 256;
    }
  }

  /** The counting law behind every tick divider of the event loops. */
  lemma TickDivider(counter: nat, k: nat)
    requires k > 0
    ensures var due := Remainder(counter + 1, k) == 0;
            && Quotient(counter + 1, k) == Quotient(counter, k) + (if due then 1 else 0)
            && (!due ==> Remainder(counter + 1, k) == Remainder(counter, k) + 1)
  {
    QuotientRemainder(counter, k);
    QuotientRemainder(counter + 1, k);
    if Remainder(counter, k) + 1 < k {
      RowMajorUnique(Remainder(counter, k) + 1, Quotient(counter, k), Remainder(counter + 1, k), Quotient(counter + 1, k), k);
    } else {
      RowMajorUnique(0, Quotient(counter, k) + 1, Remainder(counter + 1, k), Quotient(counter + 1, k), k);
    }
  }
}
