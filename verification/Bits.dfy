/** Powers of two and the bitwise operators the source applies to unsigned words,
    stated on natural numbers. */
module Bits {

  function Pow2(k: nat): (r: nat)
    ensures r >= 1
  {
    if k == 0 then 1 else 2 * Pow2(k - 1)
  }

  /** The position of the highest one bit. */
  function Log2(n: nat): (r: nat)
    requires n >= 1
    ensures Pow2(r) <= n < Pow2(r + 1)
  {
    if n == 1 then 0 else 1 + Log2(n / 2)
  }

  /** Bitwise exclusive or. */
  function Xor(a: nat, b: nat): nat
    decreases a + b
  {
    if a == 0 then b
    else if b == 0 then a
    else 2 * Xor(a / 2, b / 2) + (if a % 2 != b % 2 then 1 else 0)
  }

  /** Bitwise and. */
  function And(a: nat, b: nat): nat
    decreases a
  {
    if a == 0 || b == 0 then 0
    else 2 * And(a / 2, b / 2) + (if a % 2 == 1 && b % 2 == 1 then 1 else 0)
  }

  lemma {:induction false} Pow2Add(a: nat, b: nat)
    ensures Pow2(a + b) == Pow2(a) * Pow2(b)
  {
    if b > 0 {
      Pow2Add(a, b - 1);
      assert Pow2(a + b) == 2 * Pow2(a + b - 1);
    }
  }

  lemma {:induction false} Pow2Mono(a: nat, b: nat)
    requires a <= b
    ensures Pow2(a) <= Pow2(b)
    ensures a < b ==> 2 * Pow2(a) <= Pow2(b)
  {
    if a < b {
      Pow2Mono(a, b - 1);
    }
  }

  lemma MulAtLeast(m: int, d: int)
    requires m > 0 && d >= 1
    ensures m * d >= m
  {
  }

  /** Two expressions of one number as quotient and remainder are the same expression. */
  lemma QuotientUnique(m: int, q: int, r: int, q': int, r': int)
    requires m > 0 && 0 <= r < m && 0 <= r' < m
    requires m * q + r == m * q' + r'
    ensures q == q' && r == r'
  {
    assert m * (q - q') == r' - r;
    if q > q' {
      MulAtLeast(m, q - q');
    } else if q < q' {
      MulAtLeast(m, q' - q);
    }
  }

  /** Division with remainder is unique. */
  lemma DivModUnique(x: int, m: int, q: int, r: int)
    requires m > 0 && 0 <= r < m && x == m * q + r
    ensures x / m == q && x % m == r
  {
    QuotientUnique(m, q, r, x / m, x % m);
  }

  lemma MulMod(m: int, q: int)
    requires m > 0
    ensures (m * q) % m == 0 && (m * q) / m == q
  {
    DivModUnique(m * q, m, q, 0);
  }

  /** Numbers less than `m` apart with the same remainder are the same. */
  lemma NearResidues(a: nat, b: nat, m: nat)
    requires m > 0 && a % m == b % m
    requires a < b + m && b < a + m
    ensures a == b
  {
    var q, q' := a / m, b / m;
    assert a == m * q + a % m && b == m * q' + b % m;
    assert m * (q - q') == a - b;
    if q > q' {
      MulAtLeast(m, q - q');
    } else if q < q' {
      MulAtLeast(m, q' - q);
    }
  }

  /** Halving a number halves its quotient's divisor: used to walk the bits. */
  lemma HalfMod(x: nat, m: nat)
    requires m > 0
    ensures x % (2 * m) == 2 * ((x / 2) % m) + x % 2
    ensures x / (2 * m) == (x / 2) / m
  {
    var h := x / 2;
    assert h == m * (h / m) + h % m;
    assert x == 2 * h + x % 2;
    assert x == (2 * m) * (h / m) + (2 * (h % m) + x % 2) by {
      assert 2 * (m * (h / m)) == (2 * m) * (h / m);
    }
    DivModUnique(x, 2 * m, h / m, 2 * (h % m) + x % 2);
  }

  /** `x & (2^k - 1)` is the remainder modulo 2^k. */
  lemma {:induction false} AndMask(x: nat, k: nat)
    ensures And(x, Pow2(k) - 1) == x % Pow2(k)
    decreases k
  {
    if k == 0 {
    } else if x == 0 {
      DivModUnique(0, Pow2(k), 0, 0);
    } else {
      AndMask(x / 2, k - 1);
      HalfMod(x, Pow2(k - 1));
      var mask := Pow2(k) - 1;
      assert mask % 2 == 1 && mask / 2 == Pow2(k - 1) - 1;
    }
  }

  lemma {:induction false} XorPow2(i: nat, k: nat)
    ensures Xor(i, Pow2(k)) == if (i / Pow2(k)) % 2 == 0 then i + Pow2(k) else i - Pow2(k)
    decreases k
  {
    if k == 0 {
      XorOne(i);
    } else if i == 0 {
      DivModUnique(0, Pow2(k), 0, 0);
    } else {
      XorPow2(i / 2, k - 1);
      HalfMod(i, Pow2(k - 1));
      assert Pow2(k) / 2 == Pow2(k - 1) && Pow2(k) % 2 == 0;
    }
  }

  lemma XorZero(a: nat)
    ensures Xor(a, 0) == a
  {
  }

  lemma XorOne(i: nat)
    ensures Xor(i, 1) == if i % 2 == 0 then i + 1 else i - 1
  {
    if i != 0 {
      XorZero(i / 2);
    }
  }
}
