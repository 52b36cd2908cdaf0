/** Machine words of 64 bits, and rounding up to a power of two. */
module Words {
  import opened Bits

  /** Words have 64 bits. */
  const WORD: nat := 0x1_0000_0000_0000_0000

  lemma Regroup(n: nat, c: nat, q: nat, q': nat, r: nat)
    ensures (n * c) * q + (n * q' + r) == n * (c * q + q') + r
  {
    assert (n * c) * q == n * (c * q);
  }

  /** Reducing modulo a multiple first changes nothing. */
  lemma ModOfMultiple(x: nat, n: nat, c: nat)
    requires n > 0 && c > 0
    ensures n * c > 0 && (x % (n * c)) % n == x % n
  {
    MulAtLeast(n, c);
    var w := n * c;
    var q, r := x / w, x % w;
    Regroup(n, c, q, r / n, r % n);
    DivModUnique(x, n, c * q + r / n, r % n);
  }

  lemma ModOfWord(x: nat, k: nat)
    requires k <= 64
    ensures (x % WORD) % Pow2(k) == x % Pow2(k)
  {
    Pow2Of64();
    Pow2Add(k, 64 - k);
    ModOfMultiple(x, Pow2(k), Pow2(64 - k));
  }

  lemma Pow2Of64()
    ensures Pow2(64) == WORD
  {
    assert Pow2(4) == 16;
    Pow2Add(4, 4);
    assert Pow2(8) == 0x100;
    Pow2Add(8, 8);
    assert Pow2(16) == 0x1_0000;
    Pow2Add(16, 16);
    assert Pow2(32) == 0x1_0000_0000;
    Pow2Add(32, 32);
  }

  lemma AddMultiple(x: nat, n: nat, q: nat)
    requires n > 0
    ensures (x + n * q) % n == x % n
  {
    assert x + n * q == n * (x / n + q) + x % n;
    DivModUnique(x + n * q, n, x / n + q, x % n);
  }

  lemma SumMod(a: nat, b: nat, n: nat)
    requires n > 0
    ensures (a % n + b) % n == (a + b) % n
  {
    var q, r := a / n, a % n;
    assert a == n * q + r;
    AddMultiple(r + b, n, q);
    assert a + b == r + b + n * q;
  }

  /** The least exponent whose power of two is at least `n`. */
  function CeilLog2(n: nat): (k: nat)
    requires n >= 1
    ensures n <= Pow2(k) < 2 * n
  {
    if Pow2(Log2(n)) == n then Log2(n) else Log2(n) + 1
  }

  /** `next_power_of_two`. */
  function NextPow2(n: nat): (r: nat)
    requires n >= 1
    ensures n <= r < 2 * n && exists k: nat :: r == Pow2(k)
  {
    Pow2(CeilLog2(n))
  }

  /** Rounding up half a word at most gives half a word at most. */
  lemma CeilLog2Fits(n: nat)
    requires 1 <= n <= WORD / 2
    ensures CeilLog2(n) <= 63
  {
    if CeilLog2(n) > 63 {
      Pow2Of64();
      Pow2Mono(64, CeilLog2(n));
    }
  }
}
