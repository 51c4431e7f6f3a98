/** Machine words: the unsigned C integer types of the source as integer ranges,
    with the bit operations the source applies to them. */
module Words {

  const W16: int := 0x1_0000
  const W32: int := 0x1_0000_0000
  const W64: int := 0x1_0000_0000_0000_0000

  type u16 = x: int | 0 <= x < 0x1_0000
  type u32 = x: int | 0 <= x < 0x1_0000_0000
  type u64 = x: int | 0 <= x < 0x1_0000_0000_0000_0000

  /** Bitwise conjunction, one bit at a time. */
  function And(x: nat, y: nat): (r: nat)
    ensures r <= x
  {
    if x == 0 || y == 0 then 0 else (x % 2) * (y % 2) + 2 * And(x / 2, y / 2)
  }

  /** Bitwise disjunction, one bit at a time. */
  function Or(x: nat, y: nat): nat {
    if x == 0 then y else if y == 0 then x
    else (if x % 2 == 0 && y % 2 == 0 then 0 else 1) + 2 * Or(x / 2, y / 2)
  }

  predicate Pow2(n: nat) {
    n == 1 || (n > 1 && n % 2 == 0 && Pow2(n / 2))
  }

  lemma MulMonotone(k: int, n: int)
    requires n > 0
    ensures k >= 1 ==> k * n >= n
    ensures k <= -1 ==> k * n <= -n
  {
    if k >= 1 {
      assert (k - 1) * n >= 0;
    } else if k <= -1 {
      assert (-1 - k) * n >= 0;
    }
  }

  lemma LessByProduct(a: int, b: int, n: int)
    requires n > 0 && a * n < b * n
    ensures a < b && (a + 1) * n <= b * n
  {
    assert (a - b) * n == a * n - b * n;
    MulMonotone(a - b, n);
    if a < b { MulMonotone(b - a, n); }
  }

  /** A quotient and a remainder in range are the quotient and the remainder. */
  lemma DivModUnique(x: int, n: int, q: int, r: int)
    requires n > 0 && 0 <= r < n && x == q * n + r
    ensures x / n == q && x % n == r
  {
    var q', r' := x / n, x % n;
    assert q' * n + r' == x;
    assert (q - q') * n == q * n - q' * n;
    MulMonotone(q - q', n);
  }

  lemma ModHalf(x: nat, m: nat)
    requires m > 0
    ensures x % (2 * m) == x % 2 + 2 * ((x / 2) % m)
  {
    var q, r := (x / 2) / m, (x / 2) % m;
    assert x / 2 == q * m + r;
    assert x == q * (2 * m) + (2 * r + x % 2);
    DivModUnique(x, 2 * m, q, 2 * r + x % 2);
  }

  /** Masking with a power of two minus one is the remainder. */
  lemma {:induction false} MaskIsMod(x: nat, n: nat)
    requires Pow2(n)
    ensures And(x, n - 1) == x % n
  {
    if n == 1 || x == 0 {
    } else {
      MaskIsMod(x / 2, n / 2);
      ModHalf(x, n / 2);
      assert n == 2 * (n / 2);
      assert (n - 1) / 2 == n / 2 - 1 && (n - 1) % 2 == 1;
    }
  }

  /** The three lowest bits as numbers. */
  lemma LowBits(x: nat)
    ensures And(x, 1) == x % 2
    ensures And(x, 2) == 2 * (x / 2 % 2)
    ensures And(x, 4) == 4 * (x / 4 % 2)
  {
    MaskIsMod(x, 2);
    MaskIsMod(x / 2, 2);
    MaskIsMod(x / 2 / 2, 2);
    assert x / 2 / 2 == x / 4;
    assert x > 0 ==> And(x, 2) == 2 * And(x / 2, 1);
    assert x > 0 ==> And(x, 4) == 2 * And(x / 2, 2);
    assert x / 2 > 0 ==> And(x / 2, 2) == 2 * And(x / 2 / 2, 1);
  }

  /** Adding a multiple of the modulus changes nothing. */
  lemma ModShift(x: int, n: int, k: int)
    requires n > 0
    ensures (x + k * n) % n == x % n
  {
    var q, r := x / n, x % n;
    assert x + k * n == (q + k) * n + r;
    DivModUnique(x + k * n, n, q + k, r);
  }

  /** A power of two divides every power of two that is not smaller. */
  lemma {:induction false} Pow2Divides(n: nat, w: nat) returns (k: nat)
    requires Pow2(n) && Pow2(w) && n <= w
    ensures k > 0 && w == k * n
  {
    if n == 1 {
      k := w;
    } else {
      k := Pow2Divides(n / 2, w / 2);
      assert k * n == 2 * (k * (n / 2));
    }
  }

  lemma W16IsPow2()
    ensures Pow2(0x1_0000)
  {
    assert Pow2(16);
    assert Pow2(256);
    assert Pow2(4096);
  }

  lemma Doubling(n: nat)
    ensures Pow2(n) ==> Pow2(2 * n)
  {
  }

  lemma {:induction false} Pow2Times(a: nat, b: nat)
    requires Pow2(a) && Pow2(b)
    ensures Pow2(a * b)
  {
    if a > 1 {
      Pow2Times(a / 2, b);
      assert a * b == 2 * ((a / 2) * b);
      Doubling((a / 2) * b);
    }
  }

  lemma W64IsPow2()
    ensures Pow2(W64)
  {
    Doubling(0x1_0000_0000);
    assert Pow2(0x1_0000);
    Pow2Times(0x1_0000, 0x1_0000);
    Pow2Times(0x1_0000_0000, 0x1_0000_0000);
  }

  lemma ModOfMod(x: nat, k: nat, n: nat)
    requires k > 0 && n > 0
    ensures k * n > 0 && (x % (k * n)) % n == x % n
  {
    MulMonotone(k, n);
    var q := x / (k * n);
    assert x == q * (k * n) + x % (k * n);
    assert q * (k * n) == (q * k) * n;
    ModShift(x % (k * n), n, q * k);
  }

  /** Reducing a counter to 16 bits first does not change its slot in a ring of n. */
  lemma SlotAcrossWrap(x: nat, n: nat)
    requires Pow2(n) && n <= W16
    ensures (x % W16) % n == x % n
  {
    W16IsPow2();
    var k := Pow2Divides(n, 0x1_0000);
    ModOfMod(x, k, n);
  }

  /** Two counters less than n apart never share a residue. */
  lemma ModDistinct(a: int, b: int, n: int)
    requires n > 0 && a < b < a + n
    ensures a % n != b % n
  {
    var q, r := a / n, a % n;
    if b % n == r {
      assert (b / n - q) * n == (b / n) * n - q * n;
      MulMonotone(b / n - q, n);
    }
  }

  /** The 16-bit difference of two counters is their distance while that fits. */
  lemma CounterDistance(a: nat, b: nat)
    requires a <= b < a + W16
    ensures (b % W16 - a % W16) % W16 == b - a
    ensures a % W16 == b % W16 <==> a == b
  {
    if a < b { ModDistinct(a, b, W16); }
  }
}
