// Machine integers, results of byte readers, and the few arithmetic facts the
// other modules share.
module Base {

  const TWO63: int := 0x8000_0000_0000_0000
  const TWO64: int := 0x1_0000_0000_0000_0000

  type byte = b: int | 0 <= b < 256
  type uint64 = x: int | 0 <= x < TWO64
  type int64 = x: int | -TWO63 <= x < TWO63

  datatype Option<+T> = None | Some(value: T)

  /** Unsigned 64-bit wrap-around. */
  function Wrap64(x: int): uint64 {
    x % TWO64
  }

  /** Conversion of a 64-bit pattern to int64_t. */
  function ToInt64(x: uint64): int64 {
    if x < TWO63 then x else x - TWO64
  }

  function Pow2(n: nat): (p: int)
    ensures p > 0
  {
    if n == 0 then 1 else 2 * Pow2(n - 1)
  }

  lemma {:induction false} Pow2Add(a: nat, b: nat)
    ensures Pow2(a + b) == Pow2(a) * Pow2(b)
  {
    if b != 0 {
      Pow2Add(a, b - 1);
      assert Pow2(a + b) == 2 * Pow2(a + (b - 1));
    }
  }

  lemma Pow2At16()
    ensures Pow2(16) == 0x1_0000
  {
    assert Pow2(8) == 256;
    Pow2Add(8, 8);
  }

  lemma Pow2At64()
    ensures Pow2(63) == TWO63 && Pow2(64) == TWO64
  {
    Pow2At16();
    Pow2Add(16, 16);
    Pow2Add(32, 31);
    Pow2Add(16, 15);
    assert Pow2(15) == 0x8000;
    Pow2Add(32, 32);
  }

  lemma {:induction false} Pow2Monotone(a: nat, b: nat)
    requires a <= b
    ensures Pow2(a) <= Pow2(b)
  {
    if a < b {
      Pow2Monotone(a, b - 1);
    }
  }

  /** Bitwise inclusive or of two non-negative integers. */
  function BitOr(a: nat, b: nat): nat {
    if a == 0 && b == 0 then 0
    else 2 * BitOr(a / 2, b / 2) + (if a % 2 == 1 || b % 2 == 1 then 1 else 0)
  }

  /** Or-ing numbers that share no bit is adding them. */
  lemma {:induction false} BitOrDisjoint(a: nat, b: nat, k: nat)
    requires a < Pow2(k)
    requires b % Pow2(k) == 0
    ensures BitOr(a, b) == a + b
    decreases a + b, k
  {
    if a == 0 && b == 0 {
    } else if k == 0 {
      assert a == 0;
      assert b / 2 % Pow2(0) == 0;
      BitOrDisjoint(0, b / 2, 0);
    } else {
      var q := b / Pow2(k);
      assert b == Pow2(k) * q;
      assert b == 2 * (Pow2(k - 1) * q) by {
        assert Pow2(k) * q == 2 * Pow2(k - 1) * q;
      }
      MultipleOf(q, Pow2(k - 1));
      assert b / 2 == q * Pow2(k - 1);
      BitOrDisjoint(a / 2, b / 2, k - 1);
    }
  }

  /** Quotient and remainder are determined by their defining equation. */
  lemma DivisionIsUnique(x: int, m: int, q: int, r: int)
    requires 0 <= r < m
    requires x == q * m + r
    ensures x / m == q && x % m == r
  {
    var d := q - x / m;
    assert d * m == x % m - r by {
      assert x == x / m * m + x % m;
      assert d * m == q * m - x / m * m;
    }
    assert d >= 1 ==> d * m >= m;
    assert d <= -1 ==> -d * m >= m;
  }

  lemma MultipleOf(q: int, m: int)
    requires m > 0
    ensures q * m % m == 0
  {
    DivisionIsUnique(q * m, m, q, 0);
  }

  lemma RemainderOfSum(q: int, r: int, m: int)
    requires m > 0
    ensures (q * m + r) % m == r % m
  {
    assert r == r / m * m + r % m;
    assert q * m + r == (q + r / m) * m + r % m;
    DivisionIsUnique(q * m + r, m, q + r / m, r % m);
  }
}
