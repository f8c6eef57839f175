/** Powers of two. */
module Powers {
  function Pow2(k: nat): (r: nat)
    ensures r > 0
  {
    if k == 0 then 1 else 2 * Pow2(k - 1)
  }

  lemma {:induction false} Pow2Monotone(a: nat, b: nat)
    requires a <= b
    ensures Pow2(a) <= Pow2(b)
    decreases b - a
  {
    if a < b { Pow2Monotone(a, b - 1); }
  }

  lemma {:induction false} Pow2Adds(a: nat, b: nat)
    ensures Pow2(a + b) == Pow2(a) * Pow2(b)
    decreases b
  {
    if b > 0 {
      Pow2Adds(a, b - 1);
      assert Pow2(a + b) == 2 * Pow2(a + (b - 1));
    }
  }

  lemma Pow2Of16()
    ensures Pow2(5) == 32 && Pow2(16) == 0x1_0000
  {
    assert Pow2(3) == 8;
    assert Pow2(5) == 32;
    assert Pow2(8) == 256;
    Pow2Adds(8, 8);
  }

  lemma Pow2Of32()
    ensures Pow2(32) == 0x1_0000_0000
  {
    Pow2Of16();
    Pow2Adds(16, 16);
  }

  lemma Pow2Of64()
    ensures Pow2(64) == 0x1_0000_0000_0000_0000
  {
    Pow2Of32();
    Pow2Adds(32, 32);
  }

  /** The largest power of two that divides n, as an exponent. */
  function Twos(n: nat): nat
    requires n > 0
  {
    if n % 2 == 1 then 0 else 1 + Twos(n / 2)
  }

  lemma {:induction false} TwosDivide(n: nat) returns (odd: nat)
    requires n > 0
    ensures n == Pow2(Twos(n)) * odd && odd % 2 == 1
  {
    if n % 2 == 1 {
      odd := n;
    } else {
      odd := TwosDivide(n / 2);
      DoubleProduct(Pow2(Twos(n / 2)), odd);
    }
  }

  lemma DoubleProduct(x: int, y: int)
    ensures 2 * (x * y) == (2 * x) * y
  {
  }

  lemma Halve(c: nat, h: nat, p: nat)
    requires c == 2 * h
    ensures c * p == h * (2 * p)
  {
  }

  lemma Shift(m: int, inv: int, c: int, p: int)
    requires m * inv == 1 + c * p
    ensures m * (inv + p) == 1 + (c + m) * p
  {
  }

  /** An inverse modulo p becomes one modulo 2 * p. */
  lemma InverseStep(m: nat, inv: nat, c: nat, p: nat) returns (inv2: nat, c2: nat)
    requires m % 2 == 1 && m * inv == 1 + c * p
    ensures m * inv2 == 1 + c2 * (2 * p)
  {
    var sum: nat;
    if c % 2 == 0 {
      inv2, sum := inv, c;
    } else {
      Shift(m, inv, c, p);
      inv2, sum := inv + p, c + m;
    }
    c2 := sum / 2;
    Halve(sum, c2, p);
  }

  /** An odd number has an inverse modulo every power of two. */
  lemma {:induction false} OddInverse(m: nat, n: nat) returns (inv: nat, c: nat)
    requires m % 2 == 1
    ensures m * inv == 1 + c * Pow2(n)
  {
    if n == 0 {
      inv, c := 1, m - 1;
    } else {
      inv, c := OddInverse(m, n - 1);
      inv, c := InverseStep(m, inv, c, Pow2(n - 1));
    }
  }
}
