/** Non-negative integers read as bit vectors, the way the key detector uses Python ints:
    `|`, `^`, `& 1`, `>> 1`, `bin(x).count("1")` and `int.bit_length()`. */
module Bits {
  import PyCore

  function Pow2(n: nat): (r: nat)
    ensures r >= 1
  {
    if n == 0 then 1 else 2 * Pow2(n - 1)
  }

  /** Bit `i` of `m` is set. */
  predicate Bit(m: nat, i: nat)
  {
    if i == 0 then m % 2 == 1 else Bit(m / 2, i - 1)
  }

  /** Python `a | b`. */
  function Or(a: nat, b: nat): nat
    decreases a + b
  {
    if a == 0 then b
    else if b == 0 then a
    else 2 * Or(a / 2, b / 2) + (if a % 2 == 1 || b % 2 == 1 then 1 else 0)
  }

  /** Python `a ^ b`. */
  function Xor(a: nat, b: nat): nat
    decreases a + b
  {
    if a == 0 then b
    else if b == 0 then a
    else 2 * Xor(a / 2, b / 2) + (if a % 2 != b % 2 then 1 else 0)
  }

  /** Python `bin(x).count("1")`. */
  function Popcount(x: nat): nat
  {
    if x == 0 then 0 else x % 2 + Popcount(x / 2)
  }

  /** Python `x.bit_length()`: the number of binary digits of `x`. */
  function BitLen(x: nat): (r: nat)
    ensures x < Pow2(r)
    ensures x > 0 ==> r >= 1 && Pow2(r - 1) <= x
  {
    if x == 0 then 0 else 1 + BitLen(x / 2)
  }

  lemma {:induction false} NoBitsOfZero(i: nat)
    ensures !Bit(0, i)
  {
    if i > 0 {
      NoBitsOfZero(i - 1);
    }
  }

  /** A bit of `a | b` is set iff it is set in `a` or in `b`. */
  lemma {:induction false} OrBit(a: nat, b: nat, i: nat)
    ensures Bit(Or(a, b), i) <==> Bit(a, i) || Bit(b, i)
    decreases a + b
  {
    if a == 0 {
      NoBitsOfZero(i);
    } else if b == 0 {
      NoBitsOfZero(i);
    } else {
      var r := Or(a, b);
      assert r / 2 == Or(a / 2, b / 2);
      assert r % 2 == (if a % 2 == 1 || b % 2 == 1 then 1 else 0);
      if i > 0 {
        OrBit(a / 2, b / 2, i - 1);
      }
    }
  }

  /** A bit of `a ^ b` is set iff it is set in exactly one of `a` and `b`. */
  lemma {:induction false} XorBit(a: nat, b: nat, i: nat)
    ensures Bit(Xor(a, b), i) <==> Bit(a, i) != Bit(b, i)
    decreases a + b
  {
    if a == 0 {
      NoBitsOfZero(i);
    } else if b == 0 {
      NoBitsOfZero(i);
    } else {
      var r := Xor(a, b);
      assert r / 2 == Xor(a / 2, b / 2);
      assert r % 2 == (if a % 2 != b % 2 then 1 else 0);
      if i > 0 {
        XorBit(a / 2, b / 2, i - 1);
      }
    }
  }

  /** Two numbers with the same bits are equal. */
  lemma {:induction false} BitsDetermine(a: nat, b: nat)
    requires forall i: nat :: Bit(a, i) == Bit(b, i)
    ensures a == b
    decreases a + b
  {
    assert Bit(a, 0) == Bit(b, 0);
    if a != 0 || b != 0 {
      forall i: nat ensures Bit(a / 2, i) == Bit(b / 2, i) {
        assert Bit(a, i + 1) == Bit(b, i + 1);
      }
      if a / 2 + b / 2 < a + b {
        BitsDetermine(a / 2, b / 2);
      }
    }
  }

  /** `a ^ b` is zero exactly when `a == b`. */
  lemma {:induction false} XorZero(a: nat, b: nat)
    ensures Xor(a, b) == 0 <==> a == b
    decreases a + b
  {
    if a != 0 && b != 0 {
      XorZero(a / 2, b / 2);
    }
  }

  /** Only zero has no set bits. */
  lemma {:induction false} PopcountZero(x: nat)
    ensures Popcount(x) == 0 <==> x == 0
  {
    if x > 0 {
      PopcountZero(x / 2);
    }
  }

  lemma {:induction false} PopcountAtMostBitLen(x: nat)
    ensures Popcount(x) <= BitLen(x)
  {
    if x > 0 {
      PopcountAtMostBitLen(x / 2);
    }
  }

  /** The bits at and above `BitLen(x)` are clear. */
  lemma {:induction false} BitsBelowBitLen(x: nat, i: nat)
    requires i >= BitLen(x)
    ensures !Bit(x, i)
  {
    if x == 0 {
      NoBitsOfZero(i);
    } else {
      BitsBelowBitLen(x / 2, i - 1);
    }
  }

  /** The top bit of a non-zero number is set. */
  lemma {:induction false} TopBitSet(x: nat)
    requires x > 0
    ensures Bit(x, BitLen(x) - 1)
  {
    if x / 2 > 0 {
      TopBitSet(x / 2);
    }
  }

  lemma {:induction false} BitLenXor(a: nat, b: nat)
    ensures BitLen(Xor(a, b)) <= if BitLen(a) < BitLen(b) then BitLen(b) else BitLen(a)
    decreases a + b
  {
    if a != 0 && b != 0 {
      BitLenXor(a / 2, b / 2);
      var r := Xor(a, b);
      assert r / 2 == Xor(a / 2, b / 2);
    }
  }

  /** The Hamming distance of two numbers is at most the width of the wider one. */
  lemma HammingBound(a: nat, b: nat)
    ensures Popcount(Xor(a, b)) <= if BitLen(a) < BitLen(b) then BitLen(b) else BitLen(a)
  {
    PopcountAtMostBitLen(Xor(a, b));
    BitLenXor(a, b);
  }

  /** `BitLen` is the least width that holds `x`. */
  lemma BitLenBound(x: nat, k: nat)
    requires x < Pow2(k)
    ensures BitLen(x) <= k
  {
    if x > 0 {
      Pow2Monotone(k, BitLen(x) - 1);
    }
  }

  lemma {:induction false} Pow2Monotone(i: nat, j: nat)
    ensures i <= j ==> Pow2(i) <= Pow2(j)
    decreases j
  {
    if i < j && j > 0 {
      Pow2Monotone(i, j - 1);
    }
  }

  /** Bit `i` of `2^k` is set iff `i == k`. */
  lemma {:induction false} Pow2Bit(k: nat, i: nat)
    ensures Bit(Pow2(k), i) <==> i == k
    decreases k
  {
    if k == 0 {
      if i > 0 {
        NoBitsOfZero(i - 1);
      }
    } else if i > 0 {
      Pow2Bit(k - 1, i - 1);
    }
  }

  /** `a | b` stays below a power of two both operands are below. */
  lemma {:induction false} OrBound(a: nat, b: nat, k: nat)
    requires a < Pow2(k) && b < Pow2(k)
    ensures Or(a, b) < Pow2(k)
    decreases a + b
  {
    if a != 0 && b != 0 {
      OrBound(a / 2, b / 2, k - 1);
    }
  }

  /** Clearing the bits at and above `k` (`x % 2^k`) keeps the bits below `k`. */
  lemma {:induction false} ModPow2Bit(x: nat, k: nat, i: nat)
    ensures Bit(x % Pow2(k), i) <==> i < k && Bit(x, i)
    decreases k
  {
    if k == 0 {
      NoBitsOfZero(i);
    } else {
      var m := x % Pow2(k);
      DivModPow2(x, k);
      if i > 0 {
        ModPow2Bit(x / 2, k - 1, i - 1);
      }
    }
  }

  lemma DivModPow2(x: nat, k: nat)
    requires k > 0
    ensures (x % Pow2(k)) % 2 == x % 2
    ensures (x % Pow2(k)) / 2 == (x / 2) % Pow2(k - 1)
  {
    var p := Pow2(k - 1);
    var q := x / (2 * p);
    var r := x % (2 * p);
    assert x == q * (2 * p) + r;
    assert x == 2 * (q * p + r / 2) + r % 2;
    DivModUnique(x, 2, q * p + r / 2, r % 2);
    assert x / 2 == q * p + r / 2;
    DivModUnique(x / 2, p, q, r / 2);
  }

  lemma DivModUnique(x: int, n: nat, q: int, r: int)
    requires n > 0 && 0 <= r < n && x == q * n + r
    ensures x / n == q && x % n == r
  {
    var d := x / n;
    assert x == d * n + x % n;
    assert (d - q) * n == r - x % n;
    PyCore.MulBounds(d - q, n);
  }

  /** The powers of two a 12-bit pitch mask uses. */
  lemma Pow2Table()
    ensures Pow2(0) == 1 && Pow2(1) == 2 && Pow2(2) == 4 && Pow2(3) == 8 && Pow2(4) == 16
    ensures Pow2(5) == 32 && Pow2(6) == 64 && Pow2(7) == 128 && Pow2(8) == 256
    ensures Pow2(9) == 512 && Pow2(10) == 1024 && Pow2(11) == 2048 && Pow2(12) == 4096
  {
  }

  lemma {:induction false} Pow2Add(i: nat, j: nat)
    ensures Pow2(i + j) == Pow2(i) * Pow2(j)
    decreases i
  {
    if i > 0 {
      Pow2Add(i - 1, j);
    }
  }

  /** Placing `a` above the `j` low bits held by `b`: the low bits are `b`'s, the rest are
      `a`'s, shifted. */
  lemma {:induction false} BitConcat(x: nat, a: nat, b: nat, j: nat, i: nat)
    requires b < Pow2(j) && x == a * Pow2(j) + b
    ensures Bit(x, i) <==> if i < j then Bit(b, i) else Bit(a, i - j)
    decreases j
  {
    if j > 0 {
      ConcatStep(x, a, b, j);
      if i > 0 {
        BitConcat(x / 2, a, b / 2, j - 1, i - 1);
      }
    }
  }

  lemma MulNat(a: nat, b: nat)
    ensures a * b >= 0
  {
  }

  /** Halving `a * 2^j + b` halves `b` and lowers `j`; the low bit is `b`'s. */
  lemma ConcatStep(x: nat, a: nat, b: nat, j: nat)
    requires j > 0 && b < Pow2(j) && x == a * Pow2(j) + b
    ensures x / 2 == a * Pow2(j - 1) + b / 2
    ensures x % 2 == b % 2
    ensures b / 2 < Pow2(j - 1)
  {
    var p := Pow2(j - 1);
    assert x == (a * p + b / 2) * 2 + b % 2;
    DivModUnique(x, 2, a * p + b / 2, b % 2);
  }

  /** The set bits of `a * 2^j + b` are those of `a` and those of `b`. */
  lemma {:induction false} PopcountConcat(x: nat, a: nat, b: nat, j: nat)
    requires b < Pow2(j) && x == a * Pow2(j) + b
    ensures Popcount(x) == Popcount(a) + Popcount(b)
    decreases j
  {
    if j > 0 {
      ConcatStep(x, a, b, j);
      PopcountConcat(x / 2, a, b / 2, j - 1);
      assert Popcount(x) == x % 2 + Popcount(x / 2);
      assert Popcount(b) == b % 2 + Popcount(b / 2);
    }
  }

  /** Splitting `x` at bit `k`: the quotient holds the high bits, the remainder the low. */
  lemma DivPow2Bound(x: nat, k: nat, n: nat)
    requires x < Pow2(k + n)
    ensures x / Pow2(k) < Pow2(n) && x % Pow2(k) < Pow2(k)
    ensures x == (x / Pow2(k)) * Pow2(k) + x % Pow2(k)
  {
    Pow2Add(n, k);
    var d := Pow2(k);
    var q := x / d;
    assert x == q * d + x % d;
    if q >= Pow2(n) {
      MulMonotone(Pow2(n), q, d);
    }
  }

  lemma MulMonotone(a: nat, b: nat, c: nat)
    requires a <= b
    ensures a * c <= b * c
  {
  }

  /** Euclidean division of naturals stays natural. */
  lemma DivNat(x: nat, d: nat)
    requires d > 0
    ensures 0 <= x / d && 0 <= x % d < d
  {
  }

  /** A two-digit number in base `q` is below `p * q` when its high digit is below `p`. */
  lemma MulBelow(a: nat, b: nat, p: nat, q: nat)
    requires a < p && b < q
    ensures a * q + b < p * q
  {
    MulMonotone(a, p - 1, q);
    assert (p - 1) * q == p * q - q;
  }
}
