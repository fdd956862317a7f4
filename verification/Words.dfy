/** Fixed-width words as numbers: JavaScript's bitwise operators work on residues modulo 2^32,
    the hash of RFC 7693 on residues modulo 2^64. */
module Words {

  const TWO32: nat := 0x1_0000_0000
  const TWO64: nat := 0x1_0000_0000_0000_0000

  type Octet = x: int | 0 <= x < 256
  type U32 = x: int | 0 <= x < 0x1_0000_0000
  type U64 = x: int | 0 <= x < 0x1_0000_0000_0000_0000

  function Pow2(k: nat): (p: nat)
    ensures p > 0
  {
    if k == 0 then 1 else 2 * Pow2(k - 1)
  }

  /** Bitwise exclusive or, bit by bit from the low end. */
  function Xor(x: nat, y: nat): nat
    decreases x + y
  {
    if x == 0 && y == 0 then 0
    else 2 * Xor(x / 2, y / 2) + (if x % 2 == y % 2 then 0 else 1)
  }

  /** The 64-bit word whose low and high halves are lo and hi. */
  function Join(lo: U32, hi: U32): (w: U64) {
    lo + 0x1_0000_0000 * hi
  }

  function Scale(a: nat, k: nat): nat { a * Pow2(k) }

  lemma ScaleStep(a: nat, k: nat)
    requires k > 0
    ensures Scale(a, k) == 2 * Scale(a, k - 1)
  {
    var p := Pow2(k - 1);
    assert a * (2 * p) == 2 * (a * p);
  }

  lemma Halve(m: nat, b: nat)
    ensures (2 * m + b) / 2 == m + b / 2 && (2 * m + b) % 2 == b % 2
  {
  }

  /** Exclusive or of a shifted number plus a low part works on the two parts separately. */
  lemma {:induction false} XorSplit(k: nat, a: nat, b: nat, c: nat, d: nat)
    requires b < Pow2(k) && d < Pow2(k)
    ensures Xor(Scale(a, k) + b, Scale(c, k) + d) == Scale(Xor(a, c), k) + Xor(b, d)
  {
    if k == 0 {
      assert Scale(a, 0) == a && Scale(c, 0) == c && Scale(Xor(a, c), 0) == Xor(a, c);
    } else {
      ScaleStep(a, k);
      ScaleStep(c, k);
      ScaleStep(Xor(a, c), k);
      XorSplit(k - 1, a, b / 2, c, d / 2);
      XorStep(Scale(a, k) + b, Scale(c, k) + d);
      Halve(Scale(a, k - 1), b);
      Halve(Scale(c, k - 1), d);
      XorStep(b, d);
    }
  }

  /** The defining equation, also at zero. */
  lemma XorStep(x: nat, y: nat)
    ensures Xor(x, y) == 2 * Xor(x / 2, y / 2) + (if x % 2 == y % 2 then 0 else 1)
  {
  }

  lemma {:induction false} XorBound(k: nat, x: nat, y: nat)
    requires x < Pow2(k) && y < Pow2(k)
    ensures Xor(x, y) < Pow2(k)
  {
    if k > 0 {
      XorBound(k - 1, x / 2, y / 2);
      XorStep(x, y);
    }
  }

  lemma {:induction false} XorZero(x: nat)
    ensures Xor(x, 0) == x == Xor(0, x)
  {
    if x > 0 {
      XorZero(x / 2);
    }
  }

  /** Exclusive or with all ones inverts every bit. */
  lemma {:induction false} XorOnes(k: nat, x: nat)
    requires x < Pow2(k)
    ensures Xor(x, Pow2(k) - 1) == Pow2(k) - 1 - x
  {
    if k > 0 {
      XorOnes(k - 1, x / 2);
      XorStep(x, Pow2(k) - 1);
      OnesHalve(Pow2(k - 1));
    }
  }

  lemma OnesHalve(p: nat)
    requires p > 0
    ensures (2 * p - 1) / 2 == p - 1 && (2 * p - 1) % 2 == 1
  {
  }

  lemma PowerTable()
    ensures Pow2(8) == 0x100 && Pow2(16) == 0x1_0000 && Pow2(24) == 0x100_0000
    ensures Pow2(1) == 2 && Pow2(31) == 0x8000_0000 && Pow2(32) == TWO32 && Pow2(64) == TWO64
  {
    assert Pow2(4) == 16;
    assert Pow2(8) == 256;
    assert Pow2(12) == 0x1000;
    assert Pow2(16) == 0x1_0000;
    assert Pow2(20) == 0x10_0000;
    assert Pow2(24) == 0x100_0000;
    assert Pow2(28) == 0x1000_0000;
    assert Pow2(32) == TWO32;
    Pow2Sum(32, 32);
  }

  lemma {:induction false} Pow2Sum(j: nat, k: nat)
    ensures Pow2(j + k) == Pow2(j) * Pow2(k)
  {
    if j > 0 {
      Pow2Sum(j - 1, k);
      assert Pow2(j + k) == 2 * Pow2(j - 1 + k);
      Twice(Pow2(j - 1), Pow2(k));
    }
  }

  lemma Twice(a: nat, b: nat)
    ensures 2 * (a * b) == (2 * a) * b
  {
  }

  /** Exclusive or of two numbers with no bit in common is their sum. */
  lemma XorDisjoint(k: nat, high: nat, low: nat)
    requires low < Pow2(k)
    ensures Xor(Scale(high, k), low) == Scale(high, k) + low == Xor(low, Scale(high, k))
  {
    XorSplit(k, high, 0, 0, low);
    XorSplit(k, 0, low, high, 0);
    XorZero(high);
    XorZero(low);
    assert Scale(0, k) == 0;
  }

  function Xor32(x: U32, y: U32): (z: U32) {
    PowerTable(); XorBound(32, x, y);
    Xor(x, y)
  }

  function Xor64(x: U64, y: U64): (z: U64) {
    PowerTable(); XorBound(64, x, y);
    Xor(x, y)
  }

  /** Exclusive or of 64-bit words works half by half. */
  lemma XorJoin(a0: U32, a1: U32, b0: U32, b1: U32)
    ensures Join(Xor32(a0, b0), Xor32(a1, b1)) == Xor64(Join(a0, a1), Join(b0, b1))
  {
    PowerTable();
    XorSplit(32, a1, a0, b1, b0);
  }
}
