/** The demo page's BLAKE2b: 64-bit words as adjacent pairs of 32-bit array cells, low half
    first, and working arrays that every hash computation shares. A JavaScript number stored
    into such a cell keeps its residue modulo 2^32; the model stores the residue. */
module BrowserBlake2b {
  import opened Words
  import opened Rfc7693

  /** Cell i of the table of initialization vector halves. */
  function B2B_IV(i: nat): U32
    requires i < 16
  {
    if i == 0 then 0xf3bcc908
    else if i == 1 then 0x6a09e667
    else if i == 2 then 0x84caa73b
    else if i == 3 then 0xbb67ae85
    else if i == 4 then 0xfe94f82b
    else if i == 5 then 0x3c6ef372
    else if i == 6 then 0x5f1d36f1
    else if i == 7 then 0xa54ff53a
    else if i == 8 then 0xade682d1
    else if i == 9 then 0x510e527f
    else if i == 10 then 0x2b3e6c1f
    else if i == 11 then 0x9b05688c
    else if i == 12 then 0xfb41bd6b
    else if i == 13 then 0x1f83d9ab
    else if i == 14 then 0x137e2179
    else 0x5be0cd19
  }

  /** Row i of the flat table of twelve times sixteen schedule entries. */
  function SigmaRow(i: nat): seq<nat>
    requires i < 12
  {
    if i < 6 then UpperRow(i) else LowerRow(i)
  }

  function UpperRow(i: nat): seq<nat>
    requires i < 6
  {
    if i == 0 then [0, 1, 2, 3, 4, 5, 6, 7, 8, 9, 10, 11, 12, 13, 14, 15]
    else if i == 1 then [14, 10, 4, 8, 9, 15, 13, 6, 1, 12, 0, 2, 11, 7, 5, 3]
    else if i == 2 then [11, 8, 12, 0, 5, 2, 15, 13, 10, 14, 3, 6, 7, 1, 9, 4]
    else if i == 3 then [7, 9, 3, 1, 13, 12, 11, 14, 2, 6, 5, 10, 4, 0, 15, 8]
    else if i == 4 then [9, 0, 5, 7, 2, 4, 10, 15, 14, 1, 11, 12, 6, 8, 3, 13]
    else [2, 12, 6, 10, 0, 11, 8, 3, 4, 13, 7, 5, 15, 14, 1, 9]
  }

  function LowerRow(i: nat): seq<nat>
    requires 6 <= i < 12
  {
    if i == 6 then [12, 5, 1, 15, 14, 13, 4, 10, 0, 7, 6, 3, 9, 2, 8, 11]
    else if i == 7 then [13, 11, 7, 14, 12, 1, 3, 9, 5, 0, 15, 4, 8, 6, 2, 10]
    else if i == 8 then [6, 15, 14, 9, 11, 3, 0, 8, 12, 2, 13, 7, 1, 4, 10, 5]
    else if i == 9 then [10, 2, 8, 4, 7, 6, 1, 5, 15, 11, 9, 14, 3, 12, 13, 0]
    else if i == 10 then [0, 1, 2, 3, 4, 5, 6, 7, 8, 9, 10, 11, 12, 13, 14, 15]
    else [14, 10, 4, 8, 9, 15, 13, 6, 1, 12, 0, 2, 11, 7, 5, 3]
  }

  /** Row i is the permutation RFC 7693 uses in round i, rounds 10 and 11 repeating the first two. */
  lemma SigmaRowIsPermutation(i: nat)
    requires i < 12
    ensures SigmaRow(i) == Permutation(i)
  {
    if i < 6 {
      UpperRows(i);
    } else {
      LowerRows(i);
    }
  }

  lemma UpperRows(i: nat)
    requires i < 6
    ensures UpperRow(i) == Permutation(i)
  {
  }

  lemma LowerRows(i: nat)
    requires 6 <= i < 12
    ensures LowerRow(i) == Permutation(i)
  {
  }

  function B2B_SIGMA(k: nat): (index: nat)
    requires k < 192
    ensures index < 16
  {
    SigmaRowIsPermutation(k / 16);
    SigmaRow(k / 16)[k % 16]
  }

  /** The 64-bit words that a run of 32-bit cells holds. */
  function Paired(s: seq<U32>): (w: seq<U64>)
    ensures |w| == |s| / 2
  {
    seq(|s| / 2, i requires 0 <= i < |s| / 2 => Join(s[2 * i], s[2 * i + 1]))
  }

  lemma PairedUpdate(s: seq<U32>, i: nat, lo: U32, hi: U32)
    requires 2 * i + 1 < |s|
    ensures Paired(s[2 * i := lo][2 * i + 1 := hi]) == Paired(s)[i := Join(lo, hi)]
  {
    var s' := s[2 * i := lo][2 * i + 1 := hi];
    forall k | 0 <= k < |s| / 2
      ensures Paired(s')[k] == Paired(s)[i := Join(lo, hi)][k]
    {
      if k != i {
        assert s'[2 * k] == s[2 * k] && s'[2 * k + 1] == s[2 * k + 1];
      }
    }
  }

  /** Adding halves with a carry is addition modulo 2^64. */
  lemma AddHalves(a0: U32, a1: U32, b0: U32, b1: U32)
    ensures var o0 := a0 + b0;
            var o1 := if o0 >= 0x1_0000_0000 then a1 + b1 + 1 else a1 + b1;
            Join(o0 % 0x1_0000_0000, o1 % 0x1_0000_0000) == Add64(Join(a0, a1), Join(b0, b1))
  {
    var o0 := a0 + b0;
    var o1 := if o0 >= 0x1_0000_0000 then a1 + b1 + 1 else a1 + b1;
    assert Join(a0, a1) + Join(b0, b1) == o0 % 0x1_0000_0000 + 0x1_0000_0000 * o1;
    assert o1 == o1 % 0x1_0000_0000 + 0x1_0000_0000 * (if o1 >= 0x1_0000_0000 then 1 else 0);
  }

  lemma Residue(x: U32)
    ensures x % 0x1_0000_0000 == x
  {
  }

  lemma Residue64(x: U64, y: U64)
    ensures Add64(Add64(x, y), 0) == Add64(x, y)
  {
  }

  // In what follows i, j, k, l are word numbers: the cells of word i are 2 * i and 2 * i + 1.

  method ADD64AA(v: array<U32>, a: nat, b: nat, ghost i: nat, ghost j: nat)
    requires v.Length == 32 && a == 2 * i && b == 2 * j && i < 16 && j < 16
    modifies v
    ensures Paired(v[..]) == var w := old(Paired(v[..])); w[i := Add64(w[i], w[j])]
  {
    ghost var s := v[..];
    var o0: int := v[a] as int + v[b];
    var o1: int := v[a + 1] as int + v[b + 1];
    if o0 >= 0x1_0000_0000 { o1 := o1 + 1; }
    v[a], v[a + 1] := o0 % 0x1_0000_0000, o1 % 0x1_0000_0000;
    assert v[..] == s[2 * i := v[a]][2 * i + 1 := v[a + 1]];
    AddHalves(s[2 * i], s[2 * i + 1], s[b], s[b + 1]);
    PairedUpdate(s, i, v[a], v[a + 1]);
  }

  lemma SignedResidue(x: int)
    requires -0x8000_0000 <= x < 0x1_0000_0000
    ensures x % 0x1_0000_0000 == if x < 0 then x + 0x1_0000_0000 else x
  {
  }

  /** The addend may be a signed 32-bit value; it counts as its residue. */
  method ADD64AC(v: array<U32>, a: nat, b0: int, b1: int, ghost i: nat)
    requires v.Length == 32 && a == 2 * i && i < 16
    requires -0x8000_0000 <= b0 < 0x1_0000_0000 && 0 <= b1 < 0x1_0000_0000
    modifies v
    ensures Paired(v[..]) == var w := old(Paired(v[..])); w[i := Add64(w[i], Join(b0 % 0x1_0000_0000, b1))]
  {
    ghost var s := v[..];
    var o0: int := v[a] as int + b0;
    if b0 < 0 { o0 := o0 + 0x1_0000_0000; }
    ghost var b: U32 := if b0 < 0 then b0 + 0x1_0000_0000 else b0;
    SignedResidue(b0);
    var o1: int := v[a + 1] as int + b1;
    if o0 >= 0x1_0000_0000 { o1 := o1 + 1; }
    v[a], v[a + 1] := o0 % 0x1_0000_0000, o1 % 0x1_0000_0000;
    assert v[..] == s[2 * i := v[a]][2 * i + 1 := v[a + 1]];
    AddHalves(s[2 * i], s[2 * i + 1], b, b1);
    PairedUpdate(s, i, v[a], v[a + 1]);
  }

  // Shifting right by n divides by 2^n; shifting left multiplies and keeps the residue.

  function Shr(x: U32, n: nat): U32
    requires n in {16, 24, 31}
  {
    if n == 16 then x / 0x1_0000 else if n == 24 then x / 0x100_0000 else x / 0x8000_0000
  }

  function Shl(x: U32, n: nat): U32
    requires n in {1, 8, 16}
  {
    if n == 16 then (x * 0x1_0000) % 0x1_0000_0000
    else if n == 8 then (x * 0x100) % 0x1_0000_0000
    else (x * 2) % 0x1_0000_0000
  }

  lemma XorAbove(k: nat, p: nat, high: nat, low: nat)
    requires p == Pow2(k) && low < p
    ensures Xor(low, high * p) == low + high * p
  {
    XorDisjoint(k, high, low);
  }

  lemma LowBits24(y: U32)
    ensures (y * 0x100) % 0x1_0000_0000 == (y % 0x100_0000) * 0x100
  {
    var q, r := y / 0x100_0000, y % 0x100_0000;
    assert y * 0x100 == q * 0x1_0000_0000 + r * 0x100;
  }

  lemma Funnel24(x: U32, y: U32)
    ensures Xor32(Shr(x, 24), Shl(y, 8)) == x / 0x100_0000 + (y % 0x100_0000) * 0x100
  {
    PowerTable();
    LowBits24(y);
    XorAbove(8, 0x100, y % 0x100_0000, x / 0x100_0000);
  }

  lemma LowBits16(y: U32)
    ensures (y * 0x1_0000) % 0x1_0000_0000 == (y % 0x1_0000) * 0x1_0000
  {
    var q, r := y / 0x1_0000, y % 0x1_0000;
    assert y * 0x1_0000 == q * 0x1_0000_0000 + r * 0x1_0000;
  }

  lemma Funnel16(x: U32, y: U32)
    ensures Xor32(Shr(x, 16), Shl(y, 16)) == x / 0x1_0000 + (y % 0x1_0000) * 0x1_0000
  {
    PowerTable();
    LowBits16(y);
    XorAbove(16, 0x1_0000, y % 0x1_0000, x / 0x1_0000);
  }

  lemma LowBits31(y: U32)
    ensures (y * 2) % 0x1_0000_0000 == (y % 0x8000_0000) * 2
  {
    var q, r := y / 0x8000_0000, y % 0x8000_0000;
    assert y * 2 == q * 0x1_0000_0000 + r * 2;
  }

  lemma Funnel31(x: U32, y: U32)
    ensures Xor32(Shr(x, 31), Shl(y, 1)) == x / 0x8000_0000 + (y % 0x8000_0000) * 2
  {
    PowerTable();
    LowBits31(y);
    XorAbove(1, 2, y % 0x8000_0000, x / 0x8000_0000);
  }

  lemma RotateBy24(x0: U32, x1: U32)
    ensures Join(Xor32(Shr(x0, 24), Shl(x1, 8)), Xor32(Shr(x1, 24), Shl(x0, 8))) == RotR(Join(x0, x1), 24)
  {
    Funnel24(x0, x1);
    Funnel24(x1, x0);
    SplitAt24(x0, x1);
  }

  lemma SplitAt24(x0: U32, x1: U32)
    ensures Join(x0, x1) % 0x100_0000 == x0 % 0x100_0000
    ensures Join(x0, x1) / 0x100_0000 == x0 / 0x100_0000 + x1 * 0x100
  {
    var q, r := x0 / 0x100_0000, x0 % 0x100_0000;
    assert Join(x0, x1) == (q + x1 * 0x100) * 0x100_0000 + r;
  }

  lemma RotateBy16(x0: U32, x1: U32)
    ensures Join(Xor32(Shr(x0, 16), Shl(x1, 16)), Xor32(Shr(x1, 16), Shl(x0, 16))) == RotR(Join(x0, x1), 16)
  {
    Funnel16(x0, x1);
    Funnel16(x1, x0);
    SplitAt16(x0, x1);
  }

  lemma SplitAt16(x0: U32, x1: U32)
    ensures Join(x0, x1) % 0x1_0000 == x0 % 0x1_0000
    ensures Join(x0, x1) / 0x1_0000 == x0 / 0x1_0000 + x1 * 0x1_0000
  {
    var q, r := x0 / 0x1_0000, x0 % 0x1_0000;
    assert Join(x0, x1) == (q + x1 * 0x1_0000) * 0x1_0000 + r;
  }

  lemma RotateBy63(x0: U32, x1: U32)
    ensures Join(Xor32(Shr(x1, 31), Shl(x0, 1)), Xor32(Shr(x0, 31), Shl(x1, 1))) == RotR(Join(x0, x1), 63)
  {
    Funnel31(x1, x0);
    Funnel31(x0, x1);
    SplitAt63(x0, x1);
  }

  lemma SplitAt63(x0: U32, x1: U32)
    ensures Join(x0, x1) / 0x8000_0000_0000_0000 == x1 / 0x8000_0000
    ensures Join(x0, x1) % 0x8000_0000_0000_0000 == x0 + 0x1_0000_0000 * (x1 % 0x8000_0000)
  {
    var q, r := x1 / 0x8000_0000, x1 % 0x8000_0000;
    assert Join(x0, x1) == q * 0x8000_0000_0000_0000 + (x0 + 0x1_0000_0000 * r);
  }

  lemma RotateBy32(x0: U32, x1: U32)
    ensures Join(x1, x0) == RotR(Join(x0, x1), 32)
  {
  }

  method Rotated32(x0: U32, x1: U32) returns (lo: U32, hi: U32)
    ensures Join(lo, hi) == RotR(Join(x0, x1), 32)
  {
    RotateBy32(x0, x1);
    lo, hi := x1, x0;
  }

  method Rotated24(x0: U32, x1: U32) returns (lo: U32, hi: U32)
    ensures Join(lo, hi) == RotR(Join(x0, x1), 24)
  {
    RotateBy24(x0, x1);
    lo, hi := Xor32(Shr(x0, 24), Shl(x1, 8)), Xor32(Shr(x1, 24), Shl(x0, 8));
  }

  method Rotated16(x0: U32, x1: U32) returns (lo: U32, hi: U32)
    ensures Join(lo, hi) == RotR(Join(x0, x1), 16)
  {
    RotateBy16(x0, x1);
    lo, hi := Xor32(Shr(x0, 16), Shl(x1, 16)), Xor32(Shr(x1, 16), Shl(x0, 16));
  }

  method Rotated63(x0: U32, x1: U32) returns (lo: U32, hi: U32)
    ensures Join(lo, hi) == RotR(Join(x0, x1), 63)
  {
    RotateBy63(x0, x1);
    lo, hi := Xor32(Shr(x1, 31), Shl(x0, 1)), Xor32(Shr(x0, 31), Shl(x1, 1));
  }

  /** The cells a, b, c, d hold the low halves of the words of a lane. */
  ghost predicate OnLane(a: nat, b: nat, c: nat, d: nat, l: Lane) {
    && a == 2 * l.a && b == 2 * l.b && c == 2 * l.c && d == 2 * l.d
    && l.a < 16 && l.b < 16 && l.c < 16 && l.d < 16
  }

  /** The working arrays, allocated once for the page and used by every hash computation. */
  class Scratch {
    const v: array<U32>
    const m: array<U32>

    ghost predicate Valid()
      reads this
    {
      v.Length == 32 && m.Length == 32 && v != m
    }

    constructor ()
      ensures Valid() && fresh(v) && fresh(m)
    {
      v := new U32[32];
      m := new U32[32];
    }

    /** The cells a, b, c, d of v and ix, iy of m are the low halves of words. */
    method B2B_G(a: nat, b: nat, c: nat, d: nat, ix: nat, iy: nat, ghost l: Lane, ghost i: nat, ghost j: nat)
      requires Valid() && OnLane(a, b, c, d, l) && ix == 2 * i && iy == 2 * j && i < 16 && j < 16
      modifies v
      ensures Paired(v[..]) == old(G(Paired(v[..]), l.a, l.b, l.c, l.d, Paired(m[..])[i], Paired(m[..])[j]))
    {
      var x0, x1, y0, y1 := m[ix], m[ix + 1], m[iy], m[iy + 1];
      ghost var w, x, y := Paired(v[..]), Paired(m[..])[i], Paired(m[..])[j];
      MixFirst(a, b, c, d, x0, x1, l);
      ghost var w' := HalfMix(w, l.a, l.b, l.c, l.d, x, 32, 24);
      assert Paired(v[..]) == w';
      MixSecond(a, b, c, d, y0, y1, l);
      assert Paired(v[..]) == HalfMix(w', l.a, l.b, l.c, l.d, y, 16, 63);
    }

    method MixFirst(a: nat, b: nat, c: nat, d: nat, x0: U32, x1: U32, ghost l: Lane)
      requires Valid() && OnLane(a, b, c, d, l)
      modifies v
      ensures Paired(v[..]) == old(HalfMix(Paired(v[..]), l.a, l.b, l.c, l.d, Join(x0, x1), 32, 24))
    {
      Accumulate(a, b, x0, x1, l.a, l.b);
      Rotate32(d, a, l.d, l.a);
      Add(c, d, l.c, l.d);
      Rotate24(b, c, l.b, l.c);
    }

    method MixSecond(a: nat, b: nat, c: nat, d: nat, y0: U32, y1: U32, ghost l: Lane)
      requires Valid() && OnLane(a, b, c, d, l)
      modifies v
      ensures Paired(v[..]) == old(HalfMix(Paired(v[..]), l.a, l.b, l.c, l.d, Join(y0, y1), 16, 63))
    {
      Accumulate(a, b, y0, y1, l.a, l.b);
      Rotate16(d, a, l.d, l.a);
      Add(c, d, l.c, l.d);
      Rotate63(b, c, l.b, l.c);
    }

    // The statements of B2B_G, one method for each kind.

    method Accumulate(a: nat, b: nat, x0: U32, x1: U32, ghost i: nat, ghost j: nat)
      requires Valid() && a == 2 * i && b == 2 * j && i < 16 && j < 16
      modifies v
      ensures Paired(v[..]) == old(AddTo(Paired(v[..]), i, j, Join(x0, x1)))
    {
      ghost var u := Paired(v[..]);
      ADD64AA(v, a, b, i, j);
      ghost var u' := Paired(v[..]);
      ADD64AC(v, a, x0, x1, i);
      Residue(x0);
      assert Paired(v[..]) == u'[i := Add64(u'[i], Join(x0, x1))];
      assert u' == u[i := Add64(u[i], u[j])];
    }

    method Add(c: nat, d: nat, ghost i: nat, ghost j: nat)
      requires Valid() && c == 2 * i && d == 2 * j && i < 16 && j < 16
      modifies v
      ensures Paired(v[..]) == old(AddTo(Paired(v[..]), i, j, 0))
    {
      ghost var u := Paired(v[..]);
      ADD64AA(v, c, d, i, j);
      Residue64(u[i], u[j]);
    }

    method Rotate32(a: nat, b: nat, ghost i: nat, ghost j: nat)
      requires Valid() && a == 2 * i && b == 2 * j && i < 16 && j < 16
      modifies v
      ensures Paired(v[..]) == old(XorRot(Paired(v[..]), i, j, 32))
    {
      var xor0, xor1 := Xor32(v[a], v[b]), Xor32(v[a + 1], v[b + 1]);
      var lo, hi := Rotated32(xor0, xor1);
      SetXorRot(a, lo, hi, 32, xor0, xor1, i, j);
    }

    method Rotate24(a: nat, b: nat, ghost i: nat, ghost j: nat)
      requires Valid() && a == 2 * i && b == 2 * j && i < 16 && j < 16
      modifies v
      ensures Paired(v[..]) == old(XorRot(Paired(v[..]), i, j, 24))
    {
      var xor0, xor1 := Xor32(v[a], v[b]), Xor32(v[a + 1], v[b + 1]);
      var lo, hi := Rotated24(xor0, xor1);
      SetXorRot(a, lo, hi, 24, xor0, xor1, i, j);
    }

    method Rotate16(a: nat, b: nat, ghost i: nat, ghost j: nat)
      requires Valid() && a == 2 * i && b == 2 * j && i < 16 && j < 16
      modifies v
      ensures Paired(v[..]) == old(XorRot(Paired(v[..]), i, j, 16))
    {
      var xor0, xor1 := Xor32(v[a], v[b]), Xor32(v[a + 1], v[b + 1]);
      var lo, hi := Rotated16(xor0, xor1);
      SetXorRot(a, lo, hi, 16, xor0, xor1, i, j);
    }

    method Rotate63(a: nat, b: nat, ghost i: nat, ghost j: nat)
      requires Valid() && a == 2 * i && b == 2 * j && i < 16 && j < 16
      modifies v
      ensures Paired(v[..]) == old(XorRot(Paired(v[..]), i, j, 63))
    {
      var xor0, xor1 := Xor32(v[a], v[b]), Xor32(v[a + 1], v[b + 1]);
      var lo, hi := Rotated63(xor0, xor1);
      SetXorRot(a, lo, hi, 63, xor0, xor1, i, j);
    }

    /** Store the two halves of a rotated exclusive or. */
    method SetXorRot(a: nat, lo: U32, hi: U32, ghost n: nat, ghost xor0: U32, ghost xor1: U32, ghost i: nat, ghost j: nat)
      requires Valid() && a == 2 * i && i < 16 && j < 16 && n in {16, 24, 32, 63}
      requires xor0 == Xor32(v[2 * i], v[2 * j]) && xor1 == Xor32(v[2 * i + 1], v[2 * j + 1])
      requires Join(lo, hi) == RotR(Join(xor0, xor1), n)
      modifies v
      ensures Paired(v[..]) == old(XorRot(Paired(v[..]), i, j, n))
    {
      ghost var s: seq<U32> := v[..];
      XorRotPaired(s, i, j, lo, hi, n, xor0, xor1);
      v[a], v[a + 1] := lo, hi;
      assert v[..] == s[2 * i := lo][2 * i + 1 := hi];
    }
  }

  lemma XorRotPaired(s: seq<U32>, i: nat, j: nat, lo: U32, hi: U32, n: nat, xor0: U32, xor1: U32)
    requires |s| == 32 && i < 16 && j < 16 && n in {16, 24, 32, 63}
    requires xor0 == Xor32(s[2 * i], s[2 * j]) && xor1 == Xor32(s[2 * i + 1], s[2 * j + 1])
    requires Join(lo, hi) == RotR(Join(xor0, xor1), n)
    ensures Paired(s[2 * i := lo][2 * i + 1 := hi]) == XorRot(Paired(s), i, j, n)
  {
    XorJoin(s[2 * i], s[2 * i + 1], s[2 * j], s[2 * j + 1]);
    PairedUpdate(s, i, lo, hi);
  }
}
