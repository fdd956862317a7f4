/** The demo page's compression function and its streaming interface over a 128-byte buffer
    that is flushed only when a further byte arrives. */
module BrowserHash {
  import opened Words
  import opened Rfc7693
  import opened BrowserBlake2b

  function IvCells(): (cells: seq<U32>)
    ensures |cells| == 16
  {
    seq(16, i requires 0 <= i < 16 => B2B_IV(i))
  }

  lemma IvHalves()
    ensures Paired(IvCells()) == InitialVector()
  {
    forall i | 0 <= i < 8
      ensures Paired(IvCells())[i] == IV(i)
    {
    }
  }

  /** The 32-bit number in four bytes of the buffer, as the demo assembles it by shifting. */
  function B2B_GET32(b: Block, i: nat): (x: U32)
    requires i + 3 < 128
    ensures x == LittleEndian(b[i], b[i + 1], b[i + 2], b[i + 3])
  {
    ShiftedBytes(b[i], b[i + 1], b[i + 2], b[i + 3]);
    Xor32(Xor32(Xor32(b[i], Shl(b[i + 1], 8)), Shl(b[i + 2], 16)), b[i + 3] as int * 0x100_0000)
  }

  lemma ShiftedBytes(b0: nat, b1: nat, b2: nat, b3: nat)
    requires b0 < 256 && b1 < 256 && b2 < 256 && b3 < 256
    ensures Xor32(Xor32(Xor32(b0, Shl(b1, 8)), Shl(b2, 16)), b3 * 0x100_0000)
         == LittleEndian(b0, b1, b2, b3)
  {
    OctetShift(b1);
    OctetShift(b2);
    XorOctet(8, 0x100, b0, b1);
    XorOctet(16, 0x1_0000, b0 + b1 * 0x100, b2);
    XorOctet(24, 0x100_0000, b0 + b1 * 0x100 + b2 * 0x1_0000, b3);
  }

  lemma OctetShift(b: nat)
    requires b < 256
    ensures Shl(b, 8) == b * 0x100 && Shl(b, 16) == b * 0x1_0000
  {
  }

  lemma XorOctet(k: nat, p: nat, low: nat, b: nat)
    requires (k == 8 && p == 0x100) || (k == 16 && p == 0x1_0000) || (k == 24 && p == 0x100_0000)
    requires low < p && b < 256
    ensures 0 <= b * p < TWO32 && Xor32(low, b * p) == low + b * p
  {
    assert p == Pow2(k) by { PowerTable(); }
    XorAbove(k, p, b, low);
  }

  /** The 32-bit halves of a byte counter, read as JavaScript reads t and t / 2^32. */
  lemma CounterHalves(t: nat)
    requires t < TWO64
    ensures Join(t % 0x1_0000_0000, (t / 0x1_0000_0000) % 0x1_0000_0000) == t % TWO64
    ensures (t / TWO64) % TWO64 == 0
  {
  }

  lemma AllOnes(w: U64)
    ensures Xor64(w, 0xffff_ffff_ffff_ffff) == 0xffff_ffff_ffff_ffff - w
  {
    PowerTable();
    XorOnes(64, w);
  }

  lemma ScheduleEntry(i: nat, j: nat)
    requires i < 12 && j < 16
    ensures B2B_SIGMA(i * 16 + j) == Permutation(i)[j]
  {
    SigmaRowIsPermutation(i);
    assert (i * 16 + j) / 16 == i && (i * 16 + j) % 16 == j;
  }

  /** Row i of the flat table reads as the permutation s. */
  ghost predicate TableRow(i: nat, s: Schedule)
    requires i < 12
  {
    forall j :: 0 <= j < 16 ==> B2B_SIGMA(i * 16 + j) == s[j]
  }

  /** The cell of the low half of the message word that entry j of row i names. */
  method SigmaCell(i: nat, j: nat, ghost s: Schedule) returns (cell: nat)
    requires i < 12 && j < 16 && TableRow(i, s)
    ensures cell == 2 * s[j]
  {
    cell := B2B_SIGMA(i * 16 + j) * 2;
  }

  /** Names a step, so that the next definition is used for that step only. */
  ghost predicate Step(k: nat) { true }

  /** tr lists a vector and what each further mixing of a round makes of it. */
  ghost predicate Steps(tr: nat -> Vector, m: Vector, s: Schedule) {
    forall k {:trigger Step(k)} :: 0 <= k < 8 && Step(k) ==>
      var l := LaneAt(k);
      tr(k + 1) == G(tr(k), l.a, l.b, l.c, l.d, m[s[2 * k]], m[s[2 * k + 1]])
  }

  ghost function MixTrace(w: Vector, m: Vector, s: Schedule): (tr: nat -> Vector)
    ensures Steps(tr, m, s) && tr(0) == w && tr(8) == Mixed(w, m, s, 8)
  {
    (k: nat) => if k <= 8 then Mixed(w, m, s, k) else w
  }

  lemma RoundsStep(w: Vector, m: Vector, i: nat)
    requires i < 12
    ensures Rounds(w, m, AllPermutations()[..i + 1])
         == Mixed(Rounds(w, m, AllPermutations()[..i]), m, Permutation(i), 8)
  {
    assert AllPermutations()[..i + 1][..i] == AllPermutations()[..i];
  }

  lemma PairedConcat(x: seq<U32>, y: seq<U32>)
    requires |x| % 2 == 0
    ensures Paired(x + y) == Paired(x) + Paired(y)
  {
    forall k | 0 <= k < |x + y| / 2
      ensures Paired(x + y)[k] == (Paired(x) + Paired(y))[k]
    {
    }
  }

  /** The 32 cells of the working vector: the state, the initialization vector, the byte counter
      exclusive-ored into word 12, and word 14 inverted for the last block. */
  function StartCells(h: seq<U32>, t: nat, last: bool): (s: seq<U32>)
    requires |h| == 16 && t < TWO64
    ensures |s| == 32
  {
    var s := Counted(h + IvCells(), t);
    if last then Inverted(s) else s
  }

  function Counted(s: seq<U32>, t: nat): (s': seq<U32>)
    requires |s| == 32 && t < TWO64
    ensures |s'| == 32
  {
    s[24 := Xor32(s[24], t % 0x1_0000_0000)][25 := Xor32(s[25], (t / 0x1_0000_0000) % 0x1_0000_0000)]
  }

  function Inverted(s: seq<U32>): (s': seq<U32>)
    requires |s| == 32
    ensures |s'| == 32
  {
    s[28 := 0xffff_ffff - s[28]][29 := 0xffff_ffff - s[29]]
  }

  lemma CountedPaired(s: seq<U32>, t: nat)
    requires |s| == 32 && t < TWO64
    ensures var w := Paired(s);
            Paired(Counted(s, t)) == w[12 := Xor64(w[12], t % TWO64)][13 := Xor64(w[13], (t / TWO64) % TWO64)]
  {
    var t0, t1 := t % 0x1_0000_0000, (t / 0x1_0000_0000) % 0x1_0000_0000;
    var w := Paired(s);
    CounterHalves(t);
    XorJoin(s[24], s[25], t0, t1);
    PairedUpdate(s, 12, Xor32(s[24], t0), Xor32(s[25], t1));
    XorZero(w[13]);
    assert w[12 := Xor64(w[12], t % TWO64)][13 := w[13]] == w[12 := Xor64(w[12], t % TWO64)];
  }

  lemma InvertedPaired(s: seq<U32>)
    requires |s| == 32
    ensures Paired(Inverted(s)) == Paired(s)[14 := Xor64(Paired(s)[14], 0xffff_ffff_ffff_ffff)]
  {
    AllOnes(Join(s[28], s[29]));
    PairedUpdate(s, 14, 0xffff_ffff - s[28], 0xffff_ffff - s[29]);
  }

  lemma StartCellsPaired(h: seq<U32>, t: nat, last: bool)
    requires |h| == 16 && t < TWO64
    ensures Paired(StartCells(h, t, last)) == Start(Paired(h), t, last)
  {
    PairedConcat(h, IvCells());
    IvHalves();
    CountedPaired(h + IvCells(), t);
    InvertedPaired(Counted(h + IvCells(), t));
  }

  /** A message taken in piece by piece. */
  lemma Pieces(msg: seq<Octet>, input: seq<Octet>, i: nat)
    requires i <= |input|
    ensures msg + input[..0] == msg && msg + input[..|input|] == msg + input
    ensures i < |input| ==> msg + input[..i + 1] == msg + input[..i] + [input[i]]
  {
  }

  /** The cells read from a block are the halves of its words. */
  lemma CellsPair(m: seq<U32>, b: seq<Octet>)
    requires |m| == 32 && |b| == 128
    requires forall k :: 0 <= k < 32 ==> m[k] == LittleEndian(b[4 * k], b[4 * k + 1], b[4 * k + 2], b[4 * k + 3])
    ensures Paired(m) == BlockWords(b)
  {
    forall k | 0 <= k < 16
      ensures Paired(m)[k] == BlockWords(b)[k]
    {
      CellsAt(m, b, k, 2 * k, 2 * k + 1);
    }
  }

  lemma CellsAt(m: seq<U32>, b: seq<Octet>, k: nat, lo: nat, hi: nat)
    requires |m| == 32 && |b| == 128 && k < 16 && lo == 2 * k && hi == 2 * k + 1
    requires m[lo] == LittleEndian(b[4 * lo], b[4 * lo + 1], b[4 * lo + 2], b[4 * lo + 3])
    requires m[hi] == LittleEndian(b[4 * hi], b[4 * hi + 1], b[4 * hi + 2], b[4 * hi + 3])
    ensures Join(m[lo], m[hi]) == Word(b, k)
  {
    assert 4 * lo == 8 * k && 4 * hi == 8 * k + 4;
  }

  /** A hash computation in progress. */
  class Context {
    const b: array<Octet>
    const h: array<U32>
    ghost const f: Compression
    var t: nat
    var c: nat

    ghost predicate Valid()
      reads this
    {
      b.Length == 128 && h.Length == 16 && c <= 128 && t < TWO64
    }

    /** The working arrays are not this context's own. */
    ghost predicate Apart(sc: Scratch)
      reads this, sc
    {
      sc.Valid() && sc.v != h && sc.m != h
    }

    /** The working vector at the start of the compression. */
    method LoadVector(sc: Scratch, last: bool)
      requires Valid() && Apart(sc)
      modifies sc.v
      ensures Paired(sc.v[..]) == Start(Paired(h[..]), t, last)
    {
      var v := sc.v;
      for i := 0 to 16
        invariant forall k :: 0 <= k < i ==> v[k] == h[k] && v[k + 16] == B2B_IV(k)
      {
        v[i] := h[i];
        v[i + 16] := B2B_IV(i);
      }
      assert v[..] == h[..] + IvCells();
      v[24] := Xor32(v[24], t % 0x1_0000_0000);
      v[25] := Xor32(v[25], (t / 0x1_0000_0000) % 0x1_0000_0000);
      if last {
        v[28] := 0xffff_ffff - v[28];
        v[29] := 0xffff_ffff - v[29];
      }
      assert v[..] == StartCells(h[..], t, last);
      StartCellsPaired(h[..], t, last);
    }

    method LoadBlock(sc: Scratch)
      requires Valid() && Apart(sc)
      modifies sc.m
      ensures Paired(sc.m[..]) == BlockWords(b[..])
    {
      var m := sc.m;
      for i := 0 to 32
        invariant forall k :: 0 <= k < i ==> m[k] == LittleEndian(b[4 * k], b[4 * k + 1], b[4 * k + 2], b[4 * k + 3])
      {
        m[i] := B2B_GET32(b[..], 4 * i);
      }
      CellsPair(m[..], b[..]);
    }

    /** In round i, under the permutation s and the message words m, the working vector is tr(k). */
    ghost predicate MixedTo(sc: Scratch, i: nat, s: Schedule, m: Vector, tr: nat -> Vector, k: nat)
      reads this, sc, sc.v, sc.m
    {
      && Valid() && Apart(sc)
      && i < 12 && TableRow(i, s) && Paired(sc.m[..]) == m
      && Steps(tr, m, s) && Paired(sc.v[..]) == tr(k)
    }

    /** One mixing of round i: the k-th lane, on the cells a, b, c, d. */
    method Mix(sc: Scratch, i: nat, k: nat, a: nat, b: nat, c: nat, d: nat,
               ghost s: Schedule, ghost m: Vector, ghost tr: nat -> Vector)
      requires MixedTo(sc, i, s, m, tr, k) && k < 8 && OnLane(a, b, c, d, LaneAt(k))
      modifies sc.v
      ensures MixedTo(sc, i, s, m, tr, k + 1)
    {
      var ix := SigmaCell(i, 2 * k, s);
      var iy := SigmaCell(i, 2 * k + 1, s);
      assert Step(k);
      sc.B2B_G(a, b, c, d, ix, iy, LaneAt(k), s[2 * k], s[2 * k + 1]);
    }

    /** One pass of the round loop: eight mixings, on the columns and then on the diagonals. */
    method OneRound(sc: Scratch, i: nat)
      requires Valid() && Apart(sc) && i < 12
      modifies sc.v
      ensures Paired(sc.v[..]) == old(Mixed(Paired(sc.v[..]), Paired(sc.m[..]), Permutation(i), 8))
    {
      forall j | 0 <= j < 16
        ensures B2B_SIGMA(i * 16 + j) == Permutation(i)[j]
      {
        ScheduleEntry(i, j);
      }
      EightMixings(sc, i, Permutation(i), Paired(sc.m[..]),
                   MixTrace(Paired(sc.v[..]), Paired(sc.m[..]), Permutation(i)));
    }

    method EightMixings(sc: Scratch, i: nat, ghost s: Schedule, ghost m: Vector, ghost tr: nat -> Vector)
      requires MixedTo(sc, i, s, m, tr, 0)
      modifies sc.v
      ensures MixedTo(sc, i, s, m, tr, 8)
    {
      Columns01(sc, i, s, m, tr);
      Columns23(sc, i, s, m, tr);
      Diagonals45(sc, i, s, m, tr);
      Diagonals67(sc, i, s, m, tr);
    }

    method Columns01(sc: Scratch, i: nat, ghost s: Schedule, ghost m: Vector, ghost tr: nat -> Vector)
      requires MixedTo(sc, i, s, m, tr, 0)
      modifies sc.v
      ensures MixedTo(sc, i, s, m, tr, 2)
    {
      Mix(sc, i, 0, 0, 8, 16, 24, s, m, tr);
      Mix(sc, i, 1, 2, 10, 18, 26, s, m, tr);
    }

    method Columns23(sc: Scratch, i: nat, ghost s: Schedule, ghost m: Vector, ghost tr: nat -> Vector)
      requires MixedTo(sc, i, s, m, tr, 2)
      modifies sc.v
      ensures MixedTo(sc, i, s, m, tr, 4)
    {
      Mix(sc, i, 2, 4, 12, 20, 28, s, m, tr);
      Mix(sc, i, 3, 6, 14, 22, 30, s, m, tr);
    }

    method Diagonals45(sc: Scratch, i: nat, ghost s: Schedule, ghost m: Vector, ghost tr: nat -> Vector)
      requires MixedTo(sc, i, s, m, tr, 4)
      modifies sc.v
      ensures MixedTo(sc, i, s, m, tr, 6)
    {
      Mix(sc, i, 4, 0, 10, 20, 30, s, m, tr);
      Mix(sc, i, 5, 2, 12, 22, 24, s, m, tr);
    }

    method Diagonals67(sc: Scratch, i: nat, ghost s: Schedule, ghost m: Vector, ghost tr: nat -> Vector)
      requires MixedTo(sc, i, s, m, tr, 6)
      modifies sc.v
      ensures MixedTo(sc, i, s, m, tr, 8)
    {
      Mix(sc, i, 6, 4, 14, 16, 26, s, m, tr);
      Mix(sc, i, 7, 6, 8, 18, 28, s, m, tr);
    }

    /** The compression function refines F, whatever the working arrays held before. */
    method Compress(sc: Scratch, last: bool)
      requires Valid() && Apart(sc)
      modifies sc.v, sc.m, h
      ensures Paired(h[..]) == F(old(Paired(h[..])), b[..], t, last)
    {
      LoadVector(sc, last);
      LoadBlock(sc);
      RunRounds(sc);
      FoldIntoState(sc);
    }

    method RunRounds(sc: Scratch)
      requires Valid() && Apart(sc)
      modifies sc.v
      ensures Paired(sc.v[..]) == old(Rounds(Paired(sc.v[..]), Paired(sc.m[..]), AllPermutations()))
    {
      ghost var start := Paired(sc.v[..]);
      for i := 0 to 12
        invariant Paired(sc.v[..]) == Rounds(start, Paired(sc.m[..]), AllPermutations()[..i])
      {
        RoundsStep(start, Paired(sc.m[..]), i);
        OneRound(sc, i);
      }
      assert AllPermutations()[..12] == AllPermutations();
    }

    /** The closing loop of the compression. */
    method FoldIntoState(sc: Scratch)
      requires Valid() && Apart(sc)
      modifies h
      ensures Paired(h[..]) == Folded(old(Paired(h[..])), Paired(sc.v[..]))
    {
      var v := sc.v;
      for i := 0 to 16
        invariant forall k :: 0 <= k < i ==> h[k] == Xor32(Xor32(old(h[k]), v[k]), v[k + 16])
        invariant forall k :: i <= k < 16 ==> h[k] == old(h[k])
      {
        h[i] := Xor32(Xor32(h[i], v[i]), v[i + 16]);
      }
      forall k | 0 <= k < 8
        ensures Paired(h[..])[k] == Folded(old(Paired(h[..])), Paired(v[..]))[k]
      {
        XorJoin(old(h[2 * k]), old(h[2 * k + 1]), v[2 * k], v[2 * k + 1]);
        XorJoin(Xor32(old(h[2 * k]), v[2 * k]), Xor32(old(h[2 * k + 1]), v[2 * k + 1]),
                v[2 * k + 16], v[2 * k + 17]);
      }
    }

    /** The context has taken in exactly the bytes of msg: whole blocks before the last pending
        one are compressed, the rest is in the buffer. */
    ghost predicate Absorbed(msg: seq<Octet>)
      reads this, b, h
    {
      Holding(msg, Flushed(|msg|))
    }

    /** The first k blocks of the message are compressed and the rest is in the buffer. */
    ghost predicate Holding(msg: seq<Octet>, k: nat)
      reads this, b, h
    {
      && Valid() && |msg| < TWO64 && IsF(f) && 128 * k <= |msg|
      && t == 128 * k && c == |msg| - 128 * k
      && Paired(h[..]) == Chain(f, msg, k)
      && b[..c] == msg[128 * k..]
    }

    constructor (sc: Scratch)
      requires sc.Valid()
      ensures Absorbed([]) && Apart(sc) && fresh(b) && fresh(h) && f == F
    {
      b := new Octet[128](_ => 0);
      h := new U32[16](i requires 0 <= i < 16 => B2B_IV(i));
      t, c := 0, 0;
      f := F;
      new;
      assert h[..] == IvCells();
      h[0] := Xor32(h[0], 0x0101_0020);
      InitialCells(h[..]);
      FIsF();
    }

    method CompressBuffer(sc: Scratch, last: bool)
      requires Valid() && Apart(sc) && IsF(f)
      modifies sc.v, sc.m, h
      ensures Paired(h[..]) == f(old(Paired(h[..])), b[..], t, last)
    {
      assert Applied(Paired(h[..]), b[..], t, last);
      Compress(sc, last);
    }

    /** A full buffer is compressed, as not the last block. */
    method Flush(sc: Scratch, ghost msg: seq<Octet>, ghost k: nat)
      requires Holding(msg, k) && Apart(sc) && c == 128
      modifies this, h, sc.v, sc.m
      ensures Holding(msg, k + 1) && c == 0
    {
      t := t + c;
      assert b[..] == MessageBlock(msg, k);
      CompressBuffer(sc, false);
      c := 0;
    }

    method Store(x: Octet, ghost msg: seq<Octet>, ghost k: nat)
      requires Holding(msg, k) && c < 128 && |msg| + 1 < TWO64
      modifies this, b
      ensures Holding(msg + [x], k) && c > 0
    {
      ChainPrefix(f, msg, [x], k);
      ghost var pending := b[..c];
      b[c] := x;
      c := c + 1;
      assert b[..c] == pending + [x];
      assert (msg + [x])[128 * k..] == msg[128 * k..] + [x];
    }

    /** Take in one byte, compressing first only when there is no room for it. */
    method Push(sc: Scratch, x: Octet, ghost msg: seq<Octet>)
      requires Absorbed(msg) && Apart(sc) && |msg| + 128 < TWO64
      modifies this, b, h, sc.v, sc.m
      ensures Absorbed(msg + [x])
    {
      ghost var k := Flushed(|msg|);
      if c == 128 {
        Flush(sc, msg, k);
        k := k + 1;
      }
      Store(x, msg, k);
      FlushedIs(|msg| + 1, k);
    }

    method Update(sc: Scratch, input: seq<Octet>, ghost msg: seq<Octet>)
      requires Absorbed(msg) && Apart(sc) && |msg| + |input| + 128 < TWO64
      modifies this, b, h, sc.v, sc.m
      ensures Absorbed(msg + input)
    {
      ghost var taken := msg;
      Pieces(msg, input, 0);
      for i := 0 to |input|
        invariant taken == msg + input[..i] && Absorbed(taken)
      {
        Push(sc, input[i], taken);
        taken := taken + [input[i]];
        Pieces(msg, input, i);
      }
      Pieces(msg, input, |input|);
    }

    /** Close the computation: the buffer is padded with zeros and compressed as the last block. */
    method Final(sc: Scratch, ghost msg: seq<Octet>) returns (out: array<Octet>)
      requires Absorbed(msg) && Apart(sc)
      modifies this, b, h, sc.v, sc.m
      ensures fresh(out) && out[..] == Digest(FinalHash(f, msg))
    {
      CloseBlock(sc, msg, Flushed(|msg|));
      FinalHashIs(f, msg, Flushed(|msg|));
      out := Output();
    }

    method CloseBlock(sc: Scratch, ghost msg: seq<Octet>, ghost k: nat)
      requires Holding(msg, k) && Apart(sc)
      modifies this, b, h, sc.v, sc.m
      ensures Valid() && Paired(h[..]) == f(Chain(f, msg, k), MessageBlock(msg, k), |msg|, true)
    {
      t := t + c;
      Pad(msg[128 * k..]);
      assert b[..] == MessageBlock(msg, k);
      CompressBuffer(sc, true);
    }

    method Pad(ghost pending: seq<Octet>)
      requires Valid() && b[..c] == pending
      modifies this`c, b
      ensures Valid() && b[..] == pending + seq(128 - |pending|, _ => 0)
    {
      ghost var n := c;
      while c < 128
        invariant n <= c <= 128 && b[..n] == pending
        invariant forall j :: n <= j < c ==> b[j] == 0
      {
        b[c] := 0;
        c := c + 1;
      }
    }

    method Output() returns (out: array<Octet>)
      requires Valid()
      ensures fresh(out) && out[..] == Digest(Paired(h[..]))
    {
      out := new Octet[32](_ => 0);
      for i := 0 to 32
        invariant forall j :: 0 <= j < i ==> out[j] == HashByte(Paired(h[..]), j)
      {
        OutputByteIsHashByte(h[..], i);
        out[i] := OutputByte(h[..], i);
      }
    }
  }

  /** Names an application of the compression function, so that IsF is used for that one only. */
  ghost predicate Applied(h: Hash, b: Block, t: nat, last: bool) { true }

  ghost predicate IsF(f: Compression) {
    forall h, b, t, last {:trigger Applied(h, b, t, last)} ::
      Applied(h, b, t, last) ==> f(h, b, t, last) == F(h, b, t, last)
  }

  lemma FIsF()
    ensures IsF(F)
  {
  }

  lemma FoldLowHalf(v: seq<U32>, p: U32)
    requires |v| == 16
    ensures Paired(v[0 := Xor32(v[0], p)]) == Paired(v)[0 := Xor64(Paired(v)[0], p)]
  {
    XorLowHalf(v[0], v[1], p);
    PairedUpdate(v, 0, Xor32(v[0], p), v[1]);
    assert v[0 := Xor32(v[0], p)] == v[0 := Xor32(v[0], p)][1 := v[1]];
  }

  /** The state after initialization folds the parameter block into the first word. */
  lemma InitialCells(s: seq<U32>)
    requires s == IvCells()[0 := Xor32(IvCells()[0], 0x0101_0020)]
    ensures Paired(s) == InitialHash()
  {
    IvHalves();
    FoldLowHalf(IvCells(), 0x0101_0020);
  }

  /** One-shot hashing, as the page calls it. */
  method BrowserBlake2b256(sc: Scratch, input: seq<Octet>) returns (out: array<Octet>)
    requires sc.Valid() && |input| < MAX_INPUT
    modifies sc.v, sc.m
    ensures fresh(out) && out[..] == Blake2b256(input)
  {
    var ctx := new Context(sc);
    ctx.Update(sc, input, []);
    assert [] + input == input;
    out := ctx.Final(sc, input);
  }

  /** Feeding the message in two pieces, cut anywhere, hashes the whole. */
  method BrowserBlake2b256InPieces(sc: Scratch, first: seq<Octet>, second: seq<Octet>) returns (out: array<Octet>)
    requires sc.Valid() && |first| + |second| < MAX_INPUT
    modifies sc.v, sc.m
    ensures fresh(out) && out[..] == Blake2b256(first + second)
  {
    var ctx := new Context(sc);
    ctx.Update(sc, first, []);
    assert [] + first == first;
    ctx.Update(sc, second, first);
    out := ctx.Final(sc, first + second);
  }

  /** No JavaScript array is longer. */
  const MAX_INPUT: nat := 0x20_0000_0000_0000

  lemma FinalHashIs(f: Compression, msg: seq<Octet>, k: nat)
    requires k == Flushed(|msg|)
    ensures 128 * k <= |msg| && FinalHash(f, msg) == f(Chain(f, msg, k), MessageBlock(msg, k), |msg|, true)
  {
  }

  lemma FlushedIs(n: nat, k: nat)
    requires 128 * k < n <= 128 * k + 128
    ensures Flushed(n) == k
  {
  }

  /** The number of whole blocks compressed once n bytes have come in: never the last one. */
  function Flushed(n: nat): (k: nat)
    ensures 128 * k <= n && n - 128 * k <= 128 && (n > 0 ==> 128 * k < n)
    ensures k == BlockCount(n) - 1
  {
    if n == 0 then 0 else (n - 1) / 128
  }

  lemma XorLowHalf(a0: U32, a1: U32, p: U32)
    ensures Join(Xor32(a0, p), a1) == Xor64(Join(a0, a1), p)
  {
    XorJoin(a0, a1, p, 0);
    XorZero(a1);
  }

  /** h[i >> 2] >> (8 * (i & 3)) stored into a byte, the shift being arithmetic on a signed
      32-bit number. */
  function OutputByte(h: seq<U32>, i: nat): Octet
    requires |h| == 16 && i < 32
  {
    (ToInt32(h[i / 4]) / PowerOf256(i % 4)) % 256
  }

  lemma OutputByteIsHashByte(h: seq<U32>, i: nat)
    requires |h| == 16 && i < 32
    ensures OutputByte(h, i) == HashByte(Paired(h), i)
  {
    SignDoesNotShow(h[i / 4], i % 4);
    ByteOfWord(h[2 * (i / 8)], h[2 * (i / 8) + 1], i);
    HalfIndex(i);
  }

  lemma HalfIndex(i: nat)
    ensures i / 4 == 2 * (i / 8) + (i / 4) % 2
  {
  }

  function ToInt32(x: U32): int {
    if x < 0x8000_0000 then x else x - 0x1_0000_0000
  }

  lemma SignDoesNotShow(x: U32, j: nat)
    requires j < 4
    ensures (ToInt32(x) / PowerOf256(j)) % 256 == (x / PowerOf256(j)) % 256
  {
    if x >= 0x8000_0000 {
      if j == 3 {
        assert (x - 0x1_0000_0000) / 0x100_0000 == x / 0x100_0000 - 0x100;
        DropMultiple(x / 0x100_0000 - 0x100, 1);
      } else if j == 2 {
        assert (x - 0x1_0000_0000) / 0x1_0000 == x / 0x1_0000 - 0x1_0000;
        DropMultiple(x / 0x1_0000 - 0x1_0000, 0x100);
      } else if j == 1 {
        assert (x - 0x1_0000_0000) / 0x100 == x / 0x100 - 0x100_0000;
        DropMultiple(x / 0x100 - 0x100_0000, 0x1_0000);
      } else {
        DropMultiple(x - 0x1_0000_0000, 0x100_0000);
      }
    }
  }

  lemma ByteOfWord(lo: U32, hi: U32, i: nat)
    requires i < 32
    ensures (Join(lo, hi) / PowerOf256(i % 8)) % 256
         == ((if (i / 4) % 2 == 0 then lo else hi) / PowerOf256(i % 4)) % 256
  {
    var k := i % 4;
    WhichHalf(i);
    if (i / 4) % 2 == 0 {
      LowByte(lo, hi, k);
    } else {
      HighByte(lo, hi, k);
    }
  }

  lemma WhichHalf(i: nat)
    ensures i % 8 == if (i / 4) % 2 == 0 then i % 4 else i % 4 + 4
  {
  }

  lemma LowByte(lo: U32, hi: U32, j: nat)
    requires j < 4
    ensures (Join(lo, hi) / PowerOf256(j)) % 256 == (lo / PowerOf256(j)) % 256
  {
    if j == 3 {
      SplitAt24(lo, hi);
      DropMultiple(lo / 0x100_0000, hi);
    } else if j == 2 {
      SplitAt16(lo, hi);
      DropMultiple(lo / 0x1_0000, hi * 0x100);
    } else if j == 1 {
      SplitAt8(lo, hi);
      DropMultiple(lo / 0x100, hi * 0x1_0000);
    } else {
      DropMultiple(lo, hi * 0x100_0000);
    }
  }

  lemma SplitAt8(lo: U32, hi: U32)
    ensures Join(lo, hi) / 0x100 == lo / 0x100 + hi * 0x100_0000
  {
    var q, r := lo / 0x100, lo % 0x100;
    assert Join(lo, hi) == (q + hi * 0x100_0000) * 0x100 + r;
  }

  lemma DropMultiple(x: int, y: nat)
    ensures (x + y * 256) % 256 == x % 256
  {
  }

  lemma HighByte(lo: U32, hi: U32, j: nat)
    requires j < 4
    ensures Join(lo, hi) / PowerOf256(j + 4) == hi / PowerOf256(j)
  {
    var p := PowerOf256(j);
    var q, r := hi / p, hi % p;
    assert Join(lo, hi) == q * PowerOf256(j + 4) + (lo + 0x1_0000_0000 * r);
  }
}
