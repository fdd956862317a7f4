/** Unkeyed BLAKE2b-256 as RFC 7693 defines it, on 64-bit words. */
module Rfc7693 {
  import opened Words

  /** Section 2.6: word i of the initialization vector. */
  function IV(i: nat): U64
    requires i < 8
  {
    if i == 0 then 0x6a09e667f3bcc908
    else if i == 1 then 0xbb67ae8584caa73b
    else if i == 2 then 0x3c6ef372fe94f82b
    else if i == 3 then 0xa54ff53a5f1d36f1
    else if i == 4 then 0x510e527fade682d1
    else if i == 5 then 0x9b05688c2b3e6c1f
    else if i == 6 then 0x1f83d9abfb41bd6b
    else 0x5be0cd19137e2179
  }

  /** Section 2.7: the message schedule permutation of a round; rounds 10 and 11 start over. */
  function Permutation(round: nat): Schedule {
    SIGMA(round % 10)
  }

  function SIGMA(i: nat): Schedule
    requires i < 10
  {
    if i < 5 then FirstRows(i) else LastRows(i - 5)
  }

  function FirstRows(i: nat): Schedule
    requires i < 5
  {
    if i == 0 then [0, 1, 2, 3, 4, 5, 6, 7, 8, 9, 10, 11, 12, 13, 14, 15]
    else if i == 1 then [14, 10, 4, 8, 9, 15, 13, 6, 1, 12, 0, 2, 11, 7, 5, 3]
    else if i == 2 then [11, 8, 12, 0, 5, 2, 15, 13, 10, 14, 3, 6, 7, 1, 9, 4]
    else if i == 3 then [7, 9, 3, 1, 13, 12, 11, 14, 2, 6, 5, 10, 4, 0, 15, 8]
    else [9, 0, 5, 7, 2, 4, 10, 15, 14, 1, 11, 12, 6, 8, 3, 13]
  }

  function LastRows(i: nat): Schedule
    requires i < 5
  {
    if i == 0 then [2, 12, 6, 10, 0, 11, 8, 3, 4, 13, 7, 5, 15, 14, 1, 9]
    else if i == 1 then [12, 5, 1, 15, 14, 13, 4, 10, 0, 7, 6, 3, 9, 2, 8, 11]
    else if i == 2 then [13, 11, 7, 14, 12, 1, 3, 9, 5, 0, 15, 4, 8, 6, 2, 10]
    else if i == 3 then [6, 15, 14, 9, 11, 3, 0, 8, 12, 2, 13, 7, 1, 4, 10, 5]
    else [10, 2, 8, 4, 7, 6, 1, 5, 15, 11, 9, 14, 3, 12, 13, 0]
  }


  type Vector = v: seq<U64> | |v| == 16 witness seq(16, _ => 0)
  type Hash = h: seq<U64> | |h| == 8 witness seq(8, _ => 0)
  type Block = m: seq<Octet> | |m| == 128 witness seq(128, _ => 0)
  type Schedule = s: seq<nat> | |s| == 16 && forall x <- s :: x < 16 witness seq(16, _ => 0)

  function Add64(x: U64, y: U64): U64 {
    (x + y) % 0x1_0000_0000_0000_0000
  }

  /** The first eight primes, and the whole parts of their square roots. */
  function Prime(i: nat): nat
    requires i < 8
  {
    [2, 3, 5, 7, 11, 13, 17, 19][i]
  }

  function WholeRoot(i: nat): nat
    requires i < 8
  {
    [1, 1, 2, 2, 3, 3, 4, 4][i]
  }

  /** Section 2.6: IV(i) is the first 64 bits of the fractional part of the square root of the i-th prime. */
  lemma IVIsSquareRoot(i: nat, root: nat)
    requires i < 8 && root == WholeRoot(i) * TWO64 + IV(i)
    ensures root * root <= Prime(i) * TWO64 * TWO64 < (root + 1) * (root + 1)
  {
    if i == 0 { assert root == 0x1_6a09_e667_f3bc_c908; }
    else if i == 1 { assert root == 0x1_bb67_ae85_84ca_a73b; }
    else if i == 2 { assert root == 0x2_3c6e_f372_fe94_f82b; }
    else if i == 3 { assert root == 0x2_a54f_f53a_5f1d_36f1; }
    else if i == 4 { assert root == 0x3_510e_527f_ade6_82d1; }
    else if i == 5 { assert root == 0x3_9b05_688c_2b3e_6c1f; }
    else if i == 6 { assert root == 0x4_1f83_d9ab_fb41_bd6b; }
    else { assert root == 0x4_5be0_cd19_137e_2179; }
  }

  /** Rotation right by n bits, 0 < n < 64. */
  function RotR(x: U64, n: nat): U64
    requires n in {16, 24, 32, 63}
  {
    if n == 16 then x / 0x1_0000 + (x % 0x1_0000) * 0x1_0000_0000_0000
    else if n == 24 then x / 0x100_0000 + (x % 0x100_0000) * 0x100_0000_0000
    else if n == 32 then x / 0x1_0000_0000 + (x % 0x1_0000_0000) * 0x1_0000_0000
    else x / 0x8000_0000_0000_0000 + (x % 0x8000_0000_0000_0000) * 2
  }

  /** One statement of the mixing function: v[i] := v[i] + v[j] + x. */
  function AddTo(v: Vector, i: nat, j: nat, x: U64): Vector
    requires i < 16 && j < 16
  {
    v[i := Add64(Add64(v[i], v[j]), x)]
  }

  /** One statement of the mixing function: v[i] := (v[i] ^ v[j]) >>> n. */
  function XorRot(v: Vector, i: nat, j: nat, n: nat): Vector
    requires i < 16 && j < 16 && n in {16, 24, 32, 63}
  {
    v[i := RotR(Xor64(v[i], v[j]), n)]
  }

  /** The first four statements of the mixing function, and with other rotations the last four. */
  function HalfMix(v: Vector, a: nat, b: nat, c: nat, d: nat, x: U64, r1: nat, r2: nat): Vector
    requires a < 16 && b < 16 && c < 16 && d < 16 && r1 in {32, 16} && r2 in {24, 63}
  {
    var v := AddTo(v, a, b, x);
    var v := XorRot(v, d, a, r1);
    var v := AddTo(v, c, d, 0);
    XorRot(v, b, c, r2)
  }

  /** Section 3.1: the mixing function G. */
  function G(v: Vector, a: nat, b: nat, c: nat, d: nat, x: U64, y: U64): Vector
    requires a < 16 && b < 16 && c < 16 && d < 16
  {
    HalfMix(HalfMix(v, a, b, c, d, x, 32, 24), a, b, c, d, y, 16, 63)
  }

  /** The four words one mixing works on. */
  datatype Lane = Lane(a: nat, b: nat, c: nat, d: nat)

  /** Section 3.2: the k-th mixing of a round, the first four on columns, the rest on diagonals. */
  function LaneAt(i: nat): (l: Lane)
    requires i < 8
    ensures l.a < 16 && l.b < 16 && l.c < 16 && l.d < 16
  {
    if i == 0 then Lane(0, 4, 8, 12)
    else if i == 1 then Lane(1, 5, 9, 13)
    else if i == 2 then Lane(2, 6, 10, 14)
    else if i == 3 then Lane(3, 7, 11, 15)
    else if i == 4 then Lane(0, 5, 10, 15)
    else if i == 5 then Lane(1, 6, 11, 12)
    else if i == 6 then Lane(2, 7, 8, 13)
    else Lane(3, 4, 9, 14)
  }

  /** The first k mixings of a round under the permutation s. */
  function Mixed(v: Vector, m: Vector, s: Schedule, k: nat): Vector
    requires k <= 8
  {
    if k == 0 then v
    else
      var l := LaneAt(k - 1);
      G(Mixed(v, m, s, k - 1), l.a, l.b, l.c, l.d, m[s[2 * k - 2]], m[s[2 * k - 1]])
  }

  /** Rounds under the given permutations, each with all eight mixings. */
  function Rounds(v: Vector, m: Vector, ss: seq<Schedule>): Vector {
    if ss == [] then v
    else
      var k := |ss| - 1;
      Mixed(Rounds(v, m, ss[..k]), m, ss[k], 8)
  }

  function AllPermutations(): (ss: seq<Schedule>)
    ensures |ss| == 12
  {
    seq(12, i requires 0 <= i < 12 => Permutation(i))
  }

  /** Four bytes as a little-endian number. */
  function LittleEndian(b0: Octet, b1: Octet, b2: Octet, b3: Octet): U32 {
    b0 as int + b1 as int * 0x100 + b2 as int * 0x1_0000 + b3 as int * 0x100_0000
  }

  /** The little-endian 64-bit word at byte offset 8 * i. */
  function Word(b: Block, i: nat): U64
    requires i < 16
  {
    var j := 8 * i;
    Join(LittleEndian(b[j], b[j + 1], b[j + 2], b[j + 3]),
         LittleEndian(b[j + 4], b[j + 5], b[j + 6], b[j + 7]))
  }

  function BlockWords(b: Block): Vector {
    seq(16, i requires 0 <= i < 16 => Word(b, i))
  }

  function InitialVector(): Hash {
    seq(8, i requires 0 <= i < 8 => IV(i))
  }

  /** The local vector at the start of the compression function. */
  function Start(h: Hash, t: nat, last: bool): Vector {
    var v := h + InitialVector();
    var v := v[12 := Xor64(v[12], t % TWO64)];
    var v := v[13 := Xor64(v[13], (t / TWO64) % TWO64)];
    if last then v[14 := Xor64(v[14], 0xffff_ffff_ffff_ffff)] else v
  }

  /** The two halves of the working vector are exclusive-ored into the state. */
  function Folded(h: Hash, v: Vector): Hash {
    seq(8, i requires 0 <= i < 8 => Xor64(Xor64(h[i], v[i]), v[i + 8]))
  }

  /** Section 3.2: the compression function F. */
  function F(h: Hash, block: Block, t: nat, last: bool): Hash {
    var v := Rounds(Start(h, t, last), BlockWords(block), AllPermutations());
    Folded(h, v)
  }

  /** Section 3.3 with no key and a 32-byte result: the parameter block is folded into h[0]. */
  function InitialHash(): Hash {
    InitialVector()[0 := Xor64(IV(0), 0x0101_0020)]
  }

  /** The number of blocks of a message; the empty message still has one. */
  function BlockCount(n: nat): (dd: nat)
    ensures dd > 0
  {
    if n == 0 then 1 else (n + 127) / 128
  }

  /** Block i of a message, the last one padded with zeros. */
  function MessageBlock(msg: seq<Octet>, i: nat): Block
    requires 128 * i <= |msg|
  {
    seq(128, k requires 0 <= k < 128 => if 128 * i + k < |msg| then msg[128 * i + k] else 0)
  }

  type Compression = (Hash, Block, nat, bool) -> Hash

  /** The state after the first i blocks, none of them the last, under a compression function f. */
  function Chain(f: Compression, msg: seq<Octet>, i: nat): Hash
    requires 128 * i <= |msg|
  {
    if i == 0 then InitialHash()
    else f(Chain(f, msg, i - 1), MessageBlock(msg, i - 1), 128 * i, false)
  }

  function FinalHash(f: Compression, msg: seq<Octet>): Hash {
    var last := BlockCount(|msg|) - 1;
    f(Chain(f, msg, last), MessageBlock(msg, last), |msg|, true)
  }

  function PowerOf256(k: nat): (p: nat)
    requires k < 8
    ensures p > 0
  {
    [0x1, 0x100, 0x1_0000, 0x100_0000, 0x1_0000_0000,
     0x100_0000_0000, 0x1_0000_0000_0000, 0x100_0000_0000_0000][k]
  }

  /** Byte i of the hash, each word taken little-endian. */
  function HashByte(h: Hash, i: nat): Octet
    requires i < 64
  {
    (h[i / 8] / PowerOf256(i % 8)) % 256
  }

  function Digest(h: Hash): (digest: seq<Octet>)
    ensures |digest| == 32
  {
    seq(32, i requires 0 <= i < 32 => HashByte(h, i))
  }

  function Blake2b256(msg: seq<Octet>): (digest: seq<Octet>)
    ensures |digest| == 32
  {
    Digest(FinalHash(F, msg))
  }

  /** Bytes after the first i whole blocks do not touch the state those blocks lead to. */
  lemma {:induction false} ChainPrefix(f: Compression, msg: seq<Octet>, more: seq<Octet>, i: nat)
    requires 128 * i <= |msg|
    ensures Chain(f, msg + more, i) == Chain(f, msg, i)
  {
    if i > 0 {
      ChainPrefix(f, msg, more, i - 1);
      assert MessageBlock(msg + more, i - 1) == MessageBlock(msg, i - 1);
    }
  }
}
