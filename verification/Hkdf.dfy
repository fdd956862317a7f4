/** HMAC (RFC 2104) and HKDF (RFC 5869) as the standards define them, over any hash with
    128-byte blocks and 32-byte results. */
module Rfc5869 {
  import opened Words

  type Bytes = seq<Octet>
  type Tag = t: Bytes | |t| == 32 witness seq(32, _ => 0)
  type Prf = (Bytes, Bytes) -> Tag
  type HashFunction = Bytes -> Tag

  function Zeros(n: nat): (z: Bytes)
    ensures |z| == n
  {
    seq(n, _ => 0)
  }

  /** RFC 2104, section 2, steps 1 and 5: the key as one block. */
  function KeyBlock(hash: HashFunction, key: Bytes): (k: Bytes)
    ensures |k| == 128
  {
    if |key| > 128 then hash(key) + Zeros(96) else key + Zeros(128 - |key|)
  }

  function XorOctets(x: Octet, y: Octet): Octet {
    PowerTable(); XorBound(8, x, y);
    Xor(x, y)
  }

  function Masked(k: Bytes, mask: Octet): (r: Bytes)
    ensures |r| == |k|
  {
    seq(|k|, i requires 0 <= i < |k| => XorOctets(k[i], mask))
  }

  /** RFC 2104, section 2: H(K xor opad, H(K xor ipad, text)). */
  function Hmac(hash: HashFunction, key: Bytes, text: Bytes): Tag {
    var k := KeyBlock(hash, key);
    hash(Masked(k, 0x5c) + hash(Masked(k, 0x36) + text))
  }

  /** RFC 5869, section 2.2: a salt that is not provided is a string of HashLen zeros. */
  function Extract(prf: Prf, salt: Bytes, ikm: Bytes): Tag {
    prf(if salt == [] then Zeros(32) else salt, ikm)
  }

  /** RFC 5869, section 2.3: T(i). The standard stops at 255; past that the octet starts over. */
  function T(prf: Prf, prk: Bytes, info: Bytes, i: nat): (t: Bytes)
    ensures |t| == if i == 0 then 0 else 32
  {
    if i == 0 then [] else prf(prk, T(prf, prk, info, i - 1) + info + [i % 256])
  }

  /** T(1) | T(2) | ... | T(n). */
  function Stream(prf: Prf, prk: Bytes, info: Bytes, n: nat): (s: Bytes)
    ensures |s| == 32 * n
  {
    if n == 0 then [] else Stream(prf, prk, info, n - 1) + T(prf, prk, info, n)
  }

  /** The first length octets of T(1) | T(2) | ... | T(N), N = ceil(length / 32). */
  function Expand(prf: Prf, prk: Bytes, info: Bytes, length: nat): (okm: Bytes)
    ensures |okm| == length
  {
    Stream(prf, prk, info, (length + 31) / 32)[..length]
  }

  function Derive(prf: Prf, ikm: Bytes, salt: Bytes, info: Bytes, length: nat): Bytes {
    Expand(prf, Extract(prf, salt, ikm), info, length)
  }

  lemma {:induction false} StreamPrefix(prf: Prf, prk: Bytes, info: Bytes, m: nat, n: nat)
    requires m <= n
    ensures Stream(prf, prk, info, m) == Stream(prf, prk, info, n)[..32 * m]
    decreases n
  {
    if m < n {
      StreamPrefix(prf, prk, info, m, n - 1);
    }
  }

  /** A shorter output is a prefix of a longer one. */
  lemma ExpandPrefix(prf: Prf, prk: Bytes, info: Bytes, short: nat, long: nat)
    requires short <= long
    ensures Expand(prf, prk, info, short) == Expand(prf, prk, info, long)[..short]
  {
    StreamPrefix(prf, prk, info, (short + 31) / 32, (long + 31) / 32);
  }

  /** Under HMAC's zero padding a missing salt, 32 zero octets and the empty key are one key. */
  lemma MissingSaltIsEmptyKey(hash: HashFunction, text: Bytes)
    ensures Hmac(hash, [], text) == Hmac(hash, Zeros(32), text)
    ensures Extract((k, m) => Hmac(hash, k, m), [], text) == Hmac(hash, [], text)
  {
    assert [] + Zeros(128) == Zeros(32) + Zeros(96);
  }
}

/** The key derivation of the two clients, both written out by hand over an HMAC. */
module KeyDerivation {
  import opened Words
  import opened Rfc5869
  import Rfc7693
  import BrowserHash
  import BrowserBlake2b

  datatype Option<T> = None | Some(value: T)

  function Blake2b(msg: Bytes): Tag {
    Rfc7693.Blake2b256(msg)
  }

  function HmacBlake2b(key: Bytes, text: Bytes): Tag {
    Hmac(Blake2b, key, text)
  }

  /** Names a text, so that the next two definitions are used for that text only. */
  ghost predicate Hashed(text: Bytes) { true }

  ghost predicate IsBlake2b(hash: HashFunction) {
    forall text {:trigger Hashed(text)} :: Hashed(text) ==> hash(text) == Rfc7693.Blake2b256(text)
  }

  ghost predicate IsHmac(hmac: Prf, hash: HashFunction) {
    forall key, text {:trigger hmac(key, text)} :: Hashed(text) ==> hmac(key, text) == Hmac(hash, key, text)
  }

  method HashBytes(sc: BrowserBlake2b.Scratch, input: Bytes, ghost hash: HashFunction) returns (digest: Bytes)
    requires sc.Valid() && |input| < BrowserHash.MAX_INPUT && IsBlake2b(hash)
    modifies sc.v, sc.m
    ensures digest == hash(input)
  {
    var out := BrowserHash.BrowserBlake2b256(sc, input);
    assert Hashed(input);
    digest := out[..];
  }

  /** A zeroed block takes the key, or the digest of a longer one. */
  method PadKey(sc: BrowserBlake2b.Scratch, key: Bytes, ghost hash: HashFunction) returns (k: array<Octet>)
    requires sc.Valid() && |key| < BrowserHash.MAX_INPUT && IsBlake2b(hash)
    modifies sc.v, sc.m
    ensures fresh(k) && k[..] == KeyBlock(hash, key)
  {
    var key' := key;
    if |key| > 128 {
      key' := HashBytes(sc, key, hash);
    }
    k := new Octet[128](_ => 0);
    forall i | 0 <= i < |key'| { k[i] := key'[i]; }
  }

  /** The page's HMAC: two masked copies of the key block take the two passes. */
  method BrowserHmac(sc: BrowserBlake2b.Scratch, key: Bytes, msg: Bytes, ghost hash: HashFunction) returns (tag: Bytes)
    requires sc.Valid() && IsBlake2b(hash)
    requires |key| < BrowserHash.MAX_INPUT && |msg| + 128 < BrowserHash.MAX_INPUT
    modifies sc.v, sc.m
    ensures tag == Hmac(hash, key, msg)
  {
    var k := PadKey(sc, key, hash);
    ghost var block := k[..];
    var ipad, opad := new Octet[128](_ => 0), new Octet[128](_ => 0);
    for i := 0 to 128
      invariant k[..] == block == KeyBlock(hash, key)
      invariant forall j :: 0 <= j < i ==> ipad[j] == XorOctets(k[j], 0x36) && opad[j] == XorOctets(k[j], 0x5c)
    {
      ipad[i] := XorOctets(k[i], 0x36);
      opad[i] := XorOctets(k[i], 0x5c);
    }
    assert ipad[..] == Masked(block, 0x36) && opad[..] == Masked(block, 0x5c);
    tag := TwoPasses(sc, block, ipad[..], opad[..], msg, hash);
  }

  method TwoPasses(sc: BrowserBlake2b.Scratch, ghost k: Bytes, ipad: Bytes, opad: Bytes, msg: Bytes,
                   ghost hash: HashFunction)
    returns (tag: Bytes)
    requires sc.Valid() && IsBlake2b(hash) && |k| == 128 && |msg| + 128 < BrowserHash.MAX_INPUT
    requires ipad == Masked(k, 0x36) && opad == Masked(k, 0x5c)
    modifies sc.v, sc.m
    ensures tag == hash(Masked(k, 0x5c) + hash(Masked(k, 0x36) + msg))
  {
    var inner := HashBytes(sc, ipad + msg, hash);
    tag := HashBytes(sc, opad + inner, hash);
  }

  /** The page's extract and expand. */
  method BrowserHkdf(sc: BrowserBlake2b.Scratch, ikm: Bytes, salt: Option<Bytes>, info: Bytes, length: nat)
    returns (out: array<Octet>)
    requires sc.Valid() && |ikm| + 128 < BrowserHash.MAX_INPUT
    requires salt.Some? ==> |salt.value| < BrowserHash.MAX_INPUT
    requires |info| + 161 < BrowserHash.MAX_INPUT
    modifies sc.v, sc.m
    ensures fresh(out)
    ensures out[..] == Derive(HmacBlake2b, ikm, if salt.Some? then salt.value else [], info, length)
  {
    var salt' := if salt == None || salt.value == [] then Zeros(32) else salt.value;
    BlakeIsBlake2b();
    var prk := BrowserHmac(sc, salt', ikm, Blake2b);
    out := BrowserExpand(sc, prk, info, length, HmacBlake2b, Blake2b);
  }

  lemma BlakeIsBlake2b()
    ensures IsBlake2b(Blake2b) && IsHmac(HmacBlake2b, Blake2b)
  {
  }

  method BrowserExpand(sc: BrowserBlake2b.Scratch, prk: Tag, info: Bytes, length: nat,
                       ghost hmac: Prf, ghost hash: HashFunction)
    returns (out: array<Octet>)
    requires sc.Valid() && |info| + 161 < BrowserHash.MAX_INPUT && IsBlake2b(hash) && IsHmac(hmac, hash)
    modifies sc.v, sc.m
    ensures fresh(out) && out[..] == Expand(hmac, prk, info, length)
  {
    out := new Octet[length](_ => 0);
    var t: Bytes, pos: nat, counter: nat := [], 0, 1;
    while pos < length
      invariant 1 <= counter && pos <= length
      invariant Progress(hmac, prk, info, length, t, out[..pos], counter - 1)
      decreases length - pos
    {
      t := NextBlock(sc, prk, t + info + [counter % 256], hmac, hash);
      var take := if |t| < length - pos then |t| else length - pos;
      ProgressStep(hmac, prk, info, length, t, out[..pos], counter, take);
      CopyInto(out, pos, t[..take]);
      pos, counter := pos + take, counter + 1;
    }
    ProgressDone(hmac, prk, info, length, t, out[..pos], counter - 1);
    assert out[..] == out[..pos];
  }

  method NextBlock(sc: BrowserBlake2b.Scratch, prk: Tag, text: Bytes, ghost hmac: Prf, ghost hash: HashFunction)
    returns (t: Bytes)
    requires sc.Valid() && |text| + 128 < BrowserHash.MAX_INPUT && IsBlake2b(hash) && IsHmac(hmac, hash)
    modifies sc.v, sc.m
    ensures t == hmac(prk, text)
  {
    assert Hashed(text);
    t := BrowserHmac(sc, prk, text, hash);
  }

  method CopyInto(out: array<Octet>, pos: nat, s: Bytes)
    requires pos + |s| <= out.Length
    modifies out
    ensures out[..pos + |s|] == old(out[..pos]) + s
  {
    forall j | 0 <= j < |s| { out[pos + j] := s[j]; }
  }

  /** After n blocks: t is the last of them, and done is what fits of all of them. */
  ghost predicate Progress(prf: Prf, prk: Bytes, info: Bytes, length: nat, t: Bytes, done: Bytes, n: nat) {
    && t == T(prf, prk, info, n)
    && (if 32 * n <= length then done == Stream(prf, prk, info, n)
        else 32 * n < length + 32 && done == Stream(prf, prk, info, n)[..length])
  }

  lemma ProgressStep(prf: Prf, prk: Bytes, info: Bytes, length: nat, t: Bytes, done: Bytes, n: nat, take: nat)
    requires n > 0 && Progress(prf, prk, info, length, T(prf, prk, info, n - 1), done, n - 1)
    requires |done| < length && t == prf(prk, T(prf, prk, info, n - 1) + info + [n % 256])
    requires take == if 32 < length - |done| then 32 else length - |done|
    ensures Progress(prf, prk, info, length, t, done + t[..take], n)
  {
    var s := Stream(prf, prk, info, n - 1);
    assert Stream(prf, prk, info, n) == s + t;
    if take == 32 {
      assert t[..take] == t;
    } else {
      assert (s + t)[..length] == s + t[..take];
    }
  }

  lemma ProgressDone(prf: Prf, prk: Bytes, info: Bytes, length: nat, t: Bytes, done: Bytes, n: nat)
    requires Progress(prf, prk, info, length, t, done, n) && |done| == length
    ensures done == Expand(prf, prk, info, length)
  {
    StreamCovers(prf, prk, info, length, n);
    if 32 * n == length {
      assert done[..length] == done;
    }
  }

  lemma StreamCovers(prf: Prf, prk: Bytes, info: Bytes, length: nat, n: nat)
    requires length <= 32 * n
    ensures Stream(prf, prk, info, n)[..length] == Expand(prf, prk, info, length)
  {
    StreamPrefix(prf, prk, info, (length + 31) / 32, n);
  }

  /** The Android client's extract step, over its library's HMAC. */
  function AndroidExtract(hmac: Prf, salt: Option<Bytes>, ikm: Bytes): Tag {
    var s := if salt == None || salt.value == [] then Zeros(32) else salt.value;
    hmac(s, ikm)
  }

  /** The Android client's expand loop: the MAC takes the previous block, the label and the counter. */
  method AndroidExpand(hmac: Prf, prk: Bytes, info: Bytes, length: nat) returns (out: array<Octet>)
    ensures fresh(out) && out[..] == Expand(hmac, prk, info, length)
  {
    out := new Octet[length](_ => 0);
    var t: Bytes, pos: nat, counter: nat := [], 0, 1;
    while pos < length
      invariant 1 <= counter && pos <= length
      invariant Progress(hmac, prk, info, length, t, out[..pos], counter - 1)
      decreases length - pos
    {
      var mac: Bytes := [];
      mac := mac + t;
      mac := mac + info;
      mac := mac + [counter % 256];
      assert mac == t + info + [counter % 256];
      t := hmac(prk, mac);
      var take := if |t| < length - pos then |t| else length - pos;
      ProgressStep(hmac, prk, info, length, t, out[..pos], counter, take);
      CopyInto(out, pos, t[..take]);
      pos, counter := pos + take, counter + 1;
    }
    ProgressDone(hmac, prk, info, length, t, out[..pos], counter - 1);
    assert out[..] == out[..pos];
  }

  /** Both clients derive what RFC 5869 derives, so they agree whenever their HMACs do. */
  method AndroidDerive(hmac: Prf, ikm: Bytes, salt: Option<Bytes>, info: Bytes, length: nat) returns (out: array<Octet>)
    ensures fresh(out)
    ensures out[..] == Derive(hmac, ikm, if salt.Some? then salt.value else [], info, length)
  {
    var prk := AndroidExtract(hmac, salt, ikm);
    out := AndroidExpand(hmac, prk, info, length);
  }
}
