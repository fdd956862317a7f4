/** Base 32 as section 6 of RFC 4648 defines it, without padding (section 3.2): the octets read as
    one number, written in base 32 from the left, zero bits filling the last digit. */
module Rfc4648 {
  import opened Words
  import opened Shifts

  /** The symbol of a digit: the letters, then 2 to 7. */
  function Symbol(d: nat): char
    requires d < 32
  {
    if d < 26 then ('A' as int + d) as char else ('2' as int + (d - 26)) as char
  }

  lemma SymbolTable(d: nat)
    requires d < 32
    ensures Symbol(d) == "ABCDEFGHIJKLMNOPQRSTUVWXYZ234567"[d]
  {
  }

  /** The number that digits of k bits write, the first digit the most significant. */
  function Value(k: nat, ds: seq<nat>): nat {
    if ds == [] then 0 else Left(Value(k, ds[..|ds| - 1]), k) + ds[|ds| - 1]
  }

  /** The last m digits of k bits of a number. */
  function Digits(k: nat, v: nat, m: nat): (ds: seq<nat>)
    ensures |ds| == m && AreDigits(k, ds)
    decreases m
  {
    if m == 0 then [] else Digits(k, Right(v, k), m - 1) + [Low(v, k)]
  }

  predicate AreDigits(k: nat, ds: seq<nat>) {
    forall i :: 0 <= i < |ds| ==> ds[i] < Pow2(k)
  }

  /** How many digits write n octets, and how many zero bits fill the last one. */
  function Length(n: nat): nat { (8 * n + 4) / 5 }
  function Fill(n: nat): nat { 5 * Length(n) - 8 * n }

  function EncodedDigits(bytes: seq<nat>): (ds: seq<nat>)
    ensures |ds| == Length(|bytes|) && AreDigits(5, ds)
  {
    Digits(5, Left(Value(8, bytes), Fill(|bytes|)), Length(|bytes|))
  }

  /** The whole octets that m digits hold; the bits left over are dropped. */
  function DecodedOctets(ds: seq<nat>): (bytes: seq<nat>)
    ensures |bytes| == 5 * |ds| / 8 && AreDigits(8, bytes)
  {
    var n := 5 * |ds| / 8;
    Digits(8, Right(Value(5, ds), 5 * |ds| - 8 * n), n)
  }

  function Symbols(ds: seq<nat>): string
    requires AreDigits(5, ds)
  {
    assert Pow2(5) == 32;
    seq(|ds|, i requires 0 <= i < |ds| => Symbol(ds[i]))
  }

  function Encoded(bytes: seq<nat>): string {
    Symbols(EncodedDigits(bytes))
  }

  // --- digits and values ---

  lemma {:induction false} DigitsOfValue(k: nat, ds: seq<nat>)
    requires AreDigits(k, ds)
    ensures Digits(k, Value(k, ds), |ds|) == ds
  {
    if ds != [] {
      var rest, last := ds[..|ds| - 1], ds[|ds| - 1];
      DigitsOfValue(k, rest);
      Split(Value(k, rest), last, k);
      assert ds == rest + [last];
    }
  }

  /** The bits of m digits of k bits. */
  function Width(k: nat, m: nat): nat {
    if m == 0 then 0 else Width(k, m - 1) + k
  }

  lemma {:induction false} ValueOfDigits(k: nat, v: nat, m: nat)
    requires v < Pow2(Width(k, m))
    ensures Value(k, Digits(k, v, m)) == v
    decreases m
  {
    if m > 0 {
      RightBound(v, Width(k, m - 1), k);
      ValueOfDigits(k, Right(v, k), m - 1);
      var ds := Digits(k, v, m);
      assert ds[..|ds| - 1] == Digits(k, Right(v, k), m - 1);
      Regain(v, k);
    }
  }

  lemma {:induction false} ValueBound(k: nat, ds: seq<nat>)
    requires AreDigits(k, ds)
    ensures Value(k, ds) < Pow2(Width(k, |ds|))
  {
    if ds != [] {
      var rest := ds[..|ds| - 1];
      ValueBound(k, rest);
      LeftBound(Value(k, rest), ds[|ds| - 1], Width(k, |rest|), k);
    }
  }

  lemma {:induction false} Widths(m: nat)
    ensures Width(5, m) == 5 * m && Width(8, m) == 8 * m
  {
    if m > 0 {
      Widths(m - 1);
    }
  }

  // --- the round trip ---

  /** An encoding is as long as it has to be, the fill is less than a digit, and as many whole octets
      fit in it as went in. */
  lemma LengthFits(n: nat)
    ensures 8 * n <= 5 * Length(n) < 8 * n + 5 && 5 * Length(n) / 8 == n
  {
  }

  /** The digits of an encoding write the octets' number, filled up with zero bits. */
  lemma EncodedValue(bytes: seq<nat>)
    requires AreDigits(8, bytes)
    ensures Value(5, EncodedDigits(bytes)) == Left(Value(8, bytes), Fill(|bytes|))
  {
    var n, v := |bytes|, Value(8, bytes);
    LengthFits(n);
    Widths(n);
    Widths(Length(n));
    ValueBound(8, bytes);
    var filled, m := Left(v, Fill(n)), Length(n);
    FilledBound(v, Width(8, n), Fill(n), Width(5, m));
    ValueOfDigits(5, filled, m);
  }

  lemma FilledBound(v: nat, j: nat, k: nat, width: nat)
    requires v < Pow2(j) && width == j + k
    ensures Left(v, k) < Pow2(width)
  {
    LeftBound(v, 0, j, k);
  }

  /** Decoding what was encoded gives the octets back, for any number of them. */
  lemma DecodedEncoded(bytes: seq<nat>)
    requires AreDigits(8, bytes)
    ensures DecodedOctets(EncodedDigits(bytes)) == bytes
  {
    LengthFits(|bytes|);
    EncodedValue(bytes);
    DecodedFrom(EncodedDigits(bytes), |bytes|, Fill(|bytes|));
    RightOfLeft(Value(8, bytes), Fill(|bytes|));
    DigitsOfValue(8, bytes);
  }

  lemma DecodedFrom(ds: seq<nat>, n: nat, r: nat)
    requires 5 * |ds| == 8 * n + r && r < 8
    ensures DecodedOctets(ds) == Digits(8, Right(Value(5, ds), r), n)
  {
    assert 5 * |ds| / 8 == n;
  }

  lemma RightOfLeft(v: nat, k: nat)
    ensures Right(Left(v, k), k) == v
  {
    Split(v, 0, k);
  }
}

/** The text side of base 32 decoding: letter case, padding, blanks and foreign characters. */
module Base32Text {
  import opened Words
  import opened Rfc4648

  /** The digit a symbol stands for, or -1. */
  function IndexOf(c: char): (d: int)
    ensures -1 <= d < 32
  {
    if 'A' <= c <= 'Z' then c as int - 'A' as int
    else if '2' <= c <= '7' then c as int - '2' as int + 26
    else -1
  }

  lemma IndexOfSymbol(d: nat)
    requires d < 32
    ensures IndexOf(Symbol(d)) == d
  {
  }

  lemma SymbolOfIndex(c: char)
    requires IndexOf(c) >= 0
    ensures Symbol(IndexOf(c)) == c
  {
  }

  /** The runtime's character tables: what each character upper-cases to, and which are blanks. */
  datatype Tables = Tables(up: char -> string, blank: char -> bool)

  /** What is known of them: ASCII upper-cases as usual, nothing upper-cases to nothing or to a text
      ending in a pad, blanks do not upper-case to symbols, and a pad is no blank. */
  ghost predicate Sound(u: Tables) {
    && (forall c :: 'a' <= c <= 'z' ==> u.up(c) == [(c as int - 32) as char])
    && (forall c :: c as int < 128 && !('a' <= c <= 'z') ==> u.up(c) == [c])
    && (forall c :: u.up(c) != "" && (c != '=' ==> u.up(c)[|u.up(c)| - 1] != '='))
    && (forall c :: u.blank(c) ==> AllForeign(u.up(c)))
    && !u.blank('=')
  }

  predicate AllForeign(s: string) {
    forall c :: c in s ==> IndexOf(c) < 0
  }

  function Upper(u: Tables, s: string): string {
    if s == "" then "" else u.up(s[0]) + Upper(u, s[1..])
  }

  function TrimPads(s: string): string {
    if s != "" && s[|s| - 1] == '=' then TrimPads(s[..|s| - 1]) else s
  }

  function TrimRight(u: Tables, s: string): string {
    if s != "" && u.blank(s[|s| - 1]) then TrimRight(u, s[..|s| - 1]) else s
  }

  function TrimLeft(u: Tables, s: string): string {
    if s != "" && u.blank(s[0]) then TrimLeft(u, s[1..]) else s
  }

  function Trim(u: Tables, s: string): string {
    TrimRight(u, TrimLeft(u, s))
  }

  predicate AllKnown(s: string) {
    forall c :: c in s ==> IndexOf(c) >= 0
  }

  /** The symbols among the characters. */
  function Known(s: string): string {
    if s == "" then ""
    else if IndexOf(s[0]) >= 0 then [s[0]] + Known(s[1..])
    else Known(s[1..])
  }

  function Indices(s: string): (ds: seq<nat>)
    requires AllKnown(s)
    ensures |ds| == |s| && AreDigits(5, ds)
  {
    assert Pow2(5) == 32;
    seq(|s|, i requires 0 <= i < |s| => IndexOf(s[i]) as nat)
  }

  /** What the two decoders make of a text before they read its symbols. */
  function AndroidText(u: Tables, input: string): string {
    Upper(u, TrimPads(Trim(u, input)))
  }

  function BrowserText(u: Tables, input: string): string {
    TrimPads(Upper(u, input))
  }

  // --- foreign characters do not matter to what is known ---

  lemma {:induction false} KnownConcat(a: string, b: string)
    ensures Known(a + b) == Known(a) + Known(b)
  {
    if a == "" {
      assert a + b == b;
    } else {
      KnownConcat(a[1..], b);
      assert (a + b)[1..] == a[1..] + b;
    }
  }

  lemma {:induction false} KnownIsKnown(s: string)
    ensures AllKnown(Known(s))
    ensures AllKnown(s) ==> Known(s) == s
  {
    if s != "" {
      KnownIsKnown(s[1..]);
      assert s == [s[0]] + s[1..];
    }
  }

  lemma {:induction false} NoneKnown(s: string)
    requires AllForeign(s)
    ensures Known(s) == ""
  {
    if s != "" {
      assert s[0] in s;
      NoneKnown(s[1..]);
    }
  }

  lemma {:induction false} UpperConcat(u: Tables, a: string, b: string)
    ensures Upper(u, a + b) == Upper(u, a) + Upper(u, b)
  {
    if a == "" {
      assert a + b == b;
    } else {
      UpperConcat(u, a[1..], b);
      assert (a + b)[1..] == a[1..] + b;
      assert u.up(a[0]) + (Upper(u, a[1..]) + Upper(u, b)) == u.up(a[0]) + Upper(u, a[1..]) + Upper(u, b);
    }
  }

  lemma UpperOne(u: Tables, c: char)
    ensures Upper(u, [c]) == u.up(c)
  {
    assert [c][1..] == "";
    assert u.up(c) + "" == u.up(c);
  }

  /** A character that upper-casing leaves foreign adds nothing. */
  lemma KnownLast(u: Tables, s: string, c: char)
    requires AllForeign(u.up(c))
    ensures Known(Upper(u, s + [c])) == Known(Upper(u, s)) && Known(Upper(u, [c] + s)) == Known(Upper(u, s))
  {
    UpperConcat(u, s, [c]);
    UpperConcat(u, [c], s);
    UpperOne(u, c);
    KnownConcat(Upper(u, s), u.up(c));
    KnownConcat(u.up(c), Upper(u, s));
    NoneKnown(u.up(c));
  }

  lemma {:induction false} KnownTrimPads(u: Tables, s: string)
    requires Sound(u)
    ensures Known(Upper(u, TrimPads(s))) == Known(Upper(u, s))
  {
    if s != "" && s[|s| - 1] == '=' {
      KnownTrimPads(u, s[..|s| - 1]);
      KnownLast(u, s[..|s| - 1], '=');
      assert s == s[..|s| - 1] + ['='];
    }
  }

  lemma {:induction false} KnownTrimRight(u: Tables, s: string)
    requires Sound(u)
    ensures Known(Upper(u, TrimRight(u, s))) == Known(Upper(u, s))
  {
    if s != "" && u.blank(s[|s| - 1]) {
      KnownTrimRight(u, s[..|s| - 1]);
      KnownLast(u, s[..|s| - 1], s[|s| - 1]);
      assert s == s[..|s| - 1] + [s[|s| - 1]];
    }
  }

  lemma {:induction false} KnownTrimLeft(u: Tables, s: string)
    requires Sound(u)
    ensures Known(Upper(u, TrimLeft(u, s))) == Known(Upper(u, s))
  {
    if s != "" && u.blank(s[0]) {
      KnownTrimLeft(u, s[1..]);
      KnownLast(u, s[1..], s[0]);
      assert s == [s[0]] + s[1..];
    }
  }

  /** Upper-casing first or trimming the padding first is the same. */
  lemma {:induction false} UpperTrimPads(u: Tables, s: string)
    requires Sound(u)
    ensures TrimPads(Upper(u, s)) == Upper(u, TrimPads(s))
  {
    if s != "" {
      var rest, last := s[..|s| - 1], s[|s| - 1];
      assert s == rest + [last];
      UpperConcat(u, rest, [last]);
      UpperOne(u, last);
      if last == '=' {
        UpperTrimPads(u, rest);
        assert Upper(u, s)[..|Upper(u, s)| - 1] == Upper(u, rest);
      }
    }
  }

  /** Both decoders see the same symbols in any text. */
  lemma SameSymbols(u: Tables, input: string)
    requires Sound(u)
    ensures Known(AndroidText(u, input)) == Known(BrowserText(u, input))
  {
    KnownTrimPads(u, Trim(u, input));
    KnownTrimRight(u, TrimLeft(u, input));
    KnownTrimLeft(u, input);
    UpperTrimPads(u, input);
    KnownTrimPads(u, input);
  }
}

/** The two hand-written codecs. Both keep an accumulator in a 32-bit word that is never cleared:
    bits shifted out at the top are lost, and only the low ones are ever read. */
module Base32Codecs {
  import opened Words
  import opened Shifts
  import opened Rfc4648
  import opened Base32Text

  // --- the accumulator ---

  function Shl32(x: U32, k: nat): (r: U32) {
    PowerTable();
    Low(Left(x, k), 32)
  }

  function Or32(x: U32, low: nat, k: nat): (r: U32)
    requires low < Pow2(k) && Low(x, k) == 0 && k <= 32
  {
    Or32Fits(x, low, k);
    Or(x, low)
  }

  lemma Or32Fits(x: U32, low: nat, k: nat)
    requires low < Pow2(k) && Low(x, k) == 0 && k <= 32
    ensures Or(x, low) == x + low < TWO32
  {
    Regain(x, k);
    OrLow(Right(x, k), low, k);
    PowerTable();
    assert Pow2(32 - k + k) == TWO32;
    RightBound(x, 32 - k, k);
    LeftBound(Right(x, k), low, 32 - k, k);
  }

  lemma ShiftedIsClear(x: U32, k: nat)
    requires k <= 32
    ensures Shl32(x, k) == Left(Low(x, 32 - k), k) && Low(Shl32(x, k), k) == 0
  {
    LowOfLeft(x, 0, 32 - k, k);
    Split(Low(x, 32 - k), 0, k);
  }

  /** What has come in is what has gone out, followed by the low bits of the accumulator. */
  predicate Carries(total: nat, k: nat, out: seq<nat>, buffer: U32, bits: nat) {
    total == Followed(Value(k, out), buffer, bits)
  }

  /** A value followed by the low bits of the accumulator, if there are any. */
  function Followed(value: nat, buffer: U32, bits: nat): (r: nat)
    ensures r == Left(value, bits) + Low(buffer, bits)
  {
    if bits == 0 then value else Left(value, bits) + Low(buffer, bits)
  }

  lemma ShiftIn(buffer: U32, bits: nat, low: nat, k: nat)
    requires low < Pow2(k) && bits + k <= 32
    ensures Low(Shl32(buffer, k), k) == 0
    ensures Low(Or32(Shl32(buffer, k), low, k), bits + k) == Left(Low(buffer, bits), k) + low
  {
    var w, x := Shl32(buffer, k), Low(buffer, 32 - k);
    ShiftedIsClear(buffer, k);
    Or32Fits(w, low, k);
    var b' := Or32(w, low, k);
    assert b' == Left(x, k) + low;
    LowOfLeft(x, low, bits, k);
    assert Low(b', bits + k) == Left(Low(x, bits), k) + low;
    LowOfLow(buffer, bits, 32 - k);
  }

  /** Taking in k more bits, whatever falls out at the top. */
  lemma TakeIn(total: nat, kOut: nat, out: seq<nat>, buffer: U32, bits: nat, low: nat, k: nat)
    requires Carries(total, kOut, out, buffer, bits) && low < Pow2(k) && bits + k <= 32
    ensures Low(Shl32(buffer, k), k) == 0
    ensures Carries(Left(total, k) + low, kOut, out, Or32(Shl32(buffer, k), low, k), bits + k)
  {
    ShiftIn(buffer, bits, low, k);
    var b' := Or32(Shl32(buffer, k), low, k);
    var gone, kept := Value(kOut, out), Low(buffer, bits);
    LeftSum(Left(gone, bits), kept, k);
    LeftLeft(gone, bits, k);
    assert Left(total, k) == Left(Left(gone, bits), k) + Left(kept, k);
    assert Low(b', bits + k) == Left(kept, k) + low;
  }

  /** The digit read off the top of the low bits. */
  function Top(buffer: U32, bits: nat, k: nat): (d: nat)
    requires k <= bits
    ensures d < Pow2(k)
  {
    Low(Right(buffer, bits - k), k)
  }

  lemma GiveOut(total: nat, k: nat, out: seq<nat>, buffer: U32, bits: nat)
    requires Carries(total, k, out, buffer, bits) && k <= bits
    ensures Carries(total, k, out + [Top(buffer, bits, k)], buffer, bits - k)
  {
    var d := Top(buffer, bits, k);
    LowOfRight(buffer, bits - k, k);
    Regain(Low(buffer, bits), bits - k);
    LowOfLow(buffer, bits - k, bits);
    assert (out + [d])[..|out|] == out;
    LeftSum(Left(Value(k, out), k), d, bits - k);
    LeftLeft(Value(k, out), k, bits - k);
  }

  /** The last digit of an encoding, filled with zero bits. */
  lemma FillUp(total: nat, out: seq<nat>, buffer: U32, bits: nat)
    requires Carries(total, 5, out, buffer, bits) && 0 < bits < 5
    ensures Value(5, out + [Low(Shl32(buffer, 5 - bits), 5)]) == Left(total, 5 - bits)
  {
    var k := 5 - bits;
    var d := Low(Shl32(buffer, k), 5);
    LowOfLow(Left(buffer, k), 5, 32);
    LowOfLeft(buffer, 0, bits, k);
    assert (out + [d])[..|out|] == out;
    LeftSum(Left(Value(5, out), bits), Low(buffer, bits), k);
    LeftLeft(Value(5, out), bits, k);
  }

  lemma ValueMore(k: nat, ds: seq<nat>, d: nat)
    ensures Value(k, ds + [d]) == Left(Value(k, ds), k) + d
  {
    assert (ds + [d])[..|ds|] == ds;
  }

  // --- encoding ---

  type SignedByte = x: int | -128 <= x < 128

  /** A signed byte and 0xff. */
  function Unsigned(b: SignedByte): (o: Octet) {
    if b < 0 then b + 256 else b
  }

  function Signed(o: nat): SignedByte
    requires o < 256
  {
    if o >= 128 then o - 256 else o
  }

  function AllUnsigned(bytes: seq<SignedByte>): (os: seq<nat>)
    ensures |os| == |bytes| && AreDigits(8, os)
  {
    assert Pow2(8) == 256;
    seq(|bytes|, i requires 0 <= i < |bytes| => Unsigned(bytes[i]))
  }

  function AllSigned(os: seq<nat>): (bytes: seq<SignedByte>)
    requires AreDigits(8, os)
    ensures |bytes| == |os|
  {
    assert Pow2(8) == 256;
    seq(|os|, i requires 0 <= i < |os| => Signed(os[i]))
  }

  /** The text spells the digits. */
  ghost predicate Spells(text: string, ds: seq<nat>) {
    && |text| == |ds| && AreDigits(5, ds)
    && forall i :: 0 <= i < |ds| ==> IndexOf(text[i]) == ds[i]
  }

  lemma SpellsMore(text: string, ds: seq<nat>, d: nat)
    requires Spells(text, ds) && d < 32
    ensures Spells(text + [Symbol(d)], ds + [d])
  {
    assert Pow2(5) == 32;
    IndexOfSymbol(d);
  }

  lemma SpellsIsSymbols(text: string, ds: seq<nat>)
    requires Spells(text, ds)
    ensures text == Symbols(ds)
  {
    assert Pow2(5) == 32;
    forall i | 0 <= i < |ds|
      ensures text[i] == Symbols(ds)[i]
    {
      SymbolOfIndex(text[i]);
    }
  }

  /** The state of an encoding loop after the octets seen. */
  ghost predicate Encoding(seen: seq<nat>, text: string, ds: seq<nat>, buffer: U32, bits: nat) {
    && Carries(Value(8, seen), 5, ds, buffer, bits) && 5 * |ds| + bits == 8 * |seen|
    && Spells(text, ds)
  }

  lemma EncodingBegins(seen: seq<nat>, text: string, ds: seq<nat>, buffer: U32, bits: nat)
    requires seen == [] && text == "" && ds == [] && buffer == 0 && bits == 0
    ensures Encoding(seen, text, ds, buffer, bits)
  {
  }

  lemma EncodingTakes(seen: seq<nat>, b: nat, text: string, ds: seq<nat>, buffer: U32, bits: nat)
    requires b < 256 && Encoding(seen, text, ds, buffer, bits) && bits < 5
    ensures Pow2(8) == 256 && Low(Shl32(buffer, 8), 8) == 0
    ensures Encoding(seen + [b], text, ds, Or32(Shl32(buffer, 8), b, 8), bits + 8)
  {
    assert Pow2(8) == 256;
    TakeIn(Value(8, seen), 5, ds, buffer, bits, b, 8);
    ValueMore(8, seen, b);
  }

  lemma EncodingGives(seen: seq<nat>, text: string, ds: seq<nat>, buffer: U32, bits: nat)
    requires Encoding(seen, text, ds, buffer, bits) && bits >= 5
    ensures Top(buffer, bits, 5) < 32
    ensures var d := Top(buffer, bits, 5); Encoding(seen, text + [Symbol(d)], ds + [d], buffer, bits - 5)
  {
    assert Pow2(5) == 32;
    GiveOut(Value(8, seen), 5, ds, buffer, bits);
    SpellsMore(text, ds, Top(buffer, bits, 5));
  }

  lemma FillOf(n: nat, m: nat, bits: nat)
    requires 5 * m + bits == 8 * n && bits < 5
    ensures bits == 0 ==> Length(n) == m && Fill(n) == 0
    ensures bits > 0 ==> Length(n) == m + 1 && Fill(n) == 5 - bits
  {
  }

  lemma EncodingDone(bytes: seq<nat>, text: string, ds: seq<nat>, buffer: U32)
    requires Encoding(bytes, text, ds, buffer, 0)
    ensures text == Encoded(bytes)
  {
    DigitsOfValue(5, ds);
    FillOf(|bytes|, |ds|, 0);
    SpellsIsSymbols(text, ds);
  }

  lemma EncodingFilled(bytes: seq<nat>, text: string, ds: seq<nat>, buffer: U32, bits: nat)
    requires Encoding(bytes, text, ds, buffer, bits) && 0 < bits < 5
    ensures Low(Shl32(buffer, 5 - bits), 5) < 32
    ensures text + [Symbol(Low(Shl32(buffer, 5 - bits), 5))] == Encoded(bytes)
  {
    var d := Low(Shl32(buffer, 5 - bits), 5);
    assert Pow2(5) == 32;
    FillUp(Value(8, bytes), ds, buffer, bits);
    SpellsMore(text, ds, d);
    DigitsOfValue(5, ds + [d]);
    FillOf(|bytes|, |ds|, bits);
    SpellsIsSymbols(text + [Symbol(d)], ds + [d]);
  }

  lemma PrefixNext(s: seq<nat>, i: nat)
    requires i <= |s|
    ensures i < |s| ==> s[..i + 1] == s[..i] + [s[i]]
    ensures i == |s| ==> s[..i] == s
  {
  }

  /** The app's encoder; its bytes are signed. */
  method AndroidEncode(bytes: seq<SignedByte>) returns (text: string)
    ensures text == Encoded(AllUnsigned(bytes))
  {
    ghost var os: seq<nat> := AllUnsigned(bytes);
    ghost var seen: seq<nat>, ds: seq<nat> := [], [];
    text := "";
    var buffer: U32, bits: nat := 0, 0;
    EncodingBegins(seen, text, ds, buffer, bits);
    var i := 0;
    while i < |bytes|
      invariant 0 <= i <= |bytes| && bits < 5 && |os| == |bytes| && seen == os[..i]
      invariant Encoding(seen, text, ds, buffer, bits)
    {
      var b: nat := Unsigned(bytes[i]);
      PrefixNext(os, i);
      EncodingTakes(seen, b, text, ds, buffer, bits);
      seen := seen + [b];
      buffer := Or32(Shl32(buffer, 8), b, 8);
      bits := bits + 8;
      while bits >= 5
        invariant Encoding(seen, text, ds, buffer, bits)
      {
        EncodingGives(seen, text, ds, buffer, bits);
        var d := Top(buffer, bits, 5);
        text, ds := text + [Symbol(d)], ds + [d];
        bits := bits - 5;
      }
      i := i + 1;
    }
    PrefixNext(os, |os|);
    if bits > 0 {
      EncodingFilled(seen, text, ds, buffer, bits);
      text := text + [Symbol(Low(Shl32(buffer, 5 - bits), 5))];
    } else {
      EncodingDone(seen, text, ds, buffer);
    }
  }

  /** The browser's encoder. */
  method BrowserEncode(bytes: seq<Octet>) returns (text: string)
    ensures text == Encoded(bytes)
  {
    ghost var os: seq<nat> := bytes;
    ghost var seen: seq<nat>, ds: seq<nat> := [], [];
    var value: U32, bits: nat := 0, 0;
    text := "";
    EncodingBegins(seen, text, ds, value, bits);
    for i := 0 to |bytes|
      invariant bits < 5 && |os| == |bytes| && seen == os[..i]
      invariant Encoding(seen, text, ds, value, bits)
    {
      var b: nat := bytes[i];
      PrefixNext(os, i);
      EncodingTakes(seen, b, text, ds, value, bits);
      seen := seen + [b];
      value := Or32(Shl32(value, 8), b, 8);
      bits := bits + 8;
      while bits >= 5
        invariant Encoding(seen, text, ds, value, bits)
      {
        EncodingGives(seen, text, ds, value, bits);
        var d := Top(value, bits, 5);
        text, ds := text + [Symbol(d)], ds + [d];
        bits := bits - 5;
      }
    }
    PrefixNext(os, |os|);
    if bits > 0 {
      EncodingFilled(seen, text, ds, value, bits);
      text := text + [Symbol(Low(Shl32(value, 5 - bits), 5))];
    } else {
      EncodingDone(seen, text, ds, value);
    }
  }

  // --- decoding ---

  datatype Decoding = Decoded(bytes: seq<SignedByte>) | BadCharacter(c: char)

  /** What the app's decoder makes of a text: the first foreign character is an error. */
  function AndroidDecoding(u: Tables, input: string): Decoding {
    var s := AndroidText(u, input);
    if AllKnown(s) then Decoded(AllSigned(DecodedOctets(Indices(s)))) else BadCharacter(FirstUnknown(s))
  }

  function FirstUnknown(s: string): char
    requires !AllKnown(s)
  {
    if IndexOf(s[0]) < 0 then s[0]
    else
      assert s == [s[0]] + s[1..];
      FirstUnknown(s[1..])
  }

  /** What the browser's makes of it: foreign characters are passed over. */
  function BrowserDecoding(u: Tables, input: string): (bytes: seq<nat>)
    ensures AreDigits(8, bytes)
  {
    KnownIsKnown(BrowserText(u, input));
    DecodedOctets(Indices(Known(BrowserText(u, input))))
  }

  /** The state of a decoding loop after some symbols. */
  ghost predicate DecodingSoFar(ds: seq<nat>, out: seq<nat>, buffer: U32, bits: nat) {
    Carries(Value(5, ds), 8, out, buffer, bits) && 8 * |out| + bits == 5 * |ds| && AreDigits(8, out) && bits < 8
  }

  lemma DecodingDone(ds: seq<nat>, out: seq<nat>, buffer: U32, bits: nat)
    requires DecodingSoFar(ds, out, buffer, bits)
    ensures out == DecodedOctets(ds)
  {
    Split(Value(8, out), Low(buffer, bits), bits);
    DigitsOfValue(8, out);
  }

  /** One symbol of a decoding loop: the accumulator and what it gives out. */
  lemma DecodingStep(ds: seq<nat>, d: nat, out: seq<nat>, buffer: U32, bits: nat)
    requires DecodingSoFar(ds, out, buffer, bits) && d < 32
    ensures Pow2(5) == 32 && Low(Shl32(buffer, 5), 5) == 0
    ensures var buffer' := Or32(Shl32(buffer, 5), d, 5);
            if bits + 5 >= 8 then DecodingSoFar(ds + [d], out + [Top(buffer', bits + 5, 8)], buffer', bits - 3)
            else DecodingSoFar(ds + [d], out, buffer', bits + 5)
  {
    assert Pow2(5) == 32;
    TakeIn(Value(5, ds), 8, out, buffer, bits, d, 5);
    assert (ds + [d])[..|ds|] == ds;
    var buffer' := Or32(Shl32(buffer, 5), d, 5);
    if bits + 5 >= 8 {
      GiveOut(Value(5, ds + [d]), 8, out, buffer', bits + 5);
    }
  }

  lemma DecodingBegins(ds: seq<nat>, out: seq<nat>, buffer: U32, bits: nat)
    requires ds == [] && out == [] && buffer == 0 && bits == 0
    ensures DecodingSoFar(ds, out, buffer, bits)
  {
  }

  /** One symbol: shift its five bits in and, when eight have gathered, give an octet out. */
  method TakeSymbol(ghost ds: seq<nat>, d: nat, out: seq<nat>, buffer: U32, bits: nat)
    returns (out': seq<nat>, buffer': U32, bits': nat)
    requires DecodingSoFar(ds, out, buffer, bits) && d < 32
    ensures DecodingSoFar(ds + [d], out', buffer', bits')
  {
    DecodingStep(ds, d, out, buffer, bits);
    buffer' := Or32(Shl32(buffer, 5), d, 5);
    bits' := bits + 5;
    out' := out;
    if bits' >= 8 {
      out' := out + [Top(buffer', bits', 8)];
      bits' := bits' - 8;
    }
  }

  lemma SpellsNext(s: string, ds: seq<nat>, i: nat)
    requires i < |s| && Spells(s[..i], ds) && IndexOf(s[i]) >= 0
    ensures Spells(s[..i + 1], ds + [IndexOf(s[i])])
  {
    assert Pow2(5) == 32;
    assert s[..i + 1] == s[..i] + [s[i]];
  }

  lemma SpellsAll(s: string, ds: seq<nat>)
    requires Spells(s, ds)
    ensures AllKnown(s) && ds == Indices(s)
  {
  }

  lemma SpellsUpTo(s: string, i: nat, ds: seq<nat>)
    requires i <= |s| && Spells(s[..i], ds)
    ensures AllKnown(s[..i]) && (i == |s| ==> Spells(s, ds))
  {
    assert i == |s| ==> s[..i] == s;
  }

  /** The app's decoder. */
  method AndroidDecode(u: Tables, input: string) returns (r: Decoding)
    ensures r == AndroidDecoding(u, input)
  {
    var s := AndroidText(u, input);
    var out: seq<nat> := [];
    var buffer: U32, bits: nat := 0, 0;
    ghost var ds: seq<nat> := [];
    DecodingBegins(ds, out, buffer, bits);
    var i := 0;
    while i < |s|
      invariant 0 <= i <= |s| && Spells(s[..i], ds)
      invariant DecodingSoFar(ds, out, buffer, bits)
    {
      var c := s[i];
      var d := IndexOf(c);
      if d < 0 {
        SpellsUpTo(s, i, ds);
        FirstIs(s, i);
        return BadCharacter(c);
      }
      SpellsNext(s, ds, i);
      out, buffer, bits := TakeSymbol(ds, d, out, buffer, bits);
      ds := ds + [d];
      i := i + 1;
    }
    SpellsUpTo(s, i, ds);
    SpellsAll(s, ds);
    DecodingDone(ds, out, buffer, bits);
    return Decoded(AllSigned(out));
  }

  lemma {:induction false} FirstIs(s: string, i: nat)
    requires i < |s| && AllKnown(s[..i]) && IndexOf(s[i]) < 0
    ensures !AllKnown(s) && FirstUnknown(s) == s[i]
  {
    assert s[i] in s;
    if i > 0 {
      assert s[0] == s[..i][0] && s[..i][1..] == s[1..][..i - 1];
      assert forall c :: c in s[1..][..i - 1] ==> c in s[..i];
      FirstIs(s[1..], i - 1);
    }
  }

  /** A symbol adds itself to what is known, anything else adds nothing. */
  lemma KnownNext(seen: string, c: char, ds: seq<nat>)
    requires Spells(Known(seen), ds)
    ensures IndexOf(c) < 0 ==> Spells(Known(seen + [c]), ds)
    ensures IndexOf(c) >= 0 ==> Spells(Known(seen + [c]), ds + [IndexOf(c)])
  {
    assert Pow2(5) == 32;
    KnownConcat(seen, [c]);
    assert Known([c]) == if IndexOf(c) >= 0 then [c] else "";
  }

  lemma NextPrefix(s: string, i: nat)
    requires i <= |s|
    ensures i < |s| ==> s[..i + 1] == s[..i] + [s[i]]
    ensures s[..|s|] == s
  {
  }

  /** The browser's decoder. */
  method BrowserDecode(u: Tables, str: string) returns (out: seq<nat>)
    ensures out == BrowserDecoding(u, str)
  {
    var s := BrowserText(u, str);
    var value: U32, bits: nat := 0, 0;
    out := [];
    ghost var seen: string, ds: seq<nat> := "", [];
    DecodingBegins(ds, out, value, bits);
    for i := 0 to |s|
      invariant seen == s[..i] && Spells(Known(seen), ds)
      invariant DecodingSoFar(ds, out, value, bits)
    {
      var c := s[i];
      var d := IndexOf(c);
      KnownNext(seen, c, ds);
      NextPrefix(s, i);
      seen := seen + [c];
      if d < 0 {
        continue;
      }
      out, value, bits := TakeSymbol(ds, d, out, value, bits);
      ds := ds + [d];
    }
    NextPrefix(s, |s|);
    SpellsAll(Known(s), ds);
    DecodingDone(ds, out, value, bits);
  }

  // --- round trips and agreement ---

  predicate AllBlank(u: Tables, s: string) {
    forall i :: 0 <= i < |s| ==> u.blank(s[i])
  }

  predicate AllPads(s: string) {
    forall i :: 0 <= i < |s| ==> s[i] == '='
  }

  lemma SymbolsAreKnown(ds: seq<nat>)
    requires AreDigits(5, ds)
    ensures AllKnown(Symbols(ds)) && Indices(Symbols(ds)) == ds
  {
    assert Pow2(5) == 32;
    forall i | 0 <= i < |ds|
      ensures IndexOf(Symbols(ds)[i]) == ds[i]
    {
      IndexOfSymbol(ds[i]);
    }
  }

  lemma UpperMembers(u: Tables, t: string, i: nat)
    requires i < |t|
    ensures forall c :: c in u.up(t[i]) ==> c in Upper(u, t)
  {
    var first, rest := t[..i], t[i + 1..];
    assert t == first + ([t[i]] + rest);
    UpperConcat(u, first, [t[i]] + rest);
    UpperConcat(u, [t[i]], rest);
    UpperOne(u, t[i]);
  }

  /** What upper-cases to symbols is neither a blank nor a pad. */
  lemma NoBlankNoPad(u: Tables, t: string)
    requires Sound(u) && AllKnown(Upper(u, t))
    ensures forall i :: 0 <= i < |t| ==> !u.blank(t[i]) && t[i] != '='
  {
    forall i | 0 <= i < |t|
      ensures !u.blank(t[i]) && t[i] != '='
    {
      UpperMembers(u, t, i);
      assert u.up(t[i])[0] in u.up(t[i]);
    }
  }

  lemma {:induction false} TrimLeftBlanks(u: Tables, blanks: string, t: string)
    requires AllBlank(u, blanks) && (t == "" || !u.blank(t[0]))
    ensures TrimLeft(u, blanks + t) == t
  {
    if blanks == "" {
      assert blanks + t == t;
    } else {
      assert (blanks + t)[1..] == blanks[1..] + t;
      TrimLeftBlanks(u, blanks[1..], t);
    }
  }

  lemma {:induction false} TrimRightBlanks(u: Tables, t: string, blanks: string)
    requires AllBlank(u, blanks) && (t == "" || !u.blank(t[|t| - 1]))
    ensures TrimRight(u, t + blanks) == t
  {
    if blanks == "" {
      assert t + blanks == t;
    } else {
      var fewer := blanks[..|blanks| - 1];
      assert (t + blanks)[..|t + blanks| - 1] == t + fewer;
      TrimRightBlanks(u, t, fewer);
    }
  }

  lemma {:induction false} TrimPadsPads(t: string, pads: string)
    requires AllPads(pads) && (t == "" || t[|t| - 1] != '=')
    ensures TrimPads(t + pads) == t
  {
    if pads == "" {
      assert t + pads == t;
    } else {
      var fewer := pads[..|pads| - 1];
      assert (t + pads)[..|t + pads| - 1] == t + fewer;
      TrimPadsPads(t, fewer);
    }
  }

  /** Blanks around and padding after a text of symbols are all that the app takes off. */
  lemma AndroidTextOf(u: Tables, before: string, t: string, pads: string, after: string)
    requires Sound(u)
    requires AllBlank(u, before) && AllBlank(u, after) && AllPads(pads) && AllKnown(Upper(u, t))
    requires t + pads != ""
    ensures AndroidText(u, before + (t + pads + after)) == Upper(u, t)
  {
    NoBlankNoPad(u, t);
    var body := t + pads;
    assert body[0] == if t != "" then t[0] else pads[0];
    assert body[|body| - 1] == if pads != "" then pads[|pads| - 1] else t[|t| - 1];
    assert (body + after)[0] == body[0];
    TrimLeftBlanks(u, before, body + after);
    TrimRightBlanks(u, body, after);
    TrimPadsPads(t, pads);
  }

  lemma BlanksOnly(u: Tables, before: string, after: string)
    requires AllBlank(u, before) && AllBlank(u, after)
    ensures AndroidText(u, before + after) == ""
  {
    assert before + after == (before + after) + "";
    TrimLeftBlanks(u, before + after, "");
  }

  lemma SignedUnsigned(bytes: seq<SignedByte>)
    ensures AllSigned(AllUnsigned(bytes)) == bytes
  {
  }

  /** The round trip: any letter case, blanks around and padding after included, both decoders give
      back exactly the bytes that either encoder was given, whatever their number. */
  lemma RoundTrip(u: Tables, bytes: seq<SignedByte>, before: string, t: string, pads: string, after: string)
    requires Sound(u)
    requires Upper(u, t) == Encoded(AllUnsigned(bytes))
    requires AllBlank(u, before) && AllBlank(u, after) && AllPads(pads)
    ensures AndroidDecoding(u, before + (t + pads + after)) == Decoded(bytes)
    ensures BrowserDecoding(u, before + (t + pads + after)) == AllUnsigned(bytes)
  {
    SymbolsAreKnown(EncodedDigits(AllUnsigned(bytes)));
    AndroidTextIs(u, before, t, pads, after);
    DecodesBack(u, bytes, before + (t + pads + after));
  }

  /** t is e with any of its letters in lower case. */
  predicate InEitherCase(t: string, e: string) {
    |t| == |e| && forall i :: 0 <= i < |t| ==> t[i] == e[i] || ('A' <= e[i] <= 'Z' && t[i] == (e[i] as int + 32) as char)
  }

  lemma {:induction false} EitherCaseUpper(u: Tables, t: string, e: string)
    requires Sound(u) && AllKnown(e) && InEitherCase(t, e)
    ensures Upper(u, t) == e
  {
    if t != "" {
      assert e[0] in e && e == [e[0]] + e[1..];
      EitherCaseUpper(u, t[1..], e[1..]);
      assert u.up(t[0]) == [e[0]];
    }
  }

  /** In particular a text whose letters are in lower case, or some of them, decodes. */
  lemma EitherCaseRoundTrip(u: Tables, bytes: seq<SignedByte>, before: string, t: string, pads: string, after: string)
    requires Sound(u) && InEitherCase(t, Encoded(AllUnsigned(bytes)))
    requires AllBlank(u, before) && AllBlank(u, after) && AllPads(pads)
    ensures AndroidDecoding(u, before + (t + pads + after)) == Decoded(bytes)
    ensures BrowserDecoding(u, before + (t + pads + after)) == AllUnsigned(bytes)
  {
    SymbolsAreKnown(EncodedDigits(AllUnsigned(bytes)));
    EitherCaseUpper(u, t, Encoded(AllUnsigned(bytes)));
    RoundTrip(u, bytes, before, t, pads, after);
  }

  lemma AndroidTextIs(u: Tables, before: string, t: string, pads: string, after: string)
    requires Sound(u)
    requires AllBlank(u, before) && AllBlank(u, after) && AllPads(pads) && AllKnown(Upper(u, t))
    ensures AndroidText(u, before + (t + pads + after)) == Upper(u, t)
  {
    if t + pads != "" {
      AndroidTextOf(u, before, t, pads, after);
    } else {
      assert t + pads + after == after;
      BlanksOnly(u, before, after);
      assert Upper(u, t) == "";
    }
  }

  lemma DecodesBack(u: Tables, bytes: seq<SignedByte>, text: string)
    requires Sound(u)
    requires AndroidText(u, text) == Encoded(AllUnsigned(bytes))
    ensures AndroidDecoding(u, text) == Decoded(bytes) && BrowserDecoding(u, text) == AllUnsigned(bytes)
  {
    var os := AllUnsigned(bytes);
    SymbolsAreKnown(EncodedDigits(os));
    DecodedEncoded(os);
    SignedUnsigned(bytes);
    Agreement(u, text);
  }

  /** Whatever the app's decoder accepts, the browser's decodes to the same bytes. */
  lemma Agreement(u: Tables, input: string)
    requires Sound(u)
    ensures AndroidDecoding(u, input).Decoded? ==> AndroidDecoding(u, input).bytes == AllSigned(BrowserDecoding(u, input))
    ensures AndroidDecoding(u, input).Decoded? ==> BrowserDecoding(u, input) == DecodedOctets(Indices(AndroidText(u, input)))
  {
    SameSymbols(u, input);
    KnownIsKnown(AndroidText(u, input));
    KnownIsKnown(BrowserText(u, input));
  }

  /** They differ exactly in that the app refuses a foreign character inside a text where the
      browser passes over it. */
  lemma AppRefusesExactlyForeign(u: Tables, input: string)
    ensures AndroidDecoding(u, input).BadCharacter? <==> Known(AndroidText(u, input)) != AndroidText(u, input)
    ensures AndroidDecoding(u, input).BadCharacter? ==> IndexOf(AndroidDecoding(u, input).c) < 0 && AndroidDecoding(u, input).c in AndroidText(u, input)
  {
    var s := AndroidText(u, input);
    KnownIsKnown(s);
    if !AllKnown(s) {
      FirstUnknownIn(s);
    }
  }

  lemma {:induction false} FirstUnknownIn(s: string)
    requires !AllKnown(s)
    ensures FirstUnknown(s) in s && IndexOf(FirstUnknown(s)) < 0
  {
    if IndexOf(s[0]) >= 0 {
      assert s == [s[0]] + s[1..];
      FirstUnknownIn(s[1..]);
    }
  }

  /** The length of an encoding: as many digits as it takes, ceil(8n / 5). */
  lemma EncodedLength(bytes: seq<nat>)
    ensures 5 * |Encoded(bytes)| >= 8 * |bytes| && 5 * (|Encoded(bytes)| - 1) < 8 * |bytes|
  {
    LengthFits(|bytes|);
  }
}
