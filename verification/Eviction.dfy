/** The retained stream of one channel and the ring-buffer eviction that ends every append. */
module Eviction {

  type Blob = string

  /** A stream entry. The stream id "<n>-1" is kept as its number n; exp 0 means never. */
  datatype Entry = Entry(id: nat, blob: Blob, exp: int, size: nat)

  /** Retention limits; zero (or less) switches a limit off. */
  datatype Limits = Limits(ttl: int, maxBytes: int, maxMsgs: int)

  /** New limits where they are not negative. */
  function Override(lim: Limits, ttl: int, maxBytes: int, maxMsgs: int): Limits {
    Limits(if ttl >= 0 then ttl else lim.ttl,
           if maxBytes >= 0 then maxBytes else lim.maxBytes,
           if maxMsgs >= 0 then maxMsgs else lim.maxMsgs)
  }

  /** Each limit is replaced on its own, by any number that is not negative. */
  lemma OverrideSetsEach(lim: Limits, ttl: int, maxBytes: int, maxMsgs: int)
    ensures var l := Override(lim, ttl, maxBytes, maxMsgs);
            && (if ttl >= 0 then l.ttl == ttl else l.ttl == lim.ttl)
            && (if maxBytes >= 0 then l.maxBytes == maxBytes else l.maxBytes == lim.maxBytes)
            && (if maxMsgs >= 0 then l.maxMsgs == maxMsgs else l.maxMsgs == lim.maxMsgs)
  {
  }

  /** A stream with the two counters the eviction loop goes by. */
  datatype Ring = Ring(stream: seq<Entry>, bytes: int, msgs: int)

  function Bytes(es: seq<Entry>): nat {
    if es == [] then 0 else es[0].size + Bytes(es[1..])
  }

  lemma {:induction false} BytesConcat(xs: seq<Entry>, ys: seq<Entry>)
    ensures Bytes(xs + ys) == Bytes(xs) + Bytes(ys)
  {
    if xs == [] {
      assert xs + ys == ys;
    } else {
      BytesConcat(xs[1..], ys);
      assert (xs + ys)[1..] == xs[1..] + ys;
    }
  }

  lemma BytesSplit(es: seq<Entry>, k: nat)
    requires k <= |es|
    ensures Bytes(es) == Bytes(es[..k]) + Bytes(es[k..])
  {
    BytesConcat(es[..k], es[k..]);
    assert es[..k] + es[k..] == es;
  }

  predicate Within(lim: Limits, bytes: int, msgs: int) {
    && (lim.maxMsgs > 0 ==> msgs <= lim.maxMsgs)
    && (lim.maxBytes > 0 ==> bytes <= lim.maxBytes)
  }

  /** The eviction loop: while the counters are over a limit, drop the oldest entry. */
  function Evict(r: Ring, lim: Limits): Ring
    decreases |r.stream|
  {
    if Within(lim, r.bytes, r.msgs) || r.stream == [] then r
    else Evict(Next(r), lim)
  }

  /** The entries fit under the limits with the given extra load on the counters. */
  predicate Fits(es: seq<Entry>, lim: Limits, extraBytes: int, extraMsgs: int) {
    Within(lim, Bytes(es) + extraBytes, |es| + extraMsgs)
  }

  /** kept is the longest suffix of es that fits, or nothing when no suffix does. */
  ghost predicate LongestFit(es: seq<Entry>, kept: seq<Entry>, lim: Limits, extraBytes: int, extraMsgs: int) {
    && |kept| <= |es| && kept == es[|es| - |kept|..]
    && (kept == [] || Fits(kept, lim, extraBytes, extraMsgs))
    && forall k :: 0 <= k < |es| - |kept| ==> !Fits(es[k..], lim, extraBytes, extraMsgs)
  }

  /** A shorter suffix of a fitting one fits. */
  lemma FitsShorter(es: seq<Entry>, j: nat, k: nat, lim: Limits, extraBytes: int, extraMsgs: int)
    requires j <= k <= |es| && Fits(es[j..], lim, extraBytes, extraMsgs)
    ensures Fits(es[k..], lim, extraBytes, extraMsgs)
  {
    BytesSplit(es[j..], k - j);
    assert es[j..][k - j..] == es[k..];
  }

  function Next(r: Ring): Ring
    requires r.stream != []
  {
    Ring(r.stream[1..], r.bytes - r.stream[0].size, r.msgs - 1)
  }

  /** Eviction leaves the counters off by exactly what they were off before. */
  lemma {:induction false} EvictKeepsError(r: Ring, lim: Limits)
    ensures var r' := Evict(r, lim);
            && r'.bytes - Bytes(r'.stream) == r.bytes - Bytes(r.stream)
            && r'.msgs - |r'.stream| == r.msgs - |r.stream|
    decreases |r.stream|
  {
    if !Within(lim, r.bytes, r.msgs) && r.stream != [] {
      EvictKeepsError(Next(r), lim);
    }
  }

  /** The loop leaves the longest suffix that fits with the counters' error as extra load. */
  lemma {:induction false} EvictIsLongestFit(r: Ring, lim: Limits)
    ensures LongestFit(r.stream, Evict(r, lim).stream, lim, r.bytes - Bytes(r.stream), r.msgs - |r.stream|)
    decreases |r.stream|
  {
    if Within(lim, r.bytes, r.msgs) || r.stream == [] {
      WholeFits(r.stream, lim, r.bytes - Bytes(r.stream), r.msgs - |r.stream|);
    } else {
      EvictIsLongestFit(Next(r), lim);
      OneLonger(r.stream, Evict(Next(r), lim).stream, lim, r.bytes - Bytes(r.stream), r.msgs - |r.stream|);
    }
  }

  lemma WholeFits(es: seq<Entry>, lim: Limits, extraBytes: int, extraMsgs: int)
    requires es == [] || Fits(es, lim, extraBytes, extraMsgs)
    ensures LongestFit(es, es, lim, extraBytes, extraMsgs)
  {
    assert es == es[|es| - |es|..];
  }

  lemma OneLonger(es: seq<Entry>, kept: seq<Entry>, lim: Limits, extraBytes: int, extraMsgs: int)
    requires es != [] && LongestFit(es[1..], kept, lim, extraBytes, extraMsgs)
    requires !Fits(es, lim, extraBytes, extraMsgs)
    ensures LongestFit(es, kept, lim, extraBytes, extraMsgs)
  {
    assert es[0..] == es;
    forall k | 0 <= k < |es| - |kept|
      ensures !Fits(es[k..], lim, extraBytes, extraMsgs)
    {
      if k > 0 {
        assert es[k..] == es[1..][k - 1..];
      }
    }
    assert kept == es[|es| - |kept|..];
  }

  lemma LongestFitUnique(es: seq<Entry>, a: seq<Entry>, b: seq<Entry>, lim: Limits, extraBytes: int, extraMsgs: int)
    requires LongestFit(es, a, lim, extraBytes, extraMsgs) && LongestFit(es, b, lim, extraBytes, extraMsgs)
    ensures a == b
  {
    var i, j := |es| - |a|, |es| - |b|;
    var fromI, fromJ := es[i..], es[j..];
    assert j < i ==> !Fits(fromJ, lim, extraBytes, extraMsgs);
    assert i < j ==> !Fits(fromI, lim, extraBytes, extraMsgs);
  }

  /** With exact counters the newest entry survives its own append exactly when it is not larger
      than the byte limit on its own. */
  lemma NewestSurvives(r: Ring, lim: Limits)
    requires r.stream != [] && r.bytes == Bytes(r.stream) && r.msgs == |r.stream|
    ensures Evict(r, lim).stream != [] <==>
            lim.maxBytes <= 0 || r.stream[|r.stream| - 1].size <= lim.maxBytes
  {
    EvictIsLongestFit(r, lim);
    SomethingFitsIff(r.stream, Evict(r, lim).stream, lim);
    OneFitsIff(r.stream[|r.stream| - 1], lim);
  }

  /** Something is kept exactly if the newest entry fits on its own. */
  lemma SomethingFitsIff(es: seq<Entry>, kept: seq<Entry>, lim: Limits)
    requires es != [] && LongestFit(es, kept, lim, 0, 0)
    ensures kept != [] <==> Fits([es[|es| - 1]], lim, 0, 0)
  {
    var n := |es|;
    assert es[n - 1..] == [es[n - 1]];
    if kept == [] {
      assert !Fits(es[n - 1..], lim, 0, 0);
    } else {
      FitsShorter(es, n - |kept|, n - 1, lim, 0, 0);
    }
  }

  lemma OneFitsIff(e: Entry, lim: Limits)
    ensures Fits([e], lim, 0, 0) <==> lim.maxBytes <= 0 || e.size <= lim.maxBytes
  {
    assert Bytes([e]) == e.size;
  }

  /** Counters that are over no limit evict nothing: a full ring keeps all its messages. */
  lemma NothingOverNothingEvicted(r: Ring, lim: Limits)
    requires (lim.maxMsgs > 0 ==> r.msgs <= lim.maxMsgs) && (lim.maxBytes > 0 ==> r.bytes <= lim.maxBytes)
    ensures Evict(r, lim) == r
  {
  }

  /** The entries are over a limit in count or in bytes, with these debts counted on top. */
  predicate Exceeds(es: seq<Entry>, lim: Limits, extraBytes: int, extraMsgs: int) {
    (lim.maxMsgs > 0 && |es| + extraMsgs > lim.maxMsgs) || (lim.maxBytes > 0 && Bytes(es) + extraBytes > lim.maxBytes)
  }

  /** kept is the end of es, over no limit, and from any entry before it on es is over one. */
  ghost predicate OnlyExcessGone(es: seq<Entry>, kept: seq<Entry>, lim: Limits, extraBytes: int, extraMsgs: int) {
    && |kept| <= |es| && kept == es[|es| - |kept|..]
    && (kept == [] || !Exceeds(kept, lim, extraBytes, extraMsgs))
    && forall i :: 0 <= i < |es| - |kept| ==> Exceeds(es[i..], lim, extraBytes, extraMsgs)
  }

  /** Only what is over a limit is evicted: with any evicted entry put back, the entries from it on are
      over max_msgs in count or over max_bytes in bytes, what the counters are off by counted in; and
      what is kept is over neither. */
  lemma OnlyExcessIsEvicted(r: Ring, lim: Limits)
    ensures var es, kept := r.stream, Evict(r, lim).stream;
            var extraBytes, extraMsgs := r.bytes - Bytes(es), r.msgs - |es|;
            OnlyExcessGone(es, kept, lim, extraBytes, extraMsgs)
  {
    EvictIsLongestFit(r, lim);
    LongestFitInNumbers(r.stream, Evict(r, lim).stream, lim, r.bytes - Bytes(r.stream), r.msgs - |r.stream|);
  }

  lemma LongestFitInNumbers(es: seq<Entry>, kept: seq<Entry>, lim: Limits, extraBytes: int, extraMsgs: int)
    requires LongestFit(es, kept, lim, extraBytes, extraMsgs)
    ensures OnlyExcessGone(es, kept, lim, extraBytes, extraMsgs)
  {
    forall i | 0 <= i < |es| - |kept|
      ensures Exceeds(es[i..], lim, extraBytes, extraMsgs)
    {
      assert !Fits(es[i..], lim, extraBytes, extraMsgs);
    }
  }

  /** What is stored after the loop is within the limits, also when the counters over-count. */
  lemma StoredWithinLimits(r: Ring, lim: Limits)
    requires r.bytes >= Bytes(r.stream) && r.msgs >= |r.stream|
    ensures var kept := Evict(r, lim).stream;
            (lim.maxMsgs > 0 ==> |kept| <= lim.maxMsgs) && (lim.maxBytes > 0 ==> Bytes(kept) <= lim.maxBytes)
  {
    EvictIsLongestFit(r, lim);
    EvictKeepsError(r, lim);
  }
}
