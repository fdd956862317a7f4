/** What a channel has retained and why the rest is gone. In every run a message once numbered is
    stored unless later appends pushed it out or a sweep deleted it; and where limits are constant
    and appends find no debts, what is stored is, sweeps aside, the longest end of everything ever
    appended that fits. */
module Retention {
  import opened Eviction
  import opened StoreMachine
  import opened StoreConservation
  import opened StoreSafety
  import opened Contiguity
  import opened Pages
  import SweepUnobservable

  // --- everything ever appended ---

  /** The step appends to the channel. */
  predicate Adds(cap: int, s: Store, a: Action, id: Id) {
    MayAppend(s, a, id) && Outcome(cap, s, a.p, a.blob, a.now).result.Appended?
  }

  function FullRing(s: Store, a: Action, id: Id): Ring
    requires MayAppend(s, a, id)
  {
    Pushed(s.chans[id], s.appenders[a.p].limits, a.blob, a.now)
  }

  /** What an append leaves in the channel. */
  lemma AddsStream(cap: int, s: Store, a: Action, id: Id)
    requires Structure(s) && Adds(cap, s, a, id)
    ensures id in Apply(cap, s, a).chans
    ensures StreamOf(Apply(cap, s, a), id) == Evict(FullRing(s, a, id), s.appenders[a.p].limits).stream
    ensures NextSeq(Apply(cap, s, a), id) == NextSeq(s, id) + 1
  {
    assert Sequenced(s.chans[id]);
  }

  /** An append elsewhere, or one that is refused, leaves the channel alone. */
  lemma OtherAppendsLeave(cap: int, s: Store, a: Action, id: Id)
    requires Structure(s) && a.RunAppend? && !Adds(cap, s, a, id)
    ensures StreamOf(Apply(cap, s, a), id) == StreamOf(s, id) && NextSeq(Apply(cap, s, a), id) == NextSeq(s, id)
  {
    if id in s.chans {
      assert Sequenced(s.chans[id]);
    }
  }

  function Added(cap: int, s: Store, a: Action, id: Id): seq<Entry> {
    if Adds(cap, s, a, id) then [NewEntry(s.chans[id], s.appenders[a.p].limits, a.blob, a.now)] else []
  }

  ghost function History(cap: int, acts: seq<Action>, id: Id): seq<Entry> {
    if acts == [] then []
    else History(cap, acts[..|acts| - 1], id) + Added(cap, Run(cap, acts[..|acts| - 1]), acts[|acts| - 1], id)
  }

  /** Message n is the n-th of the history, and what is stored is what was appended. */
  ghost predicate Recorded(s: Store, id: Id, all: seq<Entry>) {
    && |all| == NextSeq(s, id) - 1
    && (forall i :: 0 <= i < |all| ==> all[i].id == i + 1)
    && (forall e :: e in StreamOf(s, id) ==> 1 <= e.id <= |all| && all[e.id - 1] == e)
  }

  lemma AppendRecorded(cap: int, s: Store, a: Action, id: Id, all: seq<Entry>)
    requires Structure(s) && Adds(cap, s, a, id) && Recorded(s, id, all)
    ensures Recorded(Apply(cap, s, a), id, all + Added(cap, s, a, id))
  {
    assert Sequenced(s.chans[id]);
    AddsStream(cap, s, a, id);
    AppendSources(cap, s, a.p, a.blob, a.now, id);
  }

  /** A step that adds nothing leaves the channel's next number and takes nothing in. */
  lemma NothingNew(cap: int, s: Store, a: Action, id: Id)
    requires Structure(s) && !Adds(cap, s, a, id)
    ensures NextSeq(Apply(cap, s, a), id) == NextSeq(s, id)
    ensures forall e :: e in StreamOf(Apply(cap, s, a), id) ==> e in StreamOf(s, id)
  {
    if a.RunAppend? {
      OtherAppendsLeave(cap, s, a, id);
    } else if Apply(cap, s, a) == s || id !in s.chans {
    } else if a.SweepVisit? {
      VisitSources(s, a.w, id);
    } else {
      OtherStepsLeaveStreams(cap, s, a, id);
    }
  }

  lemma {:induction false} RecordedInEveryRun(cap: int, acts: seq<Action>, id: Id)
    ensures Recorded(Run(cap, acts), id, History(cap, acts, id))
  {
    if acts != [] {
      var before, a := acts[..|acts| - 1], acts[|acts| - 1];
      var s, all := Run(cap, before), History(cap, before, id);
      RecordedInEveryRun(cap, before, id);
      ConservedInEveryRun(cap, before);
      if Adds(cap, s, a, id) {
        AppendRecorded(cap, s, a, id, all);
      } else {
        NothingNew(cap, s, a, id);
        assert all + [] == all;
      }
    }
  }

  // --- two ways to go ---

  /** From some entry numbered n on, the entries are over a limit with the debts counted on top. */
  predicate TooMuchFrom(es: seq<Entry>, n: nat, lim: Limits, extraBytes: int, extraMsgs: int) {
    exists i :: 0 <= i < |es| && es[i].id == n && Exceeds(es[i..], lim, extraBytes, extraMsgs)
  }

  /** The step is an append after which the stored entries from number n on, the new one included, are
      too much for the limits it read, the sweepers' debts counted on top. */
  ghost predicate PushesOut(cap: int, s: Store, a: Action, id: Id, n: nat) {
    Adds(cap, s, a, id)
    && TooMuchFrom(FullRing(s, a, id).stream, n, s.appenders[a.p].limits, PendingBytes(s, id), PendingMsgs(s, id))
  }

  /** The step is a sweeper's deletion of number n, by a reading not before its expiry. */
  ghost predicate SweepsAway(s: Store, a: Action, id: Id, n: nat) {
    a.SweepVisit? && a.w in s.sweepers && id in s.chans &&
    var w := s.sweepers[a.w];
    w.id == id && w.due == NoDue && w.rest != [] && w.rest[0].id == n && Sweepable(w.rest[0], w.now) && Holds(s.chans[id].stream, n)
  }

  ghost predicate PushedOut(cap: int, acts: seq<Action>, id: Id, n: nat) {
    acts != [] && (PushedOut(cap, acts[..|acts| - 1], id, n) || PushesOut(cap, Run(cap, acts[..|acts| - 1]), acts[|acts| - 1], id, n))
  }

  ghost predicate Swept(cap: int, acts: seq<Action>, id: Id, n: nat) {
    acts != [] && (Swept(cap, acts[..|acts| - 1], id, n) || SweepsAway(Run(cap, acts[..|acts| - 1]), acts[|acts| - 1], id, n))
  }

  /** Eviction keeps an entry exactly if the entries from it on fit. */
  lemma KeptFromIff(es: seq<Entry>, kept: seq<Entry>, lim: Limits, extraBytes: int, extraMsgs: int, i: nat)
    requires LongestFit(es, kept, lim, extraBytes, extraMsgs) && i < |es|
    ensures i >= |es| - |kept| <==> !Exceeds(es[i..], lim, extraBytes, extraMsgs)
  {
    if i >= |es| - |kept| {
      FitsShorter(es, |es| - |kept|, i, lim, extraBytes, extraMsgs);
    }
  }

  lemma HeldInSuffixIff(es: seq<Entry>, k: nat, i: nat)
    requires Ascending(es) && k <= |es| && i < |es|
    ensures Holds(es[k..], es[i].id) <==> i >= k
  {
    if i >= k {
      assert es[k..][i - k] == es[i];
    }
  }

  lemma KeptIff(es: seq<Entry>, kept: seq<Entry>, lim: Limits, extraBytes: int, extraMsgs: int, n: nat)
    requires Ascending(es) && LongestFit(es, kept, lim, extraBytes, extraMsgs) && Holds(es, n)
    ensures Holds(kept, n) <==> !TooMuchFrom(es, n, lim, extraBytes, extraMsgs)
  {
    var i :| 0 <= i < |es| && es[i].id == n;
    KeptFromIff(es, kept, lim, extraBytes, extraMsgs, i);
    HeldInSuffixIff(es, |es| - |kept|, i);
    assert forall j :: 0 <= j < |es| && es[j].id == n ==> j == i;
  }

  ghost predicate Stays(cap: int, s: Store, a: Action, id: Id, n: nat) {
    !PushesOut(cap, s, a, id, n) && !SweepsAway(s, a, id, n)
  }

  lemma AppendStays(cap: int, s: Store, a: Action, id: Id, n: nat)
    requires Inv(s) && Adds(cap, s, a, id) && (Holds(s.chans[id].stream, n) || n == s.chans[id].nextSeq)
    ensures Holds(StreamOf(Apply(cap, s, a), id), n) <==> Stays(cap, s, a, id, n)
  {
    var c, lim := s.chans[id], s.appenders[a.p].limits;
    assert ChannelRight(s, id) && Sequenced(c);
    PushedHolds(c, lim, a.blob, a.now, n);
    AppendKeepsIff(c, lim, a.blob, a.now, PendingBytes(s, id), PendingMsgs(s, id), n);
    AddsStream(cap, s, a, id);
    NotAlsoSwept(cap, s, a, id, n);
  }

  lemma NotAlsoSwept(cap: int, s: Store, a: Action, id: Id, n: nat)
    requires Adds(cap, s, a, id)
    ensures Stays(cap, s, a, id, n)
            <==> !TooMuchFrom(FullRing(s, a, id).stream, n, s.appenders[a.p].limits, PendingBytes(s, id), PendingMsgs(s, id))
  {
  }

  lemma PushedHolds(c: Channel, lim: Limits, blob: Blob, now: int, n: nat)
    requires Holds(c.stream, n) || n == c.nextSeq
    ensures Holds(Pushed(c, lim, blob, now).stream, n)
  {
    if Holds(c.stream, n) {
      var e :| e in c.stream && e.id == n;
      assert e in Pushed(c, lim, blob, now).stream;
    } else {
      assert NewEntry(c, lim, blob, now) in Pushed(c, lim, blob, now).stream;
    }
  }

  lemma AppendKeepsIff(c: Channel, lim: Limits, blob: Blob, now: int, bytes: int, msgs: int, n: nat)
    requires Sequenced(c) && c.bytes == Bytes(c.stream) + bytes && c.msgs == |c.stream| + msgs
    requires Holds(Pushed(c, lim, blob, now).stream, n)
    ensures Holds(Evict(Pushed(c, lim, blob, now), lim).stream, n)
            <==> !TooMuchFrom(Pushed(c, lim, blob, now).stream, n, lim, bytes, msgs)
  {
    PushedFacts(c, lim, blob, now);
    EvictKeepsIff(Pushed(c, lim, blob, now), lim, bytes, msgs, n);
  }

  lemma EvictKeepsIff(full: Ring, lim: Limits, bytes: int, msgs: int, n: nat)
    requires Ascending(full.stream) && full.bytes - Bytes(full.stream) == bytes && full.msgs - |full.stream| == msgs
    requires Holds(full.stream, n)
    ensures Holds(Evict(full, lim).stream, n) <==> !TooMuchFrom(full.stream, n, lim, bytes, msgs)
  {
    var kept := Evict(full, lim).stream;
    EvictIsLongestFit(full, lim);
    assert LongestFit(full.stream, kept, lim, bytes, msgs);
    KeptIff(full.stream, kept, lim, bytes, msgs, n);
  }

  lemma VisitStays(s: Store, k: nat, id: Id, n: nat)
    requires Inv(s) && id in s.chans && Holds(s.chans[id].stream, n)
    requires k in s.sweepers && s.sweepers[k].rest != [] && s.sweepers[k].due == NoDue && s.sweepers[k].id in s.chans
    ensures Holds(VisitStep(s, k).chans[id].stream, n) <==> !SweepsAway(s, SweepVisit(k), id, n)
  {
    var w := s.sweepers[k];
    var es := s.chans[id].stream;
    var e :| e in es && e.id == n;
    if w.id == id && Sweepable(w.rest[0], w.now) && Holds(es, w.rest[0].id) {
      SnapshotEntryIsStored(s, k);
      assert Sequenced(s.chans[id]);
      WithoutFacts(es, w.rest[0]);
      SameIdSameEntry(es);
    }
  }

  /** A stored message, or one just appended, is stored after the step unless it goes one of the ways. */
  lemma StaysIff(cap: int, s: Store, a: Action, id: Id, n: nat)
    requires Inv(s) && id in s.chans
    requires Holds(s.chans[id].stream, n) || (Adds(cap, s, a, id) && n == s.chans[id].nextSeq)
    ensures Holds(StreamOf(Apply(cap, s, a), id), n) <==> Stays(cap, s, a, id, n)
  {
    if Adds(cap, s, a, id) {
      AppendStays(cap, s, a, id, n);
    } else if a.SweepVisit? {
      if Apply(cap, s, a) != s {
        VisitStays(s, a.w, id, n);
      }
    } else if a.RunAppend? {
      OtherAppendsLeave(cap, s, a, id);
    } else {
      OtherStepsLeaveStreams(cap, s, a, id);
    }
  }

  lemma NumbersStep(cap: int, s: Store, a: Action, id: Id)
    requires Structure(s)
    ensures NextSeq(Apply(cap, s, a), id) == NextSeq(s, id) + |Added(cap, s, a, id)|
  {
    if Adds(cap, s, a, id) {
      AddsStream(cap, s, a, id);
    } else {
      NothingNew(cap, s, a, id);
    }
  }

  /** What has gone does not come back. */
  lemma GoneForGood(cap: int, s: Store, a: Action, id: Id, n: nat)
    requires Structure(s) && n < NextSeq(s, id) && !Holds(StreamOf(s, id), n)
    ensures !Holds(StreamOf(Apply(cap, s, a), id), n)
  {
    if id in s.chans {
      StoreStepGrows(cap, s, a, id);
    }
  }

  lemma OnlyNumberedGo(cap: int, s: Store, a: Action, id: Id, n: nat)
    requires Structure(s) && (PushesOut(cap, s, a, id, n) || SweepsAway(s, a, id, n))
    ensures n < NextSeq(Apply(cap, s, a), id)
    ensures Holds(StreamOf(s, id), n) || (Adds(cap, s, a, id) && n == NextSeq(s, id))
  {
    assert Sequenced(s.chans[id]);
    NumbersStep(cap, s, a, id);
    if PushesOut(cap, s, a, id, n) {
      var full := FullRing(s, a, id).stream;
      var i :| 0 <= i < |full| && full[i].id == n;
      assert i < |s.chans[id].stream| ==> full[i] in s.chans[id].stream;
    }
  }

  /** A message once numbered is stored if and only if later appends have not pushed it out and no
      sweep has deleted it, whatever the limits, debts and clock readings of the run. */
  lemma {:induction false} StoredUnlessGone(cap: int, acts: seq<Action>, id: Id, n: nat)
    requires n >= 1
    ensures PushedOut(cap, acts, id, n) || Swept(cap, acts, id, n) ==> n < NextSeq(Run(cap, acts), id)
    ensures n < NextSeq(Run(cap, acts), id) ==>
              (Holds(StreamOf(Run(cap, acts), id), n) <==> !PushedOut(cap, acts, id, n) && !Swept(cap, acts, id, n))
  {
    if acts != [] {
      var before, a := acts[..|acts| - 1], acts[|acts| - 1];
      var s := Run(cap, before);
      StoredUnlessGone(cap, before, id, n);
      ConservedInEveryRun(cap, before);
      NumbersStep(cap, s, a, id);
      if PushesOut(cap, s, a, id, n) || SweepsAway(s, a, id, n) {
        OnlyNumberedGo(cap, s, a, id, n);
      }
      if n < NextSeq(s, id) && !Holds(StreamOf(s, id), n) {
        GoneForGood(cap, s, a, id, n);
      } else if n < NextSeq(Run(cap, acts), id) {
        StaysIff(cap, s, a, id, n);
      }
    }
  }

  // --- constant limits and no debts ---

  /** When the step may append to the channel, it goes by these limits and finds no debts. */
  ghost predicate AppendsSteadily(s: Store, a: Action, id: Id, lim: Limits) {
    MayAppend(s, a, id) ==> s.appenders[a.p].limits == lim && PendingBytes(s, id) == 0 && PendingMsgs(s, id) == 0
  }

  ghost predicate Steady(cap: int, acts: seq<Action>, id: Id, lim: Limits) {
    acts == [] || (Steady(cap, acts[..|acts| - 1], id, lim) && AppendsSteadily(Run(cap, acts[..|acts| - 1]), acts[|acts| - 1], id, lim))
  }

  lemma OneMoreIsTooMuch(es: seq<Entry>, e: Entry, lim: Limits)
    requires !Fits(es, lim, 0, 0)
    ensures !Fits(es + [e], lim, 0, 0)
  {
    BytesConcat(es, [e]);
  }

  /** Eviction one entry at a time keeps what eviction of everything at once would. */
  lemma LongestFitOneMore(all: seq<Entry>, s: seq<Entry>, e: Entry, kept: seq<Entry>, lim: Limits)
    requires LongestFit(all, s, lim, 0, 0) && LongestFit(s + [e], kept, lim, 0, 0)
    ensures LongestFit(all + [e], kept, lim, 0, 0)
  {
    var more, first := all + [e], |all| - |s|;
    assert s + [e] == more[first..];
    assert kept == more[|more| - |kept|..];
    forall k | 0 <= k < |more| - |kept|
      ensures !Fits(more[k..], lim, 0, 0)
    {
      if k < first {
        assert more[k..] == all[k..] + [e];
        OneMoreIsTooMuch(all[k..], e, lim);
      } else {
        assert more[k..] == (s + [e])[k - first..];
      }
    }
  }

  /** Eviction in a shorter stream keeps less only where there is nothing more. */
  lemma KeepsAllThereIs(fa: seq<Entry>, fb: seq<Entry>, ka: seq<Entry>, kb: seq<Entry>, lim: Limits)
    requires |fa| <= |fb| && fa == fb[|fb| - |fa|..]
    requires LongestFit(fa, ka, lim, 0, 0) && LongestFit(fb, kb, lim, 0, 0)
    ensures |ka| <= |kb| && ka == kb[|kb| - |ka|..] && (ka == fa || ka == kb)
  {
    SweepUnobservable.DebtsKeepLess(fa, fb, ka, kb, lim, 0, 0);
    if |ka| < |kb| && |ka| < |fa| {
      var j := |fa| - |ka| - 1;
      SweepUnobservable.SuffixOfSuffix(fb, |fb| - |fa|, j);
      assert !Fits(fa[j..], lim, 0, 0);
      FitsShorter(fb, |fb| - |kb|, |fb| - |fa| + j, lim, 0, 0);
    }
  }

  ghost function SweptNumbers(cap: int, acts: seq<Action>, id: Id): iset<nat> {
    iset n: nat | Swept(cap, acts, id, n)
  }

  /** es is the end of kept, and the numbers missing are among the given ones. */
  ghost predicate EndOf(es: seq<Entry>, kept: seq<Entry>, gone: iset<nat>) {
    |es| <= |kept| && es == kept[|kept| - |es|..] && forall e :: e in kept[..|kept| - |es|] ==> e.id in gone
  }

  ghost predicate Retains(cap: int, acts: seq<Action>, id: Id, kept: seq<Entry>, lim: Limits) {
    LongestFit(History(cap, acts, id), kept, lim, 0, 0) && EndOf(StreamOf(Run(cap, acts), id), kept, SweptNumbers(cap, acts, id))
  }

  lemma SweptStep(cap: int, acts: seq<Action>, a: Action, id: Id)
    ensures SweptNumbers(cap, acts + [a], id) == SweptNumbers(cap, acts, id) + iset n: nat | SweepsAway(Run(cap, acts), a, id, n)
  {
    assert (acts + [a])[..|acts + [a]| - 1] == acts;
  }

  lemma HistoryStep(cap: int, acts: seq<Action>, a: Action, id: Id)
    ensures History(cap, acts + [a], id) == History(cap, acts, id) + Added(cap, Run(cap, acts), a, id)
  {
    assert (acts + [a])[..|acts + [a]| - 1] == acts;
  }

  /** An append without debts takes both ends on by one. */
  lemma AppendRetains(cap: int, acts: seq<Action>, a: Action, id: Id, kept: seq<Entry>, lim: Limits) returns (kept': seq<Entry>)
    requires Adds(cap, Run(cap, acts), a, id) && AppendsSteadily(Run(cap, acts), a, id, lim) && Retains(cap, acts, id, kept, lim)
    ensures Retains(cap, acts + [a], id, kept', lim)
  {
    var s := Run(cap, acts);
    var c, e := s.chans[id], NewEntry(s.chans[id], lim, a.blob, a.now);
    RunStep(cap, acts, a);
    HistoryStep(cap, acts, a, id);
    ConservedInEveryRun(cap, acts);
    AddsStream(cap, s, a, id);
    ExactCounters(c, lim, a.blob, a.now, s, id);
    kept' := SweepUnobservable.ExactlyKept(kept + [e], lim);
    SweepUnobservable.ExactlyKeptIsLongest(kept + [e], lim);
    LongestFitOneMore(History(cap, acts, id), kept, e, kept', lim);
    SweptStep(cap, acts, a, id);
    BothOneMore(StreamOf(s, id), kept, e, Evict(Pushed(c, lim, a.blob, a.now), lim).stream, kept', lim,
                SweptNumbers(cap, acts, id), SweptNumbers(cap, acts + [a], id));
  }

  lemma ExactCounters(c: Channel, lim: Limits, blob: Blob, now: int, s: Store, id: Id)
    requires Inv(s) && id in s.chans && c == s.chans[id] && PendingBytes(s, id) == 0 && PendingMsgs(s, id) == 0
    ensures LongestFit(c.stream + [NewEntry(c, lim, blob, now)], Evict(Pushed(c, lim, blob, now), lim).stream, lim, 0, 0)
  {
    assert ChannelRight(s, id) && Sequenced(c);
    PushedFacts(c, lim, blob, now);
    EvictIsLongestFit(Pushed(c, lim, blob, now), lim);
  }

  lemma BothOneMore(s: seq<Entry>, kept: seq<Entry>, e: Entry, es: seq<Entry>, kept': seq<Entry>, lim: Limits,
                    gone: iset<nat>, gone': iset<nat>)
    requires EndOf(s, kept, gone) && gone <= gone'
    requires LongestFit(s + [e], es, lim, 0, 0) && LongestFit(kept + [e], kept', lim, 0, 0)
    ensures EndOf(es, kept', gone')
  {
    var fa, fb := s + [e], kept + [e];
    assert fa == fb[|fb| - |fa|..];
    KeepsAllThereIs(fa, fb, es, kept', lim);
    forall x | x in kept'[..|kept'| - |es|]
      ensures x.id in gone'
    {
      MissingWasMissing(kept, s, e, kept', x);
    }
  }

  lemma MissingWasMissing(kept: seq<Entry>, s: seq<Entry>, e: Entry, kept': seq<Entry>, x: Entry)
    requires |s| <= |kept| && |s| + 1 <= |kept'| <= |kept| + 1 && kept' == (kept + [e])[|kept| + 1 - |kept'|..]
    requires x in kept'[..|kept'| - (|s| + 1)]
    ensures x in kept[..|kept| - |s|]
  {
    var i :| 0 <= i < |kept'| - (|s| + 1) && kept'[i] == x;
    assert kept[..|kept| - |s|][|kept| + 1 - |kept'| + i] == x;
  }

  /** Any other step leaves the history, and a deletion takes the oldest. */
  lemma OtherRetains(cap: int, acts: seq<Action>, a: Action, id: Id, kept: seq<Entry>, lim: Limits)
    requires !Adds(cap, Run(cap, acts), a, id) && Contiguous(Run(cap, acts), id) && Retains(cap, acts, id, kept, lim)
    ensures Retains(cap, acts + [a], id, kept, lim)
  {
    var s := Run(cap, acts);
    var es, es' := StreamOf(s, id), StreamOf(Apply(cap, s, a), id);
    RunStep(cap, acts, a);
    HistoryStep(cap, acts, a, id);
    SweptStep(cap, acts, a, id);
    assert History(cap, acts, id) + [] == History(cap, acts, id);
    if es' != es {
      TakesOldest(cap, acts, a, id);
    }
    OneLess(es, es', kept, SweptNumbers(cap, acts, id), SweptNumbers(cap, acts + [a], id));
  }

  lemma OneLess(es: seq<Entry>, es': seq<Entry>, kept: seq<Entry>, gone: iset<nat>, gone': iset<nat>)
    requires EndOf(es, kept, gone) && gone <= gone'
    requires es' == es || (es != [] && es' == es[1..] && es[0].id in gone')
    ensures EndOf(es', kept, gone')
  {
    if es' != es {
      assert kept[..|kept| - |es'|] == kept[..|kept| - |es|] + [es[0]];
    }
  }

  lemma TakesOldest(cap: int, acts: seq<Action>, a: Action, id: Id)
    requires var s := Run(cap, acts); !Adds(cap, s, a, id) && Contiguous(s, id) && StreamOf(Apply(cap, s, a), id) != StreamOf(s, id)
    ensures var es := StreamOf(Run(cap, acts), id);
            es != [] && StreamOf(Apply(cap, Run(cap, acts), a), id) == es[1..] && SweepsAway(Run(cap, acts), a, id, es[0].id)
  {
    var s := Run(cap, acts);
    ConservedInEveryRun(cap, acts);
    SweepersMissNothing(cap, acts);
    if a.RunAppend? {
      OtherAppendsLeave(cap, s, a, id);
    } else if a.SweepVisit? {
      VisitTakesOldest(s, a.w, id);
    } else if id in s.chans {
      OtherStepsLeaveStreams(cap, s, a, id);
    }
  }

  lemma VisitTakesOldest(s: Store, k: nat, id: Id)
    requires Structure(s) && AllThorough(s) && Contiguous(s, id)
    requires k in s.sweepers && s.sweepers[k].rest != [] && s.sweepers[k].due == NoDue && s.sweepers[k].id in s.chans
    requires StreamOf(VisitStep(s, k), id) != StreamOf(s, id)
    ensures var es := StreamOf(s, id);
            es != [] && StreamOf(VisitStep(s, k), id) == es[1..] && SweepsAway(s, SweepVisit(k), id, es[0].id)
  {
    NextVictimIsOldest(s, k);
  }

  lemma LastOfSteady(cap: int, acts: seq<Action>, before: seq<Action>, a: Action, id: Id, lim: Limits)
    requires acts != [] && before == acts[..|acts| - 1] && a == acts[|acts| - 1]
    requires Steady(cap, acts, id, lim) && InOrder(cap, acts, id)
    ensures Steady(cap, before, id, lim) && InOrder(cap, before, id) && AppendsSteadily(Run(cap, before), a, id, lim)
  {
  }

  /** With constant limits and no debts at appends, expiries being in order: what is stored is the end
      of the longest fitting end of all that was ever appended, and what is missing of it was swept. */
  lemma {:induction false} RetainsTheNewest(cap: int, acts: seq<Action>, id: Id, lim: Limits) returns (kept: seq<Entry>)
    requires Steady(cap, acts, id, lim) && InOrder(cap, acts, id)
    ensures Retains(cap, acts, id, kept, lim)
  {
    if acts == [] {
      kept := [];
    } else {
      var before, a := acts[..|acts| - 1], acts[|acts| - 1];
      assert acts == before + [a];
      LastOfSteady(cap, acts, before, a, id, lim);
      kept := RetainsTheNewest(cap, before, id, lim);
      if Adds(cap, Run(cap, before), a, id) {
        kept := AppendRetains(cap, before, a, id, kept, lim);
      } else {
        ContiguousInEveryRun(cap, before, id);
        OtherRetains(cap, before, a, id, kept, lim);
      }
    }
  }

  /** Absolute retention: then a message is stored if and only if it and all newer ones ever appended
      fit the limits and no sweep has deleted it. */
  lemma StoredIffFits(cap: int, acts: seq<Action>, id: Id, lim: Limits, n: nat)
    requires Steady(cap, acts, id, lim) && InOrder(cap, acts, id) && 1 <= n < NextSeq(Run(cap, acts), id)
    ensures |History(cap, acts, id)| == NextSeq(Run(cap, acts), id) - 1
    ensures Holds(StreamOf(Run(cap, acts), id), n)
            <==> !Exceeds(History(cap, acts, id)[n - 1..], lim, 0, 0) && !Swept(cap, acts, id, n)
  {
    var all, es := History(cap, acts, id), StreamOf(Run(cap, acts), id);
    var kept := RetainsTheNewest(cap, acts, id, lim);
    RecordedInEveryRun(cap, acts, id);
    StoredUnlessGone(cap, acts, id, n);
    HeldIffFits(all, kept, es, lim, n, SweptNumbers(cap, acts, id));
  }

  lemma HeldIffFits(all: seq<Entry>, kept: seq<Entry>, es: seq<Entry>, lim: Limits, n: nat, gone: iset<nat>)
    requires LongestFit(all, kept, lim, 0, 0) && EndOf(es, kept, gone) && (Holds(es, n) ==> n !in gone)
    requires 1 <= n <= |all| && forall i :: 0 <= i < |all| ==> all[i].id == i + 1
    ensures Holds(es, n) <==> !Exceeds(all[n - 1..], lim, 0, 0) && n !in gone
  {
    KeptFromIff(all, kept, lim, 0, 0, n - 1);
    HeldOrMissing(all, kept, es, n);
  }

  lemma HeldOrMissing(all: seq<Entry>, kept: seq<Entry>, es: seq<Entry>, n: nat)
    requires |es| <= |kept| <= |all| && kept == all[|all| - |kept|..] && es == kept[|kept| - |es|..]
    requires 1 <= n <= |all| && forall i :: 0 <= i < |all| ==> all[i].id == i + 1
    ensures Holds(es, n) ==> n - 1 >= |all| - |kept|
    ensures n - 1 >= |all| - |kept| && !Holds(es, n) ==> exists e :: e in kept[..|kept| - |es|] && e.id == n
  {
    assert es == all[|all| - |es|..];
    HeldInSuffixIff(all, |all| - |es|, n - 1);
    if |all| - |kept| <= n - 1 < |all| - |es| {
      var gone := kept[..|kept| - |es|];
      assert gone[n - 1 - (|all| - |kept|)] == all[n - 1];
      assert all[n - 1] in gone;
    }
  }

  // --- what a page holds ---

  /** At least the limit of stored entries lie past the cursor and before number n. */
  predicate PastLimit(es: seq<Entry>, after: nat, n: nat, limit: nat) {
    n > 0 && |After(es, after)| - |After(es, n - 1)| >= limit
  }

  /** To a reader with this clock, what the channel once stored under number n has expired. */
  ghost predicate RunOut(cap: int, acts: seq<Action>, id: Id, n: nat, clock: int) {
    var all := History(cap, acts, id);
    1 <= n <= |all| && Expired(all[n - 1], clock)
  }

  /** Why a number that has been given out is on no page: later appends pushed it out, a sweeper
      deleted it, it has expired, or the range read does not reach to it. */
  ghost predicate Gone(cap: int, acts: seq<Action>, id: Id, n: nat, after: nat, limit: nat, clock: int) {
    || PushedOut(cap, acts, id, n)
    || Swept(cap, acts, id, n)
    || RunOut(cap, acts, id, n, clock)
    || PastLimit(StreamOf(Run(cap, acts), id), after, n, limit)
  }

  lemma {:induction false} AllAfter(es: seq<Entry>, after: nat)
    requires forall e :: e in es ==> e.id > after
    ensures After(es, after) == es
  {
    if es != [] {
      assert es[0] in es;
      AllAfter(es[1..], after);
    }
  }

  lemma AfterFirst(es: seq<Entry>, after: nat)
    requires es != []
    ensures After(es, after) == (if es[0].id > after then [es[0]] else []) + After(es[1..], after)
  {
  }

  lemma FirstPlace(es: seq<Entry>, after: nat)
    requires Ascending(es) && es != [] && es[0].id > after
    ensures After(es, after) == es == After(es, es[0].id - 1)
  {
    AllAfter(es, after);
    AllAfter(es, es[0].id - 1);
  }

  /** How many entries past the cursor come before a given one. */
  lemma {:induction false} PlaceAfter(es: seq<Entry>, after: nat, e: Entry) returns (i: nat)
    requires Ascending(es) && e in es && e.id > after
    ensures i < |After(es, after)| && After(es, after)[i] == e
    ensures i == |After(es, after)| - |After(es, e.id - 1)|
  {
    var rest := es[1..];
    assert es == [es[0]] + rest;
    if es[0] == e {
      FirstPlace(es, after);
      i := 0;
    } else {
      AfterFirst(es, after);
      AfterFirst(es, e.id - 1);
      i := PlaceAfter(rest, after, e);
      if es[0].id > after {
        i := i + 1;
      }
    }
  }

  /** A stored entry past the cursor is on the page exactly if it has not expired and is within the limit. */
  lemma StoredOnPageIff(es: seq<Entry>, after: nat, limit: nat, clock: int, e: Entry)
    requires Ascending(es) && e in es && e.id > after
    ensures e in CatchUp(es, after, limit, clock) <==> !Expired(e, clock) && !PastLimit(es, after, e.id, limit)
  {
    var i := PlaceAfter(es, after, e);
    var all := After(es, after);
    AfterAscends(es, after);
    LiveMembers(Take(all, limit), clock);
    if i < limit {
      assert Take(all, limit)[i] == e;
    }
  }

  lemma PageStored(es: seq<Entry>, after: nat, limit: nat, clock: int, e: Entry)
    requires e in CatchUp(es, after, limit, clock)
    ensures e in es
  {
    var page := Take(After(es, after), limit);
    LiveMembers(page, clock);
    AfterMembers(es, after);
    assert e in After(es, after);
  }

  lemma NumberOnPageIff(es: seq<Entry>, after: nat, limit: nat, clock: int, n: nat, all: seq<Entry>)
    requires Ascending(es) && after < n <= |all| && forall e :: e in es && e.id == n ==> e == all[n - 1]
    ensures Holds(CatchUp(es, after, limit, clock), n)
            <==> Holds(es, n) && !Expired(all[n - 1], clock) && !PastLimit(es, after, n, limit)
  {
    var page := CatchUp(es, after, limit, clock);
    if Holds(page, n) {
      var f :| f in page && f.id == n;
      PageStored(es, after, limit, clock, f);
    }
    if Holds(es, n) {
      var e :| e in es && e.id == n;
      StoredOnPageIff(es, after, limit, clock, e);
    }
  }

  /** Number n is on the page read after these steps. */
  ghost predicate OnPage(cap: int, acts: seq<Action>, id: Id, n: nat, after: nat, limit: nat, clock: int) {
    Holds(CatchUp(StreamOf(Run(cap, acts), id), after, limit, clock), n)
  }

  /** A number that has been given out, past the cursor, is on the page if and only if none of the four
      reasons holds. */
  lemma OnPageUnlessGone(cap: int, acts: seq<Action>, id: Id, n: nat, after: nat, limit: nat, clock: int)
    requires after < n < NextSeq(Run(cap, acts), id)
    ensures OnPage(cap, acts, id, n, after, limit, clock) <==> !Gone(cap, acts, id, n, after, limit, clock)
  {
    ConservedInEveryRun(cap, acts);
    StoredUnlessGone(cap, acts, id, n);
    RecordedInEveryRun(cap, acts, id);
    assert Sequenced(Run(cap, acts).chans[id]);
    NumberOnPageIff(StreamOf(Run(cap, acts), id), after, limit, clock, n, History(cap, acts, id));
  }

  /** With constant limits, no debts at appends and expiries in order, what was pushed out is what does
      not fit the limits together with everything appended since. */
  lemma OnPageUnderSteadyLimits(cap: int, acts: seq<Action>, id: Id, n: nat, after: nat, limit: nat, clock: int, lim: Limits)
    requires after < n < NextSeq(Run(cap, acts), id) && Steady(cap, acts, id, lim) && InOrder(cap, acts, id)
    ensures |History(cap, acts, id)| == NextSeq(Run(cap, acts), id) - 1
    ensures OnPage(cap, acts, id, n, after, limit, clock) <==>
            && !Exceeds(History(cap, acts, id)[n - 1..], lim, 0, 0)
            && !Swept(cap, acts, id, n) && !RunOut(cap, acts, id, n, clock)
            && !PastLimit(StreamOf(Run(cap, acts), id), after, n, limit)
  {
    OnPageUnlessGone(cap, acts, id, n, after, limit, clock);
    StoredUnlessGone(cap, acts, id, n);
    StoredIffFits(cap, acts, id, lim, n);
  }
}
