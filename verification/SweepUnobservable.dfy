/** Can a subscriber tell whether the sweeper has been running? Two runs are compared: one with
    its sweeps, and the same run with every sweep step left out. Between sweeps the answer is no.
    In the middle of one it can be yes, because an append that runs between a deletion and its
    decrements evicts by counters that are still too high; the exact condition is given. */
module SweepUnobservable {
  import opened Eviction
  import opened StoreMachine
  import opened StoreConservation
  import opened StoreSafety
  import opened Contiguity
  import opened SweepHoles
  import opened Pages
  import opened Sums

  /** The run without its sweep steps. */
  function Unswept(acts: seq<Action>): seq<Action> {
    if acts == [] then []
    else
      var before := Unswept(acts[..|acts| - 1]);
      if Sweeps(acts[|acts| - 1]) then before else before + [acts[|acts| - 1]]
  }

  /** The latest reading of any sweep of the run. */
  function SweepReading(acts: seq<Action>): int {
    if acts == [] then 0
    else
      var t := SweepReading(acts[..|acts| - 1]);
      if acts[|acts| - 1].SweepBegin? && acts[|acts| - 1].now > t then acts[|acts| - 1].now else t
  }

  /** Every page that covers the stream reads the same, from any cursor and at any time from t on. */
  ghost predicate SamePages(a: seq<Entry>, b: seq<Entry>, t: int) {
    forall after: nat, limit: nat, now: int ::
      limit >= |a| && limit >= |b| && now >= t ==> CatchUp(a, after, limit, now) == CatchUp(b, after, limit, now)
  }

  /** What eviction by exact counters would keep. */
  function ExactlyKept(es: seq<Entry>, lim: Limits): seq<Entry> {
    Evict(Ring(es, Bytes(es), |es|), lim).stream
  }

  /** The step appends to the channel and its account has no quota left for it. */
  predicate Refused(cap: int, s: Store, a: Action, id: Id) {
    MayAppend(s, a, id) && s.appenders[a.p].owner != "" && cap > 0 && Account(s, s.appenders[a.p].owner) + |a.blob| > cap
  }

  /** When the step appends to the channel: what eviction by exact counters would keep, of the stored
      entries not expired by t and the new one, also fits with the sweepers' debts counted on top. */
  ghost predicate RoomForDebts(cap: int, s: Store, a: Action, id: Id, t: int) {
    MayAppend(s, a, id) && !Refused(cap, s, a, id) ==>
      var lim := s.appenders[a.p].limits;
      Room(ExactlyKept(Live(Pushed(s.chans[id], lim, a.blob, a.now).stream, t), lim), lim, PendingBytes(s, id), PendingMsgs(s, id))
  }

  /** The quota answers the step alike in both states. */
  predicate AnsweredAlike(cap: int, s: Store, u: Store, a: Action, id: Id) {
    Refused(cap, s, a, id) <==> Refused(cap, u, a, id)
  }

  predicate Room(live: seq<Entry>, lim: Limits, extraBytes: int, extraMsgs: int) {
    live == [] || Fits(live, lim, extraBytes, extraMsgs)
  }

  /** The channel belongs to no account, so no quota shared with other channels bears on it. */
  ghost predicate Unowned(acts: seq<Action>, id: Id) {
    forall a :: a in acts && a.Create? && a.id == id ==> a.owner == ""
  }

  // --- expiry and catch-up ---

  predicate Timely(es: seq<Entry>) {
    ExpiresInOrder(es) && NoneBelowZero(es)
  }

  /** When entries expire in order and the oldest has not, none has. */
  lemma NoneExpiredYet(es: seq<Entry>, now: int)
    requires Timely(es) && es != [] && !Expired(es[0], now)
    ensures forall e :: e in es ==> !Expired(e, now)
  {
    forall e | e in es
      ensures !Expired(e, now)
    {
      var j :| 0 <= j < |es| && es[j] == e;
      assert es[0] in es;
    }
  }

  /** When entries expire in order, the unexpired ones are the newest ones. */
  lemma {:induction false} LiveIsNewest(es: seq<Entry>, now: int) returns (dead: seq<Entry>)
    requires Timely(es)
    ensures es == dead + Live(es, now) && AllExpire(dead, now)
    ensures forall e :: e in Live(es, now) ==> !Expired(e, now)
  {
    if es == [] {
      dead := [];
    } else if Expired(es[0], now) {
      var first, rest := es[0], es[1..];
      dead := LiveIsNewest(rest, now);
      assert es == [first] + rest;
      dead := [first] + dead;
    } else {
      NoneExpiredYet(es, now);
      NoneExpired(es, now);
      dead := [];
    }
  }

  /** a is b without some of the entries that have expired by t. */
  ghost predicate Thins(a: seq<Entry>, b: seq<Entry>, t: int)
    decreases |b|
  {
    if b == [] then a == []
    else
      || (a != [] && a[0] == b[0] && Thins(a[1..], b[1..], t))
      || (Expired(b[0], t) && Thins(a, b[1..], t))
  }

  lemma CatchUpFirst(es: seq<Entry>, after: nat, limit: nat, now: int)
    requires es != []
    ensures CatchUp(es, after, limit, now)
            == if es[0].id <= after then CatchUp(es[1..], after, limit, now)
               else if limit == 0 then []
               else (if Expired(es[0], now) then [] else [es[0]]) + CatchUp(es[1..], after, limit - 1, now)
  {
    var rest := After(es[1..], after);
    if es[0].id > after && limit > 0 {
      assert Take([es[0]] + rest, limit) == [es[0]] + Take(rest, limit - 1);
    }
  }

  lemma {:induction false} LongerPage(es: seq<Entry>, after: nat, limit: nat, now: int)
    requires limit > 0
    ensures CatchUp(es, after, limit - 1, now) <= CatchUp(es, after, limit, now)
    ensures limit > |es| ==> CatchUp(es, after, limit - 1, now) == CatchUp(es, after, limit, now)
    decreases |es|
  {
    if es == [] {
    } else if es[0].id <= after {
      CatchUpFirst(es, after, limit - 1, now);
      CatchUpFirst(es, after, limit, now);
      LongerPage(es[1..], after, limit, now);
    } else {
      CatchUpFirst(es, after, limit - 1, now);
      CatchUpFirst(es, after, limit, now);
      if limit > 1 {
        LongerPage(es[1..], after, limit - 1, now);
      }
    }
  }

  /** The page of b begins the page of a, and is all of it when the limit covers b. */
  predicate BeginsPage(a: seq<Entry>, b: seq<Entry>, after: nat, limit: nat, now: int) {
    && CatchUp(b, after, limit, now) <= CatchUp(a, after, limit, now)
    && (limit >= |b| ==> CatchUp(b, after, limit, now) == CatchUp(a, after, limit, now))
  }

  /** How much of the limit is left when the entry is behind. */
  function LeftFor(e: Entry, after: nat, limit: nat): nat {
    if e.id > after && limit > 0 then limit - 1 else limit
  }

  lemma BeginsWithSame(a: seq<Entry>, b: seq<Entry>, after: nat, limit: nat, now: int)
    requires a != [] && b != [] && a[0] == b[0] && BeginsPage(a[1..], b[1..], after, LeftFor(b[0], after, limit), now)
    ensures BeginsPage(a, b, after, limit, now)
  {
    CatchUpFirst(a, after, limit, now);
    CatchUpFirst(b, after, limit, now);
  }

  lemma BeginsWithDropped(a: seq<Entry>, b: seq<Entry>, after: nat, limit: nat, now: int)
    requires b != [] && Expired(b[0], now) && |a| < |b| && BeginsPage(a, b[1..], after, LeftFor(b[0], after, limit), now)
    ensures BeginsPage(a, b, after, limit, now)
  {
    CatchUpFirst(b, after, limit, now);
    if b[0].id > after {
      if limit > 0 {
        LongerPage(a, after, limit, now);
        PrefixOfLonger(CatchUp(b, after, limit, now), CatchUp(a, after, limit - 1, now), CatchUp(a, after, limit, now));
      }
    }
  }

  lemma PrefixOfLonger(x: seq<Entry>, y: seq<Entry>, z: seq<Entry>)
    requires x <= y <= z
    ensures x <= z
  {
  }

  /** Whatever the limit and the order of expiry, a page read before expired entries are deleted is
      the beginning of the page read afterwards. */
  lemma {:induction false} PageIsPrefixOfThinnedPage(a: seq<Entry>, b: seq<Entry>, t: int, after: nat, limit: nat, now: int)
    requires Thins(a, b, t) && t <= now
    ensures BeginsPage(a, b, after, limit, now)
    decreases |b|
  {
    if b != [] {
      var less := LeftFor(b[0], after, limit);
      if a != [] && a[0] == b[0] && Thins(a[1..], b[1..], t) {
        PageIsPrefixOfThinnedPage(a[1..], b[1..], t, after, less, now);
        BeginsWithSame(a, b, after, limit, now);
      } else {
        PageIsPrefixOfThinnedPage(a, b[1..], t, after, less, now);
        ThinnedShorter(a, b[1..], t);
        BeginsWithDropped(a, b, after, limit, now);
      }
    }
  }

  lemma {:induction false} ThinnedShorter(a: seq<Entry>, b: seq<Entry>, t: int)
    requires Thins(a, b, t)
    ensures |a| <= |b|
    decreases |b|
  {
    if b != [] {
      if a != [] && a[0] == b[0] && Thins(a[1..], b[1..], t) {
        ThinnedShorter(a[1..], b[1..], t);
      } else {
        ThinnedShorter(a, b[1..], t);
      }
    }
  }

  lemma {:induction false} ThinsSelf(es: seq<Entry>, t: int)
    ensures Thins(es, es, t)
  {
    if es != [] {
      ThinsSelf(es[1..], t);
    }
  }

  lemma {:induction false} DeletionThins(es: seq<Entry>, e: Entry, t: int)
    requires Ascending(es) && e in es && Expired(e, t)
    ensures Thins(Without(es, e.id), es, t)
  {
    if es[0] == e {
      ThinsSelf(es[1..], t);
    } else {
      assert es == [es[0]] + es[1..];
      DeletionThins(es[1..], e, t);
      SameIdSameEntry(es);
      assert Without(es, e.id)[1..] == Without(es[1..], e.id);
    }
  }

  /** A sweep never takes anything from a page: in every reachable state, whatever TTLs the channel
      has had, the page read before a sweep step is the beginning of the page read after it, by a
      reader whose clock is not behind the sweeper's. */
  lemma SweepStepNeverShortensPage(cap: int, acts: seq<Action>, a: Action, id: Id, after: nat, limit: nat, now: int)
    requires ReadsNoneBelowZero(acts) && Sweeps(a)
    requires a.SweepVisit? && a.w in Run(cap, acts).sweepers ==> Run(cap, acts).sweepers[a.w].now <= now
    ensures BeginsPage(StreamOf(Run(cap, acts + [a]), id), StreamOf(Run(cap, acts), id), after, limit, now)
  {
    var s := Run(cap, acts);
    RunStep(cap, acts, a);
    ConservedInEveryRun(cap, acts);
    if id in s.chans {
      ExpiriesFromZero(cap, acts, id);
      SweepStepThins(cap, s, a, id, now);
      PageIsPrefixOfThinnedPage(StreamOf(Apply(cap, s, a), id), StreamOf(s, id), now, after, limit, now);
    } else {
      SweepStepKeepsChannels(cap, s, a);
    }
  }

  lemma SweepStepThins(cap: int, s: Store, a: Action, id: Id, t: int)
    requires Structure(s) && Sweeps(a) && id in s.chans && NoneBelowZero(s.chans[id].stream)
    requires a.SweepVisit? && a.w in s.sweepers ==> s.sweepers[a.w].now <= t
    ensures Thins(StreamOf(Apply(cap, s, a), id), StreamOf(s, id), t)
  {
    ThinsSelf(s.chans[id].stream, t);
    if !a.SweepVisit? {
      OtherStepsLeaveStreams(cap, s, a, id);
    } else if Apply(cap, s, a) != s {
      VisitThins(s, a.w, id, t);
    }
  }

  lemma VisitThins(s: Store, k: nat, id: Id, t: int)
    requires Structure(s) && id in s.chans && NoneBelowZero(s.chans[id].stream)
    requires k in s.sweepers && s.sweepers[k].rest != [] && s.sweepers[k].id in s.chans && s.sweepers[k].now <= t
    ensures Thins(StreamOf(VisitStep(s, k), id), StreamOf(s, id), t)
  {
    var w := s.sweepers[k];
    ThinsSelf(s.chans[id].stream, t);
    if w.id == id && Holds(s.chans[id].stream, w.rest[0].id) {
      SnapshotEntryIsStored(s, k);
      assert Sequenced(s.chans[id]);
      if Sweepable(w.rest[0], w.now) {
        DeletionThins(s.chans[id].stream, w.rest[0], t);
      }
    }
  }

  /** a is b without some expired oldest entries. */
  ghost predicate DropsExpired(a: seq<Entry>, b: seq<Entry>, t: int) {
    |a| <= |b| && a == b[|b| - |a|..] && AllExpire(b[..|b| - |a|], t)
  }

  lemma {:induction false} DroppingThins(a: seq<Entry>, b: seq<Entry>, t: int)
    requires DropsExpired(a, b, t)
    ensures Thins(a, b, t)
    decreases |b|
  {
    if |a| == |b| {
      ThinsSelf(b, t);
    } else {
      assert b[0] in b[..|b| - |a|];
      assert a == b[1..][|b[1..]| - |a|..];
      assert b[1..][..|b[1..]| - |a|] == b[..|b| - |a|][1..];
      DroppingThins(a, b[1..], t);
    }
  }

  lemma DroppingExpiredShowsOnNoPage(a: seq<Entry>, b: seq<Entry>, t: int)
    requires DropsExpired(a, b, t)
    ensures SamePages(a, b, t)
  {
    DroppingThins(a, b, t);
    forall after: nat, limit: nat, now: int | limit >= |a| && limit >= |b| && now >= t
      ensures CatchUp(a, after, limit, now) == CatchUp(b, after, limit, now)
    {
      PageIsPrefixOfThinnedPage(a, b, t, after, limit, now);
    }
  }

  lemma SamePagesSameLive(a: seq<Entry>, b: seq<Entry>, t: int)
    requires SamePages(a, b, t)
    requires (forall e :: e in a ==> e.id > 0) && (forall e :: e in b ==> e.id > 0)
    ensures Live(a, t) == Live(b, t)
  {
    AfterZero(a);
    AfterZero(b);
    var limit := |a| + |b|;
    assert CatchUp(a, 0, limit, t) == CatchUp(b, 0, limit, t);
  }

  // --- one append, with and without debts on the counters ---

  lemma SuffixOfSuffix(es: seq<Entry>, j: nat, k: nat)
    requires j + k <= |es|
    ensures es[j..][k..] == es[j + k..]
  {
  }

  /** Debts only make the eviction loop keep less. */
  lemma DebtsKeepLess(fa: seq<Entry>, fb: seq<Entry>, ka: seq<Entry>, kb: seq<Entry>, lim: Limits, eb: nat, em: nat)
    requires |fa| <= |fb| && fa == fb[|fb| - |fa|..]
    requires LongestFit(fa, ka, lim, eb, em) && LongestFit(fb, kb, lim, 0, 0)
    ensures |ka| <= |kb| && ka == kb[|kb| - |ka|..]
  {
    SuffixOfSuffix(fb, |fb| - |fa|, |fa| - |ka|);
    var j := |fb| - |ka|;
    assert ka == fb[j..];
    assert ka != [] ==> Fits(fb[j..], lim, 0, 0);
    if |ka| <= |kb| {
      SuffixOfSuffix(fb, |fb| - |kb|, |kb| - |ka|);
    }
  }

  /** An append keeps the two streams alike if and only if there is room for the debts. */
  lemma AppendAlikeIffRoom(fa: seq<Entry>, fb: seq<Entry>, ka: seq<Entry>, kb: seq<Entry>, lim: Limits, eb: nat, em: nat, t: int)
    requires DropsExpired(fa, fb, t) && Timely(fb)
    requires LongestFit(fa, ka, lim, eb, em) && LongestFit(fb, kb, lim, 0, 0)
    ensures var room := Room(Live(kb, t), lim, eb, em);
            && (room ==> DropsExpired(ka, kb, t))
            && (Live(ka, t) == Live(kb, t) ==> room)
  {
    DebtsKeepLess(fa, fb, ka, kb, lim, eb, em);
    if Room(Live(kb, t), lim, eb, em) {
      RoomKeepsAlike(fa, fb, ka, kb, lim, eb, em, t);
    }
    if Live(ka, t) == Live(kb, t) && Live(kb, t) != [] {
      NewerFits(ka, Live(kb, t), lim, eb, em, t);
    }
  }

  lemma RoomKeepsAlike(fa: seq<Entry>, fb: seq<Entry>, ka: seq<Entry>, kb: seq<Entry>, lim: Limits, eb: nat, em: nat, t: int)
    requires DropsExpired(fa, fb, t) && Timely(fb)
    requires LongestFit(fa, ka, lim, eb, em) && LongestFit(fb, kb, lim, 0, 0)
    requires |ka| <= |kb| && ka == kb[|kb| - |ka|..] && Room(Live(kb, t), lim, eb, em)
    ensures DropsExpired(ka, kb, t)
  {
    var live := Live(kb, t);
    var dead := LiveIsNewest(kb, t);
    if live != [] {
      RoomKeepsLive(fa, fb, ka, kb, dead, live, lim, eb, em, t);
    }
    assert kb[..|kb| - |ka|] <= dead;
  }

  lemma NewerFits(ka: seq<Entry>, live: seq<Entry>, lim: Limits, eb: nat, em: nat, t: int)
    requires Timely(ka) && live == Live(ka, t) && (ka == [] || Fits(ka, lim, eb, em)) && live != []
    ensures Fits(live, lim, eb, em)
  {
    var dead := LiveIsNewest(ka, t);
    assert ka[0..] == ka && ka[|dead|..] == live;
    FitsShorter(ka, 0, |dead|, lim, eb, em);
  }

  lemma RoomKeepsLive(fa: seq<Entry>, fb: seq<Entry>, ka: seq<Entry>, kb: seq<Entry>, dead: seq<Entry>, live: seq<Entry>,
                      lim: Limits, eb: nat, em: nat, t: int)
    requires DropsExpired(fa, fb, t)
    requires LongestFit(fa, ka, lim, eb, em) && |kb| <= |fb| && kb == fb[|fb| - |kb|..]
    requires kb == dead + live && live != [] && !Expired(live[0], t)
    requires Fits(live, lim, eb, em)
    ensures |live| <= |ka|
  {
    var gone := fb[..|fb| - |fa|];
    assert live == fb[|fb| - |live|..];
    assert live[0] !in gone;
    assert fb[|fb| - |live|] == live[0];
    assert |live| <= |fa|;
    assert live == fa[|fa| - |live|..];
  }

  /** With exact counters, eviction among the unexpired entries keeps the unexpired of what eviction
      among all of them keeps. */
  lemma ExactKeepsLive(fa: seq<Entry>, fb: seq<Entry>, kb: seq<Entry>, lim: Limits, t: int)
    requires DropsExpired(fa, fb, t) && Timely(fb) && LongestFit(fb, kb, lim, 0, 0)
    ensures Live(kb, t) == ExactlyKept(Live(fa, t), lim)
  {
    var dead := LiveIsNewest(fb, t);
    var live := Live(fb, t);
    DroppedWereDead(fa, fb, t);
    ExactlyKeptIsLongest(live, lim);
    if |kb| < |live| {
      KeptAmongLive(fb, kb, dead, live, lim, t);
    } else {
      LiveAmongKept(fb, kb, dead, live, lim, t);
    }
    LongestFitUnique(live, Live(kb, t), ExactlyKept(live, lim), lim, 0, 0);
  }

  lemma DroppedWereDead(fa: seq<Entry>, fb: seq<Entry>, t: int)
    requires DropsExpired(fa, fb, t)
    ensures Live(fa, t) == Live(fb, t)
  {
    var gone := fb[..|fb| - |fa|];
    assert fb == gone + fa;
    LiveConcat(gone, fa, t);
    AllExpired(gone, t);
  }

  lemma ExactlyKeptIsLongest(es: seq<Entry>, lim: Limits)
    ensures LongestFit(es, ExactlyKept(es, lim), lim, 0, 0)
  {
    EvictIsLongestFit(Ring(es, Bytes(es), |es|), lim);
  }

  lemma KeptAmongLive(fb: seq<Entry>, kb: seq<Entry>, dead: seq<Entry>, live: seq<Entry>, lim: Limits, t: int)
    requires fb == dead + live && LongestFit(fb, kb, lim, 0, 0) && |kb| < |live|
    requires forall e :: e in live ==> !Expired(e, t)
    ensures Live(kb, t) == kb && LongestFit(live, kb, lim, 0, 0)
  {
    assert kb == live[|live| - |kb|..];
    NoneExpired(kb, t);
    forall k | 0 <= k < |live| - |kb|
      ensures !Fits(live[k..], lim, 0, 0)
    {
      assert live[k..] == fb[|dead| + k..];
    }
  }

  lemma LiveAmongKept(fb: seq<Entry>, kb: seq<Entry>, dead: seq<Entry>, live: seq<Entry>, lim: Limits, t: int)
    requires fb == dead + live && LongestFit(fb, kb, lim, 0, 0) && |kb| >= |live|
    requires AllExpire(dead, t) && forall e :: e in live ==> !Expired(e, t)
    ensures Live(kb, t) == live && LongestFit(live, live, lim, 0, 0)
  {
    var first := dead[|dead| + |live| - |kb|..];
    assert kb == first + live;
    LiveConcat(first, live, t);
    AllExpired(first, t);
    NoneExpired(live, t);
    if live != [] {
      assert kb[0..] == kb && kb[|first|..] == live;
      FitsShorter(kb, 0, |first|, lim, 0, 0);
    }
    WholeFits(live, lim, 0, 0);
  }

  // --- the two runs side by side ---

  predicate SameConfig(a: Channel, b: Channel) {
    a.owner == b.owner && a.kAuth == b.kAuth && a.retained == b.retained && a.limits == b.limits
  }

  ghost predicate Alike(a: Store, b: Store, id: Id, t: int) {
    && a.appenders == b.appenders && a.chans.Keys == b.chans.Keys && b.sweepers == map[]
    && (forall i :: i in a.chans ==> SameConfig(a.chans[i], b.chans[i]))
    && (id in a.chans ==>
          && a.chans[id].nextSeq == b.chans[id].nextSeq
          && DropsExpired(a.chans[id].stream, b.chans[id].stream, t))
  }

  lemma LongerExpired(a: seq<Entry>, b: seq<Entry>, t: int, now: int)
    requires DropsExpired(a, b, t) && t <= now
    ensures DropsExpired(a, b, now)
  {
  }

  lemma PushBoth(a: seq<Entry>, b: seq<Entry>, e: Entry, t: int)
    requires DropsExpired(a, b, t)
    ensures DropsExpired(a + [e], b + [e], t)
  {
    assert (b + [e])[..|b| - |a|] == b[..|b| - |a|];
    assert (b + [e])[|b| - |a|..] == b[|b| - |a|..] + [e];
  }

  /** What an append that is not refused leaves. */
  function Kept(c: Channel, lim: Limits, blob: Blob, now: int): seq<Entry> {
    Evict(Pushed(c, lim, blob, now), lim).stream
  }

  /** s' is s after the appender's script left the given entries in the channel. */
  ghost predicate AppendsTo(s: Store, s': Store, p: nat, id: Id, kept: seq<Entry>) {
    && s'.chans.Keys == s.chans.Keys && s'.sweepers == s.sweepers && s'.appenders == s.appenders - {p}
    && (forall i :: i in s.chans ==> SameConfig(s.chans[i], s'.chans[i]))
    && (id in s.chans ==> s'.chans[id].stream == kept && s'.chans[id].nextSeq == s.chans[id].nextSeq + 1)
  }

  lemma AdmittedAppend(cap: int, s: Store, p: nat, blob: Blob, now: int, id: Id)
    requires p in s.appenders && s.appenders[p].id == id && id in s.chans
    requires !Refused(cap, s, RunAppend(p, blob, now), id) && Sequenced(s.chans[id])
    ensures AppendsTo(s, RunAppendStep(cap, s, p, blob, now), p, id, Kept(s.chans[id], s.appenders[p].limits, blob, now))
  {
  }

  lemma PushedAlike(a: Channel, b: Channel, lim: Limits, blob: Blob, t: int, now: int)
    requires a.nextSeq == b.nextSeq && DropsExpired(a.stream, b.stream, t) && Timely(b.stream) && now >= 0
    requires forall e :: e in b.stream ==> NoLater(e, NewEntry(b, lim, blob, now))
    ensures var fa, fb := Pushed(a, lim, blob, now).stream, Pushed(b, lim, blob, now).stream;
            DropsExpired(fa, fb, t) && Timely(fb)
  {
    PushBoth(a.stream, b.stream, NewEntry(b, lim, blob, now), t);
  }

  /** What the counters of a channel are off by. */
  ghost predicate OffBy(c: Channel, bytes: int, msgs: int) {
    c.bytes - Bytes(c.stream) == bytes && c.msgs - |c.stream| == msgs
  }

  lemma KeptIsLongest(c: Channel, bytes: int, msgs: int, lim: Limits, blob: Blob, now: int)
    requires Sequenced(c) && OffBy(c, bytes, msgs)
    ensures LongestFit(Pushed(c, lim, blob, now).stream, Kept(c, lim, blob, now), lim, bytes, msgs)
  {
    PushedFacts(c, lim, blob, now);
    EvictIsLongestFit(Pushed(c, lim, blob, now), lim);
  }

  /** The run with sweeps at a, the run without at b, and nothing swept by a reading past t. */
  ghost predicate Comparable(a: Store, b: Store, id: Id, t: int) {
    && Inv(a) && Inv(b) && AllThorough(a) && NoReadingPast(a, t) && Alike(a, b, id, t) && Contiguous(b, id)
    && (id in b.chans ==> NoneBelowZero(b.chans[id].stream))
  }

  ghost predicate NoReadingPast(s: Store, t: int) {
    forall k :: k in s.sweepers ==> s.sweepers[k].now <= t
  }

  lemma CountersOff(a: Store, b: Store, id: Id, t: int)
    requires Comparable(a, b, id, t) && id in a.chans
    ensures OffBy(a.chans[id], PendingBytes(a, id), PendingMsgs(a, id)) && OffBy(b.chans[id], 0, 0)
    ensures PendingBytes(a, id) >= 0 && PendingMsgs(a, id) >= 0
    ensures Sequenced(a.chans[id]) && Sequenced(b.chans[id])
  {
    DebtsAreDebts(a, id, "");
    assert ChannelRight(a, id) && ChannelRight(b, id);
  }

  /** One append in both runs: they stay alike if and only if there was room. */
  lemma KeptAlike(a: Store, b: Store, lim: Limits, blob: Blob, id: Id, t: int, now: int)
    requires Comparable(a, b, id, t) && id in a.chans && now >= 0
    requires forall e :: e in b.chans[id].stream ==> NoLater(e, NewEntry(b.chans[id], lim, blob, now))
    ensures var ka, kb := Kept(a.chans[id], lim, blob, now), Kept(b.chans[id], lim, blob, now);
            var room := Room(ExactlyKept(Live(Pushed(a.chans[id], lim, blob, now).stream, t), lim), lim,
                             PendingBytes(a, id), PendingMsgs(a, id));
            && (room ==> DropsExpired(ka, kb, t))
            && (Live(ka, t) == Live(kb, t) ==> room)
  {
    var ca, cb := a.chans[id], b.chans[id];
    var fa, fb := Pushed(ca, lim, blob, now).stream, Pushed(cb, lim, blob, now).stream;
    CountersOff(a, b, id, t);
    PushedAlike(ca, cb, lim, blob, t, now);
    KeptIsLongest(ca, PendingBytes(a, id), PendingMsgs(a, id), lim, blob, now);
    KeptIsLongest(cb, 0, 0, lim, blob, now);
    ExactKeepsLive(fa, fb, Kept(cb, lim, blob, now), lim, t);
    AppendAlikeIffRoom(fa, fb, Kept(ca, lim, blob, now), Kept(cb, lim, blob, now), lim, PendingBytes(a, id), PendingMsgs(a, id), t);
  }

  lemma AppendedAlike(a: Store, b: Store, a': Store, b': Store, p: nat, id: Id, ka: seq<Entry>, kb: seq<Entry>, t: int)
    requires Alike(a, b, id, t) && AppendsTo(a, a', p, id, ka) && AppendsTo(b, b', p, id, kb)
    requires DropsExpired(ka, kb, t)
    ensures Alike(a', b', id, t)
  {
  }

  lemma AppendersAlike(a: Store, b: Store, p: nat, id: Id, t: int)
    requires Comparable(a, b, id, t) && p in a.appenders && a.appenders[p].id == id && id in a.chans
    ensures p in b.appenders && b.appenders[p] == a.appenders[p] && id in b.chans
  {
  }

  /** The channel looks the same: the same pages, and the same number next. */
  ghost predicate LooksSame(a: Store, b: Store, id: Id, t: int) {
    NextSeq(a, id) == NextSeq(b, id) && SamePages(StreamOf(a, id), StreamOf(b, id), t)
  }

  /** The same answer and room keep the two states alike, the same answer keeps the next number the
      same, and if they look the same there was the same answer and room. */
  ghost predicate ShowsUnless(answered: bool, room: bool, a': Store, b': Store, id: Id, t: int) {
    && (answered && room ==> Alike(a', b', id, t))
    && (answered ==> NextSeq(a', id) == NextSeq(b', id))
    && (LooksSame(a', b', id, t) ==> answered && room)
  }

  lemma AdmittedShows(cap: int, a: Store, b: Store, p: nat, blob: Blob, now: int, id: Id, t: int)
    requires Comparable(a, b, id, t) && now >= 0 && AppendsInOrder(b, RunAppend(p, blob, now), id)
    requires p in a.appenders && a.appenders[p].id == id && id in a.chans
    requires !Refused(cap, a, RunAppend(p, blob, now), id) && !Refused(cap, b, RunAppend(p, blob, now), id)
    ensures p in b.appenders && b.appenders[p].id in b.chans
    ensures ShowsUnless(true, RoomForDebts(cap, a, RunAppend(p, blob, now), id, t),
                        RunAppendStep(cap, a, p, blob, now), RunAppendStep(cap, b, p, blob, now), id, t)
  {
    var lim := a.appenders[p].limits;
    var ka, kb := Kept(a.chans[id], lim, blob, now), Kept(b.chans[id], lim, blob, now);
    CountersOff(a, b, id, t);
    AppendersAlike(a, b, p, id, t);
    KeptAlike(a, b, lim, blob, id, t, now);
    AdmittedAppend(cap, a, p, blob, now, id);
    AdmittedAppend(cap, b, p, blob, now, id);
    KeptHasNumbers(a.chans[id], lim, blob, now);
    KeptHasNumbers(b.chans[id], lim, blob, now);
    if DropsExpired(ka, kb, t) {
      AppendedAlike(a, b, RunAppendStep(cap, a, p, blob, now), RunAppendStep(cap, b, p, blob, now), p, id, ka, kb, t);
    }
    if SamePages(ka, kb, t) {
      SamePagesSameLive(ka, kb, t);
    }
  }

  lemma KeptHasNumbers(c: Channel, lim: Limits, blob: Blob, now: int)
    requires Sequenced(c)
    ensures forall e :: e in Kept(c, lim, blob, now) ==> e.id > 0
  {
    EvictIsLongestFit(Pushed(c, lim, blob, now), lim);
  }

  /** What an append elsewhere, or one whose turn it is not, leaves of a state as far as the channel
      is concerned. */
  ghost predicate LeavesAlone(s: Store, s': Store, id: Id) {
    && s'.chans.Keys == s.chans.Keys && s'.sweepers == s.sweepers
    && (forall i :: i in s.chans ==> SameConfig(s.chans[i], s'.chans[i]))
    && (id in s.chans ==> s'.chans[id].stream == s.chans[id].stream && s'.chans[id].nextSeq == s.chans[id].nextSeq)
  }

  lemma OtherAppendLeaves(cap: int, s: Store, p: nat, blob: Blob, now: int, id: Id)
    requires p in s.appenders && s.appenders[p].id in s.chans ==> s.appenders[p].id != id
    ensures var s' := Apply(cap, s, RunAppend(p, blob, now));
            && LeavesAlone(s, s', id)
            && s'.appenders == if p in s.appenders && s.appenders[p].id in s.chans then s.appenders - {p} else s.appenders
  {
  }

  lemma AloneStaysAlike(a: Store, b: Store, a': Store, b': Store, id: Id, t: int)
    requires Alike(a, b, id, t) && LeavesAlone(a, a', id) && LeavesAlone(b, b', id) && a'.appenders == b'.appenders
    ensures Alike(a', b', id, t)
  {
  }

  lemma OtherAppendAlike(cap: int, a: Store, b: Store, p: nat, blob: Blob, now: int, id: Id, t: int)
    requires Alike(a, b, id, t)
    requires p in a.appenders && a.appenders[p].id in a.chans ==> a.appenders[p].id != id
    ensures var act := RunAppend(p, blob, now); Alike(Apply(cap, a, act), Apply(cap, b, act), id, t)
  {
    OtherAppendLeaves(cap, a, p, blob, now, id);
    OtherAppendLeaves(cap, b, p, blob, now, id);
    AloneStaysAlike(a, b, Apply(cap, a, RunAppend(p, blob, now)), Apply(cap, b, RunAppend(p, blob, now)), id, t);
  }

  lemma RefusedAppend(cap: int, s: Store, p: nat, blob: Blob, now: int, id: Id)
    requires Refused(cap, s, RunAppend(p, blob, now), id)
    ensures var s' := RunAppendStep(cap, s, p, blob, now); LeavesAlone(s, s', id) && s'.appenders == s.appenders - {p}
  {
  }

  /** The next number moves exactly if the append is not refused. */
  lemma NumberMovesIffAdmitted(cap: int, s: Store, p: nat, blob: Blob, now: int, id: Id)
    requires Structure(s) && MayAppend(s, RunAppend(p, blob, now), id)
    ensures NextSeq(RunAppendStep(cap, s, p, blob, now), id)
            == NextSeq(s, id) + (if Refused(cap, s, RunAppend(p, blob, now), id) then 0 else 1)
  {
    assert Sequenced(s.chans[id]);
    if !Refused(cap, s, RunAppend(p, blob, now), id) {
      AdmittedAppend(cap, s, p, blob, now, id);
    }
  }

  lemma OwnAppendShows(cap: int, a: Store, b: Store, p: nat, blob: Blob, now: int, id: Id, t: int)
    requires Comparable(a, b, id, t) && now >= 0 && AppendsInOrder(b, RunAppend(p, blob, now), id)
    requires MayAppend(a, RunAppend(p, blob, now), id)
    ensures p in b.appenders && b.appenders[p].id in b.chans
    ensures var act := RunAppend(p, blob, now);
            ShowsUnless(AnsweredAlike(cap, a, b, act, id), RoomForDebts(cap, a, act, id, t),
                        RunAppendStep(cap, a, p, blob, now), RunAppendStep(cap, b, p, blob, now), id, t)
  {
    var act := RunAppend(p, blob, now);
    AppendersAlike(a, b, p, id, t);
    NumberMovesIffAdmitted(cap, a, p, blob, now, id);
    NumberMovesIffAdmitted(cap, b, p, blob, now, id);
    if Refused(cap, a, act, id) && Refused(cap, b, act, id) {
      RefusedAppend(cap, a, p, blob, now, id);
      RefusedAppend(cap, b, p, blob, now, id);
      AloneStaysAlike(a, b, RunAppendStep(cap, a, p, blob, now), RunAppendStep(cap, b, p, blob, now), id, t);
    } else if !Refused(cap, a, act, id) && !Refused(cap, b, act, id) {
      AdmittedShows(cap, a, b, p, blob, now, id, t);
    }
  }

  lemma AlikeShows(a': Store, b': Store, id: Id, t: int)
    requires Alike(a', b', id, t)
    ensures ShowsUnless(true, true, a', b', id, t)
  {
  }

  /** An append answered alike and made with room keeps the runs alike, and any other shows. */
  lemma AppendShowsUnless(cap: int, a: Store, b: Store, p: nat, blob: Blob, now: int, id: Id, t: int)
    requires Comparable(a, b, id, t) && now >= 0 && AppendsInOrder(b, RunAppend(p, blob, now), id)
    ensures var act := RunAppend(p, blob, now);
            ShowsUnless(AnsweredAlike(cap, a, b, act, id), RoomForDebts(cap, a, act, id, t), Apply(cap, a, act), Apply(cap, b, act), id, t)
  {
    var act := RunAppend(p, blob, now);
    if MayAppend(a, act, id) {
      OwnAppendShows(cap, a, b, p, blob, now, id, t);
      ApplyIsStep(cap, a, p, blob, now);
      ApplyIsStep(cap, b, p, blob, now);
    } else {
      OtherAppendAlike(cap, a, b, p, blob, now, id, t);
      AlikeShows(Apply(cap, a, act), Apply(cap, b, act), id, t);
    }
  }

  lemma ApplyIsStep(cap: int, s: Store, p: nat, blob: Blob, now: int)
    requires p in s.appenders && s.appenders[p].id in s.chans
    ensures Apply(cap, s, RunAppend(p, blob, now)) == RunAppendStep(cap, s, p, blob, now)
  {
  }

  lemma CreateAlike(cap: int, a: Store, b: Store, act: Action, id: Id, t: int)
    requires Alike(a, b, id, t) && act.Create?
    ensures Alike(Apply(cap, a, act), Apply(cap, b, act), id, t)
  {
  }

  lemma LimitsAlike(cap: int, a: Store, b: Store, act: Action, id: Id, t: int)
    requires Alike(a, b, id, t) && act.SetLimits?
    ensures Alike(Apply(cap, a, act), Apply(cap, b, act), id, t)
  {
  }

  lemma ReadAlike(cap: int, a: Store, b: Store, act: Action, id: Id, t: int)
    requires Alike(a, b, id, t) && act.ReadConfig?
    ensures Alike(Apply(cap, a, act), Apply(cap, b, act), id, t)
  {
  }

  lemma ConfigAlike(cap: int, a: Store, b: Store, act: Action, id: Id, t: int)
    requires Alike(a, b, id, t) && (act.Create? || act.SetLimits? || act.ReadConfig?)
    ensures Alike(Apply(cap, a, act), Apply(cap, b, act), id, t)
  {
    if act.Create? {
      CreateAlike(cap, a, b, act, id, t);
    } else if act.SetLimits? {
      LimitsAlike(cap, a, b, act, id, t);
    } else {
      ReadAlike(cap, a, b, act, id, t);
    }
  }

  /** A sweep step takes at most the oldest entry, and only an expired one. */
  lemma SweepDropsExpired(cap: int, s: Store, a: Action, id: Id, t: int)
    requires Structure(s) && AllThorough(s) && NoReadingPast(s, t) && Sweeps(a)
    requires id in s.chans ==> Timely(s.chans[id].stream)
    ensures DropsExpired(StreamOf(Apply(cap, s, a), id), StreamOf(s, id), t)
  {
    if Apply(cap, s, a) == s {
    } else if a.SweepVisit? {
      VisitDropsExpired(s, a.w, id, t);
    } else if id in s.chans {
      OtherStepsLeaveStreams(cap, s, a, id);
    }
  }

  lemma VisitDropsExpired(s: Store, k: nat, id: Id, t: int)
    requires Structure(s) && AllThorough(s) && NoReadingPast(s, t) && (id in s.chans ==> Timely(s.chans[id].stream))
    requires k in s.sweepers && s.sweepers[k].rest != [] && s.sweepers[k].id in s.chans
    ensures DropsExpired(StreamOf(VisitStep(s, k), id), StreamOf(s, id), t)
  {
    var w := s.sweepers[k];
    if w.id == id && Sweepable(w.rest[0], w.now) && Holds(s.chans[id].stream, w.rest[0].id) {
      NextVictimIsOldest(s, k);
      var es := s.chans[id].stream;
      FirstDropped(es, t);
    }
  }

  lemma FirstDropped(es: seq<Entry>, t: int)
    requires es != [] && Expired(es[0], t)
    ensures DropsExpired(es[1..], es, t)
  {
    assert es[..1] == [es[0]];
  }

  lemma DropsCompose(a: seq<Entry>, b: seq<Entry>, c: seq<Entry>, t: int)
    requires DropsExpired(a, b, t) && DropsExpired(b, c, t)
    ensures DropsExpired(a, c, t)
  {
    assert a == c[|c| - |a|..];
    assert c[..|c| - |a|] == c[..|c| - |b|] + b[..|b| - |a|];
  }

  lemma SuffixTimely(a: seq<Entry>, b: seq<Entry>, t: int)
    requires DropsExpired(a, b, t) && Timely(b)
    ensures Timely(a)
  {
  }

  lemma SweepAlike(cap: int, a: Store, b: Store, act: Action, id: Id, t: int, t': int)
    requires Comparable(a, b, id, t) && Sweeps(act) && t <= t'
    ensures Alike(Apply(cap, a, act), b, id, t')
  {
    if id in a.chans {
      SuffixTimely(a.chans[id].stream, b.chans[id].stream, t);
    }
    SweepDropsExpired(cap, a, act, id, t);
    SweepKeepsConfig(cap, a, act);
    StillAlike(a, Apply(cap, a, act), b, id, t, t');
  }

  lemma StillAlike(a: Store, a': Store, b: Store, id: Id, t: int, t': int)
    requires Alike(a, b, id, t) && t <= t' && DropsExpired(StreamOf(a', id), StreamOf(a, id), t)
    requires ConfigKept(a, a')
    ensures Alike(a', b, id, t')
  {
    if id in a.chans {
      DropsCompose(StreamOf(a', id), StreamOf(a, id), StreamOf(b, id), t);
      LongerExpired(StreamOf(a', id), StreamOf(b, id), t, t');
    }
  }

  /** The channels of s' are those of s but for streams and counters. */
  predicate ConfigKept(s: Store, s': Store) {
    && s'.appenders == s.appenders && s'.chans.Keys == s.chans.Keys
    && forall i :: i in s.chans ==> SameConfig(s.chans[i], s'.chans[i]) && s'.chans[i].nextSeq == s.chans[i].nextSeq
  }

  lemma VisitKeepsConfig(s: Store, k: nat)
    requires k in s.sweepers && s.sweepers[k].rest != [] && s.sweepers[k].id in s.chans
    ensures ConfigKept(s, VisitStep(s, k))
  {
  }

  lemma PayKeepsConfig(s: Store, k: nat)
    requires k in s.sweepers && s.sweepers[k].due != NoDue && s.sweepers[k].id in s.chans
    ensures ConfigKept(s, PayStep(s, k))
  {
  }

  lemma SweepKeepsConfig(cap: int, s: Store, a: Action)
    requires Sweeps(a)
    ensures ConfigKept(s, Apply(cap, s, a))
  {
    if Apply(cap, s, a) != s {
      if a.SweepVisit? {
        VisitKeepsConfig(s, a.w);
      } else if a.SweepPay? {
        PayKeepsConfig(s, a.w);
      }
    }
  }

  // --- whole runs ---

  lemma {:induction false} UnsweptConcat(xs: seq<Action>, ys: seq<Action>)
    ensures Unswept(xs + ys) == Unswept(xs) + Unswept(ys)
    decreases |ys|
  {
    if ys == [] {
      assert xs + ys == xs;
    } else {
      UnsweptConcat(xs, ys[..|ys| - 1]);
      assert (xs + ys)[..|xs + ys| - 1] == xs + ys[..|ys| - 1];
    }
  }

  lemma {:induction false} UnsweptRun(cap: int, acts: seq<Action>)
    ensures Run(cap, Unswept(acts)).sweepers == map[]
    ensures forall a :: a in Unswept(acts) ==> a in acts
  {
    if acts != [] {
      var before, a := acts[..|acts| - 1], acts[|acts| - 1];
      UnsweptRun(cap, before);
      assert acts == before + [a];
      if !Sweeps(a) {
        RunStep(cap, Unswept(before), a);
        NoSweeperStarts(cap, Run(cap, Unswept(before)), a);
      }
    }
  }

  lemma NoSweeperStarts(cap: int, s: Store, a: Action)
    requires !Sweeps(a)
    ensures Apply(cap, s, a).sweepers == s.sweepers
  {
  }

  lemma StepReadings(cap: int, s: Store, a: Action, t: int)
    requires NoReadingPast(s, t)
    ensures NoReadingPast(Apply(cap, s, a), if a.SweepBegin? && a.now > t then a.now else t)
  {
  }

  lemma {:induction false} NoneReadsPast(cap: int, acts: seq<Action>)
    ensures NoReadingPast(Run(cap, acts), SweepReading(acts))
  {
    if acts != [] {
      var before := acts[..|acts| - 1];
      NoneReadsPast(cap, before);
      StepReadings(cap, Run(cap, before), acts[|acts| - 1], SweepReading(before));
    }
  }

  lemma SideBySide(cap: int, acts: seq<Action>, id: Id)
    requires InOrder(cap, Unswept(acts), id) && ReadsNoneBelowZero(acts)
    requires Alike(Run(cap, acts), Run(cap, Unswept(acts)), id, SweepReading(acts))
    ensures Comparable(Run(cap, acts), Run(cap, Unswept(acts)), id, SweepReading(acts))
  {
    var u := Unswept(acts);
    UnsweptRun(cap, acts);
    ConservedInEveryRun(cap, acts);
    ConservedInEveryRun(cap, u);
    SweepersMissNothing(cap, acts);
    NoneReadsPast(cap, acts);
    ContiguousInEveryRun(cap, u, id);
    if id in Run(cap, u).chans {
      ExpiriesFromZero(cap, u, id);
    }
  }

  lemma OneMoreAction(cap: int, acts: seq<Action>, a: Action, id: Id)
    ensures Run(cap, acts + [a]) == Apply(cap, Run(cap, acts), a)
    ensures Unswept(acts + [a]) == if Sweeps(a) then Unswept(acts) else Unswept(acts) + [a]
    ensures SweepReading(acts + [a]) == if a.SweepBegin? && a.now > SweepReading(acts) then a.now else SweepReading(acts)
    ensures !Sweeps(a) ==> Run(cap, Unswept(acts + [a])) == Apply(cap, Run(cap, Unswept(acts)), a)
    ensures !Sweeps(a) && InOrder(cap, Unswept(acts + [a]), id) ==>
              InOrder(cap, Unswept(acts), id) && AppendsInOrder(Run(cap, Unswept(acts)), a, id)
  {
    var all, u := acts + [a], Unswept(acts);
    assert all[..|all| - 1] == acts;
    assert (u + [a])[..|u + [a]| - 1] == u;
    RunStep(cap, acts, a);
    RunStep(cap, u, a);
  }

  lemma StepShowsUnless(cap: int, acts: seq<Action>, a: Action, id: Id)
    requires InOrder(cap, Unswept(acts + [a]), id) && ReadsNoneBelowZero(acts + [a])
    requires Alike(Run(cap, acts), Run(cap, Unswept(acts)), id, SweepReading(acts))
    ensures ShowsUnless(AnsweredAlike(cap, Run(cap, acts), Run(cap, Unswept(acts)), a, id),
                        RoomForDebts(cap, Run(cap, acts), a, id, SweepReading(acts)),
                        Run(cap, acts + [a]), Run(cap, Unswept(acts + [a])), id, SweepReading(acts + [a]))
  {
    var s, u := Run(cap, acts), Run(cap, Unswept(acts));
    OneMoreAction(cap, acts, a, id);
    assert a in acts + [a] && forall x :: x in acts ==> x in acts + [a];
    SideBySide(cap, acts, id);
    if a.RunAppend? {
      AppendShowsUnless(cap, s, u, a.p, a.blob, a.now, id, SweepReading(acts));
    } else {
      if Sweeps(a) {
        SweepAlike(cap, s, u, a, id, SweepReading(acts), SweepReading(acts + [a]));
      } else {
        ConfigAlike(cap, s, u, a, id, SweepReading(acts));
      }
      AlikeShows(Run(cap, acts + [a]), Run(cap, Unswept(acts + [a])), id, SweepReading(acts + [a]));
    }
  }

  ghost predicate RoomAt(cap: int, acts: seq<Action>, id: Id, n: nat)
    requires n < |acts|
  {
    RoomForDebts(cap, Run(cap, acts[..n]), acts[n], id, SweepReading(acts[..n]))
  }

  predicate AnsweredAt(cap: int, acts: seq<Action>, id: Id, n: nat)
    requires n < |acts|
  {
    AnsweredAlike(cap, Run(cap, acts[..n]), Run(cap, Unswept(acts[..n])), acts[n], id)
  }

  predicate NextSameAt(cap: int, acts: seq<Action>, id: Id, n: nat)
    requires n <= |acts|
  {
    NextSeq(Run(cap, acts[..n]), id) == NextSeq(Run(cap, Unswept(acts[..n])), id)
  }

  ghost predicate SameAt(cap: int, acts: seq<Action>, id: Id, n: nat)
    requires n <= |acts|
  {
    SamePages(StreamOf(Run(cap, acts[..n]), id), StreamOf(Run(cap, Unswept(acts[..n])), id), SweepReading(acts[..n]))
  }

  /** There was room at each of the first n steps. */
  ghost predicate RoomSoFar(cap: int, acts: seq<Action>, id: Id, n: nat)
    requires n <= |acts|
  {
    forall m: nat :: m < n ==> RoomAt(cap, acts, id, m)
  }

  /** At every point up to the n-th, every page reads the same to every reader whose clock is not
      behind the sweeps so far. */
  ghost predicate SameSoFar(cap: int, acts: seq<Action>, id: Id, n: nat)
    requires n <= |acts|
  {
    forall m: nat :: m <= n ==> SameAt(cap, acts, id, m)
  }

  ghost predicate AlikeAt(cap: int, acts: seq<Action>, id: Id, n: nat)
    requires n <= |acts|
  {
    Alike(Run(cap, acts[..n]), Run(cap, Unswept(acts[..n])), id, SweepReading(acts[..n]))
  }

  lemma PrefixInOrder(cap: int, first: seq<Action>, rest: seq<Action>, id: Id)
    requires InOrder(cap, Unswept(first + rest), id) && ReadsNoneBelowZero(first + rest)
    ensures InOrder(cap, Unswept(first), id) && ReadsNoneBelowZero(first)
  {
    UnsweptConcat(first, rest);
    InOrderBefore(cap, Unswept(first), Unswept(rest), id);
    assert forall a :: a in first ==> a in first + rest;
  }

  lemma PrefixFacts(cap: int, acts: seq<Action>, id: Id, n: nat)
    requires InOrder(cap, Unswept(acts), id) && ReadsNoneBelowZero(acts) && n < |acts|
    ensures acts[..n + 1] == acts[..n] + [acts[n]]
    ensures InOrder(cap, Unswept(acts[..n + 1]), id) && ReadsNoneBelowZero(acts[..n + 1])
  {
    var first, rest := acts[..n + 1], acts[n + 1..];
    assert acts == first + rest && acts[n] in acts;
    PrefixInOrder(cap, first, rest, id);
  }

  /** Both before and after the n-th step. */
  lemma OneMoreStep(cap: int, acts: seq<Action>, id: Id, n: nat)
    requires InOrder(cap, Unswept(acts), id) && ReadsNoneBelowZero(acts) && n < |acts|
    requires AlikeAt(cap, acts, id, n)
    ensures StepShows(cap, acts, id, n)
  {
    PrefixFacts(cap, acts, id, n);
    StepShowsUnless(cap, acts[..n], acts[n], id);
  }

  ghost predicate StepShows(cap: int, acts: seq<Action>, id: Id, n: nat)
    requires n < |acts|
  {
    && (AnsweredAt(cap, acts, id, n) && RoomAt(cap, acts, id, n) ==> AlikeAt(cap, acts, id, n + 1))
    && (AnsweredAt(cap, acts, id, n) ==> NextSameAt(cap, acts, id, n + 1))
    && (SameAt(cap, acts, id, n + 1) && NextSameAt(cap, acts, id, n + 1) ==>
          AnsweredAt(cap, acts, id, n) && RoomAt(cap, acts, id, n))
  }

  lemma AlikeReadsSame(s: Store, u: Store, id: Id, t: int)
    requires Alike(s, u, id, t)
    ensures LooksSame(s, u, id, t)
  {
    if id in s.chans {
      DroppingExpiredShowsOnNoPage(StreamOf(s, id), StreamOf(u, id), t);
    }
  }

  /** Two runs that are alike at first, stay alike through a step with room and show a step
      without, read the same throughout exactly if there is room throughout. */
  lemma {:induction false} SameThroughout(room: nat -> bool, same: nat -> bool, alike: nat -> bool, n: nat)
    requires alike(0) && forall m: nat :: m <= n && alike(m) ==> same(m)
    requires forall m: nat :: m < n && alike(m) ==> (room(m) ==> alike(m + 1)) && (same(m + 1) ==> room(m))
    ensures (forall m: nat :: m < n ==> room(m)) <==> (forall m: nat :: m <= n ==> same(m))
    ensures (forall m: nat :: m < n ==> room(m)) ==> alike(n)
    decreases n
  {
    if n > 0 {
      SameThroughout(room, same, alike, n - 1);
    }
  }

  lemma AlikeStepByStep(cap: int, acts: seq<Action>, id: Id)
    requires InOrder(cap, Unswept(acts), id) && ReadsNoneBelowZero(acts)
    ensures AlikeAt(cap, acts, id, 0)
    ensures forall m: nat :: m <= |acts| && AlikeAt(cap, acts, id, m) ==> SameAt(cap, acts, id, m) && NextSameAt(cap, acts, id, m)
    ensures forall m: nat :: m < |acts| && AlikeAt(cap, acts, id, m) ==> StepShows(cap, acts, id, m)
  {
    forall m: nat | m <= |acts| && AlikeAt(cap, acts, id, m)
      ensures SameAt(cap, acts, id, m) && NextSameAt(cap, acts, id, m)
    {
      AlikeReadsSame(Run(cap, acts[..m]), Run(cap, Unswept(acts[..m])), id, SweepReading(acts[..m]));
    }
    forall m: nat | m < |acts| && AlikeAt(cap, acts, id, m)
      ensures StepShows(cap, acts, id, m)
    {
      OneMoreStep(cap, acts, id, m);
    }
  }

  /** Each of the first n appends is answered by the quota as it would be without the sweeps. */
  ghost predicate AnsweredSoFar(cap: int, acts: seq<Action>, id: Id, n: nat)
    requires n <= |acts|
  {
    forall m: nat :: m < n ==> AnsweredAt(cap, acts, id, m)
  }

  /** At every point up to the n-th the channel has the same number next. */
  ghost predicate NextSameSoFar(cap: int, acts: seq<Action>, id: Id, n: nat)
    requires n <= |acts|
  {
    forall m: nat :: m <= n ==> NextSameAt(cap, acts, id, m)
  }

  /** The sweeper cannot be observed over a run, by pages or by the numbers given out, if and only if
      every append of the run was answered by the account's quota as without the sweeps and, if not
      refused, found room for the sweepers' debts of that moment. */
  lemma UnobservableIff(cap: int, acts: seq<Action>, id: Id)
    requires InOrder(cap, Unswept(acts), id) && ReadsNoneBelowZero(acts)
    ensures SameSoFar(cap, acts, id, |acts|) && NextSameSoFar(cap, acts, id, |acts|)
            <==> AnsweredSoFar(cap, acts, id, |acts|) && RoomSoFar(cap, acts, id, |acts|)
  {
    var n := |acts|;
    AlikeStepByStep(cap, acts, id);
    var ok := (m: nat) => m < n && AnsweredAt(cap, acts, id, m) && RoomAt(cap, acts, id, m);
    var same := (m: nat) => m <= n && SameAt(cap, acts, id, m) && NextSameAt(cap, acts, id, m);
    var alike := (m: nat) => m <= n && AlikeAt(cap, acts, id, m);
    SameThroughout(ok, same, alike, n);
    RestateBoth(cap, acts, id, ok, same);
  }

  lemma RestateBoth(cap: int, acts: seq<Action>, id: Id, ok: nat -> bool, same: nat -> bool)
    requires forall m: nat :: m < |acts| ==> ok(m) == (AnsweredAt(cap, acts, id, m) && RoomAt(cap, acts, id, m))
    requires forall m: nat :: m <= |acts| ==> same(m) == (SameAt(cap, acts, id, m) && NextSameAt(cap, acts, id, m))
    ensures AnsweredSoFar(cap, acts, id, |acts|) && RoomSoFar(cap, acts, id, |acts|) <==> forall m: nat :: m < |acts| ==> ok(m)
    ensures SameSoFar(cap, acts, id, |acts|) && NextSameSoFar(cap, acts, id, |acts|) <==> forall m: nat :: m <= |acts| ==> same(m)
  {
  }

  // --- where no quota bears on the channel ---

  /** The channel belongs to no account, or accounts have no quota. */
  ghost predicate NoQuota(cap: int, acts: seq<Action>, id: Id) {
    cap <= 0 || Unowned(acts, id)
  }

  lemma OwnerStaysInStep(cap: int, s: Store, a: Action, id: Id)
    requires id in s.chans ==> s.chans[id].owner == ""
    requires a.Create? && a.id == id ==> a.owner == ""
    ensures id in Apply(cap, s, a).chans ==> Apply(cap, s, a).chans[id].owner == ""
  {
  }

  lemma {:induction false} OwnerStays(cap: int, acts: seq<Action>, id: Id)
    requires Unowned(acts, id)
    ensures id in Run(cap, acts).chans ==> Run(cap, acts).chans[id].owner == ""
  {
    if acts != [] {
      var before, a := acts[..|acts| - 1], acts[|acts| - 1];
      OwnerStays(cap, before, id);
      assert a in acts;
      OwnerStaysInStep(cap, Run(cap, before), a, id);
    }
  }

  /** Then every append is answered alike. */
  lemma NoQuotaAnswers(cap: int, acts: seq<Action>, id: Id, n: nat)
    requires NoQuota(cap, acts, id) && n < |acts| && AlikeAt(cap, acts, id, n)
    ensures AnsweredAt(cap, acts, id, n)
  {
    if cap > 0 {
      assert forall a :: a in acts[..n] ==> a in acts;
      OwnerStays(cap, acts[..n], id);
      ConservedInEveryRun(cap, acts[..n]);
    }
  }

  /** The sweeper cannot be observed over such a run if and only if every append of the run found room
      for the sweepers' debts of that moment. */
  lemma UnobservableIffRoom(cap: int, acts: seq<Action>, id: Id)
    requires InOrder(cap, Unswept(acts), id) && ReadsNoneBelowZero(acts) && NoQuota(cap, acts, id)
    ensures SameSoFar(cap, acts, id, |acts|) <==> RoomSoFar(cap, acts, id, |acts|)
  {
    var n := |acts|;
    AlikeStepByStep(cap, acts, id);
    forall m: nat | m < n && AlikeAt(cap, acts, id, m)
      ensures AnsweredAt(cap, acts, id, m)
    {
      NoQuotaAnswers(cap, acts, id, m);
    }
    var room := (m: nat) => m < n && RoomAt(cap, acts, id, m);
    var same := (m: nat) => m <= n && SameAt(cap, acts, id, m);
    var alike := (m: nat) => m <= n && AlikeAt(cap, acts, id, m);
    SameThroughout(room, same, alike, n);
    Restate(cap, acts, id, room, same);
  }

  lemma Restate(cap: int, acts: seq<Action>, id: Id, room: nat -> bool, same: nat -> bool)
    requires forall m: nat :: m < |acts| ==> room(m) == RoomAt(cap, acts, id, m)
    requires forall m: nat :: m <= |acts| ==> same(m) == SameAt(cap, acts, id, m)
    ensures RoomSoFar(cap, acts, id, |acts|) <==> forall m: nat :: m < |acts| ==> room(m)
    ensures SameSoFar(cap, acts, id, |acts|) <==> forall m: nat :: m <= |acts| ==> same(m)
  {
  }

  // --- when sweeps and appends do not overlap ---

  /** The n-th step is no append to the channel, or no sweeper owes the channel anything then. */
  ghost predicate QuietAt(cap: int, acts: seq<Action>, id: Id, n: nat)
    requires n < |acts|
  {
    var s := Run(cap, acts[..n]);
    acts[n].RunAppend? && acts[n].p in s.appenders && s.appenders[acts[n].p].id == id ==>
      PendingBytes(s, id) == 0 && PendingMsgs(s, id) == 0
  }

  lemma QuietHasRoom(cap: int, acts: seq<Action>, id: Id, n: nat)
    requires n < |acts| && QuietAt(cap, acts, id, n)
    ensures RoomAt(cap, acts, id, n)
  {
    var s, a := Run(cap, acts[..n]), acts[n];
    if a.RunAppend? && a.p in s.appenders && s.appenders[a.p].id == id && id in s.chans {
      var lim := s.appenders[a.p].limits;
      ExactlyKeptIsLongest(Live(Pushed(s.chans[id], lim, a.blob, a.now).stream, SweepReading(acts[..n])), lim);
    }
  }

  /** Sweeps whose debts to the channel are paid whenever it is appended to cannot be observed. */
  lemma PaidSweepsAreUnobservable(cap: int, acts: seq<Action>, id: Id)
    requires InOrder(cap, Unswept(acts), id) && ReadsNoneBelowZero(acts) && NoQuota(cap, acts, id)
    requires forall n: nat :: n < |acts| ==> QuietAt(cap, acts, id, n)
    ensures SameSoFar(cap, acts, id, |acts|)
  {
    forall n: nat | n < |acts|
      ensures RoomAt(cap, acts, id, n)
    {
      QuietHasRoom(cap, acts, id, n);
    }
    UnobservableIffRoom(cap, acts, id);
  }

  // --- one TTL, and appends whose readings reach the store in order ---

  lemma OneMoreUnswept(acts: seq<Action>, a: Action)
    ensures Unswept(acts + [a]) == if Sweeps(a) then Unswept(acts) else Unswept(acts) + [a]
  {
    assert (acts + [a])[..|acts + [a]| - 1] == acts;
  }

  lemma OneMoreReading(acts: seq<Action>, a: Action)
    ensures LastReading(acts + [a]) == if a.RunAppend? then a.now else LastReading(acts)
    ensures AppendsAdvance(acts + [a]) <==> AppendsAdvance(acts) && (a.RunAppend? ==> LastReading(acts) <= a.now)
  {
    assert (acts + [a])[..|acts + [a]| - 1] == acts;
  }

  lemma {:induction false} UnsweptReadings(acts: seq<Action>)
    requires AppendsAdvance(acts)
    ensures AppendsAdvance(Unswept(acts)) && LastReading(Unswept(acts)) == LastReading(acts)
  {
    if acts != [] {
      var before, a := acts[..|acts| - 1], acts[|acts| - 1];
      assert acts == before + [a];
      OneMoreUnswept(before, a);
      OneMoreReading(before, a);
      UnsweptReadings(before);
      OneMoreReading(Unswept(before), a);
    }
  }

  lemma {:induction false} AdvancingFromZero(acts: seq<Action>)
    requires AppendsAdvance(acts)
    ensures LastReading(acts) >= 0 && ReadsNoneBelowZero(acts)
  {
    if acts != [] {
      AdvancingFromZero(acts[..|acts| - 1]);
      assert acts == acts[..|acts| - 1] + [acts[|acts| - 1]];
    }
  }

  /** One TTL throughout and append readings that do not go back are enough for the theorems above. */
  lemma OneTtlIsComparable(cap: int, acts: seq<Action>, id: Id, ttl: int)
    requires FixedTtl(acts, id, ttl) && AppendsAdvance(acts)
    ensures InOrder(cap, Unswept(acts), id) && ReadsNoneBelowZero(acts)
  {
    AdvancingFromZero(acts);
    UnsweptReadings(acts);
    UnsweptRun(cap, acts);
    OneTtlIsInOrder(cap, Unswept(acts), id, ttl);
  }
}
