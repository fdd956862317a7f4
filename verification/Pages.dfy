/** Catch-up pages: what a page holds, when it is complete, and that the pages of channels under
    the default retention always are. */
module Pages {
  import opened Eviction
  import opened StoreMachine
  import opened StoreConservation
  import opened StoreSafety

  lemma Regroup(x: seq<Entry>, y: seq<Entry>, z: seq<Entry>)
    ensures x + (y + z) == (x + y) + z && [] + y == y && [] + z == z && [] + (y + z) == y + z
  {
  }

  lemma {:induction false} LiveConcat(xs: seq<Entry>, ys: seq<Entry>, now: int)
    ensures Live(xs + ys, now) == Live(xs, now) + Live(ys, now)
  {
    if xs == [] {
      assert xs + ys == ys;
    } else {
      LiveConcat(xs[1..], ys, now);
      assert (xs + ys)[1..] == xs[1..] + ys;
      Regroup(if Expired(xs[0], now) then [] else [xs[0]], Live(xs[1..], now), Live(ys, now));
    }
  }

  lemma {:induction false} AfterShortens(es: seq<Entry>, after: nat)
    ensures |After(es, after)| <= |es| && forall e :: e in After(es, after) ==> e in es && e.id > after
  {
    if es != [] {
      AfterShortens(es[1..], after);
    }
  }

  lemma {:induction false} AllExpired(es: seq<Entry>, now: int)
    requires AllExpire(es, now)
    ensures Live(es, now) == []
  {
    if es != [] {
      AllExpired(es[1..], now);
    }
  }

  lemma {:induction false} NoneExpired(es: seq<Entry>, now: int)
    requires forall e :: e in es ==> !Expired(e, now)
    ensures Live(es, now) == es
  {
    if es != [] {
      NoneExpired(es[1..], now);
    }
  }

  ghost predicate AllExpire(es: seq<Entry>, now: int) {
    forall e :: e in es ==> Expired(e, now)
  }

  /** Numbers start at one, so the cursor zero reads everything. */
  lemma {:induction false} AfterZero(es: seq<Entry>)
    requires forall e :: e in es ==> e.id > 0
    ensures After(es, 0) == es
  {
    if es != [] {
      AfterZero(es[1..]);
    }
  }

  lemma {:induction false} LiveMembers(es: seq<Entry>, now: int)
    ensures forall e :: e in Live(es, now) <==> e in es && !Expired(e, now)
  {
    if es != [] {
      LiveMembers(es[1..], now);
      assert es == [es[0]] + es[1..];
    }
  }

  lemma {:induction false} AfterMembers(es: seq<Entry>, after: nat)
    ensures forall e :: e in After(es, after) <==> e in es && e.id > after
  {
    if es != [] {
      AfterMembers(es[1..], after);
      assert es == [es[0]] + es[1..];
    }
  }

  // --- order ---

  lemma {:induction false} AfterAscends(es: seq<Entry>, after: nat)
    requires Ascending(es)
    ensures Ascending(After(es, after))
  {
    if es != [] {
      AfterAscends(es[1..], after);
      AfterMembers(es[1..], after);
      FirstBelow(es, After(es[1..], after));
    }
  }

  lemma {:induction false} LiveAscends(es: seq<Entry>, now: int)
    requires Ascending(es)
    ensures Ascending(Live(es, now))
  {
    if es != [] {
      LiveAscends(es[1..], now);
      LiveMembers(es[1..], now);
      FirstBelow(es, Live(es[1..], now));
    }
  }

  lemma FirstBelow(es: seq<Entry>, rest: seq<Entry>)
    requires es != [] && Ascending(es) && Ascending(rest) && forall e :: e in rest ==> e in es[1..]
    ensures Ascending([es[0]] + rest)
  {
    forall e | e in rest
      ensures es[0].id < e.id
    {
      var i :| 0 <= i < |es[1..]| && es[1..][i] == e;
    }
  }

  // --- completeness ---

  /** A page is missing something exactly if an unexpired entry lies past the range read. */
  lemma PageCompleteIff(es: seq<Entry>, after: nat, limit: nat, now: int)
    ensures var all := After(es, after);
            CatchUp(es, after, limit, now) == Live(all, now) <==> |all| <= limit || Live(all[limit..], now) == []
  {
    var all := After(es, after);
    if |all| > limit {
      assert all == all[..limit] + all[limit..];
      LiveConcat(all[..limit], all[limit..], now);
    }
  }

  /** A complete page is exactly the unexpired entries past the cursor, in increasing order. */
  ghost predicate WholePage(page: seq<Entry>, es: seq<Entry>, after: nat, now: int) {
    && Ascending(page)
    && forall e :: e in page <==> e in es && e.id > after && !(0 < e.exp <= now)
  }

  lemma PageIsWhole(es: seq<Entry>, after: nat, limit: nat, now: int)
    requires Ascending(es) && |es| <= limit
    ensures WholePage(CatchUp(es, after, limit, now), es, after, now)
  {
    AfterShortens(es, after);
    AfterMembers(es, after);
    AfterAscends(es, after);
    LiveMembers(After(es, after), now);
    LiveAscends(After(es, after), now);
  }

  // --- channels that keep the default retention ---

  /** The longest catch-up the server sends. */
  const MAX_CATCH_UP: nat := 1000

  predicate CapFits(maxMsgs: int) {
    0 < maxMsgs <= MAX_CATCH_UP
  }

  /** Every message limit the channel is ever given can be caught up on in one page. */
  ghost predicate CapsFit(acts: seq<Action>, id: Id) {
    forall a :: a in acts ==> CapStaysFit(a, id)
  }

  predicate CapStaysFit(a: Action, id: Id) {
    && (a.Create? && a.id == id ==> CapFits(a.limits.maxMsgs))
    && (a.SetLimits? && a.id == id ==> a.maxMsgs < 0 || CapFits(a.maxMsgs))
  }

  ghost predicate Short(s: Store, id: Id) {
    && (id in s.chans ==> CapFits(s.chans[id].limits.maxMsgs) && |s.chans[id].stream| <= MAX_CATCH_UP)
    && (forall p :: p in s.appenders && s.appenders[p].id == id ==> CapFits(s.appenders[p].limits.maxMsgs))
  }

  lemma ConfigKeepsShort(cap: int, s: Store, a: Action, id: Id)
    requires Short(s, id) && CapStaysFit(a, id) && (a.Create? || a.SetLimits? || a.ReadConfig?)
    ensures Short(Apply(cap, s, a), id)
  {
  }

  lemma AppendKeepsShort(cap: int, s: Store, p: nat, blob: Blob, now: int, id: Id)
    requires Inv(s) && Short(s, id) && p in s.appenders && s.appenders[p].id in s.chans
    ensures Short(RunAppendStep(cap, s, p, blob, now), id)
  {
    var ap := s.appenders[p];
    var c := s.chans[ap.id];
    if ap.id == id {
      assert ChannelRight(s, id) && Sequenced(c);
      DebtsAreDebts(s, id, "");
      PushedFacts(c, ap.limits, blob, now);
      StoredWithinLimits(Pushed(c, ap.limits, blob, now), ap.limits);
    }
  }

  lemma SweepKeepsShort(cap: int, s: Store, a: Action, id: Id)
    requires Structure(s) && Short(s, id) && (a.SweepBegin? || a.SweepScan? || a.SweepVisit? || a.SweepPay?)
    ensures Short(Apply(cap, s, a), id)
  {
    if Apply(cap, s, a) == s {
    } else if a.SweepVisit? {
      DeletionShortens(s, a.w);
    } else {
      OtherSweepsKeepShort(cap, s, a, id);
    }
  }

  lemma OtherSweepsKeepShort(cap: int, s: Store, a: Action, id: Id)
    requires Short(s, id) && (a.SweepBegin? || a.SweepScan? || a.SweepPay?)
    ensures Short(Apply(cap, s, a), id)
  {
  }

  lemma DeletionShortens(s: Store, k: nat)
    requires Structure(s) && k in s.sweepers && s.sweepers[k].rest != [] && s.sweepers[k].id in s.chans
    ensures var id := s.sweepers[k].id; |VisitStep(s, k).chans[id].stream| <= |s.chans[id].stream|
  {
    var w := s.sweepers[k];
    if Holds(s.chans[w.id].stream, w.rest[0].id) {
      SnapshotEntryIsStored(s, k);
      assert Sequenced(s.chans[w.id]);
      WithoutFacts(s.chans[w.id].stream, w.rest[0]);
    }
  }

  lemma {:induction false} ShortInEveryRun(cap: int, acts: seq<Action>, id: Id)
    requires CapsFit(acts, id)
    ensures Short(Run(cap, acts), id)
  {
    if acts != [] {
      var before, a := acts[..|acts| - 1], acts[|acts| - 1];
      var s := Run(cap, before);
      assert a in acts;
      ShortInEveryRun(cap, before, id);
      ConservedInEveryRun(cap, before);
      if a.RunAppend? {
        if a.p in s.appenders && s.appenders[a.p].id in s.chans {
          AppendKeepsShort(cap, s, a.p, a.blob, a.now, id);
        }
      } else if a.Create? || a.SetLimits? || a.ReadConfig? {
        ConfigKeepsShort(cap, s, a, id);
      } else {
        SweepKeepsShort(cap, s, a, id);
      }
    }
  }

  /** Under the default retention a single catch-up is complete in every reachable state, in the
      middle of sweeps or not: exactly the stored, unexpired messages past the cursor, in order. */
  lemma DefaultCatchUpIsComplete(cap: int, acts: seq<Action>, id: Id, after: nat, now: int)
    requires CapsFit(acts, id) && id in Run(cap, acts).chans
    ensures var es := Run(cap, acts).chans[id].stream;
            WholePage(CatchUp(es, after, 1000, now), es, after, now)
  {
    ShortInEveryRun(cap, acts, id);
    ConservedInEveryRun(cap, acts);
    assert Sequenced(Run(cap, acts).chans[id]);
    PageIsWhole(Run(cap, acts).chans[id].stream, after, MAX_CATCH_UP, now);
  }
}
