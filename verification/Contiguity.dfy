/** Contiguity: as long as no message is appended that expires before one already stored, the stored
    numbers are an interval ending at the newest and every deletion takes the oldest, whatever the
    clock readings of the sweeps. And from any state this is what it takes. */
module Contiguity {
  import opened Eviction
  import opened StoreMachine
  import opened StoreConservation

  // --- order of expiry ---

  /** The first does not outlast the second; an expiry of zero is never. */
  predicate NoLater(a: Entry, b: Entry) {
    b.exp == 0 || (a.exp != 0 && a.exp <= b.exp)
  }

  /** Older entries never outlast newer ones. */
  predicate ExpiresInOrder(es: seq<Entry>) {
    forall i, j :: 0 <= i < j < |es| ==> NoLater(es[i], es[j])
  }

  /** The stored numbers are the interval that ends just below the next one. */
  predicate Interval(es: seq<Entry>, nextSeq: nat) {
    |es| < nextSeq && forall i :: 0 <= i < |es| ==> es[i].id == nextSeq - |es| + i
  }

  predicate Contiguous(s: Store, id: Id) {
    id in s.chans ==> Interval(s.chans[id].stream, s.chans[id].nextSeq) && ExpiresInOrder(s.chans[id].stream)
  }

  /** When the step appends to the channel, nothing stored outlasts the new message. */
  predicate AppendsInOrder(s: Store, a: Action, id: Id) {
    a.RunAppend? && a.p in s.appenders && s.appenders[a.p].id == id && id in s.chans ==>
      forall e :: e in s.chans[id].stream ==> NoLater(e, NewEntry(s.chans[id], s.appenders[a.p].limits, a.blob, a.now))
  }

  /** Every append of the run to the channel is in the order of expiry. */
  ghost predicate InOrder(cap: int, acts: seq<Action>, id: Id) {
    acts == [] || (InOrder(cap, acts[..|acts| - 1], id) && AppendsInOrder(Run(cap, acts[..|acts| - 1]), acts[|acts| - 1], id))
  }

  lemma {:induction false} InOrderBefore(cap: int, acts: seq<Action>, more: seq<Action>, id: Id)
    requires InOrder(cap, acts + more, id)
    ensures InOrder(cap, acts, id)
    decreases |more|
  {
    if more == [] {
      assert acts + more == acts;
    } else {
      assert (acts + more)[..|acts + more| - 1] == acts + more[..|more| - 1];
      InOrderBefore(cap, acts, more[..|more| - 1], id);
    }
  }

  // --- sweepers miss nothing ---

  /** A sweeper has passed over nothing that it would delete: whatever it would delete, up to the
      end of its snapshot, is still to come. */
  ghost predicate Thorough(s: Store, w: Sweeper) {
    w.id in s.chans ==>
      forall e, f :: e in s.chans[w.id].stream && f in w.rest && e.id <= f.id && Sweepable(e, w.now) ==> e in w.rest
  }

  ghost predicate AllThorough(s: Store) {
    forall k :: k in s.sweepers ==> Thorough(s, s.sweepers[k])
  }

  /** New entries have numbers past every snapshot. */
  lemma StaysThorough(s: Store, s': Store, w: Sweeper)
    requires Structure(s) && Tracks(s, w) && Thorough(s, w) && StreamGrows(s, s', w.id)
    ensures Thorough(s', w)
  {
    if w.rest != [] {
      assert Sequenced(s.chans[w.id]);
    }
  }

  /** Going on by one entry, that entry being gone or not one to delete. */
  lemma PassesOn(s: Store, s': Store, w: Sweeper, w': Sweeper)
    requires Thorough(s, w) && w.rest != [] && w.id in s.chans && w.id in s'.chans
    requires w'.id == w.id && w'.now == w.now && w'.rest == w.rest[1..]
    requires forall e :: e in s'.chans[w.id].stream ==> e in s.chans[w.id].stream && (e == w.rest[0] ==> !Sweepable(e, w.now))
    ensures Thorough(s', w')
  {
    assert w.rest == [w.rest[0]] + w'.rest;
  }

  lemma VisitStaysThorough(s: Store, k: nat)
    requires Structure(s) && AllThorough(s) && k in s.sweepers && s.sweepers[k].rest != [] && s.sweepers[k].id in s.chans
    ensures Thorough(VisitStep(s, k), VisitStep(s, k).sweepers[k])
  {
    var w, s' := s.sweepers[k], VisitStep(s, k);
    var e, c := w.rest[0], s.chans[w.id];
    assert Sequenced(c);
    if Sweepable(e, w.now) && Holds(c.stream, e.id) {
      SnapshotEntryIsStored(s, k);
      WithoutFacts(c.stream, e);
    }
    PassesOn(s, s', w, s'.sweepers[k]);
  }

  predicate SameTask(w: Sweeper, w': Sweeper) {
    w'.id == w.id && w'.rest == w.rest && w'.now == w.now
  }

  /** The sweeper has the task it had, or has just begun, or scanned its channel, or visited. */
  predicate GoesOn(s: Store, s': Store, k: nat)
    requires k in s'.sweepers
  {
    var w := s'.sweepers[k];
    || (k in s.sweepers && SameTask(s.sweepers[k], w))
    || w.rest == [] || (w.id in s'.chans && w.rest == s'.chans[w.id].stream)
    || (k in s.sweepers && s.sweepers[k].rest != [] && s.sweepers[k].id in s.chans && s' == VisitStep(s, k))
  }

  lemma TasksGoOn(cap: int, s: Store, a: Action, k: nat)
    requires k in Apply(cap, s, a).sweepers
    ensures GoesOn(s, Apply(cap, s, a), k)
  {
  }

  lemma StepStaysThorough(cap: int, s: Store, a: Action)
    requires Structure(s) && AllThorough(s)
    ensures AllThorough(Apply(cap, s, a))
  {
    var s' := Apply(cap, s, a);
    forall k | k in s'.sweepers
      ensures Thorough(s', s'.sweepers[k])
    {
      TasksGoOn(cap, s, a, k);
      if k in s.sweepers {
        StoreStepGrows(cap, s, a, s.sweepers[k].id);
      }
      SweeperStaysThorough(s, s', k);
    }
  }

  lemma SweeperStaysThorough(s: Store, s': Store, k: nat)
    requires Structure(s) && AllThorough(s) && k in s'.sweepers && GoesOn(s, s', k)
    requires k in s.sweepers ==> StreamGrows(s, s', s.sweepers[k].id)
    ensures Thorough(s', s'.sweepers[k])
  {
    if k in s.sweepers && SameTask(s.sweepers[k], s'.sweepers[k]) {
      assert Tracks(s, s.sweepers[k]) && Thorough(s, s.sweepers[k]);
      StaysThorough(s, s', s.sweepers[k]);
    } else if k in s.sweepers && s.sweepers[k].rest != [] && s.sweepers[k].id in s.chans && s' == VisitStep(s, k) {
      VisitStaysThorough(s, k);
    }
  }

  // --- what a sweeper deletes ---

  lemma WithoutOldest(es: seq<Entry>)
    requires es != []
    ensures Without(es, es[0].id) == es[1..]
  {
  }

  lemma FirstIsLeast(es: seq<Entry>, e: Entry)
    requires Ascending(es) && e in es
    ensures es[0].id <= e.id
  {
    var i :| 0 <= i < |es| && es[i] == e;
  }

  /** When entries expire in order, the entry a sweeper is about to delete is the oldest one stored. */
  lemma NextVictimIsOldest(s: Store, k: nat)
    requires Structure(s) && AllThorough(s) && k in s.sweepers
    requires var w := s.sweepers[k]; w.rest != [] && w.id in s.chans && ExpiresInOrder(s.chans[w.id].stream)
    requires var w := s.sweepers[k]; Sweepable(w.rest[0], w.now) && Holds(s.chans[w.id].stream, w.rest[0].id)
    ensures var w := s.sweepers[k];
            var es := s.chans[w.id].stream;
            es != [] && es[0] == w.rest[0] && VisitStep(s, k).chans[w.id].stream == es[1..]
  {
    var w := s.sweepers[k];
    var es, e := s.chans[w.id].stream, w.rest[0];
    SnapshotEntryIsStored(s, k);
    assert Thorough(s, w) && Tracks(s, w) && Sequenced(s.chans[w.id]);
    FirstIsLeast(es, e);
    assert Sweepable(es[0], w.now) by {
      var i :| 0 <= i < |es| && es[i] == e;
    }
    assert es[0] in w.rest;
    FirstIsLeast(w.rest, es[0]);
    WithoutOldest(es);
  }

  // --- each step ---

  lemma SuffixStaysContiguous(es: seq<Entry>, k: nat, nextSeq: nat)
    requires Interval(es, nextSeq) && ExpiresInOrder(es) && k <= |es|
    ensures Interval(es[k..], nextSeq) && ExpiresInOrder(es[k..])
  {
  }

  lemma PushStaysContiguous(c: Channel, lim: Limits, blob: Blob, now: int)
    requires Interval(c.stream, c.nextSeq) && ExpiresInOrder(c.stream)
    requires forall e :: e in c.stream ==> NoLater(e, NewEntry(c, lim, blob, now))
    ensures Interval(Pushed(c, lim, blob, now).stream, c.nextSeq + 1) && ExpiresInOrder(Pushed(c, lim, blob, now).stream)
  {
  }

  /** What eviction keeps of a contiguous stream and one more entry. */
  lemma KeptStaysContiguous(c: Channel, lim: Limits, blob: Blob, now: int)
    requires Interval(c.stream, c.nextSeq) && ExpiresInOrder(c.stream)
    requires forall e :: e in c.stream ==> NoLater(e, NewEntry(c, lim, blob, now))
    ensures var kept := Evict(Pushed(c, lim, blob, now), lim).stream; Interval(kept, c.nextSeq + 1) && ExpiresInOrder(kept)
  {
    var full := Pushed(c, lim, blob, now);
    PushStaysContiguous(c, lim, blob, now);
    EvictIsLongestFit(full, lim);
    SuffixStaysContiguous(full.stream, |full.stream| - |Evict(full, lim).stream|, c.nextSeq + 1);
  }

  lemma AppendStaysContiguous(cap: int, s: Store, p: nat, blob: Blob, now: int, id: Id)
    requires Contiguous(s, id) && AppendsInOrder(s, RunAppend(p, blob, now), id) && p in s.appenders && s.appenders[p].id in s.chans
    ensures Contiguous(RunAppendStep(cap, s, p, blob, now), id)
  {
    if s.appenders[p].id == id {
      KeptStaysContiguous(s.chans[id], s.appenders[p].limits, blob, now);
    }
  }

  lemma VisitStaysContiguous(s: Store, k: nat, id: Id)
    requires Structure(s) && AllThorough(s) && Contiguous(s, id)
    requires k in s.sweepers && s.sweepers[k].rest != [] && s.sweepers[k].id in s.chans
    ensures Contiguous(VisitStep(s, k), id)
  {
    var w := s.sweepers[k];
    if w.id == id && Sweepable(w.rest[0], w.now) && Holds(s.chans[id].stream, w.rest[0].id) {
      NextVictimIsOldest(s, k);
      SuffixStaysContiguous(s.chans[id].stream, 1, s.chans[id].nextSeq);
    }
  }

  /** Nothing but an append or a deletion changes a stream or its next number. */
  lemma OtherStepsLeaveStreams(cap: int, s: Store, a: Action, id: Id)
    requires id in s.chans && !a.RunAppend? && !a.SweepVisit?
    ensures id in Apply(cap, s, a).chans && Apply(cap, s, a).chans[id].stream == s.chans[id].stream
    ensures Apply(cap, s, a).chans[id].nextSeq == s.chans[id].nextSeq
  {
  }

  /** Every entry of a stream was there before, or is the one being appended. */
  lemma AppendSources(cap: int, s: Store, p: nat, blob: Blob, now: int, id: Id)
    requires id in s.chans && p in s.appenders && s.appenders[p].id in s.chans
    ensures forall e :: e in RunAppendStep(cap, s, p, blob, now).chans[id].stream ==>
              e in s.chans[id].stream || (s.appenders[p].id == id && e == NewEntry(s.chans[id], s.appenders[p].limits, blob, now))
  {
    var ap := s.appenders[p];
    EvictIsLongestFit(Pushed(s.chans[ap.id], ap.limits, blob, now), ap.limits);
  }

  lemma VisitSources(s: Store, k: nat, id: Id)
    requires Structure(s) && k in s.sweepers && s.sweepers[k].rest != [] && s.sweepers[k].id in s.chans && id in s.chans
    ensures id in VisitStep(s, k).chans && forall e :: e in VisitStep(s, k).chans[id].stream ==> e in s.chans[id].stream
  {
    var w := s.sweepers[k];
    if Holds(s.chans[w.id].stream, w.rest[0].id) {
      SnapshotEntryIsStored(s, k);
      assert Sequenced(s.chans[w.id]);
      WithoutFacts(s.chans[w.id].stream, w.rest[0]);
    }
  }

  lemma StepStaysContiguous(cap: int, s: Store, a: Action, id: Id)
    requires Structure(s) && AllThorough(s) && Contiguous(s, id) && AppendsInOrder(s, a, id)
    ensures Contiguous(Apply(cap, s, a), id)
  {
    if Apply(cap, s, a) == s {
    } else if a.RunAppend? {
      AppendStaysContiguous(cap, s, a.p, a.blob, a.now, id);
    } else if a.SweepVisit? {
      VisitStaysContiguous(s, a.w, id);
    } else if id in s.chans {
      OtherStepsLeaveStreams(cap, s, a, id);
    }
  }

  // --- whole runs ---

  lemma {:induction false} SweepersMissNothing(cap: int, acts: seq<Action>)
    ensures AllThorough(Run(cap, acts))
  {
    if acts != [] {
      var before := acts[..|acts| - 1];
      SweepersMissNothing(cap, before);
      ConservedInEveryRun(cap, before);
      StepStaysThorough(cap, Run(cap, before), acts[|acts| - 1]);
    }
  }

  lemma {:induction false} ContiguousInEveryRun(cap: int, acts: seq<Action>, id: Id)
    requires InOrder(cap, acts, id)
    ensures Contiguous(Run(cap, acts), id)
  {
    if acts != [] {
      var before := acts[..|acts| - 1];
      ContiguousInEveryRun(cap, before, id);
      ConservedInEveryRun(cap, before);
      SweepersMissNothing(cap, before);
      StepStaysContiguous(cap, Run(cap, before), acts[|acts| - 1], id);
    }
  }

  /** Contiguity in every reachable state, in the middle of any number of sweeps or not. */
  lemma StoredNumbersAreAnInterval(cap: int, acts: seq<Action>, id: Id)
    requires InOrder(cap, acts, id) && id in Run(cap, acts).chans
    ensures var c := Run(cap, acts).chans[id];
            forall n: nat :: Holds(c.stream, n) <==> c.nextSeq - |c.stream| <= n < c.nextSeq
  {
    ContiguousInEveryRun(cap, acts, id);
    var c := Run(cap, acts).chans[id];
    forall n: nat
      ensures Holds(c.stream, n) <==> c.nextSeq - |c.stream| <= n < c.nextSeq
    {
      if c.nextSeq - |c.stream| <= n < c.nextSeq {
        assert c.stream[n - (c.nextSeq - |c.stream|)].id == n;
      }
    }
  }

  /** What is left of a stream, with at most one newer entry, when its oldest entries are dropped. */
  ghost predicate LosesOldest(es: seq<Entry>, es': seq<Entry>) {
    exists added: seq<Entry>, k :: |added| <= 1 && 0 <= k <= |es + added| && es' == (es + added)[k..]
  }

  lemma AppendLosesOldest(cap: int, s: Store, p: nat, blob: Blob, now: int, id: Id)
    requires id in s.chans && p in s.appenders && s.appenders[p].id in s.chans
    ensures LosesOldest(s.chans[id].stream, RunAppendStep(cap, s, p, blob, now).chans[id].stream)
  {
    var es, es' := s.chans[id].stream, RunAppendStep(cap, s, p, blob, now).chans[id].stream;
    if es' == es {
      DropLosesOldest(es, 0);
    } else {
      var lim := s.appenders[p].limits;
      var full := Pushed(s.chans[id], lim, blob, now);
      EvictIsLongestFit(full, lim);
      assert full.stream == es + [full.stream[|es|]];
    }
  }

  lemma DropLosesOldest(es: seq<Entry>, k: nat)
    requires k <= |es|
    ensures LosesOldest(es, es[k..])
  {
    assert es[k..] == (es + [])[k..];
  }

  lemma VisitLosesOldest(s: Store, k: nat, id: Id)
    requires Structure(s) && AllThorough(s) && Contiguous(s, id) && k in s.sweepers
    requires var w := s.sweepers[k]; w.id == id && w.rest != [] && id in s.chans
    ensures LosesOldest(s.chans[id].stream, VisitStep(s, k).chans[id].stream)
  {
    var w := s.sweepers[k];
    var es := s.chans[id].stream;
    DropLosesOldest(es, 0);
    if Sweepable(w.rest[0], w.now) && Holds(es, w.rest[0].id) {
      NextVictimIsOldest(s, k);
      DropLosesOldest(es, 1);
    }
  }

  /** Every deletion takes the oldest, whatever step comes next. */
  lemma OnlyTheOldestLeave(cap: int, acts: seq<Action>, a: Action, id: Id)
    requires InOrder(cap, acts, id) && id in Run(cap, acts).chans
    ensures id in Apply(cap, Run(cap, acts), a).chans
    ensures LosesOldest(Run(cap, acts).chans[id].stream, Apply(cap, Run(cap, acts), a).chans[id].stream)
  {
    var s := Run(cap, acts);
    DropLosesOldest(s.chans[id].stream, 0);
    if Apply(cap, s, a) == s {
    } else if a.RunAppend? {
      AppendLosesOldest(cap, s, a.p, a.blob, a.now, id);
    } else if a.SweepVisit? {
      ContiguousInEveryRun(cap, acts, id);
      ConservedInEveryRun(cap, acts);
      SweepersMissNothing(cap, acts);
      if s.sweepers[a.w].id == id {
        VisitLosesOldest(s, a.w, id);
      }
    } else {
      OtherStepsLeaveStreams(cap, s, a, id);
    }
  }

  // --- one TTL, and appends whose readings reach the store in order ---

  predicate KeepsTtl(a: Action, id: Id, ttl: int) {
    && (a.Create? && a.id == id ==> a.limits.ttl == ttl)
    && (a.SetLimits? && a.id == id ==> a.ttl < 0 || a.ttl == ttl)
  }

  ghost predicate FixedTtl(acts: seq<Action>, id: Id, ttl: int) {
    forall a :: a in acts ==> KeepsTtl(a, id, ttl)
  }

  /** The reading of the last append of a run. */
  function LastReading(acts: seq<Action>): int {
    if acts == [] then 0
    else if acts[|acts| - 1].RunAppend? then acts[|acts| - 1].now
    else LastReading(acts[..|acts| - 1])
  }

  /** No append's reading lies before an earlier append's, or before zero. */
  predicate AppendsAdvance(acts: seq<Action>) {
    acts == [] ||
    (AppendsAdvance(acts[..|acts| - 1])
     && (acts[|acts| - 1].RunAppend? ==> LastReading(acts[..|acts| - 1]) <= acts[|acts| - 1].now))
  }

  predicate ExpiryFits(es: seq<Entry>, ttl: int, t: int) {
    forall e :: e in es ==> if ttl > 0 then 0 < e.exp <= t + ttl else e.exp == 0
  }

  ghost predicate OneTtl(s: Store, id: Id, ttl: int, t: int) {
    && t >= 0
    && (id in s.chans ==> s.chans[id].limits.ttl == ttl && ExpiryFits(s.chans[id].stream, ttl, t))
    && (forall p :: p in s.appenders && s.appenders[p].id == id ==> s.appenders[p].limits.ttl == ttl)
  }

  lemma AppendKeepsTtl(cap: int, s: Store, p: nat, blob: Blob, now: int, id: Id, ttl: int, t: int)
    requires OneTtl(s, id, ttl, t) && t <= now && p in s.appenders && s.appenders[p].id in s.chans
    ensures OneTtl(RunAppendStep(cap, s, p, blob, now), id, ttl, now)
    ensures AppendsInOrder(s, RunAppend(p, blob, now), id)
  {
    if id in s.chans {
      AppendSources(cap, s, p, blob, now, id);
    }
  }

  lemma VisitKeepsTtl(s: Store, k: nat, id: Id, ttl: int, t: int)
    requires Structure(s) && OneTtl(s, id, ttl, t)
    requires k in s.sweepers && s.sweepers[k].rest != [] && s.sweepers[k].id in s.chans
    ensures OneTtl(VisitStep(s, k), id, ttl, t)
  {
    if id in s.chans {
      VisitSources(s, k, id);
    }
  }

  lemma OtherStepKeepsTtl(cap: int, s: Store, a: Action, id: Id, ttl: int, t: int)
    requires OneTtl(s, id, ttl, t) && KeepsTtl(a, id, ttl) && !a.RunAppend? && !a.SweepVisit?
    ensures OneTtl(Apply(cap, s, a), id, ttl, t)
  {
  }

  lemma StepKeepsTtl(cap: int, s: Store, a: Action, id: Id, ttl: int, t: int)
    requires Structure(s) && OneTtl(s, id, ttl, t) && KeepsTtl(a, id, ttl) && (a.RunAppend? ==> t <= a.now)
    ensures OneTtl(Apply(cap, s, a), id, ttl, if a.RunAppend? then a.now else t) && AppendsInOrder(s, a, id)
  {
    if a.RunAppend? {
      if a.p in s.appenders && s.appenders[a.p].id in s.chans {
        AppendKeepsTtl(cap, s, a.p, a.blob, a.now, id, ttl, t);
      }
    } else if a.SweepVisit? {
      if Apply(cap, s, a) != s {
        VisitKeepsTtl(s, a.w, id, ttl, t);
      }
    } else {
      OtherStepKeepsTtl(cap, s, a, id, ttl, t);
    }
  }

  /** With one TTL throughout, and append readings that do not go back, expiries are in order. The
      readings of sweeps do not matter. */
  lemma {:induction false} OneTtlIsInOrder(cap: int, acts: seq<Action>, id: Id, ttl: int)
    requires FixedTtl(acts, id, ttl) && AppendsAdvance(acts)
    ensures InOrder(cap, acts, id) && OneTtl(Run(cap, acts), id, ttl, LastReading(acts))
  {
    if acts != [] {
      var before := acts[..|acts| - 1];
      OneTtlIsInOrder(cap, before, id, ttl);
      ConservedInEveryRun(cap, before);
      StepKeepsTtl(cap, Run(cap, before), acts[|acts| - 1], id, ttl, LastReading(before));
    }
  }

  // --- a clock that does not read before zero ---

  predicate NoneBelowZero(es: seq<Entry>) {
    forall e :: e in es ==> e.exp >= 0
  }

  predicate ReadsNoneBelowZero(acts: seq<Action>) {
    forall a :: a in acts && a.RunAppend? ==> a.now >= 0
  }

  lemma NewFromZero(cap: int, s: Store, a: Action, id: Id)
    requires Structure(s) && id in Apply(cap, s, a).chans && (a.RunAppend? ==> a.now >= 0)
    requires id in s.chans ==> NoneBelowZero(s.chans[id].stream)
    ensures NoneBelowZero(Apply(cap, s, a).chans[id].stream)
  {
    if Apply(cap, s, a) == s || id !in s.chans {
    } else if a.RunAppend? {
      AppendSources(cap, s, a.p, a.blob, a.now, id);
    } else if a.SweepVisit? {
      VisitSources(s, a.w, id);
    } else {
      OtherStepsLeaveStreams(cap, s, a, id);
    }
  }

  /** No expiry lies before zero when no append read a time before zero. */
  lemma {:induction false} ExpiriesFromZero(cap: int, acts: seq<Action>, id: Id)
    requires ReadsNoneBelowZero(acts) && id in Run(cap, acts).chans
    ensures NoneBelowZero(Run(cap, acts).chans[id].stream)
  {
    if acts != [] {
      var before, a := acts[..|acts| - 1], acts[|acts| - 1];
      assert a in acts;
      if id in Run(cap, before).chans {
        ExpiriesFromZero(cap, before, id);
      }
      ConservedInEveryRun(cap, before);
      NewFromZero(cap, Run(cap, before), a, id);
    }
  }
}
