/** What counter conservation buys over whole runs: no counter goes negative, limits and quotas
    hold for what is really stored even in the middle of sweeps, and no sequence number is given
    out twice. */
module StoreSafety {
  import opened Eviction
  import opened StoreMachine
  import opened StoreConservation
  import opened Sums

  lemma DebtsAreDebts(s: Store, id: Id, owner: string)
    ensures PendingBytes(s, id) >= 0 && PendingMsgs(s, id) >= 0 && PendingAccount(s, owner) >= 0
  {
    var zero := (w: Sweeper) => 0;
    TotalOfZeros(s.sweepers, zero);
    TotalAtLeast(s.sweepers, zero, OwedBytes(id));
    TotalAtLeast(s.sweepers, zero, OwedMsgs(id));
    TotalAtLeast(s.sweepers, zero, OwedAccount(Owners(s), owner));
  }

  lemma StoredIsStored(s: Store, owner: string)
    ensures TrueAccount(s, owner) >= 0
  {
    var zero := (c: Channel) => 0;
    TotalOfZeros(s.chans, zero);
    TotalAtLeast(s.chans, zero, StoredFor(owner));
  }

  /** Counters may run ahead of what is stored while a sweep is under way, never behind, and so
      never below zero. */
  lemma CountersNeverBehind(cap: int, acts: seq<Action>, id: Id, owner: string)
    ensures var s := Run(cap, acts);
            && (id in s.chans ==>
                  && s.chans[id].bytes >= Bytes(s.chans[id].stream) >= 0
                  && s.chans[id].msgs >= |s.chans[id].stream|)
            && (owner != "" ==> Account(s, owner) >= TrueAccount(s, owner) >= 0)
  {
    var s := Run(cap, acts);
    ConservedInEveryRun(cap, acts);
    assert ChannelRight(s, id) && AccountRight(s, owner);
    DebtsAreDebts(s, id, owner);
    StoredIsStored(s, owner);
  }

  ghost predicate NothingOwed(s: Store) {
    forall k :: k in s.sweepers ==> s.sweepers[k].due == NoDue
  }

  /** Once no sweeper owes anything, every counter is exact. */
  lemma ExactWhenNothingIsOwed(cap: int, acts: seq<Action>, id: Id, owner: string)
    requires NothingOwed(Run(cap, acts))
    ensures var s := Run(cap, acts);
            && (id in s.chans ==> s.chans[id].bytes == Bytes(s.chans[id].stream) && s.chans[id].msgs == |s.chans[id].stream|)
            && (owner != "" ==> Account(s, owner) == TrueAccount(s, owner))
  {
    var s := Run(cap, acts);
    ConservedInEveryRun(cap, acts);
    assert ChannelRight(s, id) && AccountRight(s, owner);
    TotalOfZeros(s.sweepers, OwedBytes(id));
    TotalOfZeros(s.sweepers, OwedMsgs(id));
    TotalOfZeros(s.sweepers, OwedAccount(Owners(s), owner));
  }

  /** The step is an append to the channel. */
  predicate MayAppend(s: Store, a: Action, id: Id) {
    a.RunAppend? && a.p in s.appenders && s.appenders[a.p].id == id && id in s.chans
  }

  /** The outcome of an append that runs its script after the given steps. */
  function Outcome(cap: int, s: Store, p: nat, blob: Blob, now: int): AppendOutcome
    requires p in s.appenders && s.appenders[p].id in s.chans
  {
    var ap := s.appenders[p];
    AppendScript(s.chans[ap.id], Account(s, ap.owner), ap.owner != "", ap.limits, cap, blob, now)
  }

  /** A new channel is empty, with the limits it is given, and numbers from one. */
  lemma WhatCreateStores(cap: int, s: Store, id: Id, owner: string, kAuth: string, retained: bool, limits: Limits)
    requires id !in s.chans
    ensures var s' := Apply(cap, s, Create(id, owner, kAuth, retained, limits));
            s'.chans == s.chans[id := Channel(owner, kAuth, retained, limits, [], 0, 0, 0, 1)] && s'.acctBytes == s.acctBytes
  {
  }

  /** Limits that are set are the channel's, and nothing else of it changes. */
  lemma WhatSetLimitsStores(cap: int, s: Store, id: Id, ttl: int, maxBytes: int, maxMsgs: int)
    requires id in s.chans
    ensures var c, c' := s.chans[id], Apply(cap, s, SetLimits(id, ttl, maxBytes, maxMsgs)).chans[id];
            && c' == c.(limits := c'.limits)
            && c'.limits.ttl == (if ttl >= 0 then ttl else c.limits.ttl)
            && c'.limits.maxBytes == (if maxBytes >= 0 then maxBytes else c.limits.maxBytes)
            && c'.limits.maxMsgs == (if maxMsgs >= 0 then maxMsgs else c.limits.maxMsgs)
  {
  }

  /** What an append that is let through stores: the old entries and the new one, from some entry on. The
      new one has the next number, the message and its size, and expires the TTL's seconds after the
      reading, or never. */
  lemma WhatAnAppendStores(cap: int, s: Store, p: nat, blob: Blob, now: int)
    requires p in s.appenders && s.appenders[p].id in s.chans && Outcome(cap, s, p, blob, now).result.Appended?
    ensures var id, ttl := s.appenders[p].id, s.appenders[p].limits.ttl;
            var c, c' := s.chans[id], RunAppendStep(cap, s, p, blob, now).chans[id];
            var full := c.stream + [Entry(c.nextSeq, blob, if ttl > 0 then now + ttl else 0, |blob|)];
            && Outcome(cap, s, p, blob, now).result == Appended(c.nextSeq) && c'.nextSeq == c.nextSeq + 1
            && |c'.stream| <= |full| && c'.stream == full[|full| - |c'.stream|..]
  {
    var ap := s.appenders[p];
    EvictIsLongestFit(Pushed(s.chans[ap.id], ap.limits, blob, now), ap.limits);
  }

  /** Right after every append the entries really stored are within the limits that append read,
      whatever sweeps are under way. */
  lemma LimitsHoldAfterEveryAppend(cap: int, acts: seq<Action>, p: nat, blob: Blob, now: int)
    requires var s := Run(cap, acts); p in s.appenders && s.appenders[p].id in s.chans
    requires Outcome(cap, Run(cap, acts), p, blob, now).result.Appended?
    ensures var s := Run(cap, acts);
            var s' := Run(cap, acts + [RunAppend(p, blob, now)]);
            var id := s.appenders[p].id;
            var lim := s.appenders[p].limits;
            && id in s'.chans
            && (lim.maxMsgs > 0 ==> |s'.chans[id].stream| <= lim.maxMsgs)
            && (lim.maxBytes > 0 ==> Bytes(s'.chans[id].stream) <= lim.maxBytes)
  {
    var s := Run(cap, acts);
    var ap := s.appenders[p];
    RunStep(cap, acts, RunAppend(p, blob, now));
    ConservedInEveryRun(cap, acts);
    assert Sequenced(s.chans[ap.id]);
    CountersNeverBehind(cap, acts, ap.id, ap.owner);
    PushedFacts(s.chans[ap.id], ap.limits, blob, now);
    StoredWithinLimits(Pushed(s.chans[ap.id], ap.limits, blob, now), ap.limits);
  }

  lemma RunStep(cap: int, acts: seq<Action>, a: Action)
    ensures Run(cap, acts + [a]) == Apply(cap, Run(cap, acts), a)
  {
    assert (acts + [a])[..|acts + [a]| - 1] == acts;
  }

  lemma AccountCapKept(cap: int, s: Store, a: Action, owner: string)
    requires cap > 0 && owner != "" && Inv(s) && Account(s, owner) <= cap
    ensures Account(Apply(cap, s, a), owner) <= cap
  {
    if a.RunAppend? {
      if a.p in s.appenders && s.appenders[a.p].id in s.chans {
        AppendKeepsCap(cap, s, a.p, a.blob, a.now, owner);
      }
    } else {
      OthersRaiseNothing(cap, s, a, owner);
    }
  }

  /** An append that is let through raises its account by no more than its own size. */
  lemma AppendKeepsCap(cap: int, s: Store, p: nat, blob: Blob, now: int, owner: string)
    requires cap > 0 && owner != "" && Account(s, owner) <= cap && p in s.appenders && s.appenders[p].id in s.chans
    ensures Account(RunAppendStep(cap, s, p, blob, now), owner) <= cap
  {
    var ap := s.appenders[p];
    var full := Pushed(s.chans[ap.id], ap.limits, blob, now);
    EvictKeepsError(full, ap.limits);
    KeptIsNoBigger(full, ap.limits);
  }

  lemma OthersRaiseNothing(cap: int, s: Store, a: Action, owner: string)
    requires !a.RunAppend?
    ensures Account(Apply(cap, s, a), owner) <= Account(s, owner)
  {
  }

  lemma KeptIsNoBigger(r: Ring, lim: Limits)
    ensures Bytes(Evict(r, lim).stream) <= Bytes(r.stream)
  {
    EvictIsLongestFit(r, lim);
    BytesSplit(r.stream, |r.stream| - |Evict(r, lim).stream|);
  }

  lemma {:induction false} AccountNeverOverCap(cap: int, acts: seq<Action>, owner: string)
    requires cap > 0 && owner != ""
    ensures Account(Run(cap, acts), owner) <= cap
  {
    if acts != [] {
      var before := acts[..|acts| - 1];
      AccountNeverOverCap(cap, before, owner);
      ConservedInEveryRun(cap, before);
      AccountCapKept(cap, Run(cap, before), acts[|acts| - 1], owner);
    }
  }

  /** Quota safety: over all its channels together, an owner never stores more than its counter
      says, and the counter never says more than the cap. */
  lemma QuotaIsSafe(cap: int, acts: seq<Action>, owner: string)
    requires cap > 0 && owner != ""
    ensures var s := Run(cap, acts); TrueAccount(s, owner) <= Account(s, owner) <= cap
  {
    CountersNeverBehind(cap, acts, "", owner);
    AccountNeverOverCap(cap, acts, owner);
  }

  // --- sequence numbers ---

  /** The i-th step of the run appends to the channel under number n. */
  ghost predicate Gives(cap: int, acts: seq<Action>, i: nat, id: Id, n: nat)
    requires i < |acts|
  {
    var s := Run(cap, acts[..i]);
    && acts[i].RunAppend? && acts[i].p in s.appenders && s.appenders[acts[i].p].id == id && id in s.chans
    && Outcome(cap, s, acts[i].p, acts[i].blob, acts[i].now).result == Appended(n)
  }

  /** The next number of a channel, one before the channel exists. */
  function NextSeq(s: Store, id: Id): nat {
    if id in s.chans then s.chans[id].nextSeq else 1
  }

  function StreamOf(s: Store, id: Id): seq<Entry> {
    if id in s.chans then s.chans[id].stream else []
  }

  lemma {:induction false} NextSeqGrows(cap: int, acts: seq<Action>, i: nat, j: nat, id: Id)
    requires i <= j <= |acts|
    ensures NextSeq(Run(cap, acts[..i]), id) <= NextSeq(Run(cap, acts[..j]), id)
    decreases j
  {
    if i < j {
      NextSeqGrows(cap, acts, i, j - 1, id);
      assert acts[..j - 1] + [acts[j - 1]] == acts[..j];
      RunStep(cap, acts[..j - 1], acts[j - 1]);
      NextSeqStep(cap, acts[..j - 1], acts[j - 1], id);
    }
  }

  lemma NextSeqStep(cap: int, acts: seq<Action>, a: Action, id: Id)
    ensures NextSeq(Run(cap, acts), id) <= NextSeq(Apply(cap, Run(cap, acts), a), id)
  {
    ConservedInEveryRun(cap, acts);
    if id in Run(cap, acts).chans {
      StoreStepGrows(cap, Run(cap, acts), a, id);
    } else {
      NewChannelsNumberOne(cap, Run(cap, acts), a, id);
    }
  }

  lemma NewChannelsNumberOne(cap: int, s: Store, a: Action, id: Id)
    requires id !in s.chans
    ensures NextSeq(Apply(cap, s, a), id) == 1
  {
  }

  /** Numbers are never reused and grow with time: of two appends to one channel in a run, the
      later one gets the higher number, evictions and sweeps in between or not. */
  lemma NumbersNeverReused(cap: int, acts: seq<Action>, i: nat, j: nat, id: Id, n: nat, m: nat)
    requires i < j < |acts| && Gives(cap, acts, i, id, n) && Gives(cap, acts, j, id, m)
    ensures n < m
  {
    assert acts[..i] + [acts[i]] == acts[..i + 1];
    RunStep(cap, acts[..i], acts[i]);
    NextSeqGrows(cap, acts, i + 1, j, id);
  }

  /** The stream never refuses the id an append computes: it is above every id ever stored. */
  lemma NoAppendRefusedForItsId(cap: int, acts: seq<Action>, p: nat, blob: Blob, now: int)
    requires var s := Run(cap, acts); p in s.appenders && s.appenders[p].id in s.chans
    ensures var s := Run(cap, acts);
            var out := Outcome(cap, s, p, blob, now);
            var ap := s.appenders[p];
            && out.result != IdRefused
            && (out.result == QuotaExceeded <==> ap.owner != "" && cap > 0 && Account(s, ap.owner) + |blob| > cap)
  {
    var s := Run(cap, acts);
    ConservedInEveryRun(cap, acts);
    var ap := s.appenders[p];
    assert Sequenced(s.chans[ap.id]);
    AppendKeepsChannel(s.chans[ap.id], Account(s, ap.owner), ap.owner != "", ap.limits, cap, blob, now);
  }
}
