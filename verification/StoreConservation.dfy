/** Counter conservation and cap safety over every interleaving of appends, configuration
    changes and any number of sweepers stopped between any two of their commands. */
module StoreConservation {
  import opened Eviction
  import opened StoreMachine
  import opened Sums

  // --- what sweepers owe ---

  function BytesOwed(id: Id, w: Sweeper): nat {
    if w.id == id && w.due.DueBytes? then w.due.size else 0
  }

  function MsgsOwed(id: Id, w: Sweeper): nat {
    if w.id == id && (w.due.DueBytes? || w.due.DueMsgs?) then 1 else 0
  }

  /** The account debt, the account being known only once the sweeper has looked it up. */
  function AccountOwed(owners: map<Id, string>, owner: string, w: Sweeper): nat {
    if w.due.NoDue? then 0
    else if w.due.DueAccount? then if w.due.owner == owner then w.due.size else 0
    else if w.id in owners && owners[w.id] == owner then w.due.size else 0
  }

  ghost function OwedBytes(id: Id): Sweeper -> int { (w: Sweeper) => BytesOwed(id, w) }
  ghost function OwedMsgs(id: Id): Sweeper -> int { (w: Sweeper) => MsgsOwed(id, w) }
  ghost function OwedAccount(owners: map<Id, string>, owner: string): Sweeper -> int {
    (w: Sweeper) => AccountOwed(owners, owner, w)
  }

  ghost function Owners(s: Store): map<Id, string> {
    map id | id in s.chans :: s.chans[id].owner
  }

  ghost function StoredFor(owner: string): Channel -> int {
    (c: Channel) => if c.owner == owner then Bytes(c.stream) else 0
  }

  ghost function PendingBytes(s: Store, id: Id): int { Total(s.sweepers, OwedBytes(id)) }
  ghost function PendingMsgs(s: Store, id: Id): int { Total(s.sweepers, OwedMsgs(id)) }
  ghost function PendingAccount(s: Store, owner: string): int { Total(s.sweepers, OwedAccount(Owners(s), owner)) }

  /** The bytes really stored over all channels of an owner. */
  ghost function TrueAccount(s: Store, owner: string): int { Total(s.chans, StoredFor(owner)) }

  // --- the invariant ---

  predicate Ascending(es: seq<Entry>) {
    forall i, j :: 0 <= i < j < |es| ==> es[i].id < es[j].id
  }

  /** Stream ids count up from one, and the next one is above all that ever were. */
  ghost predicate Sequenced(c: Channel) {
    && Ascending(c.stream) && c.nextSeq == c.lastId + 1
    && forall e :: e in c.stream ==> 1 <= e.id <= c.lastId
  }

  /** A sweeper's snapshot agrees with what is stored, and its debts are those of its channel. */
  ghost predicate Tracks(s: Store, w: Sweeper) {
    Busy(w) ==>
      && w.id in s.chans
      && Ascending(w.rest)
      && (forall e :: e in w.rest ==> e.id <= s.chans[w.id].lastId)
      && (forall e, f :: e in w.rest && f in s.chans[w.id].stream && e.id == f.id ==> e == f)
      && (w.due.DueAccount? ==> w.due.owner == s.chans[w.id].owner && w.due.owner != "")
  }

  ghost predicate Structure(s: Store) {
    && (forall id :: id in s.chans ==> Sequenced(s.chans[id]))
    && (forall p :: p in s.appenders ==> s.appenders[p].id in s.chans && s.appenders[p].owner == s.chans[s.appenders[p].id].owner)
    && (forall k :: k in s.sweepers ==> Tracks(s, s.sweepers[k]))
  }

  ghost predicate ChannelRight(s: Store, id: Id) {
    id in s.chans ==>
      && s.chans[id].bytes == Bytes(s.chans[id].stream) + PendingBytes(s, id)
      && s.chans[id].msgs == |s.chans[id].stream| + PendingMsgs(s, id)
  }

  ghost predicate AccountRight(s: Store, owner: string) {
    owner != "" ==> Account(s, owner) == TrueAccount(s, owner) + PendingAccount(s, owner)
  }

  /** Each counter is the true total plus exactly what the sweepers in flight still owe it. */
  ghost predicate Conserved(s: Store) {
    (forall id :: ChannelRight(s, id)) && (forall owner :: AccountRight(s, owner))
  }

  ghost predicate Inv(s: Store) {
    Structure(s) && Conserved(s)
  }

  // --- the eviction loop and deletions, as the invariant sees them ---

  lemma AscendingSuffix(es: seq<Entry>, k: nat)
    requires Ascending(es) && k <= |es|
    ensures Ascending(es[k..])
  {
  }

  function NewEntry(c: Channel, lim: Limits, blob: Blob, now: int): Entry {
    Entry(c.nextSeq, blob, Expiry(lim.ttl, now), |blob|)
  }

  function Pushed(c: Channel, lim: Limits, blob: Blob, now: int): Ring {
    Ring(c.stream + [NewEntry(c, lim, blob, now)], c.bytes + |blob|, c.msgs + 1)
  }

  lemma PushedFacts(c: Channel, lim: Limits, blob: Blob, now: int)
    requires Sequenced(c)
    ensures var full := Pushed(c, lim, blob, now);
            && Ascending(full.stream)
            && full.bytes - Bytes(full.stream) == c.bytes - Bytes(c.stream)
            && full.msgs - |full.stream| == c.msgs - |c.stream|
  {
    var e := NewEntry(c, lim, blob, now);
    BytesConcat(c.stream, [e]);
    assert Bytes([e]) == |blob|;
  }

  /** What eviction leaves is a suffix: no entry appears, and the order stays. */
  lemma KeptIsSuffix(r: Ring, lim: Limits)
    requires Ascending(r.stream)
    ensures Ascending(Evict(r, lim).stream)
    ensures forall e :: e in Evict(r, lim).stream ==> e in r.stream
  {
    EvictIsLongestFit(r, lim);
    AscendingSuffix(r.stream, |r.stream| - |Evict(r, lim).stream|);
  }

  /** What an append leaves behind: old entries and the new one, counters off by what they were
      off, and the account moved by exactly what the stored bytes moved. */
  lemma AppendKeepsChannel(c: Channel, account: int, hasOwner: bool, lim: Limits, cap: int, blob: Blob, now: int)
    requires Sequenced(c)
    ensures var out := AppendScript(c, account, hasOwner, lim, cap, blob, now);
            && out.result != IdRefused && Sequenced(out.channel) && Successor(c, out.channel)
            && out.channel.bytes - Bytes(out.channel.stream) == c.bytes - Bytes(c.stream)
            && out.channel.msgs - |out.channel.stream| == c.msgs - |c.stream|
            && out.account - account == (if hasOwner then Bytes(out.channel.stream) - Bytes(c.stream) else 0)
  {
    var full := Pushed(c, lim, blob, now);
    PushedFacts(c, lim, blob, now);
    EvictKeepsError(full, lim);
    KeptIsSuffix(full, lim);
  }

  /** The same channel later: entries only go, or come with higher ids. */
  ghost predicate Successor(c: Channel, c': Channel) {
    && c'.owner == c.owner && c'.lastId >= c.lastId
    && forall e :: e in c'.stream ==> e in c.stream || e.id > c.lastId
  }

  lemma {:induction false} WithoutFacts(es: seq<Entry>, e: Entry)
    requires Ascending(es) && e in es
    ensures var es' := Without(es, e.id);
            && Ascending(es') && |es'| == |es| - 1 && Bytes(es') == Bytes(es) - e.size
            && (forall f :: f in es' <==> f in es && f != e)
  {
    if es[0] != e {
      WithoutFacts(es[1..], e);
      assert Without(es, e.id) == [es[0]] + Without(es[1..], e.id);
      assert es == [es[0]] + es[1..];
    } else {
      assert es == [e] + es[1..];
    }
  }

  // --- each step keeps the structure ---

  lemma ReplaceChannel(s: Store, id: Id, c': Channel)
    requires Structure(s) && id in s.chans && Sequenced(c') && Successor(s.chans[id], c')
    ensures Structure(s.(chans := s.chans[id := c']))
  {
    var s' := s.(chans := s.chans[id := c']);
    forall k | k in s'.sweepers
      ensures Tracks(s', s'.sweepers[k])
    {
      assert Tracks(s, s.sweepers[k]);
    }
  }

  lemma ReplaceSweeper(s: Store, k: nat, w: Sweeper)
    requires Structure(s) && Tracks(s, w)
    ensures Structure(s.(sweepers := s.sweepers[k := w]))
  {
    var s' := s.(sweepers := s.sweepers[k := w]);
    forall j | j in s'.sweepers
      ensures Tracks(s', s'.sweepers[j])
    {
      assert j != k ==> Tracks(s, s.sweepers[j]);
    }
  }

  lemma StructureKept(cap: int, s: Store, a: Action)
    requires Structure(s)
    ensures Structure(Apply(cap, s, a))
  {
    match a
    case Create(id, owner, kAuth, retained, limits) =>
      if id !in s.chans {
        CreateKeepsStructure(s, id, NewChannel(owner, kAuth, retained, limits));
      }
    case SetLimits(id, ttl, maxBytes, maxMsgs) =>
      if id in s.chans {
        ReplaceChannel(s, id, s.chans[id].(limits := Override(s.chans[id].limits, ttl, maxBytes, maxMsgs)));
      }
    case ReadConfig(p, id) =>
      ReadKeepsStructure(s, p, id);
    case RunAppend(p, blob, now) =>
      if p in s.appenders {
        AppendKeepsStructure(cap, s, p, blob, now);
      }
    case SweepBegin(k, now, ids) =>
      ReplaceSweeper(s, k, Sweeper(now, ids, "", [], NoDue));
    case SweepScan(k) =>
      if k in s.sweepers && s.sweepers[k].ids != [] && s.sweepers[k].ids[0] in s.chans {
        ScanKeepsStructure(s, k);
      }
    case SweepVisit(k) =>
      if k in s.sweepers && s.sweepers[k].rest != [] && s.sweepers[k].due == NoDue {
        VisitKeepsStructure(s, k);
      }
    case SweepPay(k) =>
      if k in s.sweepers && s.sweepers[k].due != NoDue {
        PayKeepsStructure(s, k);
      }
  }

  lemma CreateKeepsStructure(s: Store, id: Id, c: Channel)
    requires Structure(s) && id !in s.chans && Sequenced(c)
    ensures Structure(s.(chans := s.chans[id := c]))
  {
    var s' := s.(chans := s.chans[id := c]);
    forall k | k in s'.sweepers
      ensures Tracks(s', s'.sweepers[k])
    {
      assert Tracks(s, s.sweepers[k]);
    }
  }

  lemma ReadKeepsStructure(s: Store, p: nat, id: Id)
    requires Structure(s)
    ensures Structure(Apply(0, s, ReadConfig(p, id)))
  {
    var s' := Apply(0, s, ReadConfig(p, id));
    forall k | k in s'.sweepers
      ensures Tracks(s', s'.sweepers[k])
    {
      assert Tracks(s, s.sweepers[k]);
    }
  }

  lemma AppendKeepsStructure(cap: int, s: Store, p: nat, blob: Blob, now: int)
    requires Structure(s) && p in s.appenders
    ensures Structure(RunAppendStep(cap, s, p, blob, now))
  {
    var ap := s.appenders[p];
    var hasOwner := ap.owner != "";
    AppendKeepsChannel(s.chans[ap.id], Account(s, ap.owner), hasOwner, ap.limits, cap, blob, now);
    var out := AppendScript(s.chans[ap.id], Account(s, ap.owner), hasOwner, ap.limits, cap, blob, now);
    ReplaceChannel(s, ap.id, out.channel);
    var s1 := s.(chans := s.chans[ap.id := out.channel]);
    var s' := RunAppendStep(cap, s, p, blob, now);
    assert s'.chans == s1.chans && s'.sweepers == s1.sweepers;
    forall k | k in s'.sweepers
      ensures Tracks(s', s'.sweepers[k])
    {
      assert Tracks(s1, s1.sweepers[k]);
    }
  }

  lemma ScanKeepsStructure(s: Store, k: nat)
    requires Structure(s) && k in s.sweepers && s.sweepers[k].ids != [] && s.sweepers[k].ids[0] in s.chans
    ensures Structure(Apply(0, s, SweepScan(k)))
  {
    var w := s.sweepers[k];
    var c := s.chans[w.ids[0]];
    assert Sequenced(c);
    if !Busy(w) {
      SameIdSameEntry(c.stream);
      ReplaceSweeper(s, k, w.(ids := w.ids[1..], id := w.ids[0], rest := c.stream));
    }
  }

  lemma SameIdSameEntry(es: seq<Entry>)
    requires Ascending(es)
    ensures forall e, f :: e in es && f in es && e.id == f.id ==> e == f
  {
    forall e, f | e in es && f in es && e.id == f.id
      ensures e == f
    {
      var i :| 0 <= i < |es| && es[i] == e;
      var j :| 0 <= j < |es| && es[j] == f;
    }
  }

  /** The stored entry a snapshot entry names is that very entry. */
  lemma SnapshotEntryIsStored(s: Store, k: nat)
    requires Structure(s) && k in s.sweepers && s.sweepers[k].rest != []
    requires Holds(s.chans[s.sweepers[k].id].stream, s.sweepers[k].rest[0].id)
    ensures s.sweepers[k].rest[0] in s.chans[s.sweepers[k].id].stream
  {
    var w := s.sweepers[k];
    assert Tracks(s, w) && w.rest[0] in w.rest;
  }

  lemma VisitKeepsStructure(s: Store, k: nat)
    requires Structure(s) && k in s.sweepers && s.sweepers[k].rest != [] && s.sweepers[k].due == NoDue
    ensures Structure(VisitStep(s, k))
  {
    var w := s.sweepers[k];
    assert Tracks(s, w);
    var e, c := w.rest[0], s.chans[w.id];
    var w' := w.(rest := w.rest[1..]);
    AscendingSuffix(w.rest, 1);
    if !Sweepable(e, w.now) || !Holds(c.stream, e.id) {
      ReplaceSweeper(s, k, w');
    } else {
      SnapshotEntryIsStored(s, k);
      assert Sequenced(c);
      WithoutFacts(c.stream, e);
      var c' := c.(stream := Without(c.stream, e.id));
      ReplaceChannel(s, w.id, c');
      ReplaceSweeper(s.(chans := s.chans[w.id := c']), k, w'.(due := DueBytes(e.size)));
    }
  }

  /** The store after a step that replaces one sweeper, its channel and the accounts. */
  function Moved(s: Store, k: nat, w: Sweeper, c': Channel, acctBytes: map<string, int>): Store {
    s.(chans := s.chans[w.id := c'], sweepers := s.sweepers[k := w], acctBytes := acctBytes)
  }

  /** A counter moves, and the sweeper goes on to its next command. */
  lemma PayCounter(s: Store, k: nat, c': Channel, due: Due)
    requires Structure(s) && k in s.sweepers && s.sweepers[k].due != NoDue && !due.DueAccount?
    requires var c := s.chans[s.sweepers[k].id]; c' == c.(bytes := c'.bytes, msgs := c'.msgs)
    ensures Structure(Moved(s, k, s.sweepers[k].(due := due), c', s.acctBytes))
  {
    var w := s.sweepers[k];
    assert Tracks(s, w);
    ReplaceChannel(s, w.id, c');
    var s1 := s.(chans := s.chans[w.id := c']);
    assert Tracks(s1, s1.sweepers[k]);
    ReplaceSweeper(s1, k, w.(due := due));
  }

  lemma AccountsDoNotMatter(s: Store, acctBytes: map<string, int>)
    requires Structure(s)
    ensures Structure(s.(acctBytes := acctBytes))
  {
    var s' := s.(acctBytes := acctBytes);
    forall k | k in s'.sweepers
      ensures Tracks(s', s'.sweepers[k])
    {
      assert Tracks(s, s.sweepers[k]);
    }
  }

  lemma PayCounterKeepsStructure(s: Store, k: nat)
    requires Structure(s) && k in s.sweepers && (s.sweepers[k].due.DueBytes? || s.sweepers[k].due.DueMsgs?)
    ensures Structure(PayStep(s, k))
  {
    var w := s.sweepers[k];
    assert Tracks(s, w);
    var c := s.chans[w.id];
    var size := w.due.size;
    var c' := if w.due.DueBytes? then c.(bytes := c.bytes - size) else c.(msgs := c.msgs - 1);
    var due := if w.due.DueBytes? then DueMsgs(size) else DueOwner(size);
    PayCounter(s, k, c', due);
    assert PayStep(s, k) == Moved(s, k, w.(due := due), c', s.acctBytes);
  }

  lemma PayAccountKeepsStructure(s: Store, k: nat)
    requires Structure(s) && k in s.sweepers && s.sweepers[k].due.DueAccount?
    ensures Structure(PayStep(s, k))
  {
    var w := s.sweepers[k];
    assert Tracks(s, w);
    ReplaceSweeper(s, k, w.(due := NoDue));
    AccountsDoNotMatter(s.(sweepers := s.sweepers[k := w.(due := NoDue)]), PayStep(s, k).acctBytes);
  }

  lemma PayKeepsStructure(s: Store, k: nat)
    requires Structure(s) && k in s.sweepers && s.sweepers[k].due != NoDue
    ensures s.sweepers[k].id in s.chans && Structure(PayStep(s, k))
  {
    var w := s.sweepers[k];
    assert Tracks(s, w);
    var c := s.chans[w.id];
    if w.due.DueOwner? {
      ReplaceSweeper(s, k, w.(due := if c.owner == "" then NoDue else DueAccount(c.owner, w.due.size)));
    } else if w.due.DueAccount? {
      PayAccountKeepsStructure(s, k);
    } else {
      PayCounterKeepsStructure(s, k);
    }
  }

  // --- streams over time ---

  /** A channel later: it is still there, its number has not gone down, and every entry of its
      stream is an old one or has a number that was still to come. */
  ghost predicate StreamGrows(s: Store, s': Store, id: Id) {
    id in s.chans ==>
      && id in s'.chans && s.chans[id].nextSeq <= s'.chans[id].nextSeq
      && forall e :: e in s'.chans[id].stream ==> e in s.chans[id].stream || e.id >= s.chans[id].nextSeq
  }

  lemma AppendGrows(cap: int, s: Store, p: nat, blob: Blob, now: int, id: Id)
    requires Structure(s) && p in s.appenders && s.appenders[p].id in s.chans
    ensures StreamGrows(s, RunAppendStep(cap, s, p, blob, now), id)
  {
    var ap := s.appenders[p];
    assert Sequenced(s.chans[ap.id]);
    AppendKeepsChannel(s.chans[ap.id], Account(s, ap.owner), ap.owner != "", ap.limits, cap, blob, now);
  }

  lemma DeletionGrows(s: Store, k: nat, id: Id)
    requires Structure(s) && k in s.sweepers && s.sweepers[k].rest != [] && s.sweepers[k].id in s.chans
    ensures StreamGrows(s, VisitStep(s, k), id)
  {
    var w := s.sweepers[k];
    if Holds(s.chans[w.id].stream, w.rest[0].id) {
      SnapshotEntryIsStored(s, k);
      assert Sequenced(s.chans[w.id]);
      WithoutFacts(s.chans[w.id].stream, w.rest[0]);
    }
  }

  lemma OtherStoreStepsGrow(cap: int, s: Store, a: Action, id: Id)
    requires !a.RunAppend? && !a.SweepVisit?
    ensures StreamGrows(s, Apply(cap, s, a), id)
  {
  }

  lemma StoreStepGrows(cap: int, s: Store, a: Action, id: Id)
    requires Structure(s)
    ensures StreamGrows(s, Apply(cap, s, a), id)
  {
    if a.RunAppend? {
      if a.p in s.appenders && s.appenders[a.p].id in s.chans {
        AppendGrows(cap, s, a.p, a.blob, a.now, id);
      }
    } else if a.SweepVisit? {
      if Apply(cap, s, a) != s {
        DeletionGrows(s, a.w, id);
      }
    } else {
      OtherStoreStepsGrow(cap, s, a, id);
    }
  }

  // --- each step keeps the counters ---

  /** Replacing a sweeper moves each debt by the difference. */
  lemma DebtsMove(s: Store, k: nat, w: Sweeper, id: Id, owner: string)
    ensures var s' := s.(sweepers := s.sweepers[k := w]);
            && PendingBytes(s', id) == PendingBytes(s, id) - (if k in s.sweepers then BytesOwed(id, s.sweepers[k]) else 0) + BytesOwed(id, w)
            && PendingMsgs(s', id) == PendingMsgs(s, id) - (if k in s.sweepers then MsgsOwed(id, s.sweepers[k]) else 0) + MsgsOwed(id, w)
            && PendingAccount(s', owner) == PendingAccount(s, owner)
                 - (if k in s.sweepers then AccountOwed(Owners(s), owner, s.sweepers[k]) else 0) + AccountOwed(Owners(s), owner, w)
  {
    assert Owners(s.(sweepers := s.sweepers[k := w])) == Owners(s);
    TotalSet(s.sweepers, OwedBytes(id), k, w);
    TotalSet(s.sweepers, OwedMsgs(id), k, w);
    TotalSet(s.sweepers, OwedAccount(Owners(s), owner), k, w);
  }

  /** Replacing a channel moves no debt, and its owner's true total by the change in its stream. */
  lemma StoredMoves(s: Store, id: Id, c': Channel, owner: string)
    requires id in s.chans && c'.owner == s.chans[id].owner
    ensures var s' := s.(chans := s.chans[id := c']);
            && Owners(s') == Owners(s)
            && TrueAccount(s', owner)
               == TrueAccount(s, owner) + (if c'.owner == owner then Bytes(c'.stream) - Bytes(s.chans[id].stream) else 0)
  {
    assert Owners(s.(chans := s.chans[id := c'])) == Owners(s);
    TotalSet(s.chans, StoredFor(owner), id, c');
  }

  /** What a step that replaces one channel, one sweeper and one account entry has to get right. */
  ghost predicate Balanced(s: Store, k: nat, w: Sweeper, c': Channel, account: int)
    requires k in s.sweepers && s.sweepers[k].id in s.chans
  {
    var u, c := s.sweepers[k], s.chans[s.sweepers[k].id];
    && w.id == u.id && c'.owner == c.owner
    && c'.bytes - c.bytes == Bytes(c'.stream) - Bytes(c.stream) + BytesOwed(u.id, w) - BytesOwed(u.id, u)
    && c'.msgs - c.msgs == |c'.stream| - |c.stream| + MsgsOwed(u.id, w) - MsgsOwed(u.id, u)
    && account - (if c.owner != "" then Account(s, c.owner) else account) ==
       (if c.owner != "" then Bytes(c'.stream) - Bytes(c.stream)
          + AccountOwed(Owners(s), c.owner, w) - AccountOwed(Owners(s), c.owner, u) else 0)
  }

  lemma ChannelBalances(s: Store, k: nat, w: Sweeper, c': Channel, acctBytes: map<string, int>, i: Id)
    requires ChannelRight(s, i) && k in s.sweepers && s.sweepers[k].id in s.chans
    requires Balanced(s, k, w, c', Account(s.(acctBytes := acctBytes), s.chans[s.sweepers[k].id].owner))
    ensures ChannelRight(Moved(s, k, w, c', acctBytes), i)
  {
    DebtsMove(s, k, w, i, "");
  }

  lemma AccountBalances(s: Store, k: nat, w: Sweeper, c': Channel, acctBytes: map<string, int>, o: string)
    requires AccountRight(s, o) && k in s.sweepers && s.sweepers[k].id in s.chans
    requires Balanced(s, k, w, c', Account(s.(acctBytes := acctBytes), s.chans[s.sweepers[k].id].owner))
    requires o != s.chans[s.sweepers[k].id].owner ==> Account(s.(acctBytes := acctBytes), o) == Account(s, o)
    requires Tracks(s, s.sweepers[k]) && (w.due.DueAccount? ==> w.due.owner == s.chans[s.sweepers[k].id].owner)
    ensures AccountRight(Moved(s, k, w, c', acctBytes), o)
  {
    var s' := Moved(s, k, w, c', acctBytes);
    StoredMoves(s, w.id, c', o);
    DebtsMove(s, k, w, w.id, o);
    assert Owners(s') == Owners(s);
    assert Account(s', o) == Account(s.(acctBytes := acctBytes), o);
  }

  /** A sweeper's step on its channel keeps every counter right when it balances. */
  lemma SweeperMoves(s: Store, k: nat, w: Sweeper, c': Channel, acctBytes: map<string, int>)
    requires Inv(s) && k in s.sweepers && s.sweepers[k].id in s.chans
    requires Balanced(s, k, w, c', Account(s.(acctBytes := acctBytes), s.chans[s.sweepers[k].id].owner))
    requires forall o :: o != s.chans[s.sweepers[k].id].owner ==> Account(s.(acctBytes := acctBytes), o) == Account(s, o)
    requires Tracks(s, s.sweepers[k]) && (w.due.DueAccount? ==> w.due.owner == s.chans[s.sweepers[k].id].owner)
    ensures Conserved(Moved(s, k, w, c', acctBytes))
  {
    forall i
      ensures ChannelRight(Moved(s, k, w, c', acctBytes), i)
    {
      assert ChannelRight(s, i);
      ChannelBalances(s, k, w, c', acctBytes, i);
    }
    forall o
      ensures AccountRight(Moved(s, k, w, c', acctBytes), o)
    {
      assert AccountRight(s, o);
      AccountBalances(s, k, w, c', acctBytes, o);
    }
  }

  /** A sweeper that owes nothing before or after leaves all counters right. */
  lemma IdleSweeper(s: Store, k: nat, w: Sweeper)
    requires Conserved(s) && w.due == NoDue && (k in s.sweepers ==> s.sweepers[k].due == NoDue)
    ensures Conserved(s.(sweepers := s.sweepers[k := w]))
  {
    var s' := s.(sweepers := s.sweepers[k := w]);
    forall id
      ensures ChannelRight(s', id)
    {
      assert ChannelRight(s, id);
      DebtsMove(s, k, w, id, "");
    }
    forall owner
      ensures AccountRight(s', owner)
    {
      assert AccountRight(s, owner);
      DebtsMove(s, k, w, "", owner);
    }
  }

  /** A channel change that keeps the counters' error, and moves its account with the stream. */
  lemma ChannelMoves(s: Store, id: Id, c': Channel, acctBytes: map<string, int>, appenders: map<nat, Appender>)
    requires Conserved(s) && id in s.chans && c'.owner == s.chans[id].owner
    requires c'.bytes - Bytes(c'.stream) == s.chans[id].bytes - Bytes(s.chans[id].stream)
    requires c'.msgs - |c'.stream| == s.chans[id].msgs - |s.chans[id].stream|
    requires forall o :: o != "" ==>
               Account(s.(acctBytes := acctBytes), o)
               == Account(s, o) + (if c'.owner == o then Bytes(c'.stream) - Bytes(s.chans[id].stream) else 0)
    ensures Conserved(s.(chans := s.chans[id := c'], acctBytes := acctBytes, appenders := appenders))
  {
    var s' := s.(chans := s.chans[id := c'], acctBytes := acctBytes, appenders := appenders);
    forall i
      ensures ChannelRight(s', i)
    {
      assert ChannelRight(s, i);
    }
    forall o
      ensures AccountRight(s', o)
    {
      assert AccountRight(s, o);
      StoredMoves(s, id, c', o);
      assert Owners(s') == Owners(s);
      assert Account(s', o) == Account(s.(acctBytes := acctBytes), o);
    }
  }

  lemma CountersKept(cap: int, s: Store, a: Action)
    requires Inv(s)
    ensures Conserved(Apply(cap, s, a))
  {
    match a
    case Create(id, owner, kAuth, retained, limits) =>
      if id !in s.chans {
        CreateKeepsCounters(s, id, NewChannel(owner, kAuth, retained, limits));
      }
    case SetLimits(id, ttl, maxBytes, maxMsgs) =>
      if id in s.chans {
        var c := s.chans[id];
        ChannelMoves(s, id, c.(limits := Override(c.limits, ttl, maxBytes, maxMsgs)), s.acctBytes, s.appenders);
      }
    case ReadConfig(p, id) =>
      if id in s.chans {
        ChannelMoves(s, id, s.chans[id], s.acctBytes, Apply(cap, s, a).appenders);
        assert s.chans[id := s.chans[id]] == s.chans;
      }
    case RunAppend(p, blob, now) =>
      if p in s.appenders {
        AppendKeepsCounters(cap, s, p, blob, now);
      }
    case SweepBegin(k, now, ids) =>
      if k !in s.sweepers || !Busy(s.sweepers[k]) {
        IdleSweeper(s, k, Sweeper(now, ids, "", [], NoDue));
      }
    case SweepScan(k) =>
      if k in s.sweepers && !Busy(s.sweepers[k]) && s.sweepers[k].ids != [] && s.sweepers[k].ids[0] in s.chans {
        var w := s.sweepers[k];
        IdleSweeper(s, k, w.(ids := w.ids[1..], id := w.ids[0], rest := s.chans[w.ids[0]].stream));
      }
    case SweepVisit(k) =>
      if k in s.sweepers && s.sweepers[k].rest != [] && s.sweepers[k].due == NoDue {
        VisitKeepsCounters(s, k);
      }
    case SweepPay(k) =>
      if k in s.sweepers && s.sweepers[k].due != NoDue {
        PayKeepsCounters(s, k);
      }
  }

  /** No debt names a channel that does not exist yet. */
  lemma NoDebtYet(s: Store, id: Id)
    requires Structure(s) && id !in s.chans
    ensures PendingBytes(s, id) == 0 && PendingMsgs(s, id) == 0
  {
    forall k | k in s.sweepers
      ensures BytesOwed(id, s.sweepers[k]) == 0 && MsgsOwed(id, s.sweepers[k]) == 0
    {
      assert Tracks(s, s.sweepers[k]);
    }
    TotalOfZeros(s.sweepers, OwedBytes(id));
    TotalOfZeros(s.sweepers, OwedMsgs(id));
  }

  lemma CreateKeepsCounters(s: Store, id: Id, c: Channel)
    requires Inv(s) && id !in s.chans && c.stream == [] && c.bytes == 0 && c.msgs == 0
    ensures Conserved(s.(chans := s.chans[id := c]))
  {
    var s' := s.(chans := s.chans[id := c]);
    forall i
      ensures ChannelRight(s', i)
    {
      assert ChannelRight(s, i);
      if i == id {
        NoDebtYet(s, id);
      }
    }
    forall o
      ensures AccountRight(s', o)
    {
      assert AccountRight(s, o);
      TotalSet(s.chans, StoredFor(o), id, c);
      SameDebts(s, s', o);
    }
  }

  /** Creating a channel changes nobody's debts. */
  lemma SameDebts(s: Store, s': Store, owner: string)
    requires Structure(s) && s'.sweepers == s.sweepers
    requires forall id :: id in s.chans ==> id in s'.chans && s'.chans[id].owner == s.chans[id].owner
    ensures PendingAccount(s', owner) == PendingAccount(s, owner)
  {
    forall k | k in s.sweepers
      ensures AccountOwed(Owners(s), owner, s.sweepers[k]) == AccountOwed(Owners(s'), owner, s.sweepers[k])
    {
      assert Tracks(s, s.sweepers[k]);
    }
    TotalSame(s.sweepers, OwedAccount(Owners(s), owner), OwedAccount(Owners(s'), owner));
  }

  lemma AppendKeepsCounters(cap: int, s: Store, p: nat, blob: Blob, now: int)
    requires Inv(s) && p in s.appenders
    ensures Conserved(RunAppendStep(cap, s, p, blob, now))
  {
    var ap := s.appenders[p];
    var hasOwner := ap.owner != "";
    var c := s.chans[ap.id];
    assert Sequenced(c);
    AppendKeepsChannel(c, Account(s, ap.owner), hasOwner, ap.limits, cap, blob, now);
    var out := AppendScript(c, Account(s, ap.owner), hasOwner, ap.limits, cap, blob, now);
    var acctBytes := if hasOwner then s.acctBytes[ap.owner := out.account] else s.acctBytes;
    ChannelMoves(s, ap.id, out.channel, acctBytes, s.appenders - {p});
  }

  lemma VisitKeepsCounters(s: Store, k: nat)
    requires Inv(s) && k in s.sweepers && s.sweepers[k].rest != [] && s.sweepers[k].due == NoDue
    ensures Conserved(VisitStep(s, k))
  {
    var w := s.sweepers[k];
    assert Tracks(s, w);
    var e, c := w.rest[0], s.chans[w.id];
    var w' := w.(rest := w.rest[1..]);
    if !Sweepable(e, w.now) || !Holds(c.stream, e.id) {
      IdleSweeper(s, k, w');
    } else {
      SnapshotEntryIsStored(s, k);
      assert Sequenced(c);
      WithoutFacts(c.stream, e);
      var w2, c' := w'.(due := DueBytes(e.size)), c.(stream := Without(c.stream, e.id));
      SweeperMoves(s, k, w2, c', s.acctBytes);
      assert VisitStep(s, k) == Moved(s, k, w2, c', s.acctBytes);
    }
  }

  lemma PayChannelKeepsCounters(s: Store, k: nat)
    requires Inv(s) && k in s.sweepers && s.sweepers[k].id in s.chans
    requires s.sweepers[k].due.DueBytes? || s.sweepers[k].due.DueMsgs?
    ensures Conserved(PayStep(s, k))
  {
    var w := s.sweepers[k];
    assert Tracks(s, w);
    var c := s.chans[w.id];
    if w.due.DueBytes? {
      SweeperMoves(s, k, w.(due := DueMsgs(w.due.size)), c.(bytes := c.bytes - w.due.size), s.acctBytes);
    } else {
      SweeperMoves(s, k, w.(due := DueOwner(w.due.size)), c.(msgs := c.msgs - 1), s.acctBytes);
    }
  }

  lemma LookUpOwnerKeepsCounters(s: Store, k: nat)
    requires Inv(s) && k in s.sweepers && s.sweepers[k].id in s.chans && s.sweepers[k].due.DueOwner?
    ensures Conserved(PayStep(s, k))
  {
    var w := s.sweepers[k];
    assert Tracks(s, w);
    var c := s.chans[w.id];
    var w' := w.(due := if c.owner == "" then NoDue else DueAccount(c.owner, w.due.size));
    SweeperMoves(s, k, w', c, s.acctBytes);
    assert s.chans[w.id := c] == s.chans;
  }

  lemma PayAccountKeepsCounters(s: Store, k: nat)
    requires Inv(s) && k in s.sweepers && s.sweepers[k].id in s.chans && s.sweepers[k].due.DueAccount?
    ensures Conserved(PayStep(s, k))
  {
    var w := s.sweepers[k];
    assert Tracks(s, w);
    var c := s.chans[w.id];
    SweeperMoves(s, k, w.(due := NoDue), c, PayStep(s, k).acctBytes);
    assert s.chans[w.id := c] == s.chans;
  }

  lemma PayKeepsCounters(s: Store, k: nat)
    requires Inv(s) && k in s.sweepers && s.sweepers[k].due != NoDue
    ensures s.sweepers[k].id in s.chans && Conserved(PayStep(s, k))
  {
    var w := s.sweepers[k];
    assert Tracks(s, w);
    if w.due.DueOwner? {
      LookUpOwnerKeepsCounters(s, k);
    } else if w.due.DueAccount? {
      PayAccountKeepsCounters(s, k);
    } else {
      PayChannelKeepsCounters(s, k);
    }
  }

  // --- whole runs ---

  /** Counter conservation: in every state any run reaches, each channel's byte and message
      counters and each account's byte counter equal the true totals plus exactly the debts of
      the sweepers in flight. */
  lemma {:induction false} ConservedInEveryRun(cap: int, acts: seq<Action>)
    ensures Inv(Run(cap, acts))
  {
    if acts != [] {
      var before := acts[..|acts| - 1];
      ConservedInEveryRun(cap, before);
      StructureKept(cap, Run(cap, before), acts[|acts| - 1]);
      CountersKept(cap, Run(cap, before), acts[|acts| - 1]);
    }
  }
}
