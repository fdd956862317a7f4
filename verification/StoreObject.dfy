/** The store as an object: appends, catch-up reads and an undisturbed expiry sweep, each proved
    against what the state machine says of it. */
module StoreObject {
  import opened Eviction
  import opened StoreMachine
  import opened StoreConservation
  import opened Pages
  import opened Sums

  datatype AppendReply = Scripted(result: AppendResult) | NoSuchChannel | NotRetained

  /** What an undisturbed sweep leaves of a stream. */
  function Swept(es: seq<Entry>, now: int): seq<Entry> {
    if es == [] then []
    else if Sweepable(es[0], now) then Swept(es[1..], now)
    else [es[0]] + Swept(es[1..], now)
  }

  /** A channel after an undisturbed sweep: counters go down with what is deleted. */
  function SweptChannel(c: Channel, now: int): Channel {
    var left := Swept(c.stream, now);
    c.(stream := left, bytes := c.bytes - (Bytes(c.stream) - Bytes(left)), msgs := c.msgs - (|c.stream| - |left|))
  }

  /** The sweeper and catch-up agree on what has expired as long as no expiry is negative. */
  lemma {:induction false} SweptIsLive(es: seq<Entry>, now: int)
    requires forall e :: e in es ==> e.exp >= 0
    ensures Swept(es, now) == Live(es, now)
  {
    if es != [] {
      assert es[0] in es;
      SweptIsLive(es[1..], now);
    }
  }

  /** A negative expiry would split them: catch-up still shows the entry, the sweeper deletes it. No run
      stores one as long as no append reads a time before zero (Contiguity.ExpiriesFromZero). */
  lemma NegativeExpirySplits(e: Entry, now: int)
    requires e.exp < 0 && now >= 0
    ensures Live([e], now) == [e] && Swept([e], now) == []
  {
  }

  lemma {:induction false} SweptConcat(xs: seq<Entry>, ys: seq<Entry>, now: int)
    ensures Swept(xs + ys, now) == Swept(xs, now) + Swept(ys, now)
  {
    if xs == [] {
      assert xs + ys == ys;
    } else {
      SweptConcat(xs[1..], ys, now);
      assert (xs + ys)[1..] == xs[1..] + ys;
      Regroup(if Sweepable(xs[0], now) then [] else [xs[0]], Swept(xs[1..], now), Swept(ys, now));
    }
  }

  lemma {:induction false} SweptMembers(es: seq<Entry>, now: int)
    ensures forall e :: e in Swept(es, now) ==> e in es
  {
    if es != [] {
      SweptMembers(es[1..], now);
    }
  }

  /** Deleting an entry from the middle of an ascending stream. */
  lemma {:induction false} WithoutMiddle(xs: seq<Entry>, e: Entry, ys: seq<Entry>)
    requires forall x :: x in xs ==> x.id != e.id
    ensures Without(xs + [e] + ys, e.id) == xs + ys
  {
    if xs == [] {
      assert xs + [e] + ys == [e] + ys;
      assert ([e] + ys)[1..] == ys && xs + ys == ys;
    } else {
      var all := xs + [e] + ys;
      assert xs[0] in xs;
      WithoutMiddle(xs[1..], e, ys);
      assert all[1..] == xs[1..] + [e] + ys;
      assert xs + ys == [xs[0]] + (xs[1..] + ys);
    }
  }

  lemma LiveFrom(es: seq<Entry>, i: nat, now: int)
    requires i < |es|
    ensures Live(es[i..], now) == (if Expired(es[i], now) then [] else [es[i]]) + Live(es[i + 1..], now)
  {
    assert es[i..][1..] == es[i + 1..];
  }

  // --- a sweep that is part of the way through a channel ---

  /** A channel of which the sweep has passed the first i entries. */
  function PartlySwept(c: Channel, now: int, i: nat): Channel
    requires i <= |c.stream|
  {
    var left := Swept(c.stream[..i], now) + c.stream[i..];
    c.(stream := left, bytes := c.bytes - (Bytes(c.stream) - Bytes(left)), msgs := c.msgs - (|c.stream| - |left|))
  }

  lemma PartlyBegins(c: Channel, now: int)
    ensures PartlySwept(c, now, 0) == c
  {
    assert c.stream[..0] == [] && [] + c.stream[0..] == c.stream;
  }

  lemma PartlyEnds(c: Channel, now: int)
    ensures PartlySwept(c, now, |c.stream|) == SweptChannel(c, now)
  {
    assert c.stream[..|c.stream|] == c.stream && Swept(c.stream, now) + c.stream[|c.stream|..] == Swept(c.stream, now);
  }

  /** An entry that stays. */
  lemma PartlyKeeps(c: Channel, now: int, i: nat)
    requires i < |c.stream| && !Sweepable(c.stream[i], now)
    ensures PartlySwept(c, now, i + 1) == PartlySwept(c, now, i)
  {
    var es, e := c.stream, c.stream[i];
    assert es[..i + 1] == es[..i] + [e] && es[i..] == [e] + es[i + 1..];
    SweptConcat(es[..i], [e], now);
    assert Swept([e], now) == [e];
    assert Swept(es[..i], now) + ([e] + es[i + 1..]) == (Swept(es[..i], now) + [e]) + es[i + 1..];
  }

  /** An entry that is deleted and paid for. */
  lemma PartlyDeletes(c: Channel, now: int, i: nat)
    requires Ascending(c.stream) && i < |c.stream| && Sweepable(c.stream[i], now)
    ensures var p, e, p' := PartlySwept(c, now, i), c.stream[i], PartlySwept(c, now, i + 1);
            && e in p.stream && Bytes(p'.stream) == Bytes(p.stream) - e.size && |p'.stream| == |p.stream| - 1
            && p' == p.(stream := Without(p.stream, e.id), bytes := p.bytes - e.size, msgs := p.msgs - 1)
  {
    var es, e := c.stream, c.stream[i];
    var xs, ys := Swept(es[..i], now), es[i + 1..];
    assert es[..i + 1] == es[..i] + [e] && es[i..] == [e] + ys;
    SweptConcat(es[..i], [e], now);
    assert Swept([e], now) == [] && xs + [] == xs;
    SweptMembers(es[..i], now);
    EarlierHaveOtherIds(es, i);
    CutOut(xs, e, ys);
  }

  lemma CutOut(xs: seq<Entry>, e: Entry, ys: seq<Entry>)
    requires forall x :: x in xs ==> x.id != e.id
    ensures var all := xs + ([e] + ys);
            && e in all && Without(all, e.id) == xs + ys
            && Bytes(xs + ys) == Bytes(all) - e.size && |xs + ys| == |all| - 1
  {
    assert xs + ([e] + ys) == xs + [e] + ys;
    assert (xs + [e] + ys)[|xs|] == e;
    WithoutMiddle(xs, e, ys);
    BytesConcat(xs, [e] + ys);
    BytesConcat([e], ys);
    BytesConcat(xs, ys);
    assert Bytes([e]) == e.size;
  }

  /** What one visit of the sweep does to the channel. */
  function Visited(c: Channel, e: Entry, now: int): Channel {
    if Sweepable(e, now) && Holds(c.stream, e.id)
    then c.(stream := Without(c.stream, e.id), bytes := c.bytes - e.size, msgs := c.msgs - 1)
    else c
  }

  lemma PartlyNext(c: Channel, now: int, i: nat)
    requires Ascending(c.stream) && i < |c.stream|
    ensures var p, e, p' := PartlySwept(c, now, i), c.stream[i], PartlySwept(c, now, i + 1);
            && p' == Visited(p, e, now)
            && (Sweepable(e, now) ==> Holds(p.stream, e.id))
            && Bytes(p'.stream) == Bytes(p.stream) - (if Sweepable(e, now) then e.size else 0)
            && |p'.stream| == |p.stream| - (if Sweepable(e, now) then 1 else 0)
  {
    if Sweepable(c.stream[i], now) {
      PartlyDeletes(c, now, i);
    } else {
      PartlyKeeps(c, now, i);
    }
  }

  lemma SetTwice(chans: map<Id, Channel>, id: Id, c: Channel, c': Channel)
    ensures chans[id := c][id := c'] == chans[id := c']
  {
  }

  lemma EarlierHaveOtherIds(es: seq<Entry>, i: nat)
    requires Ascending(es) && i < |es|
    ensures forall x :: x in es[..i] ==> x.id != es[i].id
  {
    forall x | x in es[..i]
      ensures x.id != es[i].id
    {
      var j :| 0 <= j < i && es[j] == x;
    }
  }

  lemma {:induction false} SweptAscends(es: seq<Entry>, now: int)
    requires Ascending(es)
    ensures Ascending(Swept(es, now))
  {
    if es != [] {
      SweptAscends(es[1..], now);
      SweptMembers(es[1..], now);
      FirstBelow(es, Swept(es[1..], now));
    }
  }

  lemma SweptSequenced(c: Channel, now: int)
    requires Sequenced(c)
    ensures Sequenced(SweptChannel(c, now))
  {
    SweptAscends(c.stream, now);
    SweptMembers(c.stream, now);
  }

  ghost function CountOf(): Channel -> int {
    (c: Channel) => |c.stream|
  }

  lemma {:induction false} SweptIsLess(es: seq<Entry>, now: int)
    ensures |Swept(es, now)| <= |es| && Bytes(Swept(es, now)) <= Bytes(es)
  {
    if es != [] {
      SweptIsLess(es[1..], now);
      if !Sweepable(es[0], now) {
        assert Swept(es, now)[1..] == Swept(es[1..], now);
      }
    }
  }

  // --- account counters ---

  function AccountIn(accounts: map<string, int>, owner: string): int {
    if owner in accounts then accounts[owner] else 0
  }

  /** One account goes down by the amount, no other changes; the empty name is no account. */
  ghost predicate TakenFrom(before: map<string, int>, after: map<string, int>, owner: string, amount: int) {
    forall o :: AccountIn(after, o) == AccountIn(before, o) - if o != "" && o == owner then amount else 0
  }

  lemma TakenTwice(a: map<string, int>, b: map<string, int>, c: map<string, int>, owner: string, x: int, y: int)
    requires TakenFrom(a, b, owner, x) && TakenFrom(b, c, owner, y)
    ensures TakenFrom(a, c, owner, x + y)
  {
  }

  /** The bytes a sweep has taken from a channel when it has passed the first i entries. */
  function TakenBy(c: Channel, now: int, i: nat): int
    requires i <= |c.stream|
  {
    Bytes(c.stream) - Bytes(PartlySwept(c, now, i).stream)
  }

  /** How far a sweep of one channel has got. */
  ghost predicate ChannelProgress(c0: map<Id, Channel>, a0: map<string, int>, chans: map<Id, Channel>, accounts: map<string, int>,
                                  id: Id, c: Channel, now: int, i: nat, pruned: nat) {
    && i <= |c.stream| && chans == c0[id := PartlySwept(c, now, i)]
    && pruned == |c.stream| - |PartlySwept(c, now, i).stream|
    && TakenFrom(a0, accounts, c.owner, TakenBy(c, now, i))
  }

  lemma ProgressBegins(chans: map<Id, Channel>, accounts: map<string, int>, id: Id, c: Channel, now: int)
    requires id in chans && chans[id] == c
    ensures ChannelProgress(chans, accounts, chans, accounts, id, c, now, 0, 0)
  {
    PartlyBegins(c, now);
    assert chans[id := c] == chans;
  }

  lemma ProgressEnds(c0: map<Id, Channel>, a0: map<string, int>, chans: map<Id, Channel>, accounts: map<string, int>,
                     id: Id, c: Channel, now: int, pruned: nat)
    requires ChannelProgress(c0, a0, chans, accounts, id, c, now, |c.stream|, pruned)
    ensures chans == c0[id := SweptChannel(c, now)] && pruned == |c.stream| - |chans[id].stream|
    ensures TakenFrom(a0, accounts, c.owner, Bytes(c.stream) - Bytes(chans[id].stream))
  {
    PartlyEnds(c, now);
  }

  /** All channels have been swept but those still to come. */
  ghost predicate SweptBut(before: map<Id, Channel>, after: map<Id, Channel>, ids: set<Id>, now: int) {
    && after.Keys == before.Keys
    && forall id :: id in before ==> after[id] == if id in ids then before[id] else SweptChannel(before[id], now)
  }

  /** Every account counter has moved with what is stored for the account. */
  ghost predicate AccountsFollow(chans: map<Id, Channel>, accounts: map<string, int>, chans': map<Id, Channel>, accounts': map<string, int>) {
    forall o :: o != "" ==>
      AccountIn(accounts', o) - AccountIn(accounts, o) == Total(chans', StoredFor(o)) - Total(chans, StoredFor(o))
  }

  lemma OneMoreSwept(chans: map<Id, Channel>, accounts: map<string, int>, id: Id, now: int, accounts': map<string, int>)
    requires id in chans && |SweptChannel(chans[id], now).stream| <= |chans[id].stream|
    requires Bytes(SweptChannel(chans[id], now).stream) <= Bytes(chans[id].stream)
    requires TakenFrom(accounts, accounts', chans[id].owner, Bytes(chans[id].stream) - Bytes(SweptChannel(chans[id], now).stream))
    ensures AccountsFollow(chans, accounts, chans[id := SweptChannel(chans[id], now)], accounts')
  {
    var c' := SweptChannel(chans[id], now);
    forall o | o != ""
      ensures AccountIn(accounts', o) - AccountIn(accounts, o)
              == Total(chans[id := c'], StoredFor(o)) - Total(chans, StoredFor(o))
    {
      TotalSet(chans, StoredFor(o), id, c');
    }
  }

  lemma FollowOn(c0: map<Id, Channel>, a0: map<string, int>, c1: map<Id, Channel>, a1: map<string, int>,
                 c2: map<Id, Channel>, a2: map<string, int>)
    requires AccountsFollow(c0, a0, c1, a1) && AccountsFollow(c1, a1, c2, a2)
    ensures AccountsFollow(c0, a0, c2, a2)
  {
  }

  ghost predicate SweepProgress(c0: map<Id, Channel>, a0: map<string, int>, chans: map<Id, Channel>, accounts: map<string, int>,
                                ids: set<Id>, now: int, pruned: nat) {
    && SweptBut(c0, chans, ids, now)
    && pruned == Total(c0, CountOf()) - Total(chans, CountOf())
    && AccountsFollow(c0, a0, chans, accounts)
    && forall id :: id in ids && id in c0 ==> Sequenced(c0[id])
  }

  lemma ProgressStep(c0: map<Id, Channel>, a0: map<string, int>, chans: map<Id, Channel>, accounts: map<string, int>,
                     ids: set<Id>, now: int, pruned: nat, id: Id, accounts': map<string, int>)
    requires SweepProgress(c0, a0, chans, accounts, ids, now, pruned) && id in ids && id in chans
    requires |SweptChannel(chans[id], now).stream| <= |chans[id].stream|
    requires Bytes(SweptChannel(chans[id], now).stream) <= Bytes(chans[id].stream)
    requires TakenFrom(accounts, accounts', chans[id].owner, Bytes(chans[id].stream) - Bytes(SweptChannel(chans[id], now).stream))
    ensures SweepProgress(c0, a0, chans[id := SweptChannel(chans[id], now)], accounts', ids - {id}, now,
                          pruned + (|chans[id].stream| - |SweptChannel(chans[id], now).stream|))
  {
    var c := chans[id];
    var c' := SweptChannel(c, now);
    TotalSet(chans, CountOf(), id, c');
    OneMoreSwept(chans, accounts, id, now, accounts');
    FollowOn(c0, a0, chans, accounts, chans[id := c'], accounts');
    OneFewerToSweep(c0, chans, ids, id, now);
  }

  lemma OneFewerToSweep(before: map<Id, Channel>, after: map<Id, Channel>, ids: set<Id>, id: Id, now: int)
    requires SweptBut(before, after, ids, now) && id in ids && id in after
    ensures after[id] == before[id] && SweptBut(before, after[id := SweptChannel(after[id], now)], ids - {id}, now)
  {
  }

  lemma SweptStaysValid(before: map<Id, Channel>, after: map<Id, Channel>, now: int)
    requires SweptBut(before, after, {}, now) && forall id :: id in before ==> Sequenced(before[id])
    ensures forall id :: id in after ==> Sequenced(after[id])
  {
    forall id | id in after
      ensures Sequenced(after[id])
    {
      SweptSequenced(before[id], now);
    }
  }

  /** The machine's two steps of an append, with nobody else at work in between, are the object's. */
  lemma AppendIsTwoSteps(cap: int, s: Store, p: nat, id: Id, blob: Blob, now: int)
    requires id in s.chans && s.chans[id].retained
    ensures var c := s.chans[id];
            var out := AppendScript(c, Account(s, c.owner), c.owner != "", c.limits, cap, blob, now);
            var s' := Apply(cap, Apply(cap, s, ReadConfig(p, id)), RunAppend(p, blob, now));
            && s'.chans == s.chans[id := out.channel]
            && (c.owner != "" ==> Account(s', c.owner) == out.account)
            && (forall o :: o != c.owner ==> Account(s', o) == Account(s, o))
  {
  }

  class RetainedStore {
    var chans: map<Id, Channel>
    var acctBytes: map<string, int>

    constructor ()
      ensures chans == map[] && acctBytes == map[]
    {
      chans, acctBytes := map[], map[];
    }

    function AccountOf(owner: string): int
      reads this
    {
      AccountIn(acctBytes, owner)
    }

    ghost predicate Valid()
      reads this
    {
      forall id :: id in chans ==> Sequenced(chans[id])
    }

    /** The four commands that evict the oldest entry. */
    method EvictOldest(id: Id, owner: string)
      requires id in chans && chans[id].stream != []
      modifies this
      ensures var c := old(chans[id]);
              var next := Next(Ring(c.stream, c.bytes, c.msgs));
              chans == old(chans)[id := c.(stream := next.stream, bytes := next.bytes, msgs := next.msgs)]
      ensures TakenFrom(old(acctBytes), acctBytes, owner, old(chans[id]).stream[0].size)
    {
      var victim := chans[id].stream[0];
      chans := chans[id := chans[id].(stream := chans[id].stream[1..])];
      chans := chans[id := chans[id].(bytes := chans[id].bytes - victim.size)];
      chans := chans[id := chans[id].(msgs := chans[id].msgs - 1)];
      if owner != "" {
        acctBytes := acctBytes[owner := AccountOf(owner) - victim.size];
      }
    }

    /** The commands that add an entry and count it. */
    method AddEntry(id: Id, e: Entry, owner: string)
      requires id in chans
      modifies this
      ensures var c := old(chans[id]);
              chans == old(chans)[id := c.(stream := c.stream + [e], lastId := e.id, bytes := c.bytes + e.size,
                                           msgs := c.msgs + 1, nextSeq := c.nextSeq + 1)]
      ensures TakenFrom(old(acctBytes), acctBytes, owner, 0 - (e.size as int))
    {
      chans := chans[id := chans[id].(stream := chans[id].stream + [e], lastId := e.id)];
      chans := chans[id := chans[id].(bytes := chans[id].bytes + e.size)];
      chans := chans[id := chans[id].(msgs := chans[id].msgs + 1)];
      chans := chans[id := chans[id].(nextSeq := chans[id].nextSeq + 1)];
      if owner != "" {
        acctBytes := acctBytes[owner := AccountOf(owner) + e.size];
      }
    }

    /** The eviction loop of the append script. */
    method EvictOverLimits(id: Id, lim: Limits, owner: string)
      requires id in chans
      modifies this
      ensures var c := old(chans[id]);
              var left := Evict(Ring(c.stream, c.bytes, c.msgs), lim);
              && chans == old(chans)[id := c.(stream := left.stream, bytes := left.bytes, msgs := left.msgs)]
              && TakenFrom(old(acctBytes), acctBytes, owner, c.bytes - left.bytes)
    {
      ghost var c := chans[id];
      while true
        invariant id in chans && chans == old(chans)[id := chans[id]]
        invariant chans[id] == c.(stream := chans[id].stream, bytes := chans[id].bytes, msgs := chans[id].msgs)
        invariant Evict(Ring(chans[id].stream, chans[id].bytes, chans[id].msgs), lim) == Evict(Ring(c.stream, c.bytes, c.msgs), lim)
        invariant TakenFrom(old(acctBytes), acctBytes, owner, c.bytes - chans[id].bytes)
        decreases |chans[id].stream|
      {
        var b, m := chans[id].bytes, chans[id].msgs;
        var over := (lim.maxMsgs > 0 && m > lim.maxMsgs) || (lim.maxBytes > 0 && b > lim.maxBytes);
        if !over {
          break;
        }
        if chans[id].stream == [] {
          break;
        }
        EvictOldest(id, owner);
      }
    }

    /** Append one message; the reply and the whole new state are those of the append script. */
    method Append(id: Id, blob: Blob, cap: int, now: int) returns (r: AppendReply)
      modifies this
      ensures id !in old(chans) ==> r == NoSuchChannel
      ensures id in old(chans) && !old(chans)[id].retained ==> r == NotRetained
      ensures r.Scripted? <==> id in old(chans) && old(chans)[id].retained
      ensures !r.Scripted? ==> chans == old(chans) && acctBytes == old(acctBytes)
      ensures r.Scripted? ==>
                var c := old(chans)[id];
                var out := AppendScript(c, old(AccountOf(c.owner)), c.owner != "", c.limits, cap, blob, now);
                && r.result == out.result
                && chans == old(chans)[id := out.channel]
                && TakenFrom(old(acctBytes), acctBytes, c.owner, old(AccountOf(c.owner)) - out.account)
    {
      if id !in chans {
        return NoSuchChannel;
      }
      var c := chans[id];
      if !c.retained {
        return NotRetained;
      }
      var hasOwner, size := c.owner != "", |blob|;
      if hasOwner && cap > 0 {
        if AccountOf(c.owner) + size > cap {
          return Scripted(QuotaExceeded);
        }
      }
      if c.nextSeq <= c.lastId {
        return Scripted(IdRefused);
      }
      AddEntry(id, Entry(c.nextSeq, blob, Expiry(c.limits.ttl, now), size), c.owner);
      EvictOverLimits(id, c.limits, c.owner);
      return Scripted(Appended(c.nextSeq));
    }

    /** The catch-up read: a range from just past the cursor, then a loop over it. */
    method CatchUpFrom(id: Id, after: nat, limit: nat, now: int) returns (page: seq<Entry>)
      ensures page == if id in chans then CatchUp(chans[id].stream, after, limit, now) else []
    {
      var entries := Take(After(if id in chans then chans[id].stream else [], after), limit);
      page := [];
      var i := 0;
      while i < |entries|
        invariant 0 <= i <= |entries|
        invariant page + Live(entries[i..], now) == Live(entries, now)
      {
        var e := entries[i];
        LiveFrom(entries, i, now);
        Regroup(page, if Expired(e, now) then [] else [e], Live(entries[i + 1..], now));
        i := i + 1;
        if e.exp > 0 && e.exp <= now {
          continue;
        }
        page := page + [e];
      }
    }

    /** The commands that pay for a deleted entry. */
    method PayFor(id: Id, size: nat)
      requires id in chans
      modifies this
      ensures var c := old(chans[id]); chans == old(chans)[id := c.(bytes := c.bytes - size, msgs := c.msgs - 1)]
      ensures TakenFrom(old(acctBytes), acctBytes, old(chans[id]).owner, size)
    {
      chans := chans[id := chans[id].(bytes := chans[id].bytes - size)];
      chans := chans[id := chans[id].(msgs := chans[id].msgs - 1)];
      var owner := chans[id].owner;
      if owner != "" {
        acctBytes := acctBytes[owner := AccountOf(owner) - size];
      }
    }

    /** One entry of a sweep: the deletion and the commands that pay for it. */
    method PruneEntry(id: Id, e: Entry, now: int) returns (pruned: bool)
      requires id in chans
      modifies this
      ensures pruned <==> e.exp != 0 && e.exp <= now && Holds(old(chans[id]).stream, e.id)
      ensures chans == old(chans)[id := Visited(old(chans[id]), e, now)]
      ensures TakenFrom(old(acctBytes), acctBytes, old(chans[id]).owner, if pruned then e.size else 0)
    {
      if e.exp == 0 || e.exp > now {
        return false;
      }
      if !Holds(chans[id].stream, e.id) {
        return false;
      }
      chans := chans[id := chans[id].(stream := Without(chans[id].stream, e.id))];
      PayFor(id, e.size);
      return true;
    }

    /** One visit of a sweep of the channel c, of which i entries have been passed. */
    method PruneAt(id: Id, e: Entry, now: int, sofar: nat, ghost c0: map<Id, Channel>, ghost a0: map<string, int>,
                   ghost c: Channel, ghost i: nat)
      returns (pruned: nat)
      requires Ascending(c.stream) && i < |c.stream| && e == c.stream[i]
      requires ChannelProgress(c0, a0, chans, acctBytes, id, c, now, i, sofar)
      modifies this
      ensures ChannelProgress(c0, a0, chans, acctBytes, id, c, now, i + 1, pruned)
    {
      PartlyNext(c, now, i);
      ghost var before := acctBytes;
      var done := PruneEntry(id, e, now);
      SetTwice(c0, id, PartlySwept(c, now, i), PartlySwept(c, now, i + 1));
      pruned := if done then sofar + 1 else sofar;
      TakenTwice(a0, before, acctBytes, c.owner, TakenBy(c, now, i), if done then e.size else 0);
    }

    /** Sweep one channel with nobody else at work. */
    method PruneChannel(id: Id, now: int) returns (pruned: nat)
      requires id in chans && Sequenced(chans[id])
      modifies this
      ensures var c := old(chans[id]);
              && chans == old(chans)[id := SweptChannel(c, now)]
              && pruned == |c.stream| - |chans[id].stream|
              && TakenFrom(old(acctBytes), acctBytes, c.owner, Bytes(c.stream) - Bytes(chans[id].stream))
    {
      ghost var c := chans[id];
      var entries := chans[id].stream;
      pruned := 0;
      var i := 0;
      ProgressBegins(chans, acctBytes, id, c, now);
      while i < |entries|
        invariant 0 <= i <= |entries|
        invariant ChannelProgress(old(chans), old(acctBytes), chans, acctBytes, id, c, now, i, pruned)
      {
        pruned := PruneAt(id, entries[i], now, pruned, old(chans), old(acctBytes), c, i);
        i := i + 1;
      }
      ProgressEnds(old(chans), old(acctBytes), chans, acctBytes, id, c, now, pruned);
    }

    /** One channel of a sweep over all of them. */
    method PruneNext(ghost c0: map<Id, Channel>, ghost a0: map<string, int>, ghost ids: set<Id>, id: Id, now: int, sofar: nat)
      returns (pruned: nat)
      requires SweepProgress(c0, a0, chans, acctBytes, ids, now, sofar) && id in ids && id in chans
      modifies this
      ensures SweepProgress(c0, a0, chans, acctBytes, ids - {id}, now, pruned) && chans.Keys == old(chans.Keys)
    {
      ghost var before, accounts := chans, acctBytes;
      var n := PruneChannel(id, now);
      SweptIsLess(before[id].stream, now);
      ProgressStep(c0, a0, before, accounts, ids, now, sofar, id, acctBytes);
      pruned := sofar + n;
    }

    /** A whole sweep with nobody else at work: every channel is left its unswept entries, every
        counter goes down by exactly what was deleted, and the number deleted is returned. */
    method PruneExpired(now: int) returns (pruned: nat)
      requires Valid()
      modifies this
      ensures Valid() && SweptBut(old(chans), chans, {}, now)
      ensures pruned == Total(old(chans), CountOf()) - Total(chans, CountOf())
      ensures AccountsFollow(old(chans), old(acctBytes), chans, acctBytes)
    {
      var ids := chans.Keys;
      pruned := 0;
      while ids != {}
        invariant ids <= chans.Keys
        invariant SweepProgress(old(chans), old(acctBytes), chans, acctBytes, ids, now, pruned)
        decreases |ids|
      {
        var id :| id in ids;
        pruned := PruneNext(old(chans), old(acctBytes), ids, id, now, pruned);
        ids := ids - {id};
      }
      SweptStaysValid(old(chans), chans, now);
    }
  }
}
