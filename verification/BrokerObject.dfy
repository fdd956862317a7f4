/** The fan-out core as objects: subscriptions with their buffered queues and the broker that holds
    them, each method proved to take the step of the state machine. */
module BrokerObject {
  import opened BrokerMachine

  class Subscription {
    const id: nat
    const channel: string
    var out: seq<Envelope>
    var once: bool
    var fired: nat
    /** What the reader has taken from the queue so far. */
    ghost var taken: seq<Envelope>

    constructor (id: nat, channel: string)
      ensures this.id == id && this.channel == channel && View() == Sub(channel, [], [], false, 0)
    {
      this.id, this.channel := id, channel;
      out, once, fired, taken := [], false, 0, [];
    }

    ghost function View(): Sub
      reads this
    {
      Sub(channel, out, taken, once, fired)
    }

    /** A send that does not wait: refused when the buffer is full. */
    method Offer(e: Envelope) returns (queued: bool)
      modifies this
      ensures queued <==> old(|out|) < 256
      ensures out == if queued then old(out) + [e] else old(out)
      ensures View() == if queued then Offered(old(View()), e) else old(View())
    {
      if |out| < QUEUE_DEPTH {
        out := out + [e];
        return true;
      }
      return false;
    }

    /** Fires Closed, through a once-guard. */
    method Close()
      modifies this
      ensures once && fired == old(fired) + (if old(once) then 0 else 1)
      ensures out == old(out) && taken == old(taken) && View() == Closed(old(View()))
    {
      if !once {
        once := true;
        fired := fired + 1;
      }
    }

    /** The reader takes the next envelope. */
    method Take() returns (e: Envelope)
      requires out != []
      modifies this
      ensures old(out) == [e] + out && taken == old(taken) + [e]
      ensures once == old(once) && fired == old(fired) && View() == Taken(old(View()))
    {
      e := out[0];
      out := out[1..];
      taken := taken + [e];
    }
  }

  ghost function Views(subs: map<nat, Subscription>): map<nat, Sub>
    reads subs.Values
  {
    map id | id in subs :: subs[id].View()
  }

  ghost function KeysOf(subs: map<string, map<nat, Subscription>>): map<string, set<nat>> {
    map c | c in subs :: subs[c].Keys
  }

  /** Each subscription is listed under its own id. */
  ghost predicate Named(subs: map<nat, Subscription>) {
    forall id :: id in subs ==> subs[id].id == id
  }

  ghost function Fitting(subs: map<nat, Sub>): set<nat> {
    set id | id in subs && |subs[id].queue| < QUEUE_DEPTH
  }

  /** The subscriptions after those with the given ids have been offered an envelope. */
  ghost function OfferedTo(subs: map<nat, Sub>, ids: set<nat>, e: Envelope): map<nat, Sub> {
    map id | id in subs :: if id in ids && |subs[id].queue| < QUEUE_DEPTH then Offered(subs[id], e) else subs[id]
  }

  /** The ids of some subscriptions. */
  ghost function Ids(subs: seq<Subscription>): set<nat> {
    set s | s in subs :: s.id
  }

  /** All of them are listed among the given ones. */
  ghost predicate From(listed: map<nat, Subscription>, subs: seq<Subscription>) {
    forall s :: s in subs ==> s.id in listed && listed[s.id] == s
  }

  /** All closings owed are carried out. */
  ghost function Settled(s: State): State {
    s.(subs := map id | id in s.subs :: if id in s.closing then Closed(s.subs[id]) else s.subs[id], closing := multiset{})
  }

  lemma DroppedAgain(reg: map<string, set<nat>>, channel: string, a: set<nat>, b: set<nat>)
    requires forall c :: c in reg ==> reg[c] != {}
    ensures Dropped(Dropped(reg, channel, a), channel, b) == Dropped(reg, channel, a + b)
    ensures Dropped(reg, channel, {}) == reg
  {
    var once := Dropped(reg, channel, a);
    assert Live(once, channel) == Live(reg, channel) - a;
    assert Live(once, channel) - b == Live(reg, channel) - (a + b);
    assert Live(reg, channel) - {} == Live(reg, channel);
  }

  /** Every listed subscription is known, under its own channel, and no channel is listed empty. */
  ghost predicate Listed(subs: map<string, map<nat, Subscription>>, all: map<nat, Subscription>) {
    && Named(all)
    && (forall c :: c in subs ==> subs[c] != map[])
    && (forall c, id :: c in subs && id in subs[c] ==> id in all && subs[c][id] == all[id] && all[id].channel == c)
  }

  lemma ListedAreKnown(subs: map<string, map<nat, Subscription>>, all: map<nat, Subscription>, channel: string)
    requires Listed(subs, all)
    ensures Live(KeysOf(subs), channel) <= all.Keys
    ensures channel in subs ==> subs[channel].Values <= all.Values && Named(subs[channel])
  {
    if channel in subs {
      forall s | s in subs[channel].Values
        ensures s in all.Values
      {
        var id :| id in subs[channel] && subs[channel][id] == s;
        assert all[id] == s;
      }
    }
  }

  ghost function Unlisted(subs: map<string, map<nat, Subscription>>, channel: string, id: nat): map<string, map<nat, Subscription>> {
    if channel !in subs || id !in subs[channel] then subs
    else if subs[channel] - {id} == map[] then subs - {channel}
    else subs[channel := subs[channel] - {id}]
  }

  lemma UnlistedDrops(subs: map<string, map<nat, Subscription>>, all: map<nat, Subscription>, channel: string, id: nat)
    requires Listed(subs, all)
    ensures Listed(Unlisted(subs, channel, id), all)
    ensures KeysOf(Unlisted(subs, channel, id)) == Dropped(KeysOf(subs), channel, {id})
  {
    var reg, subs' := KeysOf(subs), Unlisted(subs, channel, id);
    if channel in subs {
      var m := subs[channel];
      assert (m - {id}).Keys == m.Keys - {id};
      assert m - {id} == map[] <==> m.Keys - {id} == {};
      assert Live(reg, channel) == m.Keys;
      assert id !in m ==> m.Keys - {id} == m.Keys && reg[channel := m.Keys] == reg;
    } else {
      assert reg - {channel} == reg;
    }
  }

  function WithMember(subs: map<string, map<nat, Subscription>>, channel: string, sub: Subscription): map<string, map<nat, Subscription>> {
    var members: map<nat, Subscription> := if channel in subs then subs[channel] else map[];
    subs[channel := members[sub.id := sub]]
  }

  lemma ListedJoins(subs: map<string, map<nat, Subscription>>, all: map<nat, Subscription>, channel: string, sub: Subscription)
    requires Listed(subs, all) && sub.channel == channel && sub.id !in all
    ensures Listed(WithMember(subs, channel, sub), all[sub.id := sub])
    ensures KeysOf(WithMember(subs, channel, sub)) == KeysOf(subs)[channel := Live(KeysOf(subs), channel) + {sub.id}]
  {
    var members: map<nat, Subscription> := if channel in subs then subs[channel] else map[];
    assert members[sub.id := sub].Keys == Live(KeysOf(subs), channel) + {sub.id};
    assert sub.id in members[sub.id := sub];
  }

  lemma JoinedView(s: State, channel: string, id: nat, reg: map<string, set<nat>>, subs: map<nat, Sub>, sub: Sub)
    requires s.closing == multiset{} && id == s.nextId + 1 && sub == Sub(channel, [], [], false, 0)
    requires reg == s.reg[channel := Live(s.reg, channel) + {id}] && subs == s.subs[id := sub]
    ensures State(id, reg, subs, multiset{}) == Joined(s, channel)
  {
  }

  lemma ViewsMore(known: map<nat, Subscription>, sub: Subscription)
    ensures Views(known[sub.id := sub]) == Views(known)[sub.id := sub.View()]
  {
  }

  /** How far a publish has got: of the target everyone but the given ids has been offered the envelope. */
  ghost predicate FannedBut(before: map<nat, Sub>, target: set<nat>, ids: set<nat>, e: Envelope,
                            now: map<nat, Sub>, dropped: set<nat>, delivered: nat) {
    && now == OfferedTo(before, target - ids, e)
    && dropped == target - ids - Fitting(before)
    && delivered == |(target - ids) * Fitting(before)|
  }

  lemma FannedNone(before: map<nat, Sub>, target: set<nat>, e: Envelope)
    ensures FannedBut(before, target, target, e, before, {}, 0)
  {
    assert target - target == {} && (target - target) * Fitting(before) == {};
  }

  lemma FannedNext(before: map<nat, Sub>, target: set<nat>, ids: set<nat>, e: Envelope, now: map<nat, Sub>,
                   dropped: set<nat>, delivered: nat, id: nat)
    requires FannedBut(before, target, ids, e, now, dropped, delivered) && id in ids && ids <= target <= before.Keys
    ensures var fits := id in Fitting(now);
            FannedBut(before, target, ids - {id}, e, OfferedTo(now, {id}, e), if fits then dropped else dropped + {id},
                      if fits then delivered + 1 else delivered)
  {
    var done := target - ids;
    OneMoreOffered(before, done, id, e);
    assert target - (ids - {id}) == done + {id};
    if id in Fitting(before) {
      assert (done + {id}) * Fitting(before) == done * Fitting(before) + {id};
    } else {
      assert (done + {id}) * Fitting(before) == done * Fitting(before);
    }
  }

  class Broker {
    var nextId: nat
    var subs: map<string, map<nat, Subscription>>
    /** Every subscription this broker ever made. */
    ghost var all: map<nat, Subscription>

    constructor ()
      ensures Valid() && View() == INITIAL && all == map[]
    {
      nextId, subs, all := 0, map[], map[];
    }

    ghost function View(): State
      reads this, all.Values
    {
      State(nextId, KeysOf(subs), Views(all), multiset{})
    }

    ghost predicate Valid()
      reads this
    {
      Listed(subs, all) && forall id :: id in all ==> id <= nextId
    }

    method Subscribe(channel: string) returns (sub: Subscription)
      requires Valid()
      modifies this
      ensures Valid() && fresh(sub) && all == old(all)[sub.id := sub]
      ensures View() == Joined(old(View()), channel)
    {
      ghost var before := View();
      var id := nextId + 1;
      sub := new Subscription(id, channel);
      ghost var views, known := before.subs[id := sub.View()], all;
      assert Views(known) == before.subs;
      ViewsMore(known, sub);
      Register(sub);
      nextId := id;
      assert Views(all) == views;
      JoinedView(before, channel, id, KeysOf(subs), views, sub.View());
    }

    /** Put a new subscription on the register. */
    method Register(sub: Subscription)
      requires Listed(subs, all) && sub.id !in all
      modifies this
      ensures nextId == old(nextId) && all == old(all)[sub.id := sub] && Listed(subs, all)
      ensures KeysOf(subs) == old(KeysOf(subs))[sub.channel := Live(old(KeysOf(subs)), sub.channel) + {sub.id}]
    {
      ListedJoins(subs, all, sub.channel, sub);
      subs := WithMember(subs, sub.channel, sub);
      all := all[sub.id := sub];
    }

    /** Take a subscription off the register, and its channel with it when it was the last. */
    method Remove(sub: Subscription)
      modifies this
      ensures all == old(all) && nextId == old(nextId)
      ensures subs == Unlisted(old(subs), sub.channel, sub.id)
    {
      if sub.channel in subs {
        if sub.id in subs[sub.channel] {
          subs := subs[sub.channel := subs[sub.channel] - {sub.id}];
          if subs[sub.channel] == map[] {
            subs := subs - {sub.channel};
          }
        }
      }
    }

    method Unsubscribe(sub: Subscription)
      requires Valid() && sub.id in all && all[sub.id] == sub
      modifies this, sub
      ensures Valid() && all == old(all)
      ensures View() == Settled(Left(old(View()), sub.id))
    {
      ghost var before := View();
      UnlistedDrops(subs, all, sub.channel, sub.id);
      Remove(sub);
      sub.Close();
      assert Views(all) == Settled(Left(before, sub.id)).subs;
    }

    /** One send of a publish. */
    method OfferTo(sub: Subscription, e: Envelope, ghost known: map<nat, Subscription>) returns (queued: bool)
      requires Named(known) && sub.id in known && known[sub.id] == sub
      modifies sub
      ensures queued <==> sub.id in Fitting(old(Views(known)))
      ensures Views(known) == OfferedTo(old(Views(known)), {sub.id}, e)
    {
      queued := sub.Offer(e);
    }

    /** The next send of a publish, and the bookkeeping for it. */
    method OfferNext(sub: Subscription, e: Envelope, delivered: nat, toDrop: seq<Subscription>,
                     ghost known: map<nat, Subscription>, ghost before: map<nat, Sub>, ghost target: set<nat>, ghost ids: set<nat>)
      returns (delivered': nat, toDrop': seq<Subscription>)
      requires Named(known) && sub.id in known && known[sub.id] == sub
      requires sub.id in ids && ids <= target <= before.Keys
      requires FannedBut(before, target, ids, e, Views(known), Ids(toDrop), delivered)
      modifies sub
      ensures FannedBut(before, target, ids - {sub.id}, e, Views(known), Ids(toDrop'), delivered')
      ensures toDrop' == toDrop || toDrop' == toDrop + [sub]
    {
      FannedNext(before, target, ids, e, Views(known), Ids(toDrop), delivered, sub.id);
      IdsMore(toDrop, sub);
      var queued := OfferTo(sub, e, known);
      if queued {
        delivered', toDrop' := delivered + 1, toDrop;
      } else {
        delivered', toDrop' := delivered, toDrop + [sub];
      }
    }

    /** Offer the envelope to each subscriber of the snapshot, in any order. */
    method FanOut(subscribers: map<nat, Subscription>, e: Envelope, ghost known: map<nat, Subscription>)
      returns (delivered: nat, toDrop: seq<Subscription>)
      requires Named(known) && forall id :: id in subscribers ==> id in known && known[id] == subscribers[id]
      modifies subscribers.Values
      ensures FannedBut(old(Views(known)), subscribers.Keys, {}, e, Views(known), Ids(toDrop), delivered)
      ensures From(subscribers, toDrop)
    {
      ghost var before := Views(known);
      delivered, toDrop := 0, [];
      var ids := subscribers.Keys;
      FannedNone(before, ids, e);
      assert Ids(toDrop) == {};
      while ids != {}
        invariant ids <= subscribers.Keys
        invariant FannedBut(before, subscribers.Keys, ids, e, Views(known), Ids(toDrop), delivered)
        invariant From(subscribers, toDrop)
        decreases |ids|
      {
        var id :| id in ids;
        delivered, toDrop := OfferNext(subscribers[id], e, delivered, toDrop, known, before, subscribers.Keys, ids);
        ids := ids - {id};
      }
    }

    /** Remove every subscription to be dropped. */
    method RemoveAll(toDrop: seq<Subscription>, channel: string)
      requires Listed(subs, all) && forall s :: s in toDrop ==> s.channel == channel
      modifies this
      ensures all == old(all) && nextId == old(nextId) && Listed(subs, all)
      ensures KeysOf(subs) == Dropped(old(KeysOf(subs)), channel, Ids(toDrop))
    {
      ghost var reg := KeysOf(subs);
      DroppedAgain(reg, channel, {}, {});
      assert Ids(toDrop[..0]) == {};
      var i := 0;
      while i < |toDrop|
        invariant 0 <= i <= |toDrop| && all == old(all) && nextId == old(nextId) && Listed(subs, all)
        invariant KeysOf(subs) == Dropped(reg, channel, Ids(toDrop[..i]))
      {
        assert toDrop[..i + 1] == toDrop[..i] + [toDrop[i]];
        IdsMore(toDrop[..i], toDrop[i]);
        DroppedAgain(reg, channel, Ids(toDrop[..i]), {toDrop[i].id});
        UnlistedDrops(subs, all, channel, toDrop[i].id);
        Remove(toDrop[i]);
        i := i + 1;
      }
      assert toDrop[..|toDrop|] == toDrop;
    }
  
    method CloseOne(sub: Subscription, ghost known: map<nat, Subscription>)
      requires Named(known) && sub.id in known && known[sub.id] == sub
      modifies sub
      ensures Views(known) == ClosedAmong(old(Views(known)), {sub.id})
    {
      sub.Close();
    }

    /** Fire Closed for each of them. */
    method CloseAll(toDrop: seq<Subscription>, ghost known: map<nat, Subscription>)
      requires Named(known) && From(known, toDrop)
      modifies set s | s in toDrop
      ensures Views(known) == ClosedAmong(old(Views(known)), Ids(toDrop))
    {
      ghost var before := Views(known);
      var i := 0;
      ClosedMore(before, {}, 0);
      assert Ids(toDrop[..0]) == {};
      while i < |toDrop|
        invariant 0 <= i <= |toDrop|
        invariant Views(known) == ClosedAmong(before, Ids(toDrop[..i]))
      {
        assert toDrop[..i + 1] == toDrop[..i] + [toDrop[i]];
        IdsMore(toDrop[..i], toDrop[i]);
        ClosedMore(before, Ids(toDrop[..i]), toDrop[i].id);
        CloseOne(toDrop[i], known);
        i := i + 1;
      }
      assert toDrop[..|toDrop|] == toDrop;
    }

    /** The enqueueing pass of a publish. */
    method OfferAll(e: Envelope) returns (delivered: nat, toDrop: seq<Subscription>)
      requires Valid()
      modifies all.Values
      ensures From(all, toDrop) && forall s :: s in toDrop ==> s.channel == e.channel
      ensures FannedBut(old(Views(all)), Live(KeysOf(subs), e.channel), {}, e, Views(all), Ids(toDrop), delivered)
    {
      var subscribers: map<nat, Subscription> := if e.channel in subs then subs[e.channel] else map[];
      assert subscribers.Keys == Live(KeysOf(subs), e.channel);
      ListedAreKnown(subs, all, e.channel);
      delivered, toDrop := FanOut(subscribers, e, all);
    }

    /** The part of a publish that runs under the lock. */
    method FanLocked(e: Envelope) returns (delivered: nat, toDrop: seq<Subscription>)
      requires Valid()
      modifies this, all.Values
      ensures Valid() && all == old(all) && nextId == old(nextId) && From(all, toDrop)
      ensures FannedBut(old(Views(all)), Live(old(KeysOf(subs)), e.channel), {}, e, Views(all), Ids(toDrop), delivered)
      ensures KeysOf(subs) == Dropped(old(KeysOf(subs)), e.channel, Ids(toDrop))
    {
      delivered, toDrop := OfferAll(e);
      RemoveAll(toDrop, e.channel);
    }

    /** Fan an envelope out: the step of the machine, with the closings it owes carried out. */
    method Publish(e: Envelope) returns (delivered: nat)
      requires Valid()
      modifies this, all.Values
      ensures Valid() && all == old(all)
      ensures View() == Settled(Fanned(old(View()), e)) && delivered == Delivered(old(View()), e)
    {
      ghost var before := View();
      var toDrop;
      ListedAreKnown(subs, all, e.channel);
      delivered, toDrop := FanLocked(e);
      AllOffered(before, e, Views(all), Ids(toDrop), delivered);
      ghost var offered := Views(all);
      CloseAll(toDrop, all);
      ClosedIsSettled(before, e, offered);
    }
  }

  lemma ClosedMore(subs: map<nat, Sub>, ids: set<nat>, id: nat)
    ensures ClosedAmong(ClosedAmong(subs, ids), {id}) == ClosedAmong(subs, ids + {id})
    ensures ClosedAmong(subs, {}) == subs
  {
  }

  /** What the enqueueing pass comes to. */
  lemma AllOffered(s: State, e: Envelope, now: map<nat, Sub>, dropped: set<nat>, delivered: nat)
    requires FannedBut(s.subs, Live(s.reg, e.channel), {}, e, now, dropped, delivered)
    requires Live(s.reg, e.channel) <= s.subs.Keys
    ensures dropped == Overflowing(s, e.channel) && delivered == Delivered(s, e)
    ensures now == OfferedTo(s.subs, Live(s.reg, e.channel), e)
  {
    var live := Live(s.reg, e.channel);
    assert live - {} == live;
    assert live - Overflowing(s, e.channel) == live * Fitting(s.subs);
  }

  lemma ClosedIsSettled(s: State, e: Envelope, offered: map<nat, Sub>)
    requires s.closing == multiset{} && offered == OfferedTo(s.subs, Live(s.reg, e.channel), e)
    ensures Settled(Fanned(s, e)).subs == ClosedAmong(offered, Overflowing(s, e.channel))
    ensures Settled(Fanned(s, e)) == State(s.nextId, Fanned(s, e).reg, Settled(Fanned(s, e)).subs, multiset{})
  {
    var s', closed := Fanned(s, e), ClosedAmong(offered, Overflowing(s, e.channel));
    forall id | id in s.subs
      ensures s'.subs[id] == offered[id] && (id in s'.closing <==> id in Overflowing(s, e.channel))
    {
    }
  }

  ghost function ClosedAmong(subs: map<nat, Sub>, ids: set<nat>): map<nat, Sub> {
    map id | id in subs :: if id in ids then Closed(subs[id]) else subs[id]
  }

  lemma OneMoreOffered(before: map<nat, Sub>, done: set<nat>, id: nat, e: Envelope)
    requires id in before && id !in done
    ensures var half := OfferedTo(before, done, e);
            && OfferedTo(half, {id}, e) == OfferedTo(before, done + {id}, e)
            && (id in Fitting(half) <==> id in Fitting(before))
  {
  }

  lemma IdsMore(subs: seq<Subscription>, sub: Subscription)
    ensures Ids(subs + [sub]) == Ids(subs) + {sub.id}
  {
  }

  /** The closings one at a time, in some order. */
  function CloseEach(s: State, order: seq<nat>): State
    decreases |order|
  {
    if order == [] then s else CloseEach(Step(s, Close(order[0])), order[1..])
  }

  /** Carrying out the closings owed, in whatever order, settles the state. */
  lemma {:induction false} AnyOrderSettles(s: State, order: seq<nat>)
    requires s.closing == multiset(order) && forall id :: id in s.closing ==> id in s.subs
    ensures CloseEach(s, order) == Settled(s)
    decreases |order|
  {
    if order == [] {
      assert s.closing == multiset{};
      assert Settled(s).subs == s.subs;
    } else {
      var id, rest := order[0], order[1..];
      assert order == [id] + rest;
      var s1 := Step(s, Close(id));
      assert id in s.closing;
      assert s1.closing == multiset(rest);
      AnyOrderSettles(s1, rest);
      SettlesOneByOne(s, id);
    }
  }

  lemma SettlesOneByOne(s: State, id: nat)
    requires id in s.closing && id in s.subs
    ensures Settled(Step(s, Close(id))) == Settled(s)
  {
    var s1 := Step(s, Close(id));
    forall i | i in s.subs
      ensures Settled(s1).subs[i] == Settled(s).subs[i]
    {
    }
  }

  /** Once all closings are carried out, Closed has fired exactly for the subscriptions off the register. */
  lemma SettledHasFired(s: State, id: nat)
    requires Inv(s) && id in s.subs
    ensures Settled(s).subs[id].fired == if IsLive(s, id) then 0 else 1
  {
    assert SubRight(s, id);
  }
}
