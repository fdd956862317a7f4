/** The fan-out core as a state machine. Each locked region is one step, and so is each closing of
    a subscription, because that happens outside the lock. */
module BrokerMachine {

  datatype Envelope = Envelope(channel: string, body: string)

  const QUEUE_DEPTH: nat := 256

  /** A subscription: what is buffered for it, what its reader has taken, whether its once-guard
      has been used, and how often Closed has fired. */
  datatype Sub = Sub(channel: string, queue: seq<Envelope>, consumed: seq<Envelope>, once: bool, fired: nat)

  /** The last id given out, the registered ids by channel, every subscription ever made, and the
      closings still to be carried out. */
  datatype State = State(nextId: nat, reg: map<string, set<nat>>, subs: map<nat, Sub>, closing: multiset<nat>)

  datatype Action =
    | Subscribe(channel: string)
    | Unsubscribe(id: nat)
    | Publish(e: Envelope)
    | Close(id: nat)
    | Consume(id: nat)

  const INITIAL := State(0, map[], map[], multiset{})

  function Live(reg: map<string, set<nat>>, channel: string): set<nat> {
    if channel in reg then reg[channel] else {}
  }

  predicate IsLive(s: State, id: nat) {
    id in s.subs && id in Live(s.reg, s.subs[id].channel)
  }

  /** Take ids off a channel, and the channel off the map when nobody is left. */
  function Dropped(reg: map<string, set<nat>>, channel: string, ids: set<nat>): map<string, set<nat>> {
    var left := Live(reg, channel) - ids;
    if left == {} then reg - {channel} else reg[channel := left]
  }

  predicate Full(s: State, id: nat) {
    id in s.subs && |s.subs[id].queue| >= QUEUE_DEPTH
  }

  function Overflowing(s: State, channel: string): set<nat> {
    set id | id in Live(s.reg, channel) && Full(s, id)
  }

  function Offered(sub: Sub, e: Envelope): Sub {
    sub.(queue := sub.queue + [e])
  }

  /** The locked part of a publish. */
  function Fanned(s: State, e: Envelope): State {
    var full := Overflowing(s, e.channel);
    var lucky := Live(s.reg, e.channel) - full;
    s.(subs := map id | id in s.subs :: if id in lucky then Offered(s.subs[id], e) else s.subs[id],
       reg := Dropped(s.reg, e.channel, full),
       closing := s.closing + multiset(full))
  }

  /** How many subscribers a publish reports. */
  function Delivered(s: State, e: Envelope): nat {
    |Live(s.reg, e.channel) - Overflowing(s, e.channel)|
  }

  function Joined(s: State, channel: string): State {
    var id := s.nextId + 1;
    s.(nextId := id,
       reg := s.reg[channel := Live(s.reg, channel) + {id}],
       subs := s.subs[id := Sub(channel, [], [], false, 0)])
  }

  function Left(s: State, id: nat): State
    requires id in s.subs
  {
    s.(reg := Dropped(s.reg, s.subs[id].channel, {id}), closing := s.closing + multiset{id})
  }

  function Closed(sub: Sub): Sub {
    if sub.once then sub else sub.(once := true, fired := sub.fired + 1)
  }

  function Taken(sub: Sub): Sub
    requires sub.queue != []
  {
    sub.(queue := sub.queue[1..], consumed := sub.consumed + [sub.queue[0]])
  }

  function Step(s: State, a: Action): State {
    match a
    case Subscribe(channel) => Joined(s, channel)
    case Unsubscribe(id) => if id in s.subs then Left(s, id) else s
    case Publish(e) => Fanned(s, e)
    case Close(id) =>
      if id in s.closing && id in s.subs
      then s.(subs := s.subs[id := Closed(s.subs[id])], closing := s.closing - multiset{id})
      else s
    case Consume(id) =>
      if id in s.subs && s.subs[id].queue != [] then s.(subs := s.subs[id := Taken(s.subs[id])]) else s
  }

  function Run(acts: seq<Action>): State {
    if acts == [] then INITIAL else Step(Run(acts[..|acts| - 1]), acts[|acts| - 1])
  }

  // --- the invariant ---

  ghost predicate Registered(s: State) {
    && (forall c :: c in s.reg ==> s.reg[c] != {})
    && (forall c, id :: c in s.reg && id in s.reg[c] ==> id in s.subs && s.subs[id].channel == c)
    && (forall id :: id in s.subs ==> id <= s.nextId)
  }

  ghost predicate SubRight(s: State, id: nat)
    requires id in s.subs
  {
    && |s.subs[id].queue| <= QUEUE_DEPTH
    && s.subs[id].fired == (if s.subs[id].once then 1 else 0)
    && (s.subs[id].once || id in s.closing ==> !IsLive(s, id))
    && (!IsLive(s, id) ==> id in s.closing || s.subs[id].once)
  }

  ghost predicate Inv(s: State) {
    && Registered(s)
    && (forall id :: id in s.closing ==> id in s.subs)
    && (forall id :: id in s.subs ==> SubRight(s, id))
  }

  lemma DroppedFacts(reg: map<string, set<nat>>, channel: string, ids: set<nat>)
    requires forall c :: c in reg ==> reg[c] != {}
    ensures var reg' := Dropped(reg, channel, ids);
            && (forall c :: c in reg' ==> reg'[c] != {})
            && (forall c :: Live(reg', c) == if c == channel then Live(reg, c) - ids else Live(reg, c))
  {
    var reg' := Dropped(reg, channel, ids);
    forall c
      ensures Live(reg', c) == if c == channel then Live(reg, c) - ids else Live(reg, c)
    {
    }
  }

  lemma StepKeepsInv(s: State, a: Action)
    requires Inv(s)
    ensures Inv(Step(s, a))
  {
    match a
    case Subscribe(channel) => JoinKeepsInv(s, channel);
    case Unsubscribe(id) =>
      if id in s.subs {
        LeaveKeepsInv(s, id);
      }
    case Publish(e) => FanKeepsInv(s, e);
    case Close(id) => OneSubKeepsInv(s, a, id);
    case Consume(id) => OneSubKeepsInv(s, a, id);
  }

  lemma JoinKeepsInv(s: State, channel: string)
    requires Inv(s)
    ensures Inv(Joined(s, channel))
  {
    var s' := Joined(s, channel);
    forall id | id in s'.subs
      ensures SubRight(s', id)
    {
      assert id in s.subs ==> SubRight(s, id);
    }
  }

  lemma LeaveKeepsInv(s: State, id: nat)
    requires Inv(s) && id in s.subs
    ensures Inv(Left(s, id))
  {
    var s' := Left(s, id);
    DroppedFacts(s.reg, s.subs[id].channel, {id});
    DropKeepsRegistered(s, s.subs[id].channel, {id});
    forall j | j in s'.subs
      ensures SubRight(s', j)
    {
      assert SubRight(s, j);
    }
  }

  lemma DropKeepsRegistered(s: State, channel: string, ids: set<nat>)
    requires Registered(s)
    ensures Registered(s.(reg := Dropped(s.reg, channel, ids)))
  {
    DroppedFacts(s.reg, channel, ids);
    var reg' := Dropped(s.reg, channel, ids);
    assert forall c :: c in reg' ==> c in s.reg && reg'[c] <= s.reg[c];
  }

  lemma FanKeepsInv(s: State, e: Envelope)
    requires Inv(s)
    ensures Inv(Fanned(s, e))
  {
    FanKeepsRegistered(s, e);
    forall j | j in Fanned(s, e).subs
      ensures SubRight(Fanned(s, e), j)
    {
      FanKeepsSub(s, e, j);
    }
  }

  lemma FanKeepsRegistered(s: State, e: Envelope)
    requires Inv(s)
    ensures Registered(Fanned(s, e)) && Fanned(s, e).subs.Keys == s.subs.Keys
    ensures forall id :: id in Fanned(s, e).closing ==> id in s.subs
  {
    var full := Overflowing(s, e.channel);
    DropKeepsRegistered(s, e.channel, full);
    FanKeepsChannels(s, e);
    SameChannels(s.(reg := Dropped(s.reg, e.channel, full)), Fanned(s, e));
    assert forall id :: id in full ==> id in s.subs;
  }

  lemma FanKeepsChannels(s: State, e: Envelope)
    ensures Fanned(s, e).subs.Keys == s.subs.Keys
    ensures forall id :: id in s.subs ==> Fanned(s, e).subs[id].channel == s.subs[id].channel
  {
  }

  lemma SameChannels(s: State, s': State)
    requires Registered(s) && s'.reg == s.reg && s'.nextId == s.nextId && s'.subs.Keys == s.subs.Keys
    requires forall id :: id in s.subs ==> s'.subs[id].channel == s.subs[id].channel
    ensures Registered(s')
  {
  }

  lemma FanKeepsSub(s: State, e: Envelope, j: nat)
    requires Inv(s) && j in s.subs
    ensures SubRight(Fanned(s, e), j)
  {
    assert SubRight(s, j);
    DroppedFacts(s.reg, e.channel, Overflowing(s, e.channel));
  }

  lemma OneSubKeepsInv(s: State, a: Action, id: nat)
    requires Inv(s) && (a == Close(id) || a == Consume(id))
    ensures Inv(Step(s, a))
  {
    var s' := Step(s, a);
    forall j | j in s'.subs
      ensures SubRight(s', j)
    {
      assert SubRight(s, j);
    }
  }

  lemma {:induction false} InvInEveryRun(acts: seq<Action>)
    ensures Inv(Run(acts))
  {
    if acts != [] {
      InvInEveryRun(acts[..|acts| - 1]);
      StepKeepsInv(Run(acts[..|acts| - 1]), acts[|acts| - 1]);
    }
  }

  // --- what is delivered ---

  /** Everything a subscription has been handed, taken by its reader or not yet. */
  function Received(s: State, id: nat): seq<Envelope> {
    if id in s.subs then s.subs[id].consumed + s.subs[id].queue else []
  }

  /** What the step publishes on the channel. */
  function Published(a: Action, channel: string): seq<Envelope> {
    if a.Publish? && a.e.channel == channel then [a.e] else []
  }

  /** What has been published on a channel. */
  function Log(acts: seq<Action>, channel: string): seq<Envelope> {
    if acts == [] then []
    else
      Log(acts[..|acts| - 1], channel) + Published(acts[|acts| - 1], channel)
  }

  /** What one step adds to a subscription's deliveries. */
  function Fresh(s: State, a: Action, id: nat): seq<Envelope> {
    if a.Publish? && IsLive(s, id) && s.subs[id].channel == a.e.channel && !Full(s, id) then [a.e] else []
  }

  lemma ReceivedStep(s: State, a: Action, id: nat)
    requires Registered(s) && id in s.subs
    ensures id in Step(s, a).subs && Step(s, a).subs[id].channel == s.subs[id].channel
    ensures Received(Step(s, a), id) == Received(s, id) + Fresh(s, a, id)
  {
    if a.Publish? {
      PublishReaches(s, a.e, id);
    } else {
      OthersReach(s, a, id);
    }
  }

  lemma PublishReaches(s: State, e: Envelope, id: nat)
    requires Registered(s) && id in s.subs
    ensures id in Step(s, Publish(e)).subs && Step(s, Publish(e)).subs[id].channel == s.subs[id].channel
    ensures Received(Step(s, Publish(e)), id) == Received(s, id) + Fresh(s, Publish(e), id)
  {
    var q, c := s.subs[id].queue, s.subs[id].consumed;
    assert c + (q + [e]) == c + q + [e];
  }

  lemma OthersReach(s: State, a: Action, id: nat)
    requires Registered(s) && id in s.subs && !a.Publish?
    ensures id in Step(s, a).subs && Step(s, a).subs[id].channel == s.subs[id].channel
    ensures Received(Step(s, a), id) == Received(s, id) + Fresh(s, a, id)
  {
    var q, c := s.subs[id].queue, s.subs[id].consumed;
    assert q != [] ==> c + [q[0]] + q[1..] == c + q;
  }

  /** A step that ends a subscription: its own leaving, or a publish that finds its queue full. */
  predicate Ends(s: State, a: Action, id: nat) {
    || a == Unsubscribe(id)
    || (a.Publish? && id in s.subs && s.subs[id].channel == a.e.channel && |s.subs[id].queue| == QUEUE_DEPTH)
  }

  /** A live subscription stays live exactly when the step does not end it, and once it is not
      live it never is again. */
  lemma LivenessStep(s: State, a: Action, id: nat)
    requires Inv(s) && id in s.subs
    ensures IsLive(Step(s, a), id) <==> IsLive(s, id) && !Ends(s, a, id)
  {
    if a.Unsubscribe? {
      UnsubscribeEnds(s, a.id, id);
    } else if a.Publish? {
      PublishEnds(s, a.e, id);
    } else {
      OthersEndNothing(s, a, id);
    }
  }

  lemma UnsubscribeEnds(s: State, i: nat, id: nat)
    requires Inv(s) && id in s.subs
    ensures IsLive(Step(s, Unsubscribe(i)), id) <==> IsLive(s, id) && i != id
  {
    assert SubRight(s, id);
    if i in s.subs {
      DroppedFacts(s.reg, s.subs[i].channel, {i});
    }
  }

  lemma PublishEnds(s: State, e: Envelope, id: nat)
    requires Inv(s) && id in s.subs
    ensures IsLive(Step(s, Publish(e)), id) <==> IsLive(s, id) && !Ends(s, Publish(e), id)
  {
    assert SubRight(s, id);
    DroppedFacts(s.reg, e.channel, Overflowing(s, e.channel));
  }

  lemma OthersEndNothing(s: State, a: Action, id: nat)
    requires Inv(s) && id in s.subs && !a.Unsubscribe? && !a.Publish?
    ensures IsLive(Step(s, a), id) <==> IsLive(s, id)
  {
    assert SubRight(s, id);
  }

  // --- theorems over runs ---

  lemma RunStep(acts: seq<Action>, a: Action)
    ensures Run(acts + [a]) == Step(Run(acts), a)
    ensures forall channel :: Log(acts + [a], channel) == Log(acts, channel) + Published(a, channel)
  {
    assert (acts + [a])[..|acts + [a]| - 1] == acts;
  }

  lemma RunStepAfter(acts: seq<Action>, more: seq<Action>)
    requires more != []
    ensures var before, a := acts + more[..|more| - 1], more[|more| - 1];
            && acts + more == before + [a]
            && Run(acts + more) == Step(Run(before), a)
            && forall channel :: Log(acts + more, channel) == Log(before, channel) + Published(a, channel)
  {
    var before, a := acts + more[..|more| - 1], more[|more| - 1];
    assert acts + more == before + [a];
    RunStep(before, a);
  }

  predicate KnownButGone(s: State, id: nat, received: seq<Envelope>) {
    id in s.subs && !IsLive(s, id) && Received(s, id) == received
  }

  lemma GoneStep(s: State, a: Action, id: nat, received: seq<Envelope>)
    requires Inv(s) && KnownButGone(s, id, received)
    ensures KnownButGone(Step(s, a), id, received)
  {
    LivenessStep(s, a, id);
    ReceivedStep(s, a, id);
  }

  /** Once a subscription is off the register it is off for good, and nothing more reaches it. */
  lemma {:induction false} FrozenOnceRemoved(acts: seq<Action>, more: seq<Action>, id: nat)
    requires id in Run(acts).subs && !IsLive(Run(acts), id)
    ensures !IsLive(Run(acts + more), id) && Received(Run(acts + more), id) == Received(Run(acts), id)
    ensures KnownButGone(Run(acts + more), id, Received(Run(acts), id))
    decreases |more|
  {
    if more == [] {
      assert acts + more == acts;
    } else {
      RunStepAfter(acts, more);
      FrozenOnceRemoved(acts, more[..|more| - 1], id);
      InvInEveryRun(acts + more[..|more| - 1]);
      GoneStep(Run(acts + more[..|more| - 1]), more[|more| - 1], id, Received(Run(acts), id));
    }
  }

  /** The subscription has been handed exactly log[from..stop], all the rest of it if registered. */
  ghost predicate HasSegment(s: State, id: nat, channel: string, log: seq<Envelope>, from: nat, stop: nat) {
    && id in s.subs && s.subs[id].channel == channel && from <= stop <= |log|
    && Received(s, id) == log[from..stop]
    && (IsLive(s, id) ==> stop == |log|)
  }

  lemma SegmentStep(s: State, a: Action, id: nat, channel: string, log: seq<Envelope>, from: nat, stop: nat) returns (stop': nat)
    requires Inv(s) && HasSegment(s, id, channel, log, from, stop)
    ensures HasSegment(Step(s, a), id, channel, log + Published(a, channel), from, stop')
  {
    var added := Published(a, channel);
    assert SubRight(s, id);
    LivenessStep(s, a, id);
    ReceivedStep(s, a, id);
    if IsLive(Step(s, a), id) {
      stop' := |log + added|;
      assert Fresh(s, a, id) == added;
      assert (log + added)[from..] == log[from..] + added;
    } else {
      stop' := stop;
      assert Fresh(s, a, id) == [] by {
        assert IsLive(s, id) ==> Ends(s, a, id);
      }
      assert (log + added)[from..stop] == log[from..stop];
    }
  }

  lemma JoinsEmpty(s: State, channel: string, log: seq<Envelope>)
    ensures HasSegment(Joined(s, channel), s.nextId + 1, channel, log, |log|, |log|)
  {
  }

  /** Every subscription, at every moment after the step that made it, has been handed exactly a
      segment of its channel's log that begins where it subscribed; while it is registered the
      segment reaches to the end of the log. */
  lemma {:induction false} EveryoneHasASegment(acts: seq<Action>, channel: string, more: seq<Action>) returns (stop: nat)
    ensures var now := acts + [Subscribe(channel)] + more;
            HasSegment(Run(now), Run(acts).nextId + 1, channel, Log(now, channel), |Log(acts, channel)|, stop)
    decreases |more|
  {
    var joined, log := acts + [Subscribe(channel)], Log(acts, channel);
    if more == [] {
      assert joined + more == joined && log + [] == log;
      RunStep(acts, Subscribe(channel));
      stop := |log|;
      JoinsEmpty(Run(acts), channel, log);
    } else {
      var before := joined + more[..|more| - 1];
      RunStepAfter(joined, more);
      stop := EveryoneHasASegment(acts, channel, more[..|more| - 1]);
      InvInEveryRun(before);
      stop := SegmentStep(Run(before), more[|more| - 1], Run(acts).nextId + 1, channel, Log(before, channel), |log|, stop);
    }
  }

  /** Queues stay bounded, Closed fires at most once and only for subscriptions off the register, and
      for each of those it has fired unless its closing is still owed. */
  lemma BoundedAndClosedOnce(acts: seq<Action>, id: nat)
    requires id in Run(acts).subs
    ensures var s := Run(acts);
            && |s.subs[id].queue| <= 256
            && s.subs[id].fired <= 1
            && (s.subs[id].fired == 1 ==> !IsLive(s, id))
            && (!IsLive(s, id) && id !in s.closing ==> s.subs[id].fired == 1)
  {
    InvInEveryRun(acts);
    assert SubRight(Run(acts), id);
  }

  /** A publish drops exactly the registered subscribers whose queue is full and owes each of them
      a closing; it reports the registered ones less those it drops. */
  lemma OverflowDropsExactlyTheFull(s: State, e: Envelope, id: nat)
    requires Inv(s) && id in Live(s.reg, e.channel)
    ensures id in s.subs
    ensures var left := Live(Fanned(s, e).reg, e.channel);
            && (id !in left <==> |s.subs[id].queue| == 256)
            && (id !in left ==> id in Fanned(s, e).closing)
  {
    DroppedFacts(s.reg, e.channel, Overflowing(s, e.channel));
    assert SubRight(s, id);
  }

  /** The step ends the subscription: it leaves, or a publish on its channel finds 256 envelopes queued. */
  predicate Ending(s: State, a: Action, channel: string, id: nat) {
    || a == Unsubscribe(id)
    || (a.Publish? && a.e.channel == channel && id in s.subs && |s.subs[id].queue| == 256)
  }

  predicate NeverEnded(joined: seq<Action>, more: seq<Action>, channel: string, id: nat)
    decreases |more|
  {
    more == [] ||
    (NeverEnded(joined, more[..|more| - 1], channel, id)
     && !Ending(Run(joined + more[..|more| - 1]), more[|more| - 1], channel, id))
  }

  lemma EndingEnds(s: State, a: Action, channel: string, id: nat)
    requires Inv(s) && id in s.subs && s.subs[id].channel == channel
    ensures id in Step(s, a).subs && Step(s, a).subs[id].channel == channel
    ensures IsLive(Step(s, a), id) <==> IsLive(s, id) && !Ending(s, a, channel, id)
  {
    LivenessStep(s, a, id);
    ReceivedStep(s, a, id);
  }

  lemma JoinsLive(s: State, channel: string)
    ensures IsLive(Joined(s, channel), s.nextId + 1) && Joined(s, channel).subs[s.nextId + 1] == Sub(channel, [], [], false, 0)
  {
  }

  /** The subscription is known under its channel, and live exactly if no step has ended it. */
  predicate LiveUnlessEnded(joined: seq<Action>, more: seq<Action>, channel: string, id: nat) {
    var s := Run(joined + more);
    id in s.subs && s.subs[id].channel == channel && (IsLive(s, id) <==> NeverEnded(joined, more, channel, id))
  }

  lemma LiveAtFirst(acts: seq<Action>, channel: string, joined: seq<Action>)
    requires joined == acts + [Subscribe(channel)]
    ensures LiveUnlessEnded(joined, [], channel, Run(acts).nextId + 1)
  {
    assert joined + [] == joined;
    RunStep(acts, Subscribe(channel));
    JoinsLive(Run(acts), channel);
  }

  /** A subscription is live from its Subscribe until the first step that ends it. */
  lemma {:induction false} LiveUntilEnded(acts: seq<Action>, channel: string, joined: seq<Action>, more: seq<Action>)
    requires joined == acts + [Subscribe(channel)]
    ensures LiveUnlessEnded(joined, more, channel, Run(acts).nextId + 1)
    decreases |more|
  {
    if more == [] {
      LiveAtFirst(acts, channel, joined);
    } else {
      var first := more[..|more| - 1];
      LiveUntilEnded(acts, channel, joined, first);
      LiveOn(joined, first, more[|more| - 1], channel, Run(acts).nextId + 1);
      assert first + [more[|more| - 1]] == more;
    }
  }

  lemma LiveOn(joined: seq<Action>, first: seq<Action>, a: Action, channel: string, id: nat)
    requires LiveUnlessEnded(joined, first, channel, id)
    ensures LiveUnlessEnded(joined, first + [a], channel, id)
  {
    assert joined + (first + [a]) == joined + first + [a];
    assert (first + [a])[..|first + [a]| - 1] == first;
    RunStep(joined + first, a);
    InvInEveryRun(joined + first);
    EndingEnds(Run(joined + first), a, channel, id);
  }

  /** A reader takes what was queued first, and it is then no longer queued. */
  lemma ConsumeTakesOldest(s: State, id: nat)
    requires id in s.subs && s.subs[id].queue != []
    ensures var sub, sub' := s.subs[id], Step(s, Consume(id)).subs[id];
            && sub.queue == [sub'.consumed[|sub'.consumed| - 1]] + sub'.queue
            && |sub'.consumed| == |sub.consumed| + 1 && sub.consumed <= sub'.consumed
  {
  }

  lemma PublishReportsLiveLessDrops(s: State, e: Envelope)
    requires Inv(s)
    ensures var before, after := Live(s.reg, e.channel), Live(Fanned(s, e).reg, e.channel);
            after <= before && Delivered(s, e) == |before| - |before - after| == |after|
  {
    DroppedFacts(s.reg, e.channel, Overflowing(s, e.channel));
    LessDrops(Live(s.reg, e.channel), Overflowing(s, e.channel));
  }

  lemma LessDrops(before: set<nat>, full: set<nat>)
    requires full <= before
    ensures |before - full| == |before| - |before - (before - full)|
  {
    assert before - (before - full) == full;
  }
}
