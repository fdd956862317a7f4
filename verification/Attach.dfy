/** The attach protocol: the store machine and the broker machine side by side, with publishers that
    append and publish in one order or the other and readers that subscribe, read a catch-up page
    and then take live frames. Any interleaving of their steps is a run. */
module Attach {
  import opened Eviction
  import S = StoreMachine
  import B = BrokerMachine
  import StoreSafety

  /** The WebSocket path appends and then publishes; the public HTTP path publishes and then appends. */
  datatype Order = AppendFirst | PublishFirst

  datatype Number = NoNumber | Numbered(n: nat)

  datatype Place = NotOut | Out(index: nat)

  /** One message on its way: whether its append is over, the number it was given, and its place in
      its channel's log once it is out. */
  datatype Pub = Pub(id: S.Id, body: string, order: Order, tried: bool, number: Number, place: Place) {
    const published: bool := place.Out?
  }

  datatype Page = Unread | Page(entries: seq<Entry>)

  /** A reader: its channel, its cursor, its subscription, and its catch-up page. */
  datatype Reader = Reader(id: S.Id, after: nat, sub: nat, page: Page)

  datatype System = System(
    store: S.Store, broker: B.State, log: map<string, seq<B.Envelope>>,
    pubs: map<nat, Pub>, readers: map<nat, Reader>)

  datatype Action =
    | StoreStep(a: S.Action)
    | BrokerStep(b: B.Action)
    | Begin(p: nat, id: S.Id, body: string, order: Order)
    | Configure(p: nat)
    | Append(p: nat, now: int)
    | Skip(p: nat)
    | Publish(p: nat)
    | Attach(r: nat, id: S.Id, after: nat)
    | Read(r: nat, limit: nat, now: int)

  const INITIAL := System(S.EMPTY, B.INITIAL, map[], map[], map[])

  function Frame(pub: Pub): B.Envelope {
    B.Envelope(pub.id, pub.body)
  }

  /** What has been published on a channel so far. */
  function LogOf(s: System, id: S.Id): seq<B.Envelope> {
    if id in s.log then s.log[id] else []
  }

  function Stream(s: System, id: S.Id): seq<Entry> {
    StoreSafety.StreamOf(s.store, id)
  }

  function NextSeq(s: System, id: S.Id): nat {
    StoreSafety.NextSeq(s.store, id)
  }

  predicate MayAppend(s: System, p: nat) {
    p in s.pubs && !s.pubs[p].tried && (s.pubs[p].order == PublishFirst ==> s.pubs[p].published)
  }

  predicate MayPublish(s: System, p: nat) {
    p in s.pubs && !s.pubs[p].published && (s.pubs[p].order == AppendFirst ==> s.pubs[p].tried)
  }

  predicate Appends(s: System, a: Action) {
    && a.Append? && MayAppend(s, a.p)
    && a.p in s.store.appenders && s.store.appenders[a.p].id == s.pubs[a.p].id && s.pubs[a.p].id in s.store.chans
  }

  function Result(cap: int, s: System, p: nat, now: int): S.AppendResult
    requires p in s.pubs && p in s.store.appenders && s.store.appenders[p].id in s.store.chans
  {
    var ap := s.store.appenders[p];
    S.AppendScript(s.store.chans[ap.id], S.Account(s.store, ap.owner), ap.owner != "", ap.limits, cap, s.pubs[p].body, now).result
  }

  function NumberOf(r: S.AppendResult): Number {
    if r.Appended? then Numbered(r.seqNo) else NoNumber
  }

  // --- what a step asks of the store and of the broker ---

  predicate ForStore(a: S.Action) {
    !a.ReadConfig? && !a.RunAppend?
  }

  predicate ForBroker(b: B.Action) {
    !b.Publish?
  }

  /** The store steps a system step takes: one or none. */
  function StorePart(s: System, a: Action): seq<S.Action> {
    match a
    case StoreStep(sa) => if ForStore(sa) then [sa] else []
    case Configure(p) => if MayAppend(s, p) then [S.ReadConfig(p, s.pubs[p].id)] else []
    case Append(p, now) => if Appends(s, a) then [S.RunAppend(p, s.pubs[p].body, now)] else []
    case _ => []
  }

  /** The broker steps a system step takes: one or none. */
  function BrokerPart(s: System, a: Action): seq<B.Action> {
    match a
    case BrokerStep(b) => if ForBroker(b) then [b] else []
    case Publish(p) => if MayPublish(s, p) then [B.Publish(Frame(s.pubs[p]))] else []
    case Attach(r, id, _) => if r in s.readers then [] else [B.Subscribe(id)]
    case _ => []
  }

  function StoreAfter(cap: int, s: System, a: Action): S.Store {
    var part := StorePart(s, a);
    if part == [] then s.store else S.Apply(cap, s.store, part[0])
  }

  function BrokerAfter(s: System, a: Action): B.State {
    var part := BrokerPart(s, a);
    if part == [] then s.broker else B.Step(s.broker, part[0])
  }

  function PubsAfter(cap: int, s: System, a: Action): map<nat, Pub> {
    match a
    case Begin(p, id, body, order) =>
      if p in s.pubs then s.pubs else s.pubs[p := Pub(id, body, order, false, NoNumber, NotOut)]
    case Append(p, now) =>
      if Appends(s, a) then s.pubs[p := s.pubs[p].(tried := true, number := NumberOf(Result(cap, s, p, now)))] else s.pubs
    case Skip(p) => if MayAppend(s, p) then s.pubs[p := s.pubs[p].(tried := true)] else s.pubs
    case Publish(p) => if MayPublish(s, p) then s.pubs[p := s.pubs[p].(place := Out(|LogOf(s, s.pubs[p].id)|))] else s.pubs
    case _ => s.pubs
  }

  function LogAfter(s: System, a: Action): map<string, seq<B.Envelope>> {
    if a.Publish? && MayPublish(s, a.p)
    then s.log[s.pubs[a.p].id := LogOf(s, s.pubs[a.p].id) + [Frame(s.pubs[a.p])]]
    else s.log
  }

  function ReadersAfter(s: System, a: Action): map<nat, Reader> {
    match a
    case Attach(r, id, after) =>
      if r in s.readers then s.readers else s.readers[r := Reader(id, after, s.broker.nextId + 1, Unread)]
    case Read(r, limit, now) =>
      if r in s.readers && s.readers[r].page == Unread
      then s.readers[r := s.readers[r].(page := Page(S.CatchUp(Stream(s, s.readers[r].id), s.readers[r].after, limit, now)))]
      else s.readers
    case _ => s.readers
  }

  function Step(cap: int, s: System, a: Action): System {
    System(StoreAfter(cap, s, a), BrokerAfter(s, a), LogAfter(s, a), PubsAfter(cap, s, a), ReadersAfter(s, a))
  }

  function Run(cap: int, acts: seq<Action>): System {
    if acts == [] then INITIAL else Step(cap, Run(cap, acts[..|acts| - 1]), acts[|acts| - 1])
  }

  lemma RunStep(cap: int, acts: seq<Action>, a: Action)
    ensures Run(cap, acts + [a]) == Step(cap, Run(cap, acts), a)
  {
    assert (acts + [a])[..|acts + [a]| - 1] == acts;
  }

  lemma RunStepAfter(cap: int, acts: seq<Action>, more: seq<Action>)
    requires more != []
    ensures acts + more == acts + more[..|more| - 1] + [more[|more| - 1]]
    ensures Run(cap, acts + more) == Step(cap, Run(cap, acts + more[..|more| - 1]), more[|more| - 1])
  {
    assert acts + more == acts + more[..|more| - 1] + [more[|more| - 1]];
    RunStep(cap, acts + more[..|more| - 1], more[|more| - 1]);
  }

  // --- a run of the system is a run of the store and a run of the broker ---

  function StoreRun(cap: int, acts: seq<Action>): seq<S.Action> {
    if acts == [] then []
    else
      var before := acts[..|acts| - 1];
      StoreRun(cap, before) + StorePart(Run(cap, before), acts[|acts| - 1])
  }

  function BrokerRun(cap: int, acts: seq<Action>): seq<B.Action> {
    if acts == [] then []
    else
      var before := acts[..|acts| - 1];
      BrokerRun(cap, before) + BrokerPart(Run(cap, before), acts[|acts| - 1])
  }

  lemma {:induction false} StoreRuns(cap: int, acts: seq<Action>)
    ensures Run(cap, acts).store == S.Run(cap, StoreRun(cap, acts))
  {
    if acts != [] {
      var before, a := acts[..|acts| - 1], acts[|acts| - 1];
      StoreRuns(cap, before);
      OneOrNoStoreStep(cap, StoreRun(cap, before), StorePart(Run(cap, before), a));
    }
  }

  lemma OneOrNoStoreStep(cap: int, acts: seq<S.Action>, part: seq<S.Action>)
    requires |part| <= 1
    ensures S.Run(cap, acts + part) == if part == [] then S.Run(cap, acts) else S.Apply(cap, S.Run(cap, acts), part[0])
  {
    if part == [] {
      assert acts + part == acts;
    } else {
      assert (acts + part)[..|acts + part| - 1] == acts;
    }
  }

  lemma {:induction false} BrokerRuns(cap: int, acts: seq<Action>)
    ensures Run(cap, acts).broker == B.Run(BrokerRun(cap, acts))
  {
    if acts != [] {
      var before, a := acts[..|acts| - 1], acts[|acts| - 1];
      BrokerRuns(cap, before);
      LastBrokerStep(cap, acts, before, a);
      BrokerGoesOn(Run(cap, before), a, BrokerRun(cap, before));
    }
  }

  lemma BrokerGoesOn(s: System, a: Action, acts: seq<B.Action>)
    requires s.broker == B.Run(acts)
    ensures BrokerAfter(s, a) == B.Run(acts + BrokerPart(s, a))
  {
    OneOrNoBrokerStep(acts, BrokerPart(s, a));
  }

  lemma LastBrokerStep(cap: int, acts: seq<Action>, before: seq<Action>, a: Action)
    requires acts != [] && before == acts[..|acts| - 1] && a == acts[|acts| - 1]
    ensures Run(cap, acts).broker == BrokerAfter(Run(cap, before), a)
    ensures BrokerRun(cap, acts) == BrokerRun(cap, before) + BrokerPart(Run(cap, before), a)
  {
  }

  lemma OneOrNoBrokerStep(acts: seq<B.Action>, part: seq<B.Action>)
    requires |part| <= 1
    ensures B.Run(acts + part) == if part == [] then B.Run(acts) else B.Step(B.Run(acts), part[0])
  {
    if part == [] {
      assert acts + part == acts;
    } else {
      B.RunStep(acts, part[0]);
      assert part == [part[0]];
    }
  }
}
