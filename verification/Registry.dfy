/** The registry of private channels, the create handler that keeps it in step with the store, and
    what a restart makes of both. */
module Registry {
  import opened Grants
  import E = Eviction
  import Pages
  import S = StoreMachine

  /** A channel key, and what decoding its text gives. */
  type Key = seq<nat>

  datatype KeyResult = Decoded(key: Key) | Malformed

  /** Decoding of key texts; the empty text is no key. */
  ghost predicate IsDecoder(decode: string -> KeyResult) {
    decode("") == Malformed
  }

  datatype Server = Server(store: Store, registry: map<Id, Key>)

  /** A request, with the create limiter's answer for the caller. */
  datatype Request = Request(allowed: bool, channel: Id, authKey: string, retain: bool, ttlSec: int, ticket: string, owner: string)

  datatype Status = Ok | BadRequest | Conflict | TooManyRequests | Forbidden | NotImplemented

  datatype Limits = Limits(ttl: int, ttlMax: int, bytesPerChannel: int, msgsPerChannel: int, channelsPerAccount: int)

  function Registered(registry: map<Id, Key>, id: Id, key: Key): map<Id, Key> {
    if id in registry then registry else registry[id := key]
  }

  /** The registry that a snapshot of key texts loads to; malformed ones are skipped. */
  function Loaded(decode: string -> KeyResult, snap: map<Id, string>): map<Id, Key> {
    map id | id in snap && decode(snap[id]).Decoded? :: decode(snap[id]).key
  }

  function AllKeys(store: Store): map<Id, string> {
    map id | id in store.channels :: store.channels[id].kAuth
  }

  /** The TTL of a self-service retained channel: what was asked for or the default, never above the cap. */
  function RetainedTtl(lim: Limits, ttlSec: int, owner: string): int {
    var ttl := if ttlSec > 0 then ttlSec else if owner == "" then lim.ttlMax else lim.ttl;
    if ttl > lim.ttlMax then lim.ttlMax else ttl
  }

  function RetainedPolicy(lim: Limits, req: Request): Policy {
    Policy(true, E.Limits(RetainedTtl(lim, req.ttlSec, req.owner), lim.bytesPerChannel, lim.msgsPerChannel))
  }

  const NO_POLICY := Policy(false, E.Limits(0, 0, 0))

  /** An anonymous caller's channels are counted against nobody, under this cap. */
  const ANONYMOUS_CAP: int := 0x4000_0000

  function OwnerCap(lim: Limits, owner: string): int {
    if owner == "" then ANONYMOUS_CAP else lim.channelsPerAccount
  }

  // --- the create handler ---

  function StatusOf(r: Reply): Status {
    match r
    case Done => Ok
    case Exists => Conflict
    case TooMany => TooManyRequests
    case BadTicket => Forbidden
  }

  function Register(decode: string -> KeyResult, s: Server, req: Request): map<Id, Key> {
    if req.authKey != "" && decode(req.authKey).Decoded? then Registered(s.registry, req.channel, decode(req.authKey).key)
    else s.registry
  }

  function ByTicket(decode: string -> KeyResult, s: Server, req: Request): (Server, Status) {
    var r := RedeemReply(s.store, req.ticket, req.channel);
    if r != Done then (s, StatusOf(r))
    else (Server(Redeemed(s.store, req.ticket, req.channel, req.authKey, req.owner), Register(decode, s, req)), Ok)
  }

  function Retained(decode: string -> KeyResult, lim: Limits, s: Server, req: Request): (Server, Status) {
    var cap := OwnerCap(lim, req.owner);
    var r := CreateReply(s.store, cap, req.channel, req.owner);
    if r != Done then (s, StatusOf(r))
    else (Server(Created(s.store, cap, req.channel, req.owner, req.authKey, RetainedPolicy(lim, req)), Register(decode, s, req)), Ok)
  }

  /** A channel that is not retained: the store may know the id already, the registry must not. */
  function Ephemeral(decode: string -> KeyResult, s: Server, req: Request): (Server, Status) {
    var store := Created(s.store, ANONYMOUS_CAP, req.channel, "", req.authKey, NO_POLICY);
    (Server(store, Register(decode, s, req)), if req.channel in s.registry then Conflict else Ok)
  }

  function Handled(decode: string -> KeyResult, lim: Limits, s: Server, req: Request): (Server, Status) {
    if !req.allowed then (s, TooManyRequests)
    else if req.channel == "" then (s, BadRequest)
    else if req.authKey != "" && decode(req.authKey).Malformed? then (s, BadRequest)
    else if req.ticket != "" then ByTicket(decode, s, req)
    else if req.authKey == "" && !req.retain then (s, BadRequest)
    else if req.retain then Retained(decode, lim, s, req)
    else Ephemeral(decode, s, req)
  }

  /** The same on an instance without a store: nothing is retained, and only the registry knows names. */
  function HandledAlone(decode: string -> KeyResult, registry: map<Id, Key>, req: Request): (map<Id, Key>, Status) {
    if !req.allowed then (registry, TooManyRequests)
    else if req.channel == "" then (registry, BadRequest)
    else if req.authKey != "" && decode(req.authKey).Malformed? then (registry, BadRequest)
    else if req.ticket != "" then (registry, NotImplemented)
    else if req.authKey == "" && !req.retain then (registry, BadRequest)
    else if req.retain then (registry, NotImplemented)
    else if req.channel in registry then (registry, Conflict)
    else (registry[req.channel := decode(req.authKey).key], Ok)
  }

  /** Without a store a request changes the registry exactly if it is answered with success, and then
      by the one new name under its key. */
  lemma AloneRegisters(decode: string -> KeyResult, registry: map<Id, Key>, req: Request)
    requires IsDecoder(decode)
    ensures var (registry', status) := HandledAlone(decode, registry, req);
            && (status == Ok <==> registry' != registry)
            && (status == Ok ==>
                  && req.channel != "" && req.channel !in registry && !req.retain && req.ticket == ""
                  && decode(req.authKey).Decoded? && registry' == registry[req.channel := decode(req.authKey).key])
  {
    assert req.channel !in registry ==> req.channel in HandledAlone(decode, registry, req).0 || HandledAlone(decode, registry, req).0 == registry;
  }

  /** The TTL of a retained channel is what was asked for, or else the default, but never more than the
      longest allowed. */
  lemma RetainedTtlIs(lim: Limits, ttlSec: int, owner: string)
    ensures var ttl := RetainedTtl(lim, ttlSec, owner);
            var wanted := if ttlSec > 0 then ttlSec else if owner == "" then lim.ttlMax else lim.ttl;
            ttl <= lim.ttlMax && ttl <= wanted && (ttl == wanted || ttl == lim.ttlMax)
  {
  }

  /** The account has room for one more channel; anonymous callers have no account. */
  predicate HasRoom(lim: Limits, s: Store, owner: string) {
    owner == "" ||
    (if owner in s.counts then s.counts[owner] else 0) < (if lim.channelsPerAccount <= 0 then 0x4000_0000 else lim.channelsPerAccount)
  }

  predicate GoodTicket(s: Store, req: Request) {
    req.ticket in s.tickets && ChannelMatches(s.tickets[req.ticket].pattern, req.channel)
  }

  /** The request makes sense: it names a channel, its key if any decodes, and without a key or ticket
      it asks for retention. */
  predicate WellFormed(decode: string -> KeyResult, req: Request) {
    && req.channel != "" && (req.authKey == "" || decode(req.authKey).Decoded?)
    && (req.ticket == "" && req.authKey == "" ==> req.retain)
  }

  /** The name is taken: in the store, or for a channel that is not to be retained, in the registry. */
  predicate Taken(s: Server, req: Request) {
    if req.ticket != "" || req.retain then req.channel in s.store.channels else req.channel in s.registry
  }

  /** When each answer is given, and only when. */
  lemma AnswersMean(decode: string -> KeyResult, lim: Limits, s: Server, req: Request)
    ensures var status, good := Handled(decode, lim, s, req).1, req.allowed && WellFormed(decode, req);
            && (status == BadRequest <==> req.allowed && !WellFormed(decode, req))
            && (status == Forbidden <==> good && req.ticket != "" && !GoodTicket(s.store, req))
            && (status == Conflict <==> good && (req.ticket != "" ==> GoodTicket(s.store, req)) && Taken(s, req))
            && (status == TooManyRequests <==>
                  !req.allowed || (good && req.ticket == "" && req.retain && !Taken(s, req) && !HasRoom(lim, s.store, req.owner)))
            && (status == Ok <==>
                  && good && !Taken(s, req) && (req.ticket != "" ==> GoodTicket(s.store, req))
                  && (req.ticket == "" && req.retain ==> HasRoom(lim, s.store, req.owner)))
            && status != NotImplemented
  {
    CreateDoneIff(s.store, OwnerCap(lim, req.owner), req.channel, req.owner);
    RedeemDoneIff(s.store, req.ticket, req.channel);
  }

  /** What a request answered with success stores, and for whom. */
  lemma OkStores(decode: string -> KeyResult, lim: Limits, s: Server, req: Request)
    ensures var (s', status) := Handled(decode, lim, s, req);
            status == Ok ==>
            && req.channel in s'.store.channels
            && (req.authKey != "" ==> req.channel in s'.registry)
            && (req.authKey != "" && req.channel !in s.registry ==> s'.registry[req.channel] == decode(req.authKey).key)
            && (req.ticket != "" ==>
                  s'.store.channels[req.channel] == Config(req.owner, req.authKey, s.store.tickets[req.ticket].policy)
                  && req.ticket !in s'.store.tickets)
            && (req.ticket == "" && req.retain ==>
                  var ttl := RetainedTtl(lim, req.ttlSec, req.owner);
                  s'.store.channels[req.channel]
                  == Config(req.owner, req.authKey, Policy(true, E.Limits(ttl, lim.bytesPerChannel, lim.msgsPerChannel))))
            && (req.ticket == "" && !req.retain && req.channel !in s.store.channels ==>
                  s'.store.channels[req.channel] == Config("", req.authKey, Policy(false, E.Limits(0, 0, 0))))
  {
  }

  /** A request not answered with success changes nothing, but that a channel that is not to be retained
      may be stored under a name that only the registry knew. */
  lemma NotOkChangesNothing(decode: string -> KeyResult, lim: Limits, s: Server, req: Request)
    ensures var (s', status) := Handled(decode, lim, s, req);
            status != Ok ==>
            s' == s || (req.ticket == "" && !req.retain && req.channel in s.registry && req.channel !in s.store.channels && s'.registry == s.registry)
  {
  }

  // --- runs ---

  datatype Action =
    | Handle(req: Request)
    | IssueGrant(ticket: string, grant: Grant)
    | Expire(ticket: string)
    | Limit(id: Id, ttl: int, maxBytes: int, maxMsgs: int)
    | Restart

  function Step(decode: string -> KeyResult, lim: Limits, s: Server, a: Action): Server {
    match a
    case Handle(req) => Handled(decode, lim, s, req).0
    case IssueGrant(ticket, grant) => s.(store := s.store.(tickets := s.store.tickets[ticket := grant]))
    case Expire(ticket) => s.(store := s.store.(tickets := s.store.tickets - {ticket}))
    case Limit(id, ttl, maxBytes, maxMsgs) => s.(store := Limited(s.store, id, ttl, maxBytes, maxMsgs))
    case Restart => s.(registry := Loaded(decode, AllKeys(s.store)))
  }

  const FRESH := Server(Store(map[], map[], map[]), map[])

  function Run(decode: string -> KeyResult, lim: Limits, acts: seq<Action>): Server {
    if acts == [] then FRESH else Step(decode, lim, Run(decode, lim, acts[..|acts| - 1]), acts[|acts| - 1])
  }

  // --- agreement ---

  ghost predicate InStep(decode: string -> KeyResult, s: Server, id: Id) {
    && (id in s.registry ==> id in s.store.channels)
    && (id in s.store.channels ==>
          var text := s.store.channels[id].kAuth;
          && (text == "" || decode(text).Decoded?)
          && (decode(text).Decoded? ==> id in s.registry && s.registry[id] == decode(text).key))
  }

  /** Every registered id is stored; every stored key text is empty or decodes, and then the id is
      registered with that same key. */
  ghost predicate Agrees(decode: string -> KeyResult, s: Server) {
    forall id :: InStep(decode, s, id)
  }

  lemma CreatingKeepsStep(decode: string -> KeyResult, s: Server, s': Server, req: Request, id: Id)
    requires IsDecoder(decode) && InStep(decode, s, id) && InStep(decode, s, req.channel) && req.channel !in s.store.channels
    requires req.authKey == "" || decode(req.authKey).Decoded?
    requires s'.registry == Register(decode, s, req)
    requires exists c: Config :: c.kAuth == req.authKey && s'.store.channels == s.store.channels[req.channel := c]
    ensures InStep(decode, s', id)
  {
  }

  lemma StepKeepsAgreement(decode: string -> KeyResult, lim: Limits, s: Server, a: Action)
    requires IsDecoder(decode) && Agrees(decode, s)
    ensures Agrees(decode, Step(decode, lim, s, a))
  {
    forall id
      ensures InStep(decode, Step(decode, lim, s, a), id)
    {
      var s' := Step(decode, lim, s, a);
      assert InStep(decode, s, id);
      if a.Handle? {
        var req := a.req;
        assert InStep(decode, s, req.channel);
        if s' != s && req.channel !in s.store.channels {
          var c := s'.store.channels[req.channel];
          assert c.kAuth == req.authKey && s'.store.channels == s.store.channels[req.channel := c];
          CreatingKeepsStep(decode, s, s', req, id);
        }
      }
    }
  }

  /** Registry and store agree in every reachable state, before and after any restart. */
  lemma {:induction false} AlwaysAgree(decode: string -> KeyResult, lim: Limits, acts: seq<Action>)
    requires IsDecoder(decode)
    ensures Agrees(decode, Run(decode, lim, acts))
  {
    if acts != [] {
      AlwaysAgree(decode, lim, acts[..|acts| - 1]);
      StepKeepsAgreement(decode, lim, Run(decode, lim, acts[..|acts| - 1]), acts[|acts| - 1]);
    }
  }

  /** The open path is refused to the empty name and to every registered one. */
  predicate GuardAllows(s: Server, topic: Id) {
    topic != "" && topic !in s.registry
  }

  /** The open path never reaches a channel that was made with a key, in any reachable state. */
  lemma KeyedChannelsAreGuarded(decode: string -> KeyResult, lim: Limits, acts: seq<Action>, id: Id)
    requires IsDecoder(decode)
    requires id in Run(decode, lim, acts).store.channels && Run(decode, lim, acts).store.channels[id].kAuth != ""
    ensures !GuardAllows(Run(decode, lim, acts), id)
  {
    AlwaysAgree(decode, lim, acts);
    assert InStep(decode, Run(decode, lim, acts), id);
  }

  /** What a restart loads is part of the live registry; it is all of it exactly if no registered
      id is stored without a key. */
  lemma RestartLoadsPart(decode: string -> KeyResult, lim: Limits, acts: seq<Action>)
    requires IsDecoder(decode)
    ensures var s := Run(decode, lim, acts);
            var loaded := Loaded(decode, AllKeys(s.store));
            && (forall id :: id in loaded ==> id in s.registry && s.registry[id] == loaded[id])
            && (loaded == s.registry <==> forall id :: id in s.registry ==> id in s.store.channels && s.store.channels[id].kAuth != "")
  {
    AlwaysAgree(decode, lim, acts);
    var s := Run(decode, lim, acts);
    forall id
      ensures id in Loaded(decode, AllKeys(s.store)) <==>
              id in s.registry && id in s.store.channels && s.store.channels[id].kAuth != ""
      ensures id in Loaded(decode, AllKeys(s.store)) ==> s.registry[id] == Loaded(decode, AllKeys(s.store))[id]
    {
      assert InStep(decode, s, id);
    }
  }

  /** A step leaves every stored channel its key text, and never drops a channel. */
  lemma StepKeepsKeys(decode: string -> KeyResult, lim: Limits, s: Server, a: Action, id: Id)
    requires id in s.store.channels
    ensures var s' := Step(decode, lim, s, a);
            id in s'.store.channels && s'.store.channels[id].kAuth == s.store.channels[id].kAuth
  {
  }

  lemma {:induction false} KeysStay(decode: string -> KeyResult, lim: Limits, acts: seq<Action>, more: seq<Action>, id: Id)
    requires id in Run(decode, lim, acts).store.channels
    ensures id in Run(decode, lim, acts + more).store.channels
    ensures Run(decode, lim, acts + more).store.channels[id].kAuth == Run(decode, lim, acts).store.channels[id].kAuth
    decreases |more|
  {
    if more == [] {
      assert acts + more == acts;
    } else {
      KeysStay(decode, lim, acts, more[..|more| - 1], id);
      assert (acts + more)[..|acts + more| - 1] == acts + more[..|more| - 1];
      StepKeepsKeys(decode, lim, Run(decode, lim, acts + more[..|more| - 1]), more[|more| - 1], id);
    }
  }

  // --- admission ---

  /** Whether a response to a challenge admits: the channel is registered and the response is the
      keyed function of the challenge. Unknown channels and wrong responses look the same. */
  predicate Admits(prf: (Key, seq<nat>) -> seq<nat>, registry: map<Id, Key>, channel: Id, challenge: seq<nat>, response: seq<nat>) {
    channel in registry && response == prf(registry[channel], challenge)
  }

  /** A channel made with a key stays private for good: whatever happens afterwards, restarts
      included, the open path refuses it and exactly the same responses are admitted. */
  lemma PrivateForGood(decode: string -> KeyResult, lim: Limits, acts: seq<Action>, more: seq<Action>, id: Id,
                       prf: (Key, seq<nat>) -> seq<nat>, challenge: seq<nat>, response: seq<nat>)
    requires IsDecoder(decode)
    requires id in Run(decode, lim, acts).store.channels && Run(decode, lim, acts).store.channels[id].kAuth != ""
    ensures !GuardAllows(Run(decode, lim, acts + more), id)
    ensures Admits(prf, Run(decode, lim, acts + more).registry, id, challenge, response)
            <==> Admits(prf, Run(decode, lim, acts).registry, id, challenge, response)
  {
    KeysStay(decode, lim, acts, more, id);
    AlwaysAgree(decode, lim, acts);
    AlwaysAgree(decode, lim, acts + more);
    assert InStep(decode, Run(decode, lim, acts), id) && InStep(decode, Run(decode, lim, acts + more), id);
  }

  /** A channel that is new to the store gets the key text of the request that makes it. */
  lemma MadeWithItsText(decode: string -> KeyResult, lim: Limits, s: Server, req: Request)
    requires req.channel !in s.store.channels && req.channel in Handled(decode, lim, s, req).0.store.channels
    ensures Handled(decode, lim, s, req).0.store.channels[req.channel].kAuth == req.authKey
  {
  }

  /** Who is admitted: a channel made with a key admits, after whatever follows, restarts included,
      exactly the response that is the keyed function of the challenge under the key its text decodes to. */
  lemma AdmittedByCreationKey(decode: string -> KeyResult, lim: Limits, acts: seq<Action>, req: Request, made: seq<Action>,
                              more: seq<Action>, prf: (Key, seq<nat>) -> seq<nat>, challenge: seq<nat>, response: seq<nat>)
    requires IsDecoder(decode) && made == acts + [Handle(req)] && req.authKey != ""
    requires req.channel !in Run(decode, lim, acts).store.channels && req.channel in Run(decode, lim, made).store.channels
    ensures var registry := Run(decode, lim, made + more).registry;
            && decode(req.authKey).Decoded? && req.channel in registry && registry[req.channel] == decode(req.authKey).key
            && (Admits(prf, registry, req.channel, challenge, response) <==> response == prf(decode(req.authKey).key, challenge))
  {
    var s := Run(decode, lim, acts);
    assert made[..|made| - 1] == acts;
    MadeWithItsText(decode, lim, s, req);
    KeysStay(decode, lim, made, more, req.channel);
    AlwaysAgree(decode, lim, made + more);
    assert InStep(decode, Run(decode, lim, made + more), req.channel);
  }

  // --- where registry and store part ---

  function Ask(authKey: string, retain: bool): Request {
    Request(true, "t", authKey, retain, 0, "", "")
  }

  /** A topic is made without a key, and then the same name is taken for a keyed channel that is not
      retained: the name is registered, but nothing of its key is stored, and a restart opens it. */
  lemma KeyedOverKeylessIsForgotten(decode: string -> KeyResult, lim: Limits, text: string)
    requires IsDecoder(decode) && text != "" && decode(text).Decoded?
    ensures var s1 := Handled(decode, lim, FRESH, Ask("", true)).0;
            var answer := Handled(decode, lim, s1, Ask(text, false));
            var s2 := answer.0;
            && answer.1 == Ok
            && "t" in s2.registry && !GuardAllows(s2, "t") && s2.store.channels["t"].kAuth == ""
            && GuardAllows(Step(decode, lim, s2, Restart), "t")
  {
    var s1 := Handled(decode, lim, FRESH, Ask("", true)).0;
    assert s1.store.channels.Keys == {"t"} && s1.registry == map[];
    var s2 := Handled(decode, lim, s1, Ask(text, false)).0;
    assert s2.store == s1.store;
    assert "t" !in Loaded(decode, AllKeys(s2.store));
  }

  // --- retention ---

  /** The default number of messages a self-service channel retains. */
  const RETAINED_MSGS_PER_CHAN: nat := 1000

  predicate FitsOnePage(p: Policy) {
    p.retained ==> Pages.CapFits(p.limits.maxMsgs)
  }

  /** What grants and overrides have to keep to. */
  predicate KeepsToOnePage(a: Action) {
    && (a.IssueGrant? ==> FitsOnePage(a.grant.policy))
    && (a.Limit? ==> a.maxMsgs < 0 || Pages.CapFits(a.maxMsgs))
  }

  /** What a request step configures in the message store. */
  function Configures(decode: string -> KeyResult, lim: Limits, s: Server, a: Action): seq<S.Action> {
    match a
    case Handle(req) =>
      var s' := Handled(decode, lim, s, req).0;
      if req.channel in s.store.channels || req.channel !in s'.store.channels then []
      else
        var c := s'.store.channels[req.channel];
        [S.Create(req.channel, c.owner, c.kAuth, c.policy.retained, c.policy.limits)]
    case Limit(id, ttl, maxBytes, maxMsgs) => [S.SetLimits(id, ttl, maxBytes, maxMsgs)]
    case _ => []
  }

  function Configured(decode: string -> KeyResult, lim: Limits, acts: seq<Action>): seq<S.Action> {
    if acts == [] then []
    else
      var before := acts[..|acts| - 1];
      Configured(decode, lim, before) + Configures(decode, lim, Run(decode, lim, before), acts[|acts| - 1])
  }

  /** A configuration step agrees with the channel it makes and keeps it to one page. */
  predicate FitAction(s: Server, a: S.Action) {
    && (a.Create? ==>
          && a.id in s.store.channels && s.store.channels[a.id].policy.retained == a.retained
          && (a.retained ==> Pages.CapFits(a.limits.maxMsgs)))
    && (a.SetLimits? ==> a.maxMsgs < 0 || Pages.CapFits(a.maxMsgs))
  }

  ghost predicate TicketsFit(s: Server) {
    forall t :: t in s.store.tickets ==> FitsOnePage(s.store.tickets[t].policy)
  }

  lemma HandleFits(decode: string -> KeyResult, lim: Limits, s: Server, req: Request)
    requires TicketsFit(s) && lim.msgsPerChannel == RETAINED_MSGS_PER_CHAN
    ensures var s' := Handled(decode, lim, s, req).0;
            && TicketsFit(s') && forall a :: a in Configures(decode, lim, s, Handle(req)) ==> FitAction(s', a)
  {
  }

  lemma StepFits(decode: string -> KeyResult, lim: Limits, s: Server, a: Action)
    requires TicketsFit(s) && lim.msgsPerChannel == RETAINED_MSGS_PER_CHAN && KeepsToOnePage(a)
    ensures var s' := Step(decode, lim, s, a);
            && TicketsFit(s') && forall sa :: sa in Configures(decode, lim, s, a) ==> FitAction(s', sa)
  {
    if a.Handle? {
      HandleFits(decode, lim, s, a.req);
    }
  }

  /** A channel that is retained stays so, and one that is not never is. */
  lemma StepKeepsFit(decode: string -> KeyResult, lim: Limits, s: Server, a: Action, sa: S.Action)
    requires FitAction(s, sa)
    ensures FitAction(Step(decode, lim, s, a), sa)
  {
  }

  lemma {:induction false} AllFit(decode: string -> KeyResult, lim: Limits, acts: seq<Action>)
    requires lim.msgsPerChannel == RETAINED_MSGS_PER_CHAN && forall a :: a in acts ==> KeepsToOnePage(a)
    ensures TicketsFit(Run(decode, lim, acts))
    ensures forall sa :: sa in Configured(decode, lim, acts) ==> FitAction(Run(decode, lim, acts), sa)
  {
    if acts != [] {
      var before, a := acts[..|acts| - 1], acts[|acts| - 1];
      var s := Run(decode, lim, before);
      assert a in acts;
      AllFit(decode, lim, before);
      StepFits(decode, lim, s, a);
      forall sa | sa in Configured(decode, lim, acts)
        ensures FitAction(Run(decode, lim, acts), sa)
      {
        if sa in Configured(decode, lim, before) {
          StepKeepsFit(decode, lim, s, a, sa);
        }
      }
    }
  }

  /** The message store's run configures the channel only as these requests do. */
  ghost predicate ConfiguredBy(store: seq<S.Action>, id: Id, configured: seq<S.Action>) {
    forall a :: a in store && (a.Create? || a.SetLimits?) && a.id == id ==> a in configured
  }

  /** Under the default limits a retained channel that the create handler has made, with grants and
      overrides that keep to them, can be caught up on in one page: in whatever the message store does
      with it, appends and sweeps included, the page of a thousand is complete. */
  lemma RetainedFitOnePage(decode: string -> KeyResult, lim: Limits, acts: seq<Action>, id: Id,
                           cap: int, store: seq<S.Action>, after: nat, now: int)
    requires lim.msgsPerChannel == RETAINED_MSGS_PER_CHAN && forall a :: a in acts ==> KeepsToOnePage(a)
    requires var s := Run(decode, lim, acts); id in s.store.channels && s.store.channels[id].policy.retained
    requires ConfiguredBy(store, id, Configured(decode, lim, acts)) && id in S.Run(cap, store).chans
    ensures var es := S.Run(cap, store).chans[id].stream;
            Pages.WholePage(S.CatchUp(es, after, 1000, now), es, after, now)
  {
    AllFit(decode, lim, acts);
    forall a | a in store
      ensures Pages.CapStaysFit(a, id)
    {
      if (a.Create? || a.SetLimits?) && a.id == id {
        assert FitAction(Run(decode, lim, acts), a);
      }
    }
    Pages.DefaultCatchUpIsComplete(cap, store, id, after, now);
  }
}

/** The registry and the handler as objects. */
module RegistryObjects {
  import opened Grants
  import opened Registry

  class AuthRegistry {
    var channels: map<Id, Key>
    const decode: string -> KeyResult

    constructor (decode: string -> KeyResult)
      ensures channels == map[] && this.decode == decode
    {
      channels := map[];
      this.decode := decode;
    }

    /** Refused for the empty name and for a name already taken. */
    method Register(channel: Id, key: Key) returns (ok: bool)
      modifies this
      ensures ok <==> channel != "" && channel !in old(channels)
      ensures channels == if ok then old(channels)[channel := key] else old(channels)
    {
      if channel == "" {
        return false;
      }
      if channel in channels {
        return false;
      }
      channels := channels[channel := key];
      return true;
    }

    method Remove(channel: Id)
      modifies this
      ensures channels == old(channels) - {channel}
    {
      channels := channels - {channel};
    }

    predicate HasChannel(channel: Id)
      reads this
    {
      channel in channels
    }

    /** Both cases compute a response, a throwaway one for an unknown channel. */
    method Verify(prf: (Key, seq<nat>) -> seq<nat>, dummy: Key, channel: Id, challenge: seq<nat>, response: seq<nat>) returns (ok: bool)
      ensures ok <==> channel in channels && response == prf(channels[channel], challenge)
      ensures ok == Admits(prf, channels, channel, challenge, response)
    {
      var known := channel in channels;
      var expected;
      if known {
        expected := prf(channels[channel], challenge);
      } else {
        expected := prf(dummy, challenge);
      }
      ok := known && expected == response;
    }

    /** Replace the registry by what a snapshot holds. */
    method Load(snap: map<Id, string>)
      modifies this
      ensures channels == Loaded(decode, snap)
    {
      channels := map[];
      var ids := snap.Keys;
      while ids != {}
        invariant ids <= snap.Keys
        invariant channels == map id | id in snap && id !in ids && decode(snap[id]).Decoded? :: decode(snap[id]).key
        decreases |ids|
      {
        var id :| id in ids;
        ids := ids - {id};
        if decode(snap[id]).Decoded? {
          channels := channels[id := decode(snap[id]).key];
        }
      }
    }
  }

  class TransportServer {
    const store: ChannelStore?
    const reg: AuthRegistry
    const lim: Limits

    constructor (store: ChannelStore?, reg: AuthRegistry, lim: Limits)
      ensures this.store == store && this.reg == reg && this.lim == lim
    {
      this.store, this.reg, this.lim := store, reg, lim;
    }

    function View(): Server
      requires store != null
      reads store, reg
    {
      Server(store.View(), reg.channels)
    }

    /** The create handler: the step of the request machine, with or without a store, and its status. */
    method HandleCreateChannel(req: Request) returns (status: Status)
      modifies store, reg
      ensures store != null ==> (View(), status) == Handled(reg.decode, lim, old(View()), req)
      ensures store == null ==> (reg.channels, status) == HandledAlone(reg.decode, old(reg.channels), req)
    {
      if !req.allowed {
        return TooManyRequests;
      }
      if req.channel == "" {
        return BadRequest;
      }
      var key: Key := [];
      var plaintext := req.authKey == "";
      if !plaintext {
        var k := reg.decode(req.authKey);
        if k.Malformed? {
          return BadRequest;
        }
        key := k.key;
      }
      if req.ticket != "" {
        if store == null {
          return NotImplemented;
        }
        var r := store.CreateChannelWithTicket(req.ticket, req.channel, req.authKey, req.owner);
        if r != Done {
          return StatusOf(r);
        }
        if !plaintext {
          var _ := reg.Register(req.channel, key);
        }
        return Ok;
      }
      if plaintext && !req.retain {
        return BadRequest;
      }
      if req.retain {
        if store == null {
          return NotImplemented;
        }
        var r := store.CreateChannel(req.channel, req.owner, req.authKey, RetainedPolicy(lim, req), OwnerCap(lim, req.owner));
        if r != Done {
          return StatusOf(r);
        }
        if !plaintext {
          var _ := reg.Register(req.channel, key);
        }
        return Ok;
      }
      if store != null {
        var _ := store.CreateChannel(req.channel, "", req.authKey, NO_POLICY, ANONYMOUS_CAP);
      }
      var registered := reg.Register(req.channel, key);
      return if registered then Ok else Conflict;
    }

    /** A restart: the registry is loaded from the store. */
    method Restart()
      requires store != null
      modifies reg
      ensures View() == Registry.Step(reg.decode, lim, old(View()), Registry.Restart)
    {
      var keys := store.AllChannelKAuth();
      reg.Load(keys);
    }

    /** The guard of the open paths. */
    method GuardPublicTopic(topic: Id) returns (allowed: bool)
      ensures allowed <==> topic != "" && topic !in reg.channels
      ensures store != null ==> (allowed <==> GuardAllows(View(), topic))
    {
      if topic == "" {
        return false;
      }
      return !reg.HasChannel(topic);
    }
  }
}
