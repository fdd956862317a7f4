/** Channel creation: self-service under a per-account cap, and by single-use grant tickets. */
module Grants {
  import opened Eviction

  type Id = string

  // --- what a ticket applies to ---

  /** Lua's string.sub: positions count from one, negative ones from the end, and both are clamped. */
  function LuaSub(s: string, i: int, j: int): string {
    var n := |s|;
    var from := if i < 0 then (if n + i + 1 < 1 then 1 else n + i + 1) else if i == 0 then 1 else i;
    var to := if j < 0 then n + j + 1 else if j > n then n else j;
    if from > to then "" else s[from - 1..to]
  }

  /** The test in the redeeming script. */
  predicate ScriptMatches(pattern: string, id: Id) {
    pattern == id ||
    (LuaSub(pattern, -2, -1) == "/*" &&
     var prefix := LuaSub(pattern, 1, |pattern| - 1);
     LuaSub(id, 1, |prefix|) == prefix)
  }

  /** The same test written in Go. */
  predicate ChannelMatches(pattern: string, id: Id) {
    pattern == id ||
    (|pattern| >= 2 && pattern[|pattern| - 2..] == "/*" && pattern[..|pattern| - 1] <= id)
  }

  /** The two agree on all strings. */
  lemma MatchersAgree(pattern: string, id: Id)
    ensures ScriptMatches(pattern, id) <==> ChannelMatches(pattern, id)
  {
    var n := |pattern|;
    if n >= 2 {
      assert LuaSub(pattern, -2, -1) == pattern[n - 2..];
      var prefix := LuaSub(pattern, 1, n - 1);
      assert prefix == pattern[..n - 1];
      if |prefix| <= |id| {
        assert LuaSub(id, 1, |prefix|) == id[..|prefix|];
      } else {
        assert |LuaSub(id, 1, |prefix|)| <= |id|;
      }
    } else {
      assert |LuaSub(pattern, -2, -1)| <= 1;
      assert "/*"[0] == '/';
    }
  }

  /** A namespace ticket reaches exactly the ids under its slash. */
  lemma NamespaceReaches(space: string, id: Id)
    requires id != space + "/*"
    ensures ScriptMatches(space + "/*", id) <==> |id| > |space| && id[..|space|] == space && id[|space|] == '/'
  {
    var pattern := space + "/*";
    MatchersAgree(pattern, id);
    assert pattern[|pattern| - 2..] == "/*";
    assert pattern[..|pattern| - 1] == space + "/";
    UnderSlash(space, id);
  }

  lemma UnderSlash(space: string, id: Id)
    ensures space + "/" <= id <==> |id| > |space| && id[..|space|] == space && id[|space|] == '/'
  {
    var p := space + "/";
    assert p[..|space|] == space && p[|space|] == '/';
    if |id| > |space| {
      assert id[..|p|] == id[..|space|] + [id[|space|]];
      assert id[..|p|][..|space|] == id[..|space|];
    }
  }

  // --- the store's part of it ---

  datatype Policy = Policy(retained: bool, limits: Limits)

  datatype Grant = Grant(pattern: string, policy: Policy)

  datatype Config = Config(owner: string, kAuth: string, policy: Policy)

  datatype Store = Store(tickets: map<string, Grant>, channels: map<Id, Config>, counts: map<string, int>)

  datatype Reply = Done | Exists | TooMany | BadTicket

  function CountOf(s: Store, owner: string): int {
    if owner in s.counts then s.counts[owner] else 0
  }

  /** A cap of zero or less stands for this one. */
  const NO_CAP: int := 0x4000_0000

  function Effective(cap: int): int { if cap <= 0 then NO_CAP else cap }

  function CreateReply(s: Store, cap: int, id: Id, owner: string): Reply {
    if id in s.channels then Exists
    else if owner != "" && CountOf(s, owner) >= Effective(cap) then TooMany
    else Done
  }

  /** The self-service script. */
  function Created(s: Store, cap: int, id: Id, owner: string, kAuth: string, policy: Policy): Store {
    if CreateReply(s, cap, id, owner) != Done then s
    else
      s.(channels := s.channels[id := Config(owner, kAuth, policy)],
         counts := if owner != "" then s.counts[owner := CountOf(s, owner) + 1] else s.counts)
  }

  function RedeemReply(s: Store, ticket: string, id: Id): Reply {
    if ticket == "" || id == "" then BadTicket
    else if ticket !in s.tickets then BadTicket
    else if !ScriptMatches(s.tickets[ticket].pattern, id) then BadTicket
    else if id in s.channels then Exists
    else Done
  }

  /** The redeeming script: the policy is the ticket's, and the ticket is used up. */
  function Redeemed(s: Store, ticket: string, id: Id, kAuth: string, owner: string): Store {
    if RedeemReply(s, ticket, id) != Done then s
    else
      s.(channels := s.channels[id := Config(owner, kAuth, s.tickets[ticket].policy)], tickets := s.tickets - {ticket})
  }

  function Relimited(c: Config, ttl: int, maxBytes: int, maxMsgs: int): Config {
    c.(policy := c.policy.(limits := Override(c.policy.limits, ttl, maxBytes, maxMsgs)))
  }

  /** The admin's override of a channel's limits. */
  function Limited(s: Store, id: Id, ttl: int, maxBytes: int, maxMsgs: int): Store {
    if id !in s.channels then s
    else s.(channels := s.channels[id := Relimited(s.channels[id], ttl, maxBytes, maxMsgs)])
  }

  // --- runs, with what became of every ticket ---

  /** The store, every grant ever issued, the tickets that ran out, who used which ticket, and the
      policy each channel was made with. */
  datatype World = World(
    store: Store, issued: map<string, Grant>, expired: set<string>, usedBy: map<string, Id>, made: map<Id, Policy>)

  datatype Action =
    | Issue(ticket: string, grant: Grant)
    | Expire(ticket: string)
    | Redeem(ticket: string, id: Id, kAuth: string, owner: string)
    | Create(id: Id, owner: string, kAuth: string, policy: Policy)
    | SetLimits(id: Id, ttl: int, maxBytes: int, maxMsgs: int)

  const START := World(Store(map[], map[], map[]), map[], {}, map[], map[])

  /** One step. Ticket ids are fresh random ones, so an id is issued once. */
  function Step(cap: int, w: World, a: Action): World {
    match a
    case Issue(ticket, grant) =>
      if ticket in w.issued then w
      else w.(store := w.store.(tickets := w.store.tickets[ticket := grant]), issued := w.issued[ticket := grant])
    case Expire(ticket) =>
      if ticket !in w.store.tickets then w
      else w.(store := w.store.(tickets := w.store.tickets - {ticket}), expired := w.expired + {ticket})
    case Redeem(ticket, id, kAuth, owner) =>
      if RedeemReply(w.store, ticket, id) != Done then w
      else
        w.(store := Redeemed(w.store, ticket, id, kAuth, owner),
           usedBy := w.usedBy[ticket := id], made := w.made[id := w.store.tickets[ticket].policy])
    case Create(id, owner, kAuth, policy) =>
      if CreateReply(w.store, cap, id, owner) != Done then w
      else w.(store := Created(w.store, cap, id, owner, kAuth, policy), made := w.made[id := policy])
    case SetLimits(id, ttl, maxBytes, maxMsgs) => w.(store := Limited(w.store, id, ttl, maxBytes, maxMsgs))
  }

  function Run(cap: int, acts: seq<Action>): World {
    if acts == [] then START else Step(cap, Run(cap, acts[..|acts| - 1]), acts[|acts| - 1])
  }

  /** Made by self-service, not by a ticket. */
  predicate SelfMade(w: World, id: Id) {
    id in w.store.channels && forall t :: t in w.usedBy ==> w.usedBy[t] != id
  }

  ghost function SelfMadeBy(w: World, owner: string): set<Id> {
    set id | id in w.store.channels && SelfMade(w, id) && w.store.channels[id].owner == owner
  }

  /** Every ticket is in exactly one place. */
  ghost predicate TicketsRight(w: World) {
    && (forall t :: t in w.issued <==> t in w.store.tickets || t in w.expired || t in w.usedBy)
    && (forall t :: t in w.store.tickets ==> t !in w.expired && t !in w.usedBy && w.store.tickets[t] == w.issued[t])
    && (forall t :: t in w.expired ==> t !in w.usedBy)
  }

  /** A used ticket made a channel that it applies to, with its own policy. */
  ghost predicate UseRight(w: World, t: string)
    requires t in w.usedBy
  {
    var id := w.usedBy[t];
    && t in w.issued && id in w.store.channels && id in w.made
    && ScriptMatches(w.issued[t].pattern, id) && w.made[id] == w.issued[t].policy
  }

  /** And no two tickets made the same channel. */
  ghost predicate UsesRight(w: World) {
    && (forall t :: t in w.usedBy ==> UseRight(w, t))
    && (forall t, u :: t in w.usedBy && u in w.usedBy && w.usedBy[t] == w.usedBy[u] ==> t == u)
  }

  ghost predicate CountRight(cap: int, w: World, owner: string) {
    owner != "" ==> CountOf(w.store, owner) == |SelfMadeBy(w, owner)| <= Effective(cap)
  }

  ghost predicate Right(cap: int, w: World) {
    && TicketsRight(w) && UsesRight(w) && w.made.Keys == w.store.channels.Keys
    && forall o :: CountRight(cap, w, o)
  }

  lemma StepKeepsTickets(cap: int, w: World, a: Action)
    requires TicketsRight(w)
    ensures TicketsRight(Step(cap, w, a))
  {
  }

  lemma StepKeepsUses(cap: int, w: World, a: Action)
    requires TicketsRight(w) && UsesRight(w) && w.made.Keys == w.store.channels.Keys
    ensures UsesRight(Step(cap, w, a)) && Step(cap, w, a).made.Keys == Step(cap, w, a).store.channels.Keys
  {
    if !a.Redeem? {
      OthersKeepMade(cap, w, a);
      UsesStay(w, Step(cap, w, a));
    } else if Step(cap, w, a) != w {
      RedeemKeepsUses(cap, w, a);
    }
  }

  /** What was issued, used and made is as it was. */
  ghost predicate MadeStays(w: World, w': World) {
    && w'.usedBy == w.usedBy && w.store.channels.Keys <= w'.store.channels.Keys
    && (forall t :: t in w.issued ==> t in w'.issued && w'.issued[t] == w.issued[t])
    && (forall id :: id in w.made ==> id in w'.made && w'.made[id] == w.made[id])
  }

  lemma OthersKeepMade(cap: int, w: World, a: Action)
    requires !a.Redeem? && w.made.Keys == w.store.channels.Keys
    ensures MadeStays(w, Step(cap, w, a)) && Step(cap, w, a).made.Keys == Step(cap, w, a).store.channels.Keys
  {
  }

  lemma UsesStay(w: World, w': World)
    requires UsesRight(w) && MadeStays(w, w')
    ensures UsesRight(w')
  {
    forall t | t in w'.usedBy
      ensures UseRight(w', t)
    {
      assert UseRight(w, t);
    }
  }

  lemma RedeemKeepsUses(cap: int, w: World, a: Action)
    requires TicketsRight(w) && UsesRight(w) && w.made.Keys == w.store.channels.Keys
    requires a.Redeem? && RedeemReply(w.store, a.ticket, a.id) == Done
    ensures UsesRight(Step(cap, w, a)) && Step(cap, w, a).made.Keys == Step(cap, w, a).store.channels.Keys
  {
    var w' := Step(cap, w, a);
    forall t | t in w'.usedBy
      ensures UseRight(w', t) && (t != a.ticket ==> w'.usedBy[t] != a.id)
    {
      assert t != a.ticket ==> UseRight(w, t);
    }
  }

  lemma StepKeepsCounts(cap: int, w: World, a: Action, owner: string)
    requires TicketsRight(w) && UsesRight(w) && CountRight(cap, w, owner)
    ensures CountRight(cap, Step(cap, w, a), owner)
  {
    if Step(cap, w, a) != w && owner != "" {
      if a.Create? {
        CreateCounts(cap, w, a, owner);
      } else if a.Redeem? {
        RedeemCountsNot(cap, w, a, owner);
      } else {
        OthersCountNot(cap, w, a, owner);
      }
    }
  }

  lemma SelfMadeAfterCreate(cap: int, w: World, a: Action, id: Id)
    requires UsesRight(w) && a.Create? && CreateReply(w.store, cap, a.id, a.owner) == Done
    ensures SelfMade(Step(cap, w, a), id) <==> SelfMade(w, id) || id == a.id
  {
    var w' := Step(cap, w, a);
    assert w'.usedBy == w.usedBy && w'.store.channels.Keys == w.store.channels.Keys + {a.id};
    forall t | t in w.usedBy
      ensures w.usedBy[t] != a.id
    {
      assert UseRight(w, t);
    }
  }

  lemma CreateCounts(cap: int, w: World, a: Action, owner: string)
    requires UsesRight(w) && a.Create? && CreateReply(w.store, cap, a.id, a.owner) == Done && owner != ""
    ensures var w' := Step(cap, w, a);
            && CountOf(w'.store, owner) == CountOf(w.store, owner) + (if a.owner == owner then 1 else 0)
            && |SelfMadeBy(w', owner)| == |SelfMadeBy(w, owner)| + (if a.owner == owner then 1 else 0)
  {
    var w' := Step(cap, w, a);
    forall id
      ensures id in SelfMadeBy(w', owner) <==> id in SelfMadeBy(w, owner) || (id == a.id && a.owner == owner)
    {
      SelfMadeAfterCreate(cap, w, a, id);
    }
    assert SelfMadeBy(w', owner) == SelfMadeBy(w, owner) + (if a.owner == owner then {a.id} else {});
  }

  lemma RedeemCountsNot(cap: int, w: World, a: Action, owner: string)
    requires TicketsRight(w) && a.Redeem? && RedeemReply(w.store, a.ticket, a.id) == Done
    ensures SelfMadeBy(Step(cap, w, a), owner) == SelfMadeBy(w, owner)
    ensures CountOf(Step(cap, w, a).store, owner) == CountOf(w.store, owner)
  {
    var w' := Step(cap, w, a);
    assert a.ticket in w'.usedBy && w'.usedBy[a.ticket] == a.id;
    forall id
      ensures id in SelfMadeBy(w', owner) <==> id in SelfMadeBy(w, owner)
    {
      if id != a.id && id in w.store.channels {
        assert forall t :: t in w.usedBy ==> t in w'.usedBy && w'.usedBy[t] == w.usedBy[t];
        assert SelfMade(w', id) <==> SelfMade(w, id);
      }
    }
  }

  lemma OthersCountNot(cap: int, w: World, a: Action, owner: string)
    requires !a.Create? && !a.Redeem?
    ensures SelfMadeBy(Step(cap, w, a), owner) == SelfMadeBy(w, owner)
    ensures CountOf(Step(cap, w, a).store, owner) == CountOf(w.store, owner)
  {
    var w' := Step(cap, w, a);
    assert w'.usedBy == w.usedBy && w'.store.channels.Keys == w.store.channels.Keys;
    forall id
      ensures id in SelfMadeBy(w', owner) <==> id in SelfMadeBy(w, owner)
    {
      assert SelfMade(w', id) <==> SelfMade(w, id);
    }
  }

  lemma StepKeepsRight(cap: int, w: World, a: Action)
    requires Right(cap, w)
    ensures Right(cap, Step(cap, w, a))
  {
    StepKeepsTickets(cap, w, a);
    StepKeepsUses(cap, w, a);
    forall o
      ensures CountRight(cap, Step(cap, w, a), o)
    {
      assert CountRight(cap, w, o);
      StepKeepsCounts(cap, w, a, o);
    }
  }

  /** In every run: each issued ticket is in exactly one of outstanding, expired and used; each used
      one made exactly one channel, which it applies to and whose policy it set; and an account's
      counter is the number of its self-made channels, within the cap. */
  lemma {:induction false} RightInEveryRun(cap: int, acts: seq<Action>)
    ensures Right(cap, Run(cap, acts))
  {
    if acts != [] {
      RightInEveryRun(cap, acts[..|acts| - 1]);
      StepKeepsRight(cap, Run(cap, acts[..|acts| - 1]), acts[|acts| - 1]);
    } else {
      forall o
        ensures CountRight(cap, START, o)
      {
        assert SelfMadeBy(START, o) == {};
      }
    }
  }

  // --- what never changes ---

  /** Channels stay, with their owner, their key and the policy they were made with; tickets that
      are used or expired stay so. */
  ghost predicate Later(w: World, w': World) {
    && (forall id :: id in w.store.channels ==>
          && id in w'.store.channels
          && w'.store.channels[id].owner == w.store.channels[id].owner
          && w'.store.channels[id].kAuth == w.store.channels[id].kAuth)
    && (forall id :: id in w.store.channels && id in w.made ==> id in w'.made && w'.made[id] == w.made[id])
    && (forall t :: t in w.usedBy ==> t in w'.usedBy && w'.usedBy[t] == w.usedBy[t])
    && w.expired <= w'.expired
  }

  lemma StepLater(cap: int, w: World, a: Action)
    requires Right(cap, w)
    ensures Later(w, Step(cap, w, a))
  {
    if a.Redeem? {
      RedeemLater(cap, w, a);
    } else {
      OtherLater(cap, w, a);
    }
  }

  lemma RedeemLater(cap: int, w: World, a: Action)
    requires TicketsRight(w) && a.Redeem?
    ensures Later(w, Step(cap, w, a))
  {
  }

  lemma OtherLater(cap: int, w: World, a: Action)
    requires !a.Redeem?
    ensures Later(w, Step(cap, w, a))
  {
  }

  lemma LaterStill(w: World, w': World, w'': World)
    requires Later(w, w') && Later(w', w'')
    ensures Later(w, w'')
  {
  }

  lemma RunStep(cap: int, acts: seq<Action>, a: Action)
    ensures Run(cap, acts + [a]) == Step(cap, Run(cap, acts), a)
  {
    assert (acts + [a])[..|acts + [a]| - 1] == acts;
  }

  lemma {:induction false} NothingMadeChanges(cap: int, acts: seq<Action>, more: seq<Action>)
    ensures Later(Run(cap, acts), Run(cap, acts + more))
    decreases |more|
  {
    if more == [] {
      assert acts + more == acts;
    } else {
      var before, a := acts + more[..|more| - 1], more[|more| - 1];
      NothingMadeChanges(cap, acts, more[..|more| - 1]);
      assert acts + more == before + [a];
      RunStep(cap, before, a);
      RightInEveryRun(cap, before);
      StepLater(cap, Run(cap, before), a);
      LaterStill(Run(cap, acts), Run(cap, before), Run(cap, acts + more));
    }
  }

  /** A ticket works once: after it has been redeemed or has expired, no attempt ever succeeds again. */
  lemma NoReplay(cap: int, acts: seq<Action>, more: seq<Action>, ticket: string, id: Id)
    requires ticket in Run(cap, acts).usedBy || ticket in Run(cap, acts).expired
    ensures RedeemReply(Run(cap, acts + more).store, ticket, id) == BadTicket
  {
    NothingMadeChanges(cap, acts, more);
    RightInEveryRun(cap, acts + more);
  }

  // --- what requests are answered, and what is stored ---

  /** Self-service succeeds exactly for a new id whose account, if any, is below its cap, where no cap
      is one of 2^30. */
  lemma CreateDoneIff(s: Store, cap: int, id: Id, owner: string)
    ensures CreateReply(s, cap, id, owner) == Done <==>
            && id !in s.channels
            && (owner != "" && owner in s.counts ==> s.counts[owner] < (if cap <= 0 then 0x4000_0000 else cap))
            && (owner != "" && owner !in s.counts ==> 0 < (if cap <= 0 then 0x4000_0000 else cap))
    ensures CreateReply(s, cap, id, owner) == Exists <==> id in s.channels
    ensures CreateReply(s, cap, id, owner) != BadTicket
  {
  }

  /** A ticket is redeemed exactly if it is outstanding, applies, and the id is new. */
  lemma RedeemDoneIff(s: Store, ticket: string, id: Id)
    ensures RedeemReply(s, ticket, id) == Done <==>
            && ticket != "" && id != "" && ticket in s.tickets && ChannelMatches(s.tickets[ticket].pattern, id) && id !in s.channels
    ensures RedeemReply(s, ticket, id) == Exists <==>
            && ticket != "" && id != "" && ticket in s.tickets && ChannelMatches(s.tickets[ticket].pattern, id) && id in s.channels
    ensures RedeemReply(s, ticket, id) != TooMany
  {
    if ticket in s.tickets {
      MatchersAgree(s.tickets[ticket].pattern, id);
    }
  }

  /** No limits of the channel are overridden in the run. */
  predicate Untouched(acts: seq<Action>, id: Id) {
    forall a :: a in acts ==> !(a.SetLimits? && a.id == id)
  }

  /** The stored channel is what was asked for: all but its limits always, and these too unless they
      have been overridden. */
  predicate AsAsked(c: Config, owner: string, kAuth: string, policy: Policy, untouched: bool) {
    c.owner == owner && c.kAuth == kAuth && c.policy.retained == policy.retained && (untouched ==> c.policy.limits == policy.limits)
  }

  /** The ticket was issued with this grant and redeemed for the channel, which is stored under the
      grant's policy with the owner and key of the redemption. */
  ghost predicate TicketMade(acts: seq<Action>, w: World, t: string)
    requires t in w.usedBy
  {
    var id := w.usedBy[t];
    && id in w.store.channels && t in w.issued && Issue(t, w.issued[t]) in acts
    && exists kAuth, owner :: Redeem(t, id, kAuth, owner) in acts
         && AsAsked(w.store.channels[id], owner, kAuth, w.issued[t].policy, Untouched(acts, id))
  }

  /** The channel was asked for by self-service and is stored as it was asked for. */
  ghost predicate AskedFor(acts: seq<Action>, w: World, id: Id)
    requires id in w.store.channels
  {
    exists owner, kAuth, policy :: Create(id, owner, kAuth, policy) in acts
      && AsAsked(w.store.channels[id], owner, kAuth, policy, Untouched(acts, id))
  }

  /** The grant under which a ticket counts as issued is the one it was issued with. */
  ghost predicate IssuedRight(acts: seq<Action>, w: World) {
    forall t :: t in w.issued ==> Issue(t, w.issued[t]) in acts
  }

  ghost predicate MadeRight(acts: seq<Action>, w: World) {
    && IssuedRight(acts, w)
    && (forall t :: t in w.usedBy ==> TicketMade(acts, w, t))
    && (forall id :: id in w.store.channels && SelfMade(w, id) ==> AskedFor(acts, w, id))
  }

  /** What a step does to a channel that is stored: nothing, or an override of its limits. */
  lemma StoredStays(cap: int, w: World, a: Action, id: Id)
    requires id in w.store.channels
    ensures var w' := Step(cap, w, a);
            && id in w'.store.channels
            && (!(a.SetLimits? && a.id == id) ==> w'.store.channels[id] == w.store.channels[id])
            && w'.store.channels[id].owner == w.store.channels[id].owner && w'.store.channels[id].kAuth == w.store.channels[id].kAuth
            && w'.store.channels[id].policy.retained == w.store.channels[id].policy.retained
  {
  }

  lemma StillAsked(cap: int, w: World, acts: seq<Action>, a: Action, id: Id, owner: string, kAuth: string, policy: Policy)
    requires id in w.store.channels && AsAsked(w.store.channels[id], owner, kAuth, policy, Untouched(acts, id))
    ensures id in Step(cap, w, a).store.channels
    ensures AsAsked(Step(cap, w, a).store.channels[id], owner, kAuth, policy, Untouched(acts + [a], id))
  {
    StoredStays(cap, w, a, id);
    assert a in acts + [a] && forall x :: x in acts ==> x in acts + [a];
  }

  lemma TicketStillMade(cap: int, acts: seq<Action>, w: World, a: Action, t: string)
    requires t in w.usedBy && TicketMade(acts, w, t) && TicketsRight(w)
    ensures t in Step(cap, w, a).usedBy && TicketMade(acts + [a], Step(cap, w, a), t)
  {
    var id := w.usedBy[t];
    var kAuth, owner :| Redeem(t, id, kAuth, owner) in acts
                        && AsAsked(w.store.channels[id], owner, kAuth, w.issued[t].policy, Untouched(acts, id));
    StillAsked(cap, w, acts, a, id, owner, kAuth, w.issued[t].policy);
    assert Redeem(t, id, kAuth, owner) in acts + [a];
    UsedStays(cap, w, a, t);
  }

  lemma UsedStays(cap: int, w: World, a: Action, t: string)
    requires t in w.usedBy && t in w.issued && TicketsRight(w)
    ensures var w' := Step(cap, w, a); t in w'.usedBy && w'.usedBy[t] == w.usedBy[t] && t in w'.issued && w'.issued[t] == w.issued[t]
  {
  }

  lemma StillAskedFor(cap: int, acts: seq<Action>, w: World, a: Action, id: Id)
    requires id in w.store.channels && AskedFor(acts, w, id)
    ensures id in Step(cap, w, a).store.channels && AskedFor(acts + [a], Step(cap, w, a), id)
  {
    var owner, kAuth, policy :| Create(id, owner, kAuth, policy) in acts
                                && AsAsked(w.store.channels[id], owner, kAuth, policy, Untouched(acts, id));
    StillAsked(cap, w, acts, a, id, owner, kAuth, policy);
    assert Create(id, owner, kAuth, policy) in acts + [a];
  }

  lemma JustRedeemed(cap: int, acts: seq<Action>, w: World, a: Action)
    requires a.Redeem? && RedeemReply(w.store, a.ticket, a.id) == Done && TicketsRight(w) && IssuedRight(acts, w)
    ensures a.ticket in Step(cap, w, a).usedBy && TicketMade(acts + [a], Step(cap, w, a), a.ticket)
  {
    var w' := Step(cap, w, a);
    assert a in acts + [a] && Issue(a.ticket, w.issued[a.ticket]) in acts + [a];
    assert Redeem(a.ticket, a.id, a.kAuth, a.owner) == a;
    assert AsAsked(w'.store.channels[a.id], a.owner, a.kAuth, w.issued[a.ticket].policy, true);
  }

  lemma JustCreated(cap: int, acts: seq<Action>, w: World, a: Action)
    requires a.Create? && CreateReply(w.store, cap, a.id, a.owner) == Done
    ensures a.id in Step(cap, w, a).store.channels && AskedFor(acts + [a], Step(cap, w, a), a.id)
  {
    var w' := Step(cap, w, a);
    assert a in acts + [a] && Create(a.id, a.owner, a.kAuth, a.policy) == a;
    assert AsAsked(w'.store.channels[a.id], a.owner, a.kAuth, a.policy, true);
  }

  lemma StepIssues(cap: int, acts: seq<Action>, w: World, a: Action)
    requires IssuedRight(acts, w)
    ensures IssuedRight(acts + [a], Step(cap, w, a))
  {
    assert a in acts + [a];
  }

  /** A used ticket was used before or is being redeemed; a stored self-made channel was one before or
      is being created. */
  lemma WhatIsNew(cap: int, w: World, a: Action)
    requires Right(cap, w)
    ensures var w' := Step(cap, w, a);
            && (forall t :: t in w'.usedBy ==> t in w.usedBy || (a.Redeem? && t == a.ticket && RedeemReply(w.store, t, a.id) == Done))
            && (forall id :: id in w'.store.channels && SelfMade(w', id) ==>
                  (id in w.store.channels && SelfMade(w, id)) || (a.Create? && id == a.id && CreateReply(w.store, cap, id, a.owner) == Done))
  {
    var w' := Step(cap, w, a);
    assert forall t :: t in w.usedBy ==> UseRight(w, t);
    if a.Redeem? && RedeemReply(w.store, a.ticket, a.id) == Done {
      assert a.ticket in w'.usedBy && w'.usedBy[a.ticket] == a.id;
    }
    forall id | id in w'.store.channels && SelfMade(w', id)
      ensures (id in w.store.channels && SelfMade(w, id)) || (a.Create? && id == a.id && CreateReply(w.store, cap, id, a.owner) == Done)
    {
      assert forall t :: t in w.usedBy ==> t in w'.usedBy && w'.usedBy[t] == w.usedBy[t];
    }
  }

  lemma StepKeepsMade(cap: int, acts: seq<Action>, w: World, a: Action)
    requires Right(cap, w) && MadeRight(acts, w)
    ensures MadeRight(acts + [a], Step(cap, w, a))
  {
    var w' := Step(cap, w, a);
    StepIssues(cap, acts, w, a);
    WhatIsNew(cap, w, a);
    forall t | t in w'.usedBy
      ensures TicketMade(acts + [a], w', t)
    {
      if t in w.usedBy {
        TicketStillMade(cap, acts, w, a, t);
      } else {
        JustRedeemed(cap, acts, w, a);
      }
    }
    forall id | id in w'.store.channels && SelfMade(w', id)
      ensures AskedFor(acts + [a], w', id)
    {
      if id in w.store.channels && SelfMade(w, id) {
        StillAskedFor(cap, acts, w, a, id);
      } else {
        JustCreated(cap, acts, w, a);
      }
    }
  }

  /** In every run each stored channel is as it was asked for: one made by a ticket has the policy the
      ticket was issued with, one made by self-service that of its request, owner and key are those of
      the request, and only an override of its limits ever changes anything of it. */
  lemma {:induction false} StoredAsAsked(cap: int, acts: seq<Action>)
    ensures MadeRight(acts, Run(cap, acts))
  {
    if acts != [] {
      var before, a := acts[..|acts| - 1], acts[|acts| - 1];
      StoredAsAsked(cap, before);
      RightInEveryRun(cap, before);
      StepKeepsMade(cap, before, Run(cap, before), a);
      assert acts == before + [a];
    }
  }

  // --- the store object ---

  class ChannelStore {
    var tickets: map<string, Grant>
    var channels: map<Id, Config>
    var counts: map<string, int>

    constructor ()
      ensures View() == START.store
    {
      tickets, channels, counts := map[], map[], map[];
    }

    function View(): Store
      reads this
    {
      Store(tickets, channels, counts)
    }

    method IssueGrant(ticket: string, g: Grant)
      requires ticket !in tickets
      modifies this
      ensures View() == old(View()).(tickets := old(tickets)[ticket := g])
    {
      tickets := tickets[ticket := g];
    }

    method CreateChannel(id: Id, owner: string, kAuth: string, policy: Policy, channelsPerAccountCap: int) returns (r: Reply)
      modifies this
      ensures r == CreateReply(old(View()), channelsPerAccountCap, id, owner)
      ensures View() == Created(old(View()), channelsPerAccountCap, id, owner, kAuth, policy)
      ensures r == Done ==>
                && channels == old(channels)[id := Config(owner, kAuth, policy)] && tickets == old(tickets)
                && (owner == "" ==> counts == old(counts))
                && (owner != "" ==> counts == old(counts)[owner := old(CountOf(View(), owner)) + 1])
      ensures r != Done ==> View() == old(View())
    {
      var cap := channelsPerAccountCap;
      if cap <= 0 {
        cap := NO_CAP;
      }
      if id in channels {
        return Exists;
      }
      if owner != "" {
        var n := if owner in counts then counts[owner] else 0;
        if n >= cap {
          return TooMany;
        }
      }
      channels := channels[id := Config(owner, kAuth, policy)];
      if owner != "" {
        counts := counts[owner := (if owner in counts then counts[owner] else 0) + 1];
      }
      return Done;
    }

    method CreateChannelWithTicket(ticket: string, id: Id, kAuth: string, owner: string) returns (r: Reply)
      modifies this
      ensures r == RedeemReply(old(View()), ticket, id)
      ensures View() == Redeemed(old(View()), ticket, id, kAuth, owner)
      ensures r == Done <==> ticket != "" && id != "" && ticket in old(tickets)
                             && ChannelMatches(old(tickets)[ticket].pattern, id) && id !in old(channels)
      ensures r == Done ==>
                && channels == old(channels)[id := Config(owner, kAuth, old(tickets)[ticket].policy)]
                && tickets == old(tickets) - {ticket} && counts == old(counts)
      ensures r != Done ==> View() == old(View())
    {
      RedeemDoneIff(View(), ticket, id);
      if ticket == "" || id == "" {
        return BadTicket;
      }
      if ticket !in tickets {
        return BadTicket;
      }
      var g := tickets[ticket];
      if !ScriptMatches(g.pattern, id) {
        return BadTicket;
      }
      if id in channels {
        return Exists;
      }
      channels := channels[id := Config(owner, kAuth, g.policy)];
      tickets := tickets - {ticket};
      return Done;
    }

    method SetChannelLimits(id: Id, ttl: int, maxBytes: int, maxMsgs: int) returns (found: bool)
      modifies this
      ensures found <==> id in old(channels)
      ensures View() == Limited(old(View()), id, ttl, maxBytes, maxMsgs)
      ensures found ==>
                var lim, was := channels[id].policy.limits, old(channels)[id].policy.limits;
                && lim.ttl == (if ttl >= 0 then ttl else was.ttl)
                && lim.maxBytes == (if maxBytes >= 0 then maxBytes else was.maxBytes)
                && lim.maxMsgs == (if maxMsgs >= 0 then maxMsgs else was.maxMsgs)
    {
      if id !in channels {
        return false;
      }
      var p := channels[id].policy.limits;
      if ttl >= 0 {
        p := p.(ttl := ttl);
      }
      if maxBytes >= 0 {
        p := p.(maxBytes := maxBytes);
      }
      if maxMsgs >= 0 {
        p := p.(maxMsgs := maxMsgs);
      }
      channels := channels[id := channels[id].(policy := channels[id].policy.(limits := p))];
      return true;
    }

    /** Every channel id with its key. */
    method AllChannelKAuth() returns (keys: map<Id, string>)
      ensures keys == map id | id in channels :: channels[id].kAuth
    {
      keys := map[];
      var ids := channels.Keys;
      while ids != {}
        invariant ids <= channels.Keys
        invariant keys == map id | id in channels.Keys - ids :: channels[id].kAuth
        decreases |ids|
      {
        var id :| id in ids;
        ids := ids - {id};
        keys := keys[id := channels[id].kAuth];
      }
    }
  }
}
