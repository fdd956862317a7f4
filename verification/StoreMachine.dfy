/** The store as a state machine. Each Lua script and each single Redis command is one step;
    an append is two of them (read the channel's configuration, run the script) and a sweep is
    many. Clock readings come with the steps, so a run may carry any clock behaviour. */
module StoreMachine {
  import opened Eviction

  type Id = string

  /** A channel: its configuration, its stream, the top id the stream ever had, and its usage. */
  datatype Channel = Channel(
    owner: string, kAuth: string, retained: bool, limits: Limits,
    stream: seq<Entry>, lastId: nat, bytes: int, msgs: int, nextSeq: nat)

  function NewChannel(owner: string, kAuth: string, retained: bool, limits: Limits): Channel {
    Channel(owner, kAuth, retained, limits, [], 0, 0, 0, 1)
  }

  /** An append that has read the configuration and not yet run the script. */
  datatype Appender = Appender(id: Id, owner: string, limits: Limits)

  /** What a sweeper that has deleted an entry has still to take off the counters. */
  datatype Due =
    | NoDue
    | DueBytes(size: nat)
    | DueMsgs(size: nat)
    | DueOwner(size: nat)
    | DueAccount(owner: string, size: nat)

  /** A sweeper between two commands: its clock reading, the channels still to visit, the
      channel it is on, the rest of that channel's snapshot, and what it owes. */
  datatype Sweeper = Sweeper(now: int, ids: seq<Id>, id: Id, rest: seq<Entry>, due: Due)

  datatype Store = Store(
    chans: map<Id, Channel>, acctBytes: map<string, int>,
    appenders: map<nat, Appender>, sweepers: map<nat, Sweeper>)

  datatype Action =
    | Create(id: Id, owner: string, kAuth: string, retained: bool, limits: Limits)
    | SetLimits(id: Id, ttl: int, maxBytes: int, maxMsgs: int)
    | ReadConfig(p: nat, id: Id)
    | RunAppend(p: nat, blob: Blob, now: int)
    | SweepBegin(w: nat, now: int, ids: seq<Id>)
    | SweepScan(w: nat)
    | SweepVisit(w: nat)
    | SweepPay(w: nat)

  const EMPTY := Store(map[], map[], map[], map[])

  function Account(s: Store, owner: string): int {
    if owner in s.acctBytes then s.acctBytes[owner] else 0
  }

  // --- append ---

  datatype AppendResult = Appended(seqNo: nat) | QuotaExceeded | IdRefused

  datatype AppendOutcome = AppendOutcome(channel: Channel, account: int, result: AppendResult)

  function Expiry(ttl: int, now: int): int {
    if ttl > 0 then now + ttl else 0
  }

  /** The append script: quota check, stream append under the explicit id, counters, eviction.
      The stream refuses an id that is not above every earlier one. */
  function AppendScript(c: Channel, account: int, hasOwner: bool, lim: Limits, cap: int, blob: Blob, now: int): AppendOutcome {
    if hasOwner && cap > 0 && account + |blob| > cap then AppendOutcome(c, account, QuotaExceeded)
    else if c.nextSeq <= c.lastId then AppendOutcome(c, account, IdRefused)
    else
      var e := Entry(c.nextSeq, blob, Expiry(lim.ttl, now), |blob|);
      var full := Ring(c.stream + [e], c.bytes + |blob|, c.msgs + 1);
      var r := Evict(full, lim);
      AppendOutcome(
        c.(stream := r.stream, lastId := c.nextSeq, bytes := r.bytes, msgs := r.msgs, nextSeq := c.nextSeq + 1),
        if hasOwner then account + |blob| - (full.bytes - r.bytes) else account,
        Appended(c.nextSeq))
  }

  function RunAppendStep(cap: int, s: Store, p: nat, blob: Blob, now: int): Store
    requires p in s.appenders && s.appenders[p].id in s.chans
  {
    var ap := s.appenders[p];
    var hasOwner := ap.owner != "";
    var out := AppendScript(s.chans[ap.id], Account(s, ap.owner), hasOwner, ap.limits, cap, blob, now);
    s.(chans := s.chans[ap.id := out.channel],
       acctBytes := if hasOwner then s.acctBytes[ap.owner := out.account] else s.acctBytes,
       appenders := s.appenders - {p})
  }

  // --- sweeping ---

  predicate Busy(w: Sweeper) {
    w.rest != [] || w.due != NoDue
  }

  /** The sweeper passes over entries that never expire or have not expired yet. */
  predicate Sweepable(e: Entry, now: int) {
    !(e.exp == 0 || e.exp > now)
  }

  predicate Holds(es: seq<Entry>, id: nat) {
    exists e :: e in es && e.id == id
  }

  /** XDEL of one id. */
  function Without(es: seq<Entry>, id: nat): seq<Entry> {
    if es == [] then []
    else if es[0].id == id then es[1..]
    else [es[0]] + Without(es[1..], id)
  }

  /** Go on to the next entry of the snapshot: pass over it, find it already gone, or delete it
      and owe its share of the counters. */
  function VisitStep(s: Store, k: nat): Store
    requires k in s.sweepers && s.sweepers[k].rest != [] && s.sweepers[k].id in s.chans
  {
    var w := s.sweepers[k];
    var e, c := w.rest[0], s.chans[w.id];
    var w' := w.(rest := w.rest[1..]);
    if !Sweepable(e, w.now) || !Holds(c.stream, e.id) then s.(sweepers := s.sweepers[k := w'])
    else
      s.(sweepers := s.sweepers[k := w'.(due := DueBytes(e.size))],
         chans := s.chans[w.id := c.(stream := Without(c.stream, e.id))])
  }

  /** The next of the four commands that follow a deletion. */
  function PayStep(s: Store, k: nat): Store
    requires k in s.sweepers && s.sweepers[k].due != NoDue && s.sweepers[k].id in s.chans
  {
    var w := s.sweepers[k];
    var c := s.chans[w.id];
    match w.due
    case DueBytes(size) =>
      s.(chans := s.chans[w.id := c.(bytes := c.bytes - size)],
         sweepers := s.sweepers[k := w.(due := DueMsgs(size))])
    case DueMsgs(size) =>
      s.(chans := s.chans[w.id := c.(msgs := c.msgs - 1)],
         sweepers := s.sweepers[k := w.(due := DueOwner(size))])
    case DueOwner(size) =>
      s.(sweepers := s.sweepers[k := w.(due := if c.owner == "" then NoDue else DueAccount(c.owner, size))])
    case DueAccount(owner, size) =>
      s.(acctBytes := s.acctBytes[owner := Account(s, owner) - size],
         sweepers := s.sweepers[k := w.(due := NoDue)])
  }

  // --- steps and runs ---

  /** One step; an action whose turn it is not leaves the store as it is. */
  function Apply(cap: int, s: Store, a: Action): Store {
    match a
    case Create(id, owner, kAuth, retained, limits) =>
      if id in s.chans then s else s.(chans := s.chans[id := NewChannel(owner, kAuth, retained, limits)])
    case SetLimits(id, ttl, maxBytes, maxMsgs) =>
      if id !in s.chans then s
      else
        var c := s.chans[id];
        s.(chans := s.chans[id := c.(limits := Override(c.limits, ttl, maxBytes, maxMsgs))])
    case ReadConfig(p, id) =>
      if id !in s.chans || !s.chans[id].retained then s
      else s.(appenders := s.appenders[p := Appender(id, s.chans[id].owner, s.chans[id].limits)])
    case RunAppend(p, blob, now) =>
      if p in s.appenders && s.appenders[p].id in s.chans then RunAppendStep(cap, s, p, blob, now) else s
    case SweepBegin(k, now, ids) =>
      if (k in s.sweepers && Busy(s.sweepers[k])) || multiset(ids) != multiset(s.chans.Keys) then s
      else s.(sweepers := s.sweepers[k := Sweeper(now, ids, "", [], NoDue)])
    case SweepScan(k) =>
      if k !in s.sweepers || Busy(s.sweepers[k]) || s.sweepers[k].ids == [] || s.sweepers[k].ids[0] !in s.chans then s
      else
        var w := s.sweepers[k];
        s.(sweepers := s.sweepers[k := w.(ids := w.ids[1..], id := w.ids[0], rest := s.chans[w.ids[0]].stream)])
    case SweepVisit(k) =>
      if k in s.sweepers && s.sweepers[k].due == NoDue && s.sweepers[k].rest != [] && s.sweepers[k].id in s.chans
      then VisitStep(s, k) else s
    case SweepPay(k) =>
      if k in s.sweepers && s.sweepers[k].due != NoDue && s.sweepers[k].id in s.chans then PayStep(s, k) else s
  }

  /** The state after a run of steps from the empty store. */
  function Run(cap: int, acts: seq<Action>): Store {
    if acts == [] then EMPTY else Apply(cap, Run(cap, acts[..|acts| - 1]), acts[|acts| - 1])
  }

  // --- catch-up ---

  predicate Expired(e: Entry, now: int) {
    e.exp > 0 && e.exp <= now
  }

  /** The entries after a cursor. */
  function After(es: seq<Entry>, after: nat): seq<Entry> {
    if es == [] then []
    else if es[0].id > after then [es[0]] + After(es[1..], after)
    else After(es[1..], after)
  }

  function Take(es: seq<Entry>, limit: nat): seq<Entry> {
    if |es| <= limit then es else es[..limit]
  }

  function Live(es: seq<Entry>, now: int): seq<Entry> {
    if es == [] then []
    else if Expired(es[0], now) then Live(es[1..], now)
    else [es[0]] + Live(es[1..], now)
  }

  /** Catch-up: a bounded range read after the cursor, then the expired entries dropped. */
  function CatchUp(es: seq<Entry>, after: nat, limit: nat, now: int): seq<Entry> {
    Live(Take(After(es, after), limit), now)
  }
}
