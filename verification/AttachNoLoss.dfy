/** No message is lost across the seam between catch-up and live when publishers append first; and
    exactly which message is lost when they do not. */
module AttachNoLoss {
  import opened Eviction
  import opened Attach
  import S = StoreMachine
  import B = BrokerMachine
  import C = StoreConservation
  import Pages
  import R = Retention

  // --- what every reachable state satisfies ---

  /** A number given to a message is below the next one, and what is stored under it is the message. */
  ghost predicate NumberRight(s: System, p: nat)
    requires p in s.pubs
  {
    var pub := s.pubs[p];
    && (pub.order == AppendFirst && pub.published ==> pub.tried)
    && (pub.number.Numbered? ==>
          && pub.tried && pub.id in s.store.chans && pub.number.n < NextSeq(s, pub.id)
          && forall e :: e in Stream(s, pub.id) && e.id == pub.number.n ==> e.blob == pub.body)
  }

  ghost predicate NumbersRight(s: System) {
    forall p :: p in s.pubs ==> NumberRight(s, p)
  }

  /** The entry an append stores is the message, under the number it is given. */
  lemma AppendStores(cap: int, s: S.Store, p: nat, blob: Blob, now: int)
    requires C.Structure(s) && p in s.appenders && s.appenders[p].id in s.chans
    ensures var ap := s.appenders[p];
            var c := s.chans[ap.id];
            var r := S.AppendScript(c, S.Account(s, ap.owner), ap.owner != "", ap.limits, cap, blob, now).result;
            var c' := S.RunAppendStep(cap, s, p, blob, now).chans[ap.id];
            && (r.Appended? ==> r.seqNo == c.nextSeq && c'.nextSeq == c.nextSeq + 1)
            && (r.Appended? ==> forall e :: e in c'.stream && e.id == r.seqNo ==> e.blob == blob)
  {
    var ap := s.appenders[p];
    var c := s.chans[ap.id];
    assert C.Sequenced(c);
    C.PushedFacts(c, ap.limits, blob, now);
    C.KeptIsSuffix(C.Pushed(c, ap.limits, blob, now), ap.limits);
  }

  /** A message that has its number keeps it right through any store step. */
  lemma NumberStaysRight(s: System, s': System, p: nat)
    requires p in s.pubs && NumberRight(s, p) && p in s'.pubs
    requires s'.pubs[p].id == s.pubs[p].id && s'.pubs[p].body == s.pubs[p].body && s'.pubs[p].order == s.pubs[p].order
    requires s'.pubs[p].number == s.pubs[p].number && (s.pubs[p].tried ==> s'.pubs[p].tried)
    requires s'.pubs[p].published ==> s.pubs[p].published || s'.pubs[p].order == PublishFirst || s'.pubs[p].tried
    requires C.StreamGrows(s.store, s'.store, s.pubs[p].id)
    ensures NumberRight(s', p)
  {
  }

  lemma StoreOfStep(cap: int, s: System, a: Action, id: S.Id)
    requires C.Structure(s.store)
    ensures C.StreamGrows(s.store, Step(cap, s, a).store, id)
  {
    var part := StorePart(s, a);
    if part != [] {
      C.StoreStepGrows(cap, s.store, part[0], id);
    }
  }

  lemma StepKeepsNumber(cap: int, s: System, a: Action, p: nat)
    requires C.Structure(s.store) && NumbersRight(s) && p in Step(cap, s, a).pubs
    ensures NumberRight(Step(cap, s, a), p)
  {
    var s' := Step(cap, s, a);
    if p !in s.pubs {
    } else {
      assert NumberRight(s, p);
      StoreOfStep(cap, s, a, s.pubs[p].id);
      if a.Append? && a.p == p && Appends(s, a) {
        NumberedRight(cap, s, p, a.now);
      } else {
        NumberStaysRight(s, s', p);
      }
    }
  }

  lemma NumberedRight(cap: int, s: System, p: nat, now: int)
    requires C.Structure(s.store) && p in s.pubs && NumberRight(s, p) && Appends(s, Append(p, now))
    ensures NumberRight(Step(cap, s, Append(p, now)), p)
  {
    AppendStores(cap, s.store, p, s.pubs[p].body, now);
  }

  ghost predicate Good(s: System) {
    C.Inv(s.store) && B.Inv(s.broker) && NumbersRight(s)
  }

  lemma {:induction false} GoodInEveryRun(cap: int, acts: seq<Action>)
    ensures Good(Run(cap, acts))
  {
    StoreRuns(cap, acts);
    C.ConservedInEveryRun(cap, StoreRun(cap, acts));
    BrokerRuns(cap, acts);
    B.InvInEveryRun(BrokerRun(cap, acts));
    if acts != [] {
      GoodInEveryRun(cap, acts[..|acts| - 1]);
      LastStepRight(cap, Run(cap, acts[..|acts| - 1]), acts[|acts| - 1]);
    }
  }

  lemma LastStepRight(cap: int, s: System, a: Action)
    requires Good(s)
    ensures NumbersRight(Step(cap, s, a))
  {
    var s' := Step(cap, s, a);
    forall p | p in s'.pubs
      ensures NumberRight(s', p)
    {
      StepKeepsNumber(cap, s, a, p);
    }
  }

  // --- how a state relates to a later one ---

  /** The message later: nothing that has happened to it is undone. */
  predicate PubLater(u: Pub, v: Pub) {
    && v.id == u.id && v.body == u.body && v.order == u.order
    && (u.tried ==> v.tried && v.number == u.number)
    && (u.published ==> v.place == u.place)
  }

  predicate ReaderLater(u: Reader, v: Reader) {
    v.id == u.id && v.after == u.after && v.sub == u.sub && (u.page != Unread ==> v.page == u.page)
  }

  /** A message numbered later on got a number that was still to come. */
  ghost predicate NumberedLater(s: System, s': System, p: nat)
    requires p in s'.pubs
  {
    s'.pubs[p].number.Numbered? ==> (p in s.pubs && s.pubs[p].tried) || NextSeq(s, s'.pubs[p].id) <= s'.pubs[p].number.n
  }

  ghost predicate Later(s: System, s': System) {
    && (forall p :: p in s.pubs ==> p in s'.pubs && PubLater(s.pubs[p], s'.pubs[p]))
    && (forall r :: r in s.readers ==> r in s'.readers && ReaderLater(s.readers[r], s'.readers[r]))
    && (forall id :: NextSeq(s, id) <= NextSeq(s', id))
    && (forall p :: p in s'.pubs ==> NumberedLater(s, s', p))
  }

  lemma LaterTrans(s: System, s': System, s'': System)
    requires Later(s, s') && Later(s', s'')
    ensures Later(s, s'')
  {
    forall p | p in s''.pubs
      ensures NumberedLater(s, s'', p)
    {
      assert NumberedLater(s', s'', p);
      assert p in s'.pubs ==> NumberedLater(s, s', p);
      assert NextSeq(s, s''.pubs[p].id) <= NextSeq(s', s''.pubs[p].id);
    }
  }

  lemma LaterSelf(s: System)
    requires NumbersRight(s)
    ensures Later(s, s)
  {
    forall p | p in s.pubs
      ensures NumberedLater(s, s, p)
    {
      assert NumberRight(s, p);
    }
  }

  lemma StepPubsLater(cap: int, s: System, a: Action, p: nat)
    requires p in s.pubs
    ensures p in Step(cap, s, a).pubs && PubLater(s.pubs[p], Step(cap, s, a).pubs[p])
  {
  }

  lemma StepReadersLater(cap: int, s: System, a: Action, r: nat)
    requires r in s.readers
    ensures r in Step(cap, s, a).readers && ReaderLater(s.readers[r], Step(cap, s, a).readers[r])
  {
  }

  lemma StepNumbered(cap: int, s: System, a: Action, p: nat)
    requires Good(s) && p in Step(cap, s, a).pubs
    ensures NumberedLater(s, Step(cap, s, a), p)
  {
    assert p in s.pubs ==> NumberRight(s, p);
    if a.Append? && Appends(s, a) {
      AppendStores(cap, s.store, a.p, s.pubs[a.p].body, a.now);
    }
  }

  lemma StepNextSeq(cap: int, s: System, a: Action, id: S.Id)
    requires Good(s)
    ensures NextSeq(s, id) <= NextSeq(Step(cap, s, a), id)
  {
    StoreOfStep(cap, s, a, id);
    NewChannelsStartAtOne(cap, s, a, id);
  }

  lemma StepLater(cap: int, s: System, a: Action)
    requires Good(s)
    ensures Later(s, Step(cap, s, a))
  {
    var s' := Step(cap, s, a);
    forall p | p in s.pubs
      ensures p in s'.pubs && PubLater(s.pubs[p], s'.pubs[p])
    {
      StepPubsLater(cap, s, a, p);
    }
    forall r | r in s.readers
      ensures r in s'.readers && ReaderLater(s.readers[r], s'.readers[r])
    {
      StepReadersLater(cap, s, a, r);
    }
    forall id
      ensures NextSeq(s, id) <= NextSeq(s', id)
    {
      StepNextSeq(cap, s, a, id);
    }
    forall p | p in s'.pubs
      ensures NumberedLater(s, s', p)
    {
      StepNumbered(cap, s, a, p);
    }
  }

  lemma NewChannelsStartAtOne(cap: int, s: System, a: Action, id: S.Id)
    requires Good(s)
    ensures NextSeq(Step(cap, s, a), id) >= 1
  {
    LastNumber(Step(cap, s, a).store, id);
    StoreKept(cap, s, a);
  }

  lemma StoreKept(cap: int, s: System, a: Action)
    requires C.Structure(s.store)
    ensures C.Structure(Step(cap, s, a).store)
  {
    var part := StorePart(s, a);
    if part != [] {
      C.StructureKept(cap, s.store, part[0]);
    }
  }

  lemma LastNumber(s: S.Store, id: S.Id)
    ensures C.Structure(s) && id in s.chans ==> s.chans[id].nextSeq >= 1
  {
    if C.Structure(s) && id in s.chans {
      assert C.Sequenced(s.chans[id]);
    }
  }

  lemma {:induction false} RunLater(cap: int, acts: seq<Action>, more: seq<Action>)
    ensures Later(Run(cap, acts), Run(cap, acts + more))
    decreases |more|
  {
    GoodInEveryRun(cap, acts);
    if more == [] {
      assert acts + more == acts;
      LaterSelf(Run(cap, acts));
    } else {
      var before := acts + more[..|more| - 1];
      RunLater(cap, acts, more[..|more| - 1]);
      RunStepAfter(cap, acts, more);
      GoodInEveryRun(cap, before);
      StepLater(cap, Run(cap, before), more[|more| - 1]);
      LaterTrans(Run(cap, acts), Run(cap, before), Run(cap, acts + more));
    }
  }

  // --- the log ---

  /** A message that is out is in its channel's log, at its place. */
  ghost predicate PlaceRight(s: System, p: nat)
    requires p in s.pubs
  {
    var pub := s.pubs[p];
    pub.published ==> pub.place.index < |LogOf(s, pub.id)| && LogOf(s, pub.id)[pub.place.index] == Frame(pub)
  }

  ghost predicate PlacesRight(s: System) {
    forall p :: p in s.pubs ==> PlaceRight(s, p)
  }

  lemma LogGrows(cap: int, s: System, a: Action, id: S.Id)
    ensures LogOf(s, id) <= LogOf(Step(cap, s, a), id)
  {
  }

  lemma {:induction false} LogGrowsOn(cap: int, acts: seq<Action>, more: seq<Action>, id: S.Id)
    ensures LogOf(Run(cap, acts), id) <= LogOf(Run(cap, acts + more), id)
    decreases |more|
  {
    if more == [] {
      assert acts + more == acts;
    } else {
      LogGrowsOn(cap, acts, more[..|more| - 1], id);
      RunStepAfter(cap, acts, more);
      LogGrows(cap, Run(cap, acts + more[..|more| - 1]), more[|more| - 1], id);
    }
  }

  lemma StepKeepsPlaces(cap: int, s: System, a: Action)
    requires PlacesRight(s)
    ensures PlacesRight(Step(cap, s, a))
  {
    var s' := Step(cap, s, a);
    forall p | p in s'.pubs
      ensures PlaceRight(s', p)
    {
      assert p in s.pubs ==> PlaceRight(s, p);
      LogGrows(cap, s, a, s'.pubs[p].id);
    }
  }

  lemma {:induction false} PlacedInEveryRun(cap: int, acts: seq<Action>)
    ensures PlacesRight(Run(cap, acts))
  {
    if acts != [] {
      PlacedInEveryRun(cap, acts[..|acts| - 1]);
      StepKeepsPlaces(cap, Run(cap, acts[..|acts| - 1]), acts[|acts| - 1]);
    }
  }

  /** A message that came out later has its place past the earlier log. */
  predicate PlacedLater(s: System, s': System, p: nat)
    requires p in s'.pubs
  {
    s'.pubs[p].published ==> (p in s.pubs && s.pubs[p].published) || |LogOf(s, s'.pubs[p].id)| <= s'.pubs[p].place.index
  }

  lemma StepOutLater(cap: int, s: System, s': System, a: Action, p: nat)
    requires p in Step(cap, s', a).pubs && (p in s'.pubs ==> PlacedLater(s, s', p))
    requires p in s'.pubs ==> |LogOf(s, s'.pubs[p].id)| <= |LogOf(s', s'.pubs[p].id)|
    requires forall q :: q in s.pubs ==> q in s'.pubs
    ensures PlacedLater(s, Step(cap, s', a), p)
  {
  }

  lemma {:induction false} OutLater(cap: int, acts: seq<Action>, more: seq<Action>, p: nat)
    requires p in Run(cap, acts + more).pubs
    ensures PlacedLater(Run(cap, acts), Run(cap, acts + more), p)
    decreases |more|
  {
    if more == [] {
      assert acts + more == acts;
    } else {
      var first := more[..|more| - 1];
      RunStepAfter(cap, acts, more);
      RunLater(cap, acts, first);
      var s' := Run(cap, acts + first);
      if p in s'.pubs {
        OutLater(cap, acts, first, p);
        LogGrowsOn(cap, acts, first, s'.pubs[p].id);
      }
      StepOutLater(cap, Run(cap, acts), s', more[|more| - 1], p);
    }
  }

  // --- the live frames are a stretch of the log ---

  ghost predicate TakesStretch(s: System, sub: nat, id: S.Id, from: nat, stop: nat) {
    B.HasSegment(s.broker, sub, id, LogOf(s, id), from, stop)
  }

  lemma StretchStep(cap: int, s: System, a: Action, sub: nat, id: S.Id, from: nat, stop: nat) returns (stop': nat)
    requires Good(s) && TakesStretch(s, sub, id, from, stop)
    ensures TakesStretch(Step(cap, s, a), sub, id, from, stop')
  {
    var part := BrokerPart(s, a);
    if part == [] {
      stop' := stop;
    } else {
      stop' := B.SegmentStep(s.broker, part[0], sub, id, LogOf(s, id), from, stop);
      LogMoves(cap, s, a, id);
    }
  }

  lemma LogMoves(cap: int, s: System, a: Action, id: S.Id)
    requires BrokerPart(s, a) != []
    ensures LogOf(Step(cap, s, a), id) == LogOf(s, id) + B.Published(BrokerPart(s, a)[0], id)
  {
    assert LogOf(s, id) + [] == LogOf(s, id);
  }

  lemma StretchBegins(cap: int, s: System, r: nat, id: S.Id, after: nat)
    requires r !in s.readers
    ensures TakesStretch(Step(cap, s, Attach(r, id, after)), s.broker.nextId + 1, id, |LogOf(s, id)|, |LogOf(s, id)|)
  {
    B.JoinsEmpty(s.broker, id, LogOf(s, id));
  }

  lemma StretchOneMore(cap: int, acts: seq<Action>, more: seq<Action>, sub: nat, id: S.Id, from: nat, stop: nat) returns (stop': nat)
    requires more != [] && TakesStretch(Run(cap, acts + more[..|more| - 1]), sub, id, from, stop)
    ensures TakesStretch(Run(cap, acts + more), sub, id, from, stop')
  {
    var before := acts + more[..|more| - 1];
    RunStepAfter(cap, acts, more);
    GoodInEveryRun(cap, before);
    stop' := StretchStep(cap, Run(cap, before), more[|more| - 1], sub, id, from, stop);
  }

  /** From the moment it attaches on, a subscription has been handed exactly a stretch of the
      channel's log that begins there, to the end of the log while it is live. */
  lemma {:induction false} StretchOn(cap: int, acts: seq<Action>, r: nat, id: S.Id, after: nat, joined: seq<Action>, more: seq<Action>)
      returns (stop: nat)
    requires r !in Run(cap, acts).readers && joined == acts + [Attach(r, id, after)]
    ensures TakesStretch(Run(cap, joined + more), Run(cap, acts).broker.nextId + 1, id, |LogOf(Run(cap, acts), id)|, stop)
    decreases |more|
  {
    var s := Run(cap, acts);
    if more == [] {
      assert joined + more == joined;
      RunStep(cap, acts, Attach(r, id, after));
      stop := |LogOf(s, id)|;
      StretchBegins(cap, s, r, id, after);
    } else {
      stop := StretchOn(cap, acts, r, id, after, joined, more[..|more| - 1]);
      stop := StretchOneMore(cap, joined, more, s.broker.nextId + 1, id, |LogOf(s, id)|, stop);
    }
  }

  // --- the seam ---

  /** Three moments of a reader's life: just before it subscribes, just before it reads its
      catch-up page, and any time after. */
  datatype Seam = Seam(atAttach: System, atRead: System, now: System, r: nat, id: S.Id, after: nat, limit: nat, clock: int)

  function SeamRun(before: seq<Action>, r: nat, id: S.Id, after: nat, mid: seq<Action>): seq<Action> {
    before + [Attach(r, id, after)] + mid
  }

  ghost function TheSeam(cap: int, before: seq<Action>, r: nat, id: S.Id, after: nat, mid: seq<Action>,
                         limit: nat, clock: int, rest: seq<Action>): Seam {
    var upToRead := SeamRun(before, r, id, after, mid);
    Seam(Run(cap, before), Run(cap, upToRead), Run(cap, upToRead + [Read(r, limit, clock)] + rest), r, id, after, limit, clock)
  }

  /** The page the reader got. */
  function PageOf(m: Seam): seq<Entry> {
    S.CatchUp(Stream(m.atRead, m.id), m.after, m.limit, m.clock)
  }

  function Sub(m: Seam): nat {
    m.atAttach.broker.nextId + 1
  }

  /** The stretch of the log that has reached the subscription by now. */
  function From(m: Seam): nat {
    |LogOf(m.atAttach, m.id)|
  }

  function Stop(m: Seam): nat {
    From(m) + |B.Received(m.now.broker, Sub(m))|
  }

  /** What has reached the subscription is the stretch of the log from From to Stop. */
  ghost predicate Handed(m: Seam) {
    TakesStretch(m.now, Sub(m), m.id, From(m), Stop(m))
  }

  lemma StretchEnds(m: Seam, stop: nat)
    requires TakesStretch(m.now, Sub(m), m.id, From(m), stop)
    ensures stop == Stop(m) && Handed(m)
  {
  }

  ghost predicate Joined(m: Seam) {
    && Good(m.atAttach) && Good(m.atRead) && Good(m.now)
    && PlacesRight(m.atAttach) && (forall p :: p in m.now.pubs ==> PlacedLater(m.atAttach, m.now, p))
    && Later(m.atAttach, m.atRead) && Later(m.atRead, m.now)
    && m.r in m.now.readers && m.now.readers[m.r] == Reader(m.id, m.after, Sub(m), Page(PageOf(m)))
  }

  lemma ReaderKept(cap: int, acts: seq<Action>, more: seq<Action>, r: nat)
    requires r in Run(cap, acts).readers
    ensures r in Run(cap, acts + more).readers && ReaderLater(Run(cap, acts).readers[r], Run(cap, acts + more).readers[r])
  {
    RunLater(cap, acts, more);
  }

  /** The steps between subscribing and reading do not read for this reader. */
  predicate DoesNotRead(acts: seq<Action>, r: nat) {
    forall a :: a in acts ==> !(a.Read? && a.r == r)
  }

  lemma {:induction false} StillUnread(cap: int, acts: seq<Action>, more: seq<Action>, r: nat)
    requires r in Run(cap, acts).readers && Run(cap, acts).readers[r].page == Unread && DoesNotRead(more, r)
    ensures r in Run(cap, acts + more).readers && Run(cap, acts + more).readers[r] == Run(cap, acts).readers[r]
    decreases |more|
  {
    if more == [] {
      assert acts + more == acts;
    } else {
      StillUnread(cap, acts, more[..|more| - 1], r);
      RunStepAfter(cap, acts, more);
      assert more[|more| - 1] in more;
    }
  }

  /** The reader just before it reads, and once it has read. */
  lemma ReaderReads(cap: int, before: seq<Action>, r: nat, id: S.Id, after: nat, mid: seq<Action>, limit: nat, clock: int, rest: seq<Action>)
    requires r !in Run(cap, before).readers && DoesNotRead(mid, r)
    ensures var upToRead := SeamRun(before, r, id, after, mid);
            var now := Run(cap, upToRead + [Read(r, limit, clock)] + rest);
            && r in now.readers
            && now.readers[r] == Reader(id, after, Run(cap, before).broker.nextId + 1,
                                        Page(S.CatchUp(Stream(Run(cap, upToRead), id), after, limit, clock)))
  {
    RunStep(cap, before, Attach(r, id, after));
    StillUnread(cap, before + [Attach(r, id, after)], mid, r);
    var upToRead := SeamRun(before, r, id, after, mid);
    RunStep(cap, upToRead, Read(r, limit, clock));
    ReaderKept(cap, upToRead + [Read(r, limit, clock)], rest, r);
  }

  lemma MomentsInOrder(cap: int, before: seq<Action>, r: nat, id: S.Id, after: nat, mid: seq<Action>,
                       limit: nat, clock: int, rest: seq<Action>)
    ensures var m := TheSeam(cap, before, r, id, after, mid, limit, clock, rest);
            Later(m.atAttach, m.atRead) && Later(m.atRead, m.now)
  {
    var upToRead := SeamRun(before, r, id, after, mid);
    var attach, read := [Attach(r, id, after)], [Read(r, limit, clock)];
    assert upToRead == before + (attach + mid);
    RunLater(cap, before, attach + mid);
    assert upToRead + read + rest == upToRead + (read + rest);
    RunLater(cap, upToRead, read + rest);
  }

  lemma StretchToNow(cap: int, before: seq<Action>, r: nat, id: S.Id, after: nat, mid: seq<Action>,
                     limit: nat, clock: int, rest: seq<Action>) returns (stop: nat)
    requires r !in Run(cap, before).readers
    ensures var m := TheSeam(cap, before, r, id, after, mid, limit, clock, rest);
            TakesStretch(m.now, Sub(m), id, |LogOf(m.atAttach, id)|, stop)
  {
    var joined, read := before + [Attach(r, id, after)], [Read(r, limit, clock)];
    assert SeamRun(before, r, id, after, mid) + read + rest == joined + (mid + read + rest);
    stop := StretchOn(cap, before, r, id, after, joined, mid + read + rest);
  }

  lemma SeamIsHanded(cap: int, before: seq<Action>, r: nat, id: S.Id, after: nat, mid: seq<Action>,
                     limit: nat, clock: int, rest: seq<Action>)
    requires r !in Run(cap, before).readers
    ensures Handed(TheSeam(cap, before, r, id, after, mid, limit, clock, rest))
  {
    var stop := StretchToNow(cap, before, r, id, after, mid, limit, clock, rest);
    StretchEnds(TheSeam(cap, before, r, id, after, mid, limit, clock, rest), stop);
  }

  lemma SeamOutLater(cap: int, before: seq<Action>, r: nat, id: S.Id, after: nat, mid: seq<Action>,
                     limit: nat, clock: int, rest: seq<Action>)
    ensures var m := TheSeam(cap, before, r, id, after, mid, limit, clock, rest);
            forall p :: p in m.now.pubs ==> PlacedLater(m.atAttach, m.now, p)
  {
    var attach, read := [Attach(r, id, after)], [Read(r, limit, clock)];
    var more := attach + mid + read + rest;
    assert SeamRun(before, r, id, after, mid) + read + rest == before + more;
    forall p | p in Run(cap, before + more).pubs
      ensures PlacedLater(Run(cap, before), Run(cap, before + more), p)
    {
      OutLater(cap, before, more, p);
    }
  }

  /** Every run of this shape has the three moments in their right relation. */
  lemma SeamIsJoined(cap: int, before: seq<Action>, r: nat, id: S.Id, after: nat, mid: seq<Action>,
                     limit: nat, clock: int, rest: seq<Action>)
    requires r !in Run(cap, before).readers && DoesNotRead(mid, r)
    ensures Joined(TheSeam(cap, before, r, id, after, mid, limit, clock, rest))
  {
    var upToRead := SeamRun(before, r, id, after, mid);
    GoodInEveryRun(cap, before);
    GoodInEveryRun(cap, upToRead);
    GoodInEveryRun(cap, upToRead + [Read(r, limit, clock)] + rest);
    MomentsInOrder(cap, before, r, id, after, mid, limit, clock, rest);
    PlacedInEveryRun(cap, before);
    SeamOutLater(cap, before, r, id, after, mid, limit, clock, rest);
    ReaderReads(cap, before, r, id, after, mid, limit, clock, rest);
  }

  // --- what became of a message ---

  /** The message is on the page. */
  ghost predicate InPage(m: Seam, p: nat)
    requires p in m.now.pubs
  {
    var pub := m.now.pubs[p];
    pub.number.Numbered? && exists e :: e in PageOf(m) && e.id == pub.number.n && e.blob == pub.body
  }

  /** The message's place in the log lies in the stretch that has reached the subscription. */
  predicate InLive(m: Seam, p: nat)
    requires p in m.now.pubs
  {
    m.now.pubs[p].published && From(m) <= m.now.pubs[p].place.index < Stop(m)
  }

  /** The message is done: appended under a number past the cursor, and published. */
  predicate Completed(m: Seam, p: nat) {
    && p in m.now.pubs && m.now.pubs[p].id == m.id
    && m.now.pubs[p].number.Numbered? && m.now.pubs[p].number.n > m.after && m.now.pubs[p].published
  }

  /** The message was out before the reader subscribed. */
  predicate OutBefore(m: Seam, p: nat) {
    p in m.atAttach.pubs && m.atAttach.pubs[p].published
  }

  /** What is on the page under a message's number is the message. */
  lemma InPageIff(m: Seam, p: nat)
    requires Joined(m) && Completed(m, p)
    ensures InPage(m, p) <==> S.Holds(PageOf(m), m.now.pubs[p].number.n)
    ensures InPage(m, p) ==> m.now.pubs[p].number.n < NextSeq(m.atRead, m.id)
  {
    var n, es := m.now.pubs[p].number.n, Stream(m.atRead, m.id);
    assert NumberedLater(m.atRead, m.now, p);
    assert p in m.atRead.pubs ==> NumberRight(m.atRead, p);
    forall e | e in PageOf(m) && e.id == n
      ensures e.blob == m.now.pubs[p].body && n < NextSeq(m.atRead, m.id)
    {
      R.PageStored(es, m.after, m.limit, m.clock, e);
      assert C.Sequenced(m.atRead.store.chans[m.id]);
    }
  }

  /** A subscription, dropped or not, has not been handed exactly what was published before it was made
      and what was published after it was dropped; and a live one has all to the end of the log. */
  lemma InLiveIff(m: Seam, p: nat)
    requires Joined(m) && Handed(m) && PlacesRight(m.now) && Completed(m, p)
    ensures !InLive(m, p) <==> OutBefore(m, p) || m.now.pubs[p].place.index >= Stop(m)
    ensures B.IsLive(m.now.broker, Sub(m)) ==> m.now.pubs[p].place.index < Stop(m)
  {
    assert PlacedLater(m.atAttach, m.now, p) && PlaceRight(m.now, p);
    if OutBefore(m, p) {
      assert PlaceRight(m.atAttach, p) && PubLater(m.atAttach.pubs[p], m.atRead.pubs[p]) && PubLater(m.atRead.pubs[p], m.now.pubs[p]);
    }
  }

  /** With append before publish, a message out before the reader subscribed had its number by the
      time the page was read. */
  lemma OutIsNumbered(m: Seam, p: nat)
    requires Joined(m) && Completed(m, p) && m.now.pubs[p].order == AppendFirst && OutBefore(m, p)
    ensures m.now.pubs[p].number.n < NextSeq(m.atRead, m.id)
  {
    assert NumberRight(m.atAttach, p) && PubLater(m.atAttach.pubs[p], m.atRead.pubs[p]) && PubLater(m.atRead.pubs[p], m.now.pubs[p]);
    assert NextSeq(m.atAttach, m.id) <= NextSeq(m.atRead, m.id);
  }

  /** In whichever order its publisher works, a completed message is missed by a reader if and only if
      its live frames miss it, it having been out before the reader subscribed or only after the
      subscription was dropped, and its page does, the message having had no number yet when the page
      was read or being gone. A subscription that is live now has not been dropped. */
  lemma MissedIff(cap: int, before: seq<Action>, r: nat, id: S.Id, after: nat, mid: seq<Action>,
                  limit: nat, clock: int, rest: seq<Action>, p: nat)
    requires r !in Run(cap, before).readers && DoesNotRead(mid, r)
    requires Completed(TheSeam(cap, before, r, id, after, mid, limit, clock, rest), p)
    ensures var m := TheSeam(cap, before, r, id, after, mid, limit, clock, rest);
            var n := m.now.pubs[p].number.n;
            && (!InPage(m, p) && !InLive(m, p) <==>
                  && (OutBefore(m, p) || m.now.pubs[p].place.index >= Stop(m))
                  && (n >= NextSeq(m.atRead, id) || R.Gone(cap, StoreRun(cap, SeamRun(before, r, id, after, mid)), id, n, after, limit, clock)))
            && (B.IsLive(m.now.broker, Sub(m)) ==> m.now.pubs[p].place.index < Stop(m))
  {
    var m := TheSeam(cap, before, r, id, after, mid, limit, clock, rest);
    SeamIsJoined(cap, before, r, id, after, mid, limit, clock, rest);
    PlacedInEveryRun(cap, SeamRun(before, r, id, after, mid) + [Read(r, limit, clock)] + rest);
    SeamIsHanded(cap, before, r, id, after, mid, limit, clock, rest);
    InPageIff(m, p);
    InLiveIff(m, p);
    StoreRuns(cap, SeamRun(before, r, id, after, mid));
    if m.now.pubs[p].number.n < NextSeq(m.atRead, id) {
      R.OnPageUnlessGone(cap, StoreRun(cap, SeamRun(before, r, id, after, mid)), id, m.now.pubs[p].number.n, after, limit, clock);
    }
  }

  /** No loss: whatever the interleaving, a message that was appended and then published, with a
      number past the cursor, is on the catch-up page, or has reached the subscription, or the
      subscription has been dropped, or the message was gone when the page was read: pushed out,
      swept, expired or past the limit. A live subscription misses it exactly if it was out before
      the reader subscribed and so gone. */
  lemma AppendFirstLosesNothing(cap: int, before: seq<Action>, r: nat, id: S.Id, after: nat, mid: seq<Action>,
                                limit: nat, clock: int, rest: seq<Action>, p: nat)
    requires r !in Run(cap, before).readers && DoesNotRead(mid, r)
    requires var m := TheSeam(cap, before, r, id, after, mid, limit, clock, rest);
             Completed(m, p) && m.now.pubs[p].order == AppendFirst && B.IsLive(m.now.broker, Sub(m))
    ensures var m := TheSeam(cap, before, r, id, after, mid, limit, clock, rest);
            !InPage(m, p) && !InLive(m, p) <==>
            && OutBefore(m, p)
            && R.Gone(cap, StoreRun(cap, SeamRun(before, r, id, after, mid)), id, m.now.pubs[p].number.n, after, limit, clock)
  {
    var m := TheSeam(cap, before, r, id, after, mid, limit, clock, rest);
    SeamIsJoined(cap, before, r, id, after, mid, limit, clock, rest);
    MissedIff(cap, before, r, id, after, mid, limit, clock, rest, p);
    if OutBefore(m, p) {
      OutIsNumbered(m, p);
    }
  }

  // --- publishers get through ---

  /** The message has been begun and nothing has happened to it yet. */
  predicate JustBegun(s: System, p: nat) {
    p in s.pubs && !s.pubs[p].tried && s.pubs[p].number == NoNumber && !s.pubs[p].published
    && s.pubs[p].id in s.store.chans && s.store.chans[s.pubs[p].id].retained
  }

  /** Both steps are taken: the append ran the script on the channel's configuration, and the message is
      at the end of the log. */
  predicate GotThrough(cap: int, s: System, s': System, p: nat, now: int)
    requires JustBegun(s, p)
  {
    var pub, c := s.pubs[p], s.store.chans[s.pubs[p].id];
    var result := S.AppendScript(c, S.Account(s.store, c.owner), c.owner != "", c.limits, cap, pub.body, now).result;
    && s'.pubs == s.pubs[p := pub.(tried := true, number := if result.Appended? then Numbered(result.seqNo) else NoNumber,
                                   place := Out(|LogOf(s, pub.id)|))]
    && LogOf(s', pub.id) == LogOf(s, pub.id) + [B.Envelope(pub.id, pub.body)]
  }

  /** A publisher that is let run takes its two steps, in its own order. */
  lemma PublisherGetsThrough(cap: int, s: System, p: nat, now: int)
    requires JustBegun(s, p)
    ensures s.pubs[p].order == AppendFirst ==>
              GotThrough(cap, s, Step(cap, Step(cap, Step(cap, s, Configure(p)), Append(p, now)), Publish(p)), p, now)
    ensures s.pubs[p].order == PublishFirst ==>
              GotThrough(cap, s, Step(cap, Step(cap, Step(cap, s, Publish(p)), Configure(p)), Append(p, now)), p, now)
  {
    if s.pubs[p].order == AppendFirst {
      AppendThenOut(cap, s, p, now);
    } else {
      ConfigureThenAppend(cap, Step(cap, s, Publish(p)), p, now);
    }
  }

  lemma AppendThenOut(cap: int, s: System, p: nat, now: int)
    requires JustBegun(s, p) && s.pubs[p].order == AppendFirst
    ensures GotThrough(cap, s, Step(cap, Step(cap, Step(cap, s, Configure(p)), Append(p, now)), Publish(p)), p, now)
  {
    ConfigureThenAppend(cap, s, p, now);
  }

  lemma ConfigureThenAppend(cap: int, s: System, p: nat, now: int)
    requires p in s.pubs && MayAppend(s, p) && s.pubs[p].id in s.store.chans && s.store.chans[s.pubs[p].id].retained
    ensures var pub, c := s.pubs[p], s.store.chans[s.pubs[p].id];
            var result := S.AppendScript(c, S.Account(s.store, c.owner), c.owner != "", c.limits, cap, pub.body, now).result;
            var s' := Step(cap, Step(cap, s, Configure(p)), Append(p, now));
            && s'.pubs == s.pubs[p := pub.(tried := true, number := if result.Appended? then Numbered(result.seqNo) else NoNumber)]
            && s'.log == s.log
  {
  }
}
