/** A run whose seam is not seamless: a message published after the reader subscribed is evicted
    before the reader reads its page, and so reaches the reader after a newer one. */
module SeamExample {
  import opened Eviction
  import opened Attach
  import opened AttachNoLoss
  import opened SeamExactness
  import S = StoreMachine
  import B = BrokerMachine
  import T = Contiguity

  /** A channel that retains one message. */
  function One(stream: seq<Entry>, last: nat, count: nat): S.Channel {
    S.Channel("", "", true, Limits(0, 0, 1), stream, last, count, count, last + 1)
  }

  function Listening(queue: seq<B.Envelope>): B.State {
    B.State(1, map["t" := {1}], map[1 := B.Sub("t", queue, [], false, 0)], multiset{})
  }

  /** The system with that channel, one reader that has subscribed, and the given appenders. */
  function With(c: S.Channel, appenders: map<nat, S.Appender>, queue: seq<B.Envelope>,
                log: map<string, seq<B.Envelope>>, pubs: map<nat, Pub>): System {
    System(S.Store(map["t" := c], map[], appenders, map[]), Listening(queue), log, pubs, map[0 := Reader("t", 0, 1, Unread)])
  }

  function At(c: S.Channel, queue: seq<B.Envelope>, log: map<string, seq<B.Envelope>>, pubs: map<nat, Pub>): System {
    With(c, map[], queue, log, pubs)
  }

  function Sending(p: nat, body: string): seq<Action> {
    [Begin(p, "t", body, AppendFirst), Configure(p), Append(p, 0), Publish(p)]
  }

  function Sent(body: string, n: nat): Pub
    requires n > 0
  {
    Pub("t", body, AppendFirst, true, Numbered(n), Out(n - 1))
  }

  function Message(n: nat, body: string): Entry {
    Entry(n, body, 0, |body|)
  }

  lemma {:induction false} RunFour(cap: int, acts: seq<Action>, a: Action, b: Action, c: Action, d: Action)
    ensures Run(cap, acts + [a, b, c, d]) == Step(cap, Step(cap, Step(cap, Step(cap, Run(cap, acts), a), b), c), d)
  {
    RunStep(cap, acts, a);
    RunStep(cap, acts + [a], b);
    RunStep(cap, acts + [a] + [b], c);
    RunStep(cap, acts + [a] + [b] + [c], d);
    assert acts + [a, b, c, d] == acts + [a] + [b] + [c] + [d];
  }

  function Draft(body: string): Pub {
    Pub("t", body, AppendFirst, false, NoNumber, NotOut)
  }

  function Stored(body: string, n: nat): Pub {
    Pub("t", body, AppendFirst, true, Numbered(n), NotOut)
  }

  function After(c: S.Channel, cap: int, body: string): S.Channel {
    S.AppendScript(c, 0, false, c.limits, cap, body, 0).channel
  }

  lemma ConfigureRuns(cap: int, c: S.Channel, queue: seq<B.Envelope>, log: map<string, seq<B.Envelope>>, pubs: map<nat, Pub>,
                      p: nat, body: string)
    requires c.retained && c.owner == "" && p !in pubs
    ensures Step(cap, At(c, queue, log, pubs[p := Draft(body)]), Configure(p))
            == With(c, map[p := S.Appender("t", "", c.limits)], queue, log, pubs[p := Draft(body)])
  {
  }

  lemma AppendRuns(cap: int, c: S.Channel, queue: seq<B.Envelope>, log: map<string, seq<B.Envelope>>, pubs: map<nat, Pub>,
                   p: nat, body: string)
    requires c.retained && c.owner == "" && c.nextSeq == c.lastId + 1 && p !in pubs
    ensures var s := With(c, map[p := S.Appender("t", "", c.limits)], queue, log, pubs[p := Draft(body)]);
            && Appends(s, Append(p, 0)) && Result(cap, s, p, 0) == S.Appended(c.nextSeq)
            && Step(cap, s, Append(p, 0)) == At(After(c, cap, body), queue, log, pubs[p := Stored(body, c.nextSeq)])
  {
    var s := With(c, map[p := S.Appender("t", "", c.limits)], queue, log, pubs[p := Draft(body)]);
    assert s.store.appenders - {p} == map[];
    assert pubs[p := Draft(body)][p := Stored(body, c.nextSeq)] == pubs[p := Stored(body, c.nextSeq)];
  }

  lemma PublishRuns(cap: int, c: S.Channel, queue: seq<B.Envelope>, log: map<string, seq<B.Envelope>>, pubs: map<nat, Pub>,
                    p: nat, body: string, n: nat)
    requires |queue| < 100 && n == (if "t" in log then |log["t"]| else 0) + 1
    ensures var s := At(c, queue, log, pubs[p := Stored(body, n)]);
            var f := B.Envelope("t", body);
            Step(cap, s, Publish(p)) == At(c, queue + [f], log["t" := LogOf(s, "t") + [f]], pubs[p := Sent(body, n)])
  {
    PublishedToOne(queue, B.Envelope("t", body));
    assert pubs[p := Stored(body, n)][p := Sent(body, n)] == pubs[p := Sent(body, n)];
  }

  lemma PublishedToOne(queue: seq<B.Envelope>, f: B.Envelope)
    requires |queue| < 100 && f.channel == "t"
    ensures B.Fanned(Listening(queue), f) == Listening(queue + [f])
  {
    var b := Listening(queue);
    assert B.Overflowing(b, "t") == {};
    assert B.Live(b.reg, "t") - {} == {1};
    assert B.Fanned(b, f).reg == b.reg;
    assert B.Fanned(b, f).closing == b.closing;
    assert B.Fanned(b, f).subs == map[1 := B.Sub("t", queue + [f], [], false, 0)];
  }

  /** What the four steps of sending a message come to. */
  lemma SendingState(cap: int, acts: seq<Action>, c: S.Channel, queue: seq<B.Envelope>, log: map<string, seq<B.Envelope>>,
                     pubs: map<nat, Pub>, p: nat, body: string)
    requires p !in pubs && |queue| < 100 && c.retained && c.owner == "" && c.nextSeq == c.lastId + 1
    requires c.nextSeq == (if "t" in log then |log["t"]| else 0) + 1
    requires Run(cap, acts) == At(c, queue, log, pubs)
    ensures var f := B.Envelope("t", body);
            Run(cap, acts + Sending(p, body))
            == At(After(c, cap, body), queue + [f], log["t" := LogOf(Run(cap, acts), "t") + [f]], pubs[p := Sent(body, c.nextSeq)])
  {
    var a := Sending(p, body);
    RunFour(cap, acts, a[0], a[1], a[2], a[3]);
    assert a == [a[0], a[1], a[2], a[3]];
    BeginRuns(cap, c, queue, log, pubs, p, body);
    ConfigureRuns(cap, c, queue, log, pubs, p, body);
    AppendRuns(cap, c, queue, log, pubs, p, body);
    PublishRuns(cap, After(c, cap, body), queue, log, pubs, p, body, c.nextSeq);
  }

  /** And they keep to single file. */
  lemma SendingInFile(cap: int, acts: seq<Action>, c: S.Channel, queue: seq<B.Envelope>, log: map<string, seq<B.Envelope>>,
                      pubs: map<nat, Pub>, p: nat, body: string)
    requires p !in pubs && |queue| < 100 && c.retained && c.owner == "" && c.nextSeq == c.lastId + 1
    requires Run(cap, acts) == At(c, queue, log, pubs) && NobodyInFlight(Run(cap, acts), "t") && SingleFile(cap, acts, "t")
    ensures SingleFile(cap, acts + Sending(p, body), "t")
  {
    var begun := acts + [Begin(p, "t", body, AppendFirst)];
    BegunInFile(cap, acts, c, queue, log, pubs, p, body, begun);
    InFileThree(cap, begun, c, queue, log, pubs, p, body);
    assert acts + Sending(p, body) == begun + [Configure(p)] + [Append(p, 0), Publish(p)];
  }

  lemma BegunInFile(cap: int, acts: seq<Action>, c: S.Channel, queue: seq<B.Envelope>, log: map<string, seq<B.Envelope>>,
                    pubs: map<nat, Pub>, p: nat, body: string, begun: seq<Action>)
    requires p !in pubs && begun == acts + [Begin(p, "t", body, AppendFirst)]
    requires Run(cap, acts) == At(c, queue, log, pubs) && NobodyInFlight(Run(cap, acts), "t") && SingleFile(cap, acts, "t")
    ensures Run(cap, begun) == At(c, queue, log, pubs[p := Draft(body)])
    ensures NobodyInFlight(Run(cap, begun), "t") && SingleFile(cap, begun, "t")
  {
    var s0 := At(c, queue, log, pubs);
    BeginRuns(cap, c, queue, log, pubs, p, body);
    OneMoreInFile(cap, acts, Begin(p, "t", body, AppendFirst), s0);
    DraftsDoNotFly(s0, At(c, queue, log, pubs[p := Draft(body)]), p, body);
  }

  lemma BeginRuns(cap: int, c: S.Channel, queue: seq<B.Envelope>, log: map<string, seq<B.Envelope>>, pubs: map<nat, Pub>,
                  p: nat, body: string)
    requires p !in pubs
    ensures Step(cap, At(c, queue, log, pubs), Begin(p, "t", body, AppendFirst)) == At(c, queue, log, pubs[p := Draft(body)])
  {
  }

  lemma OneMoreInFile(cap: int, acts: seq<Action>, a: Action, s: System)
    requires SingleFile(cap, acts, "t") && s == Run(cap, acts) && InFile(cap, s, a, "t")
    ensures SingleFile(cap, acts + [a], "t") && Run(cap, acts + [a]) == Step(cap, s, a)
  {
    RunStep(cap, acts, a);
    assert (acts + [a])[..|acts + [a]| - 1] == acts;
  }

  lemma InFileThree(cap: int, acts: seq<Action>, c: S.Channel, queue: seq<B.Envelope>, log: map<string, seq<B.Envelope>>,
                    pubs: map<nat, Pub>, p: nat, body: string)
    requires p !in pubs && |queue| < 100 && c.retained && c.owner == "" && c.nextSeq == c.lastId + 1
    requires Run(cap, acts) == At(c, queue, log, pubs[p := Draft(body)])
    requires NobodyInFlight(Run(cap, acts), "t") && SingleFile(cap, acts, "t")
    ensures SingleFile(cap, acts + [Configure(p)] + [Append(p, 0), Publish(p)], "t")
  {
    var s1 := At(c, queue, log, pubs[p := Draft(body)]);
    var s2 := With(c, map[p := S.Appender("t", "", c.limits)], queue, log, pubs[p := Draft(body)]);
    OneMoreInFile(cap, acts, Configure(p), s1);
    ConfigureRuns(cap, c, queue, log, pubs, p, body);
    SameFlight(s1, s2);
    InFileTwo(cap, acts + [Configure(p)], c, queue, log, pubs, p, body);
  }

  lemma InFileTwo(cap: int, acts: seq<Action>, c: S.Channel, queue: seq<B.Envelope>, log: map<string, seq<B.Envelope>>,
                  pubs: map<nat, Pub>, p: nat, body: string)
    requires p !in pubs && |queue| < 100 && c.retained && c.owner == "" && c.nextSeq == c.lastId + 1
    requires Run(cap, acts) == With(c, map[p := S.Appender("t", "", c.limits)], queue, log, pubs[p := Draft(body)])
    requires NobodyInFlight(Run(cap, acts), "t") && SingleFile(cap, acts, "t")
    ensures SingleFile(cap, acts + [Append(p, 0), Publish(p)], "t")
  {
    AppendRuns(cap, c, queue, log, pubs, p, body);
    OneMoreInFile(cap, acts, Append(p, 0), Run(cap, acts));
    var s3 := At(After(c, cap, body), queue, log, pubs[p := Stored(body, c.nextSeq)]);
    OneMoreInFile(cap, acts + [Append(p, 0)], Publish(p), s3);
    assert acts + [Append(p, 0), Publish(p)] == acts + [Append(p, 0)] + [Publish(p)];
  }

  lemma SameFlight(s: System, s': System)
    requires s'.pubs == s.pubs && NobodyInFlight(s, "t")
    ensures NobodyInFlight(s', "t")
  {
    forall q
      ensures !InFlight(s', "t", q)
    {
      assert !InFlight(s, "t", q);
    }
  }

  lemma DraftsDoNotFly(s: System, s': System, p: nat, body: string)
    requires s'.pubs == s.pubs[p := Draft(body)] && NobodyInFlight(s, "t")
    ensures NobodyInFlight(s', "t")
  {
    forall q
      ensures !InFlight(s', "t", q)
    {
      assert !InFlight(s, "t", q);
    }
  }

  /** The channel after one message, and after a second one has pushed it out. */
  lemma OneKept(cap: int)
    ensures S.AppendScript(One([], 0, 0), 0, false, Limits(0, 0, 1), cap, "a", 0).channel == One([Message(1, "a")], 1, 1)
    ensures S.AppendScript(One([Message(1, "a")], 1, 1), 0, false, Limits(0, 0, 1), cap, "b", 0).channel == One([Message(2, "b")], 2, 1)
  {
    var m1, m2 := Message(1, "a"), Message(2, "b");
    assert [] + [m1] == [m1];
    assert ([m1] + [m2])[1..] == [m2];
    assert Evict(Next(Ring([m1] + [m2], 2, 2)), Limits(0, 0, 1)) == Ring([m2], 1, 1);
  }

  // --- the run ---

  /** The channel is created; then the reader subscribes. */
  function Created(): seq<Action> {
    [StoreStep(S.Create("t", "", "", true, Limits(0, 0, 1)))]
  }

  /** Two messages are sent before the reader reads its page. */
  function BothSent(): seq<Action> {
    Sending(0, "a") + Sending(1, "b")
  }

  function AFrame(): B.Envelope { B.Envelope("t", "a") }
  function BFrame(): B.Envelope { B.Envelope("t", "b") }

  lemma CreatedState(cap: int)
    ensures Run(cap, Created()) == System(S.Store(map["t" := One([], 0, 0)], map[], map[], map[]), B.INITIAL, map[], map[], map[])
    ensures SingleFile(cap, Created(), "t")
  {
    var a := Created()[0];
    assert [] + [a] == Created();
    OneMoreInFile(cap, [], a, INITIAL);
  }

  lemma AttachedState(cap: int)
    ensures Run(cap, Created() + [Attach(0, "t", 0)]) == At(One([], 0, 0), [], map[], map[])
    ensures SingleFile(cap, Created() + [Attach(0, "t", 0)], "t")
  {
    CreatedState(cap);
    var s := Run(cap, Created());
    OneMoreInFile(cap, Created(), Attach(0, "t", 0), s);
    assert B.Joined(B.INITIAL, "t") == Listening([]) by {
      assert B.Live(map[], "t") + {1} == {1};
    }
  }

  lemma FirstSent(cap: int, joined: seq<Action>)
    requires joined == Created() + [Attach(0, "t", 0)]
    ensures var s := Run(cap, joined + Sending(0, "a"));
            && s == At(One([Message(1, "a")], 1, 1), [AFrame()], map["t" := [AFrame()]], map[0 := Sent("a", 1)])
            && NobodyInFlight(s, "t")
    ensures SingleFile(cap, joined + Sending(0, "a"), "t")
  {
    AttachedState(cap);
    OneKept(cap);
    SendingState(cap, joined, One([], 0, 0), [], map[], map[], 0, "a");
    SendingInFile(cap, joined, One([], 0, 0), [], map[], map[], 0, "a");
    assert [] + [AFrame()] == [AFrame()];
  }

  lemma SecondMaps(log: map<string, seq<B.Envelope>>, pubs: map<nat, Pub>)
    requires log == map["t" := [AFrame()]] && pubs == map[0 := Sent("a", 1)]
    ensures [AFrame()] + [BFrame()] == [AFrame(), BFrame()]
    ensures log["t" := [AFrame(), BFrame()]] == map["t" := [AFrame(), BFrame()]]
    ensures pubs[1 := Sent("b", 2)] == map[0 := Sent("a", 1), 1 := Sent("b", 2)]
  {
  }

  lemma SecondSent(cap: int, first: seq<Action>)
    requires Run(cap, first) == At(One([Message(1, "a")], 1, 1), [AFrame()], map["t" := [AFrame()]], map[0 := Sent("a", 1)])
    requires NobodyInFlight(Run(cap, first), "t") && SingleFile(cap, first, "t")
    ensures Run(cap, first + Sending(1, "b"))
            == At(One([Message(2, "b")], 2, 1), [AFrame(), BFrame()], map["t" := [AFrame(), BFrame()]],
                  map[0 := Sent("a", 1), 1 := Sent("b", 2)])
    ensures SingleFile(cap, first + Sending(1, "b"), "t")
  {
    OneKept(cap);
    var c1, log1, pubs1 := One([Message(1, "a")], 1, 1), map["t" := [AFrame()]], map[0 := Sent("a", 1)];
    SendingState(cap, first, c1, [AFrame()], log1, pubs1, 1, "b");
    SendingInFile(cap, first, c1, [AFrame()], log1, pubs1, 1, "b");
    SecondMaps(log1, pubs1);
  }

  /** When the reader reads, only the second message is stored, and both are queued for it. */
  lemma BothSentState(cap: int, joined: seq<Action>, upToRead: seq<Action>)
    requires joined == Created() + [Attach(0, "t", 0)] && upToRead == joined + Sending(0, "a") + Sending(1, "b")
    ensures Run(cap, upToRead)
            == At(One([Message(2, "b")], 2, 1), [AFrame(), BFrame()], map["t" := [AFrame(), BFrame()]],
                  map[0 := Sent("a", 1), 1 := Sent("b", 2)])
    ensures SingleFile(cap, upToRead, "t")
  {
    FirstSent(cap, joined);
    SecondSent(cap, joined + Sending(0, "a"));
  }

  lemma ReadAfterBoth(cap: int, upToRead: seq<Action>)
    requires Run(cap, upToRead) == At(One([Message(2, "b")], 2, 1), [AFrame(), BFrame()], map["t" := [AFrame(), BFrame()]],
                                      map[0 := Sent("a", 1), 1 := Sent("b", 2)])
    requires SingleFile(cap, upToRead, "t")
    ensures var s := Run(cap, upToRead + [Read(0, 1000, 0)] + []);
            s.broker == Listening([AFrame(), BFrame()]) && s.log == map["t" := [AFrame(), BFrame()]]
    ensures SingleFile(cap, upToRead + [Read(0, 1000, 0)] + [], "t")
  {
    OneMoreInFile(cap, upToRead, Read(0, 1000, 0), Run(cap, upToRead));
    assert upToRead + [Read(0, 1000, 0)] + [] == upToRead + [Read(0, 1000, 0)];
  }

  // --- the run is an ordinary one ---

  /** The action keeps the channel's TTL at nothing and reads the clock at zero. */
  predicate Mild(a: Action) {
    && (a.StoreStep? ==> T.KeepsTtl(a.a, "t", 0))
    && (a.Append? ==> a.now == 0)
  }

  predicate MildStep(a: S.Action) {
    T.KeepsTtl(a, "t", 0) && (a.RunAppend? ==> a.now == 0)
  }

  lemma {:induction false} MildRun(cap: int, acts: seq<Action>)
    requires forall a :: a in acts ==> Mild(a)
    ensures forall a :: a in StoreRun(cap, acts) ==> MildStep(a)
  {
    if acts != [] {
      var before, a := acts[..|acts| - 1], acts[|acts| - 1];
      MildRun(cap, before);
      assert Mild(a);
      var part := StorePart(Run(cap, before), a);
      assert forall sa :: sa in part ==> MildStep(sa);
      assert forall sa :: sa in StoreRun(cap, before) + part ==> sa in StoreRun(cap, before) || sa in part;
    }
  }

  lemma {:induction false} MildReadings(acts: seq<S.Action>)
    requires forall a :: a in acts ==> MildStep(a)
    ensures T.AppendsAdvance(acts) && T.LastReading(acts) == 0
  {
    if acts != [] {
      MildReadings(acts[..|acts| - 1]);
      assert MildStep(acts[|acts| - 1]);
    }
  }

  lemma MildIsOrderly(cap: int, acts: seq<Action>)
    requires forall a :: a in acts ==> Mild(a)
    ensures T.FixedTtl(StoreRun(cap, acts), "t", 0) && T.AppendsAdvance(StoreRun(cap, acts)) && Orderly(cap, acts, "t")
  {
    MildRun(cap, acts);
    MildReadings(StoreRun(cap, acts));
    assert forall a :: a in StoreRun(cap, acts) ==> MildStep(a);
    T.OneTtlIsInOrder(cap, StoreRun(cap, acts), "t", 0);
  }

  lemma AllMild()
    ensures forall a :: a in SeamRun(Created(), 0, "t", 0, BothSent()) ==> Mild(a)
  {
    forall a | a in SeamRun(Created(), 0, "t", 0, BothSent())
      ensures Mild(a)
    {
      assert a in Created() || a == Attach(0, "t", 0) || a in Sending(0, "a") || a in Sending(1, "b");
    }
  }

  /** One message at a time, every append succeeding, no TTL, the readings in order and a page limit
      that covers the stream; and yet the reader is left with the second message and then the first. */
  lemma NewerBeforeOlder(cap: int)
    ensures var m := TheSeam(cap, Created(), 0, "t", 0, BothSent(), 1000, 0, []);
            && |Stream(m.atRead, "t")| <= 1000
            && PageOf(m) == [Message(2, "b")]
            && B.Received(m.now.broker, Sub(m)) == [AFrame(), BFrame()]
            && Handed(m) && From(m) == 0 && Stop(m) == 2
            && ReaderSees(m) == [2, 1] && !Consecutive([2, 1])
    ensures SingleFile(cap, SeamRun(Created(), 0, "t", 0, BothSent()) + [Read(0, 1000, 0)] + [], "t")
    ensures var store := StoreRun(cap, SeamRun(Created(), 0, "t", 0, BothSent()));
            T.FixedTtl(store, "t", 0) && T.AppendsAdvance(store)
    ensures Orderly(cap, SeamRun(Created(), 0, "t", 0, BothSent()), "t")
  {
    AllMild();
    MildIsOrderly(cap, SeamRun(Created(), 0, "t", 0, BothSent()));
    CreatedState(cap);
    var joined := Created() + [Attach(0, "t", 0)];
    assert SeamRun(Created(), 0, "t", 0, BothSent()) == joined + Sending(0, "a") + Sending(1, "b");
    BothSentState(cap, joined, SeamRun(Created(), 0, "t", 0, BothSent()));
    ReadAfterBoth(cap, SeamRun(Created(), 0, "t", 0, BothSent()));
    WhatIsSeen(TheSeam(cap, Created(), 0, "t", 0, BothSent(), 1000, 0, []));
  }

  lemma WhatIsSeen(m: Seam)
    requires Sub(m) == 1 && m.id == "t" && m.after == 0 && m.limit == 1000 && LogOf(m.atAttach, "t") == []
    requires Stream(m.atRead, "t") == [Message(2, "b")]
    requires m.now.broker == Listening([AFrame(), BFrame()]) && m.now.log == map["t" := [AFrame(), BFrame()]]
    ensures PageOf(m) == [Message(2, "b")] && B.Received(m.now.broker, Sub(m)) == [AFrame(), BFrame()]
    ensures Handed(m) && From(m) == 0 && Stop(m) == 2 && ReaderSees(m) == [2, 1] && !Consecutive([2, 1])
  {
    var kept := [Message(2, "b")];
    assert S.After(kept, 0) == kept;
    assert S.Live(kept, m.clock) == kept by {
      assert kept[1..] == [];
    }
    assert Numbers(PageOf(m)) == [2];
    assert [] + [AFrame(), BFrame()] == [AFrame(), BFrame()] == [AFrame(), BFrame()][0..2];
    TwoThenOne();
  }

  lemma TwoThenOne()
    ensures Merged([2], Span(1, 3)) == [2, 1] && !Consecutive([2, 1])
  {
    SpanCons(1, 3);
    SpanCons(2, 3);
    assert Span(1, 3) == [1, 2];
    assert Unseen([1, 2], [2]) == [1] by {
      assert [1, 2][1..] == [2] && [2][1..] == [];
      assert Unseen([2], [2]) == [];
    }
    assert [2, 1][1] != [2, 1][0] + 1;
  }
}
