/** The run that loses a message when a publisher publishes before it appends. */
module AttachExamples {
  import opened Eviction
  import opened Attach
  import opened AttachNoLoss
  import S = StoreMachine
  import B = BrokerMachine

  function Topic(): S.Channel {
    S.NewChannel("", "", true, Limits(0, 0, 0))
  }

  function EmptyTopic(): S.Store {
    S.Store(map["t" := Topic()], map[], map[], map[])
  }

  function Hello(tried: bool, number: Number, place: Place): Pub {
    Pub("t", "hello", PublishFirst, tried, number, place)
  }

  /** The topic is created and the message published to nobody. */
  function PublishedToNobody(): seq<Action> {
    [StoreStep(S.Create("t", "", "", true, Limits(0, 0, 0))), Begin(0, "t", "hello", PublishFirst), Publish(0)]
  }

  function OnlyPublished(): System {
    System(EmptyTopic(), B.INITIAL, map["t" := [B.Envelope("t", "hello")]], map[0 := Hello(false, NoNumber, Out(0))], map[])
  }

  lemma RunThree(cap: int, a: Action, b: Action, c: Action)
    ensures Run(cap, [a, b, c]) == Step(cap, Step(cap, Step(cap, INITIAL, a), b), c)
  {
    assert [] + [a] == [a] && [a] + [b] == [a, b] && [a, b] + [c] == [a, b, c];
    RunStep(cap, [], a);
    RunStep(cap, [a], b);
    RunStep(cap, [a, b], c);
  }

  lemma TopicCreated(cap: int)
    ensures Step(cap, INITIAL, PublishedToNobody()[0]) == System(EmptyTopic(), B.INITIAL, map[], map[], map[])
  {
  }

  lemma NobodyThere(e: B.Envelope)
    ensures B.Fanned(B.INITIAL, e) == B.INITIAL
  {
    assert B.Overflowing(B.INITIAL, e.channel) == {};
    assert B.Fanned(B.INITIAL, e).closing == B.INITIAL.closing;
    assert B.Fanned(B.INITIAL, e).reg == B.INITIAL.reg;
    assert B.Fanned(B.INITIAL, e).subs == B.INITIAL.subs;
  }

  lemma PublishedState(cap: int)
    ensures Run(cap, PublishedToNobody()) == OnlyPublished()
  {
    var a := PublishedToNobody();
    RunThree(cap, a[0], a[1], a[2]);
    assert a == [a[0], a[1], a[2]];
    TopicCreated(cap);
    var s1 := System(EmptyTopic(), B.INITIAL, map[], map[], map[]);
    var s2 := Step(cap, s1, a[1]);
    assert s2 == System(EmptyTopic(), B.INITIAL, map[], map[0 := Hello(false, NoNumber, NotOut)], map[]);
    NobodyThere(B.Envelope("t", "hello"));
    assert LogOf(s2, "t") + [B.Envelope("t", "hello")] == [B.Envelope("t", "hello")];
    assert LogAfter(s2, a[2]) == map["t" := [B.Envelope("t", "hello")]];
    assert Step(cap, s2, a[2]) == OnlyPublished();
  }

  /** Once the reader has subscribed. */
  function Subscribed(): B.State {
    B.State(1, map["t" := {1}], map[1 := B.Sub("t", [], [], false, 0)], multiset{})
  }

  lemma AttachedState(cap: int)
    ensures Step(cap, OnlyPublished(), Attach(0, "t", 0))
            == OnlyPublished().(broker := Subscribed(), readers := map[0 := Reader("t", 0, 1, Unread)])
  {
    assert B.Joined(B.INITIAL, "t") == Subscribed() by {
      assert B.Live(map[], "t") + {1} == {1};
    }
  }

  /** Once it has read its page, which is empty. */
  function HasRead(): System {
    OnlyPublished().(broker := Subscribed(), readers := map[0 := Reader("t", 0, 1, Page([]))])
  }

  lemma ReadState(cap: int, clock: int)
    ensures Step(cap, OnlyPublished().(broker := Subscribed(), readers := map[0 := Reader("t", 0, 1, Unread)]), Read(0, 1000, clock))
            == HasRead()
  {
  }

  /** And once the message has been appended after all. */
  function Stored(): S.Store {
    S.Store(map["t" := Topic().(stream := [Entry(1, "hello", 0, 5)], lastId := 1, bytes := 5, msgs := 1, nextSeq := 2)], map[], map[], map[])
  }

  lemma AppendedState(cap: int, now: int)
    ensures var s := Step(cap, Step(cap, HasRead(), Configure(0)), Append(0, now));
            && s.store == Stored() && s.broker == Subscribed()
            && s.pubs == map[0 := Hello(true, Numbered(1), Out(0))]
  {
    var s1 := Step(cap, HasRead(), Configure(0));
    var ap := S.Appender("t", "", Limits(0, 0, 0));
    assert s1.store == EmptyTopic().(appenders := map[0 := ap]);
    var e := Entry(1, "hello", 0, 5);
    assert [] + [e] == [e];
    assert S.AppendScript(Topic(), 0, false, Limits(0, 0, 0), cap, "hello", now).channel
           == Topic().(stream := [e], lastId := 1, bytes := 5, msgs := 1, nextSeq := 2);
    assert s1.store.appenders - {0} == map[];
  }

  /** With publish before append a message is lost: it is stored under number one past the reader's
      cursor and does not expire, the reader's subscription is live, and yet it is neither on the
      reader's page nor delivered to it. */
  lemma PublishFirstCanLose(cap: int, clock: int)
    ensures var m := TheSeam(cap, PublishedToNobody(), 0, "t", 0, [], 1000, clock, [Configure(0), Append(0, clock)]);
            && Completed(m, 0) && m.now.pubs[0].order == PublishFirst
            && Stream(m.now, "t") == [Entry(1, "hello", 0, 5)]
            && B.IsLive(m.now.broker, Sub(m))
            && !InPage(m, 0) && !InLive(m, 0)
  {
    var before := PublishedToNobody();
    var joined := before + [Attach(0, "t", 0)];
    var upToRead := SeamRun(before, 0, "t", 0, []);
    assert upToRead == joined;
    var read := upToRead + [Read(0, 1000, clock)];
    PublishedState(cap);
    RunStep(cap, before, Attach(0, "t", 0));
    AttachedState(cap);
    RunStep(cap, upToRead, Read(0, 1000, clock));
    ReadState(cap, clock);
    RunStep(cap, read, Configure(0));
    RunStep(cap, read + [Configure(0)], Append(0, clock));
    assert read + [Configure(0)] + [Append(0, clock)] == read + [Configure(0), Append(0, clock)];
    AppendedState(cap, clock);
  }
}
