/** Three short runs in which the sweeper does show: an append in the middle of a sweep loses a live
    message, and a lowered TTL or two crossing clock readings leave a hole in the stored numbers. */
module SweepExamples {
  import opened Eviction
  import opened StoreMachine
  import opened StoreConservation
  import opened StoreSafety
  import opened Contiguity
  import opened SweepHoles
  import opened Pages
  import opened SweepUnobservable

  // --- a channel on its own ---

  /** A store with the one channel "c". */
  function Only(c: Channel, sweepers: map<nat, Sweeper>): Store {
    Store(map["c" := c], map[], map[], sweepers)
  }

  function AppendC(blob: Blob, now: int): seq<Action> {
    [ReadConfig(0, "c"), RunAppend(0, blob, now)]
  }

  lemma OneAppend(cap: int, c: Channel, sweepers: map<nat, Sweeper>, blob: Blob, now: int)
    requires c.owner == "" && c.retained
    ensures RunFrom(cap, Only(c, sweepers), AppendC(blob, now))
            == Only(AppendScript(c, 0, false, c.limits, cap, blob, now).channel, sweepers)
  {
    var s := Only(c, sweepers);
    var s1 := Apply(cap, s, ReadConfig(0, "c"));
    var s2 := Apply(cap, s1, RunAppend(0, blob, now));
    assert s1.appenders - {0} == map[];
    assert s2.chans == Only(AppendScript(c, 0, false, c.limits, cap, blob, now).channel, sweepers).chans;
    assert AppendC(blob, now)[1..] == [RunAppend(0, blob, now)];
    assert RunFrom(cap, s1, [RunAppend(0, blob, now)]) == s2;
  }

  /** A limit of two messages, each expiring ten seconds after it is appended. */
  function Stored(stream: seq<Entry>, last: nat, count: nat): Channel {
    Channel("", "", true, Limits(10, 0, 2), stream, last, count, count, last + 1)
  }

  function Message(n: nat, blob: Blob, exp: int): Entry {
    Entry(n, blob, exp, 1)
  }

  /** With the counters at the limit, an append drops the oldest entry left. */
  lemma AppendAtLimit(cap: int, stream: seq<Entry>, last: nat, blob: Blob, now: int)
    requires |stream| > 0 && stream[0].size == 1 && |blob| == 1
    ensures AppendScript(Stored(stream, last, 2), 0, false, Limits(10, 0, 2), cap, blob, now).channel
            == Stored(stream[1..] + [Message(last + 1, blob, now + 10)], last + 1, 2)
  {
    var e := Message(last + 1, blob, now + 10);
    assert (stream + [e])[1..] == stream[1..] + [e];
    assert Evict(Next(Ring(stream + [e], 3, 3)), Limits(10, 0, 2)) == Ring(stream[1..] + [e], 2, 2);
  }

  lemma {:induction false} UnsweptSame(xs: seq<Action>)
    requires forall a :: a in xs ==> !Sweeps(a)
    ensures Unswept(xs) == xs
  {
    if xs != [] {
      UnsweptSame(xs[..|xs| - 1]);
      assert xs == xs[..|xs| - 1] + [xs[|xs| - 1]];
    }
  }

  lemma {:induction false} UnsweptNothing(xs: seq<Action>)
    requires forall a :: a in xs ==> Sweeps(a)
    ensures Unswept(xs) == []
  {
    if xs != [] {
      UnsweptNothing(xs[..|xs| - 1]);
    }
  }

  /** Two messages are stored; the first expires at 10, the second at 15. */
  function TwoStored(): seq<Action> {
    [Create("c", "", "", true, Limits(10, 0, 2))] + (AppendC("a", 0) + AppendC("b", 5))
  }

  /** At 12 a sweeper deletes the first message and is then interrupted. */
  function HalfSweep(): seq<Action> {
    [SweepBegin(0, 12, ["c"]), SweepScan(0), SweepVisit(0)]
  }

  lemma TwoStoredState(cap: int)
    ensures Run(cap, TwoStored()) == Only(Stored([Message(1, "a", 10), Message(2, "b", 15)], 2, 2), map[])
  {
    var create := [Create("c", "", "", true, Limits(10, 0, 2))];
    var c0 := NewChannel("", "", true, Limits(10, 0, 2));
    assert create[..0] == [];
    assert Run(cap, create) == Only(c0, map[]);
    RunOn(cap, create, AppendC("a", 0) + AppendC("b", 5));
    RunTwice(cap, Only(c0, map[]), AppendC("a", 0), AppendC("b", 5));
    OneAppend(cap, c0, map[], "a", 0);
    var c1 := AppendScript(c0, 0, false, c0.limits, cap, "a", 0).channel;
    assert c1 == Stored([Message(1, "a", 10)], 1, 1);
    OneAppend(cap, c1, map[], "b", 5);
    assert [Message(1, "a", 10)] + [Message(2, "b", 15)] == [Message(1, "a", 10), Message(2, "b", 15)];
  }

  lemma SweepBegun(cap: int, c: Channel, now: int)
    ensures RunFrom(cap, Only(c, map[]), [SweepBegin(0, now, ["c"]), SweepScan(0)])
            == Only(c, map[0 := Sweeper(now, [], "c", c.stream, NoDue)])
  {
    var s := Only(c, map[]);
    assert s.chans.Keys == {"c"};
    assert multiset(["c"]) == multiset(s.chans.Keys);
    var s1 := Apply(cap, s, SweepBegin(0, now, ["c"]));
    assert s1 == Only(c, map[0 := Sweeper(now, ["c"], "", [], NoDue)]);
    assert ["c"][1..] == [];
    assert Apply(cap, s1, SweepScan(0)) == Only(c, map[0 := Sweeper(now, [], "c", c.stream, NoDue)]);
    assert [SweepBegin(0, now, ["c"]), SweepScan(0)][1..] == [SweepScan(0)];
    assert RunFrom(cap, s1, [SweepScan(0)]) == Apply(cap, s1, SweepScan(0));
  }

  lemma HalfSweepState(cap: int)
    ensures RunFrom(cap, Only(Stored([Message(1, "a", 10), Message(2, "b", 15)], 2, 2), map[]), HalfSweep())
            == Only(Stored([Message(2, "b", 15)], 2, 2), map[0 := Sweeper(12, [], "c", [Message(2, "b", 15)], DueBytes(1))])
  {
    var m1, m2 := Message(1, "a", 10), Message(2, "b", 15);
    var c := Stored([m1, m2], 2, 2);
    var begin := [SweepBegin(0, 12, ["c"]), SweepScan(0)];
    SweepBegun(cap, c, 12);
    RunTwice(cap, Only(c, map[]), begin, [SweepVisit(0)]);
    assert begin + [SweepVisit(0)] == HalfSweep();
    var s2 := Only(c, map[0 := Sweeper(12, [], "c", [m1, m2], NoDue)]);
    assert Holds([m1, m2], m1.id) by { assert m1 in [m1, m2]; }
    assert Without([m1, m2], 1) == [m2] && [m1, m2][1..] == [m2];
    var s3 := Apply(cap, s2, SweepVisit(0));
    assert s3.sweepers == map[0 := Sweeper(12, [], "c", [m2], DueBytes(1))];
    assert s3.chans == map["c" := Stored([m2], 2, 2)];
    assert RunFrom(cap, s2, [SweepVisit(0)]) == s3;
  }

  function HalfSwept(): seq<Action> {
    TwoStored() + (HalfSweep() + AppendC("d", 12))
  }

  lemma SweptState(cap: int)
    ensures StreamOf(Run(cap, HalfSwept()), "c") == [Message(3, "d", 22)]
  {
    RunOn(cap, TwoStored(), HalfSweep() + AppendC("d", 12));
    TwoStoredState(cap);
    var s := Run(cap, TwoStored());
    RunTwice(cap, s, HalfSweep(), AppendC("d", 12));
    HalfSweepState(cap);
    var m2 := Message(2, "b", 15);
    var w := map[0 := Sweeper(12, [], "c", [m2], DueBytes(1))];
    OneAppend(cap, Stored([m2], 2, 2), w, "d", 12);
    AppendAtLimit(cap, [m2], 2, "d", 12);
    assert [m2][1..] + [Message(3, "d", 22)] == [Message(3, "d", 22)];
  }

  lemma UnsweptParts()
    ensures Unswept(TwoStored()) == TwoStored() && Unswept(HalfSweep()) == [] && Unswept(AppendC("d", 12)) == AppendC("d", 12)
  {
    NoSweepIn("d", 12);
    NoSweepStored();
    UnsweptSame(TwoStored());
    UnsweptSame(AppendC("d", 12));
    UnsweptNothing(HalfSweep());
  }

  lemma NoSweepIn(blob: Blob, now: int)
    ensures forall a :: a in AppendC(blob, now) ==> !Sweeps(a)
  {
  }

  lemma NoSweepStored()
    ensures forall a :: a in TwoStored() ==> !Sweeps(a)
  {
    var create := [Create("c", "", "", true, Limits(10, 0, 2))];
    NoSweepIn("a", 0);
    NoSweepIn("b", 5);
    assert forall a :: a in TwoStored() ==> a in create || a in AppendC("a", 0) || a in AppendC("b", 5);
  }

  lemma UnsweptScript()
    ensures Unswept(HalfSwept()) == TwoStored() + AppendC("d", 12)
  {
    var stored, sweep, append := TwoStored(), HalfSweep(), AppendC("d", 12);
    UnsweptConcat(stored, sweep + append);
    UnsweptConcat(sweep, append);
    UnsweptParts();
    assert [] + append == append;
  }

  lemma UnsweptState(cap: int)
    ensures StreamOf(Run(cap, Unswept(HalfSwept())), "c") == [Message(2, "b", 15), Message(3, "d", 22)]
  {
    UnsweptScript();
    RunOn(cap, TwoStored(), AppendC("d", 12));
    TwoStoredState(cap);
    var m1, m2 := Message(1, "a", 10), Message(2, "b", 15);
    OneAppend(cap, Stored([m1, m2], 2, 2), map[], "d", 12);
    AppendAtLimit(cap, [m1, m2], 2, "d", 12);
    assert [m1, m2][1..] + [Message(3, "d", 22)] == [m2, Message(3, "d", 22)];
  }

  lemma OneMoreAppend(acts: seq<Action>, blob: Blob, now: int)
    requires AppendsAdvance(acts) && LastReading(acts) <= now
    ensures AppendsAdvance(acts + AppendC(blob, now)) && LastReading(acts + AppendC(blob, now)) == now
  {
    OneMoreReading(acts, ReadConfig(0, "c"));
    OneMoreReading(acts + [ReadConfig(0, "c")], RunAppend(0, blob, now));
    assert acts + AppendC(blob, now) == acts + [ReadConfig(0, "c")] + [RunAppend(0, blob, now)];
  }

  /** Steps that append nothing read no clock that matters. */
  lemma {:induction false} NoMoreReadings(acts: seq<Action>, more: seq<Action>)
    requires AppendsAdvance(acts) && forall a :: a in more ==> !a.RunAppend?
    ensures AppendsAdvance(acts + more) && LastReading(acts + more) == LastReading(acts)
    decreases |more|
  {
    if more == [] {
      assert acts + more == acts;
    } else {
      NoMoreReadings(acts, more[..|more| - 1]);
      OneMoreReading(acts + more[..|more| - 1], more[|more| - 1]);
      assert acts + more == acts + more[..|more| - 1] + [more[|more| - 1]];
    }
  }

  lemma TwoStoredReadings()
    ensures AppendsAdvance(TwoStored()) && LastReading(TwoStored()) == 5
  {
    var create := [Create("c", "", "", true, Limits(10, 0, 2))];
    NoMoreReadings([], create);
    assert [] + create == create;
    OneMoreAppend(create, "a", 0);
    OneMoreAppend(create + AppendC("a", 0), "b", 5);
    assert create + AppendC("a", 0) + AppendC("b", 5) == TwoStored();
  }

  lemma HalfSweptReadings()
    ensures AppendsAdvance(HalfSwept())
  {
    TwoStoredReadings();
    NoMoreReadings(TwoStored(), HalfSweep());
    OneMoreAppend(TwoStored() + HalfSweep(), "d", 12);
    assert TwoStored() + HalfSweep() + AppendC("d", 12) == HalfSwept();
  }

  /** A live message lost to a sweep: the readings advance and the TTL is ten seconds throughout,
      yet at 12 the message that expires at 15 is on the page of the unswept run only. */
  lemma MidSweepAppendLosesLiveMessage(cap: int)
    ensures FixedTtl(HalfSwept(), "c", 10) && Unowned(HalfSwept(), "c") && AppendsAdvance(HalfSwept())
    ensures InOrder(cap, Unswept(HalfSwept()), "c") && ReadsNoneBelowZero(HalfSwept())
    ensures var swept, unswept := StreamOf(Run(cap, HalfSwept()), "c"), StreamOf(Run(cap, Unswept(HalfSwept())), "c");
            && CatchUp(unswept, 0, 1000, 12) == [Message(2, "b", 15), Message(3, "d", 22)]
            && CatchUp(swept, 0, 1000, 12) == [Message(3, "d", 22)]
  {
    HalfSweptReadings();
    HalfSweptIsPlain();
    OneTtlIsComparable(cap, HalfSwept(), "c", 10);
    HalfSweptPages(cap);
  }

  lemma HalfSweptPages(cap: int)
    ensures var swept, unswept := StreamOf(Run(cap, HalfSwept()), "c"), StreamOf(Run(cap, Unswept(HalfSwept())), "c");
            && CatchUp(unswept, 0, 1000, 12) == [Message(2, "b", 15), Message(3, "d", 22)]
            && CatchUp(swept, 0, 1000, 12) == [Message(3, "d", 22)]
  {
    SweptState(cap);
    UnsweptState(cap);
    FromTheStart([Message(2, "b", 15), Message(3, "d", 22)], 12);
    FromTheStart([Message(3, "d", 22)], 12);
  }

  lemma HalfSweptIsPlain()
    ensures FixedTtl(HalfSwept(), "c", 10) && Unowned(HalfSwept(), "c")
  {
    forall a | a in HalfSwept()
      ensures KeepsTtl(a, "c", 10) && (a.Create? && a.id == "c" ==> a.owner == "")
    {
      assert a in TwoStored() || a in HalfSweep() || a in AppendC("d", 12);
    }
  }

  lemma FromTheStart(es: seq<Entry>, now: int)
    requires |es| <= 1000 && forall e :: e in es ==> e.id > 0 && !Expired(e, now)
    ensures CatchUp(es, 0, 1000, now) == es
  {
    AfterZero(es);
    NoneExpired(es, now);
  }

  // --- holes ---

  function WholeSweep(): seq<Action> {
    [SweepBegin(0, 20, ["c"]), SweepScan(0), SweepVisit(0), SweepVisit(0)]
  }

  function Uncapped(ttl: int, stream: seq<Entry>, last: nat, count: nat): Channel {
    Channel("", "", true, Limits(ttl, 0, 0), stream, last, count, count, last + 1)
  }

  /** Two messages, the second of which expires first. */
  function Crossed(x1: int, x2: int): seq<Entry> {
    [Message(1, "a", x1), Message(2, "b", x2)]
  }

  lemma VisitBoth(cap: int, ttl: int, x1: int, x2: int)
    requires 0 < x2 <= 20 < x1
    ensures RunFrom(cap, Only(Uncapped(ttl, Crossed(x1, x2), 2, 2), map[0 := Sweeper(20, [], "c", Crossed(x1, x2), NoDue)]),
                    [SweepVisit(0), SweepVisit(0)]).chans
            == map["c" := Uncapped(ttl, [Message(1, "a", x1)], 2, 2)]
  {
    var m1, m2 := Message(1, "a", x1), Message(2, "b", x2);
    var c := Uncapped(ttl, [m1, m2], 2, 2);
    var s2 := Only(c, map[0 := Sweeper(20, [], "c", [m1, m2], NoDue)]);
    var s3 := Apply(cap, s2, SweepVisit(0));
    assert [m1, m2][1..] == [m2];
    assert s3 == Only(c, map[0 := Sweeper(20, [], "c", [m2], NoDue)]);
    assert Holds([m1, m2], m2.id) by { assert m2 in [m1, m2]; }
    assert Without([m1, m2], 2) == [m1] by { assert Without([m2], 2) == []; }
    var s4 := Apply(cap, s3, SweepVisit(0));
    assert s4.chans == map["c" := Uncapped(ttl, [m1], 2, 2)];
    assert [SweepVisit(0), SweepVisit(0)][1..] == [SweepVisit(0)];
    assert RunFrom(cap, s3, [SweepVisit(0)]) == s4;
  }

  lemma WholeSweepState(cap: int, ttl: int, x1: int, x2: int)
    requires 0 < x2 <= 20 < x1
    ensures RunFrom(cap, Only(Uncapped(ttl, Crossed(x1, x2), 2, 2), map[]), WholeSweep()).chans
            == map["c" := Uncapped(ttl, [Message(1, "a", x1)], 2, 2)]
  {
    var c := Uncapped(ttl, Crossed(x1, x2), 2, 2);
    var begin, visits := [SweepBegin(0, 20, ["c"]), SweepScan(0)], [SweepVisit(0), SweepVisit(0)];
    SweepBegun(cap, c, 20);
    VisitBoth(cap, ttl, x1, x2);
    RunTwice(cap, Only(c, map[]), begin, visits);
    assert begin + visits == WholeSweep();
  }

  /** With no limits to evict by, an append just stores. */
  lemma UncappedAppend(cap: int, ttl: int, stream: seq<Entry>, last: nat, count: nat, blob: Blob, now: int)
    requires ttl > 0 && |blob| == 1
    ensures AppendScript(Uncapped(ttl, stream, last, count), 0, false, Limits(ttl, 0, 0), cap, blob, now).channel
            == Uncapped(ttl, stream + [Message(last + 1, blob, now + ttl)], last + 1, count + 1)
  {
  }

  lemma FirstStored(cap: int, ttl: int, now: int)
    requires ttl > 0
    ensures Run(cap, [Create("c", "", "", true, Limits(ttl, 0, 0))] + AppendC("a", now))
            == Only(Uncapped(ttl, [Message(1, "a", now + ttl)], 1, 1), map[])
  {
    var create := [Create("c", "", "", true, Limits(ttl, 0, 0))];
    var c0 := Uncapped(ttl, [], 0, 0);
    assert create[..0] == [];
    assert Run(cap, create) == Only(c0, map[]);
    RunOn(cap, create, AppendC("a", now));
    OneAppend(cap, c0, map[], "a", now);
    UncappedAppend(cap, ttl, [], 0, 0, "a", now);
    assert [] + [Message(1, "a", now + ttl)] == [Message(1, "a", now + ttl)];
  }

  lemma SecondStored(cap: int, ttl: int, x1: int, now: int)
    requires ttl > 0
    ensures RunFrom(cap, Only(Uncapped(ttl, [Message(1, "a", x1)], 1, 1), map[]), AppendC("b", now))
            == Only(Uncapped(ttl, Crossed(x1, now + ttl), 2, 2), map[])
  {
    var c1 := Uncapped(ttl, [Message(1, "a", x1)], 1, 1);
    OneAppend(cap, c1, map[], "b", now);
    UncappedAppend(cap, ttl, c1.stream, 1, 1, "b", now);
    assert [Message(1, "a", x1)] + [Message(2, "b", now + ttl)] == Crossed(x1, now + ttl);
  }

  /** The sweep takes the second message and leaves the first. */
  ghost predicate HasHole(s: Store, x1: int) {
    "c" in s.chans && s.chans["c"].stream == [Message(1, "a", x1)] && s.chans["c"].nextSeq == 3 && !NoHole(s, "c")
  }

  lemma CrossedLeavesHole(cap: int, store: seq<Action>, ttl: int, x1: int, x2: int)
    requires Run(cap, store) == Only(Uncapped(ttl, Crossed(x1, x2), 2, 2), map[]) && 0 < x2 <= 20 < x1
    ensures HasHole(Run(cap, store + WholeSweep()), x1)
  {
    RunOn(cap, store, WholeSweep());
    WholeSweepState(cap, ttl, x1, x2);
    assert [Message(1, "a", x1)][0].id == 1;
  }

  /** The first message is stored for a hundred seconds, the second, with a lower TTL, for ten. */
  function TtlLowered(): seq<Action> {
    ([Create("c", "", "", true, Limits(100, 0, 0))] + AppendC("a", 0)) + ([SetLimits("c", 10, -1, -1)] + AppendC("b", 5))
  }

  lemma TtlLoweredState(cap: int)
    ensures Run(cap, TtlLowered()) == Only(Uncapped(10, Crossed(100, 15), 2, 2), map[])
  {
    var c1, c2 := Uncapped(100, [Message(1, "a", 100)], 1, 1), Uncapped(10, [Message(1, "a", 100)], 1, 1);
    var lower := [SetLimits("c", 10, -1, -1)];
    FirstStored(cap, 100, 0);
    RunOn(cap, [Create("c", "", "", true, Limits(100, 0, 0))] + AppendC("a", 0), lower + AppendC("b", 5));
    RunTwice(cap, Only(c1, map[]), lower, AppendC("b", 5));
    assert RunFrom(cap, Only(c1, map[]), lower) == Only(c2, map[]);
    SecondStored(cap, 10, 100, 5);
  }

  lemma TtlLoweredReadings()
    ensures AppendsAdvance(TtlLowered() + WholeSweep())
  {
    var create, lower := [Create("c", "", "", true, Limits(100, 0, 0))], [SetLimits("c", 10, -1, -1)];
    NoMoreReadings([], create);
    assert [] + create == create;
    OneMoreAppend(create, "a", 0);
    NoMoreReadings(create + AppendC("a", 0), lower);
    OneMoreAppend(create + AppendC("a", 0) + lower, "b", 5);
    assert create + AppendC("a", 0) + lower + AppendC("b", 5) == TtlLowered();
    NoMoreReadings(TtlLowered(), WholeSweep());
  }

  /** Lowering the TTL makes a hole, though the readings advance. */
  lemma LoweredTtlLeavesHole(cap: int)
    ensures AppendsAdvance(TtlLowered() + WholeSweep()) && HasHole(Run(cap, TtlLowered() + WholeSweep()), 100)
  {
    TtlLoweredReadings();
    TtlLoweredState(cap);
    CrossedLeavesHole(cap, TtlLowered(), 10, 100, 15);
  }

  // --- two readings that cross ---

  /** A store with the one channel "c" and appenders that have read its configuration. */
  function Waiting(c: Channel, appenders: map<nat, Appender>): Store {
    Store(map["c" := c], map[], appenders, map[])
  }

  function Ten(): Appender {
    Appender("c", "", Limits(10, 0, 0))
  }

  /** Appender 1 reads the clock at 10 and appender 0 at 11, and the script of appender 0 runs first. */
  function Crossing(): seq<Action> {
    [Create("c", "", "", true, Limits(10, 0, 0))]
    + ([ReadConfig(1, "c"), ReadConfig(0, "c")] + [RunAppend(0, "a", 11), RunAppend(1, "b", 10)])
  }

  lemma RunPair(cap: int, s: Store, a: Action, b: Action)
    ensures RunFrom(cap, s, [a, b]) == Apply(cap, Apply(cap, s, a), b)
  {
    assert [a, b][1..] == [b] && [b][1..] == [];
    RunFromStep(cap, s, [a, b]);
    RunFromStep(cap, Apply(cap, s, a), [b]);
  }

  lemma BothWait(cap: int)
    ensures RunFrom(cap, Only(Uncapped(10, [], 0, 0), map[]), [ReadConfig(1, "c"), ReadConfig(0, "c")])
            == Waiting(Uncapped(10, [], 0, 0), map[0 := Ten(), 1 := Ten()])
  {
    RunPair(cap, Only(Uncapped(10, [], 0, 0), map[]), ReadConfig(1, "c"), ReadConfig(0, "c"));
    assert map[][1 := Ten()][0 := Ten()] == map[0 := Ten(), 1 := Ten()];
  }

  lemma OneOfThemRuns(cap: int, stream: seq<Entry>, last: nat, count: nat, appenders: map<nat, Appender>, p: nat, blob: Blob, now: int)
    requires p in appenders && appenders[p] == Ten() && |blob| == 1
    ensures Apply(cap, Waiting(Uncapped(10, stream, last, count), appenders), RunAppend(p, blob, now))
            == Waiting(Uncapped(10, stream + [Message(last + 1, blob, now + 10)], last + 1, count + 1), appenders - {p})
  {
    UncappedAppend(cap, 10, stream, last, count, blob, now);
  }

  lemma BothRun(cap: int)
    ensures RunFrom(cap, Waiting(Uncapped(10, [], 0, 0), map[0 := Ten(), 1 := Ten()]), [RunAppend(0, "a", 11), RunAppend(1, "b", 10)])
            == Only(Uncapped(10, Crossed(21, 20), 2, 2), map[])
  {
    var both := map[0 := Ten(), 1 := Ten()];
    RunPair(cap, Waiting(Uncapped(10, [], 0, 0), both), RunAppend(0, "a", 11), RunAppend(1, "b", 10));
    OneOfThemRuns(cap, [], 0, 0, both, 0, "a", 11);
    OneOfThemRuns(cap, [] + [Message(1, "a", 21)], 1, 1, both - {0}, 1, "b", 10);
    assert both - {0} - {1} == map[];
    assert [] + [Message(1, "a", 21)] + [Message(2, "b", 20)] == Crossed(21, 20);
  }

  lemma CrossingState(cap: int)
    ensures Run(cap, Crossing()) == Only(Uncapped(10, Crossed(21, 20), 2, 2), map[])
  {
    var create := [Create("c", "", "", true, Limits(10, 0, 0))];
    var configs, scripts := [ReadConfig(1, "c"), ReadConfig(0, "c")], [RunAppend(0, "a", 11), RunAppend(1, "b", 10)];
    assert create[..0] == [];
    assert Run(cap, create) == Only(Uncapped(10, [], 0, 0), map[]);
    RunOn(cap, create, configs + scripts);
    RunTwice(cap, Run(cap, create), configs, scripts);
    BothWait(cap);
    BothRun(cap);
  }

  /** Two readings of the clock that reach the store in the other order make a hole too, though the TTL
      is ten seconds throughout. */
  lemma CrossingReadingsLeaveHole(cap: int)
    ensures FixedTtl(Crossing() + WholeSweep(), "c", 10) && HasHole(Run(cap, Crossing() + WholeSweep()), 21)
  {
    CrossingState(cap);
    CrossedLeavesHole(cap, Crossing(), 10, 21, 20);
    forall a | a in Crossing() + WholeSweep()
      ensures KeepsTtl(a, "c", 10)
    {
      assert a in Crossing() || a in WholeSweep();
    }
  }
}
