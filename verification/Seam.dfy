/** The seam as one publisher's reader sees it: the catch-up page and the live frames, repeats
    removed, are one run of consecutive numbers, exactly unless a live frame is older than the page. */
module SeamExactness {
  import opened Eviction
  import opened Attach
  import opened AttachNoLoss
  import S = StoreMachine
  import B = BrokerMachine
  import C = StoreConservation
  import T = Contiguity
  import Pages
  import R = Retention
  import SweepUnobservable

  // --- one publisher at a time, whose appends succeed ---

  /** The message has its number and is not out yet. */
  predicate InFlight(s: System, id: S.Id, p: nat) {
    p in s.pubs && s.pubs[p].id == id && s.pubs[p].number.Numbered? && !s.pubs[p].published
  }

  ghost predicate NobodyInFlight(s: System, id: S.Id) {
    forall p :: !InFlight(s, id, p)
  }

  /** The step keeps to single file on the channel: appends succeed, the next message is appended
      only when the last is out, and nothing is published that was not appended. */
  ghost predicate InFile(cap: int, s: System, a: Action, id: S.Id) {
    && (Appends(s, a) && s.pubs[a.p].id == id ==> NobodyInFlight(s, id) && Result(cap, s, a.p, a.now).Appended?)
    && (a.Publish? && MayPublish(s, a.p) && s.pubs[a.p].id == id ==> s.pubs[a.p].number.Numbered?)
  }

  ghost predicate SingleFile(cap: int, acts: seq<Action>, id: S.Id) {
    acts == [] || (SingleFile(cap, acts[..|acts| - 1], id) && InFile(cap, Run(cap, acts[..|acts| - 1]), acts[|acts| - 1], id))
  }

  /** At most one message is numbered beyond those in the log, and its number is the next. */
  ghost predicate FlightRight(s: System, id: S.Id) {
    && (forall p :: InFlight(s, id, p) ==> s.pubs[p].number.n == |LogOf(s, id)| + 1 && NextSeq(s, id) == |LogOf(s, id)| + 2)
    && (forall p, q :: InFlight(s, id, p) && InFlight(s, id, q) ==> p == q)
    && (NobodyInFlight(s, id) ==> NextSeq(s, id) == |LogOf(s, id)| + 1)
    && Placed(s, id)
  }

  /** What is stored under a number is the message of that place in the log. */
  ghost predicate StoredRight(es: seq<Entry>, next: nat, log: seq<B.Envelope>) {
    && (forall e :: e in es ==> 1 <= e.id < next)
    && (forall e :: e in es && e.id <= |log| ==> e.blob == log[e.id - 1].body)
  }

  /** The published log is the messages in the order of their numbers, from one on. */
  ghost predicate Filed(s: System, id: S.Id) {
    FlightRight(s, id) && StoredRight(Stream(s, id), NextSeq(s, id), LogOf(s, id))
  }

  /** Only an append to the channel moves its next number, and by one. */
  lemma NumbersMove(cap: int, s: System, a: Action, id: S.Id)
    requires Good(s)
    ensures var numbered := Appends(s, a) && s.pubs[a.p].id == id && Result(cap, s, a.p, a.now).Appended?;
            NextSeq(Step(cap, s, a), id) == NextSeq(s, id) + (if numbered then 1 else 0)
  {
    var part := StorePart(s, a);
    if part != [] {
      R.NumbersStep(cap, s.store, part[0], id);
    }
  }

  lemma StoredBelowNext(s: System, id: S.Id)
    requires Good(s)
    ensures forall e :: e in Stream(s, id) ==> e.id < NextSeq(s, id)
  {
    if id in s.store.chans {
      assert C.Sequenced(s.store.chans[id]);
    }
  }

  /** What is stored stays right while the log stands. */
  lemma StoredStaysRight(cap: int, s: System, a: Action, id: S.Id)
    requires Good(s) && Good(Step(cap, s, a)) && Filed(s, id) && LogOf(Step(cap, s, a), id) == LogOf(s, id)
    ensures StoredRight(Stream(Step(cap, s, a), id), NextSeq(Step(cap, s, a), id), LogOf(s, id))
  {
    StoreOfStep(cap, s, a, id);
    StoredBelowNext(Step(cap, s, a), id);
    AtLeastLog(s, id);
    if id !in s.store.chans {
      NewStreamEmpty(cap, s, a, id);
    }
  }

  lemma AtLeastLog(s: System, id: S.Id)
    requires FlightRight(s, id)
    ensures NextSeq(s, id) >= |LogOf(s, id)| + 1
  {
    if !NobodyInFlight(s, id) {
      var p :| InFlight(s, id, p);
    }
  }

  /** A step that neither appends to the channel nor publishes on it. */
  lemma OtherStepFiled(cap: int, s: System, a: Action, id: S.Id)
    requires Good(s) && Good(Step(cap, s, a)) && Filed(s, id)
    requires !(Appends(s, a) && s.pubs[a.p].id == id)
    requires !(a.Publish? && MayPublish(s, a.p) && s.pubs[a.p].id == id)
    ensures Filed(Step(cap, s, a), id)
  {
    NumbersMove(cap, s, a, id);
    StoredStaysRight(cap, s, a, id);
    FlightUnchanged(cap, s, a, id);
    StillPlaced(cap, s, a, id);
    FlightKept(s, Step(cap, s, a), id);
  }

  /** A published message has the place in the log that its number says. */
  ghost predicate Placed(s: System, id: S.Id) {
    forall p :: p in s.pubs && s.pubs[p].id == id && s.pubs[p].published ==> s.pubs[p].number == Numbered(s.pubs[p].place.index + 1)
  }

  lemma StillPlaced(cap: int, s: System, a: Action, id: S.Id)
    requires NumbersRight(s) && Placed(s, id)
    requires !(Appends(s, a) && s.pubs[a.p].id == id)
    requires !(a.Publish? && MayPublish(s, a.p) && s.pubs[a.p].id == id)
    ensures Placed(Step(cap, s, a), id)
  {
    assert a.Append? && Appends(s, a) ==> NumberRight(s, a.p);
  }

  lemma FlightKept(s: System, s': System, id: S.Id)
    requires FlightRight(s, id) && LogOf(s', id) == LogOf(s, id) && NextSeq(s', id) == NextSeq(s, id)
    requires forall p :: InFlight(s', id, p) <==> InFlight(s, id, p)
    requires forall p :: InFlight(s, id, p) ==> p in s'.pubs && s'.pubs[p].number == s.pubs[p].number
    requires Placed(s', id)
    ensures FlightRight(s', id)
  {
  }

  lemma NewStreamEmpty(cap: int, s: System, a: Action, id: S.Id)
    requires id !in s.store.chans
    ensures Stream(Step(cap, s, a), id) == []
  {
  }

  lemma FlightUnchanged(cap: int, s: System, a: Action, id: S.Id)
    requires NumbersRight(s)
    requires !(Appends(s, a) && s.pubs[a.p].id == id)
    requires !(a.Publish? && MayPublish(s, a.p) && s.pubs[a.p].id == id)
    ensures forall p :: InFlight(Step(cap, s, a), id, p) <==> InFlight(s, id, p)
    ensures forall p :: InFlight(s, id, p) ==> Step(cap, s, a).pubs[p].number == s.pubs[p].number
  {
    assert a.Skip? && a.p in s.pubs ==> NumberRight(s, a.p);
  }

  /** An append takes the next number and puts its message in flight. */
  lemma AppendFiled(cap: int, s: System, a: Action, id: S.Id)
    requires Good(s) && Good(Step(cap, s, a)) && Filed(s, id)
    requires Appends(s, a) && s.pubs[a.p].id == id && NobodyInFlight(s, id) && Result(cap, s, a.p, a.now).Appended?
    ensures Filed(Step(cap, s, a), id)
  {
    NumbersMove(cap, s, a, id);
    StoredStaysRight(cap, s, a, id);
    OneTakesOff(cap, s, a, id);
    FlightAfterAppend(s, Step(cap, s, a), id, a.p);
  }

  lemma FlightAfterAppend(s: System, s': System, id: S.Id, p: nat)
    requires FlightRight(s, id) && NobodyInFlight(s, id) && LogOf(s', id) == LogOf(s, id)
    requires p in s'.pubs && forall q :: InFlight(s', id, q) <==> q == p
    requires s'.pubs[p].number == Numbered(NextSeq(s, id)) && NextSeq(s', id) == NextSeq(s, id) + 1
    requires s'.pubs == s.pubs[p := s'.pubs[p]]
    ensures FlightRight(s', id)
  {
    assert InFlight(s', id, p);
  }

  lemma OneTakesOff(cap: int, s: System, a: Action, id: S.Id)
    requires Good(s) && Appends(s, a) && s.pubs[a.p].id == id && NobodyInFlight(s, id) && Result(cap, s, a.p, a.now).Appended?
    requires FlightRight(s, id)
    ensures forall p :: InFlight(Step(cap, s, a), id, p) <==> p == a.p
    ensures Step(cap, s, a).pubs[a.p].number == Numbered(NextSeq(s, id))
  {
    AppendStores(cap, s.store, a.p, s.pubs[a.p].body, a.now);
    assert NumberRight(s, a.p);
    var s' := Step(cap, s, a);
    assert s'.pubs == s.pubs[a.p := s'.pubs[a.p]];
    forall p
      ensures InFlight(s', id, p) <==> p == a.p
    {
      assert !InFlight(s, id, p);
    }
  }

  /** A publish takes its message out of flight and into the log. */
  lemma PublishFiled(cap: int, s: System, a: Action, id: S.Id)
    requires Good(s) && Filed(s, id)
    requires a.Publish? && MayPublish(s, a.p) && s.pubs[a.p].id == id && s.pubs[a.p].number.Numbered?
    ensures Filed(Step(cap, s, a), id)
  {
    var s' := Step(cap, s, a);
    assert InFlight(s, id, a.p) && NumberRight(s, a.p);
    assert LogOf(s', id) == LogOf(s, id) + [Frame(s.pubs[a.p])];
    assert Stream(s', id) == Stream(s, id) && NextSeq(s', id) == NextSeq(s, id);
    PublishLands(s, s', id, a.p);
  }

  lemma PublishLands(s: System, s': System, id: S.Id, p: nat)
    requires FlightRight(s, id) && InFlight(s, id, p) && s'.pubs == s.pubs[p := s.pubs[p].(place := Out(|LogOf(s, id)|))]
    requires LogOf(s', id) == LogOf(s, id) + [Frame(s.pubs[p])] && NextSeq(s', id) == NextSeq(s, id)
    ensures FlightRight(s', id)
  {
    forall q
      ensures !InFlight(s', id, q)
    {
      assert InFlight(s', id, q) ==> InFlight(s, id, q);
    }
  }

  lemma StepFiled(cap: int, s: System, a: Action, id: S.Id)
    requires Good(s) && Good(Step(cap, s, a)) && Filed(s, id) && InFile(cap, s, a, id)
    ensures Filed(Step(cap, s, a), id)
  {
    if Appends(s, a) && s.pubs[a.p].id == id {
      AppendFiled(cap, s, a, id);
    } else if a.Publish? && MayPublish(s, a.p) && s.pubs[a.p].id == id {
      PublishFiled(cap, s, a, id);
    } else {
      OtherStepFiled(cap, s, a, id);
    }
  }

  lemma {:induction false} FiledInEveryRun(cap: int, acts: seq<Action>, id: S.Id)
    requires SingleFile(cap, acts, id)
    ensures Filed(Run(cap, acts), id)
  {
    if acts != [] {
      var before := acts[..|acts| - 1];
      FiledInEveryRun(cap, before, id);
      GoodInEveryRun(cap, before);
      GoodInEveryRun(cap, acts);
      StepFiled(cap, Run(cap, before), acts[|acts| - 1], id);
    }
  }

  lemma {:induction false} SingleFileBefore(cap: int, acts: seq<Action>, more: seq<Action>, id: S.Id)
    requires SingleFile(cap, acts + more, id)
    ensures SingleFile(cap, acts, id)
    decreases |more|
  {
    if more == [] {
      assert acts + more == acts;
    } else {
      assert (acts + more)[..|acts + more| - 1] == acts + more[..|more| - 1];
      SingleFileBefore(cap, acts, more[..|more| - 1], id);
    }
  }

  // --- runs of numbers ---

  function Span(lo: nat, hi: nat): (r: seq<nat>)
    ensures |r| == if lo <= hi then hi - lo else 0
    ensures forall i :: 0 <= i < |r| ==> r[i] == lo + i
  {
    if lo <= hi then seq(hi - lo, i requires 0 <= i => lo + i) else []
  }

  predicate Consecutive(ns: seq<nat>) {
    forall i :: 0 < i < |ns| ==> ns[i] == ns[i - 1] + 1
  }

  /** The numbers not on the page, in order. */
  function Unseen(live: seq<nat>, page: seq<nat>): seq<nat> {
    if live == [] then []
    else if live[0] in page then Unseen(live[1..], page)
    else [live[0]] + Unseen(live[1..], page)
  }

  /** What the reader is left with: the page, then the live frames without repeats. */
  function Merged(page: seq<nat>, live: seq<nat>): seq<nat> {
    page + Unseen(live, page)
  }

  lemma SpanCons(lo: nat, hi: nat)
    requires lo < hi
    ensures Span(lo, hi) == [lo] + Span(lo + 1, hi) && Span(lo, hi)[1..] == Span(lo + 1, hi)
  {
  }

  lemma SpanMember(lo: nat, hi: nat, n: nat)
    ensures n in Span(lo, hi) <==> lo <= n < hi
  {
    if lo <= n < hi {
      assert Span(lo, hi)[n - lo] == n;
    }
  }

  /** Live frames from within the page on: only those past the page are new. */
  lemma {:induction false} UnseenAfterPage(f: nat, j: nat, a: nat, m: nat)
    requires a <= f
    ensures Unseen(Span(f, j), Span(a, m)) == Span(if f < m then m else f, j)
    decreases if f < j then j - f else 0
  {
    if f < j {
      SpanCons(f, j);
      SpanMember(a, m, f);
      UnseenAfterPage(f + 1, j, a, m);
    }
  }

  lemma UnseenBeforePage(f: nat, j: nat, a: nat, m: nat)
    requires f < j && f < a
    ensures Unseen(Span(f, j), Span(a, m)) != [] && Unseen(Span(f, j), Span(a, m))[0] == f
  {
    SpanCons(f, j);
    SpanMember(a, m, f);
  }

  /** Page a..m-1, live f..j-1 beginning no later than just past the page: the merge is consecutive
      exactly if one of them is empty or no live frame is older than the page. */
  lemma MergeConsecutiveIff(a: nat, m: nat, f: nat, j: nat)
    requires f <= m
    ensures Consecutive(Merged(Span(a, m), Span(f, j))) <==> m <= a || j <= f || a <= f
    ensures a < m && a <= f ==> Merged(Span(a, m), Span(f, j)) == Span(a, if m < j then j else m)
  {
    var page := Span(a, m);
    if m <= a {
      UnseenNothing(Span(f, j));
      assert page == [] && Merged(page, Span(f, j)) == Span(f, j);
    } else if a <= f {
      UnseenAfterPage(f, j, a, m);
      assert page + Span(m, j) == Span(a, if m < j then j else m);
    } else if f < j {
      UnseenBeforePage(f, j, a, m);
      var all := Merged(page, Span(f, j));
      assert all[|page|] == f && all[|page| - 1] == m - 1;
    } else {
      assert Span(f, j) == [] && Merged(page, Span(f, j)) == page;
    }
  }

  lemma {:induction false} UnseenNothing(live: seq<nat>)
    ensures Unseen(live, []) == live
  {
    if live != [] {
      UnseenNothing(live[1..]);
    }
  }

  // --- the page is the newest end of the stored interval ---

  function Numbers(es: seq<Entry>): seq<nat> {
    seq(|es|, i requires 0 <= i < |es| => es[i].id)
  }

  lemma {:induction false} AfterIsNewest(es: seq<Entry>, after: nat) returns (older: seq<Entry>)
    requires C.Ascending(es)
    ensures es == older + S.After(es, after)
  {
    if es == [] {
      older := [];
    } else if es[0].id > after {
      R.AllAfter(es, after);
      older := [];
    } else {
      older := AfterIsNewest(es[1..], after);
      older := [es[0]] + older;
      assert es == [es[0]] + es[1..];
    }
  }

  /** The page is the newest end of what is stored. */
  lemma PageIsNewest(es: seq<Entry>, after: nat, limit: nat, now: int) returns (older: seq<Entry>)
    requires C.Ascending(es) && SweepUnobservable.Timely(es) && |es| <= limit
    ensures es == older + S.CatchUp(es, after, limit, now)
  {
    var past := AfterIsNewest(es, after);
    var all := S.After(es, after);
    AllRead(es, after, limit);
    assert all == es[|past|..];
    SuffixInOrder(es, |past|);
    var dead := SweepUnobservable.LiveIsNewest(all, now);
    older := past + dead;
    Pages.Regroup(past, dead, S.Live(all, now));
  }

  lemma AllRead(es: seq<Entry>, after: nat, limit: nat)
    requires |es| <= limit
    ensures S.Take(S.After(es, after), limit) == S.After(es, after)
  {
    Pages.AfterShortens(es, after);
  }

  lemma SuffixInOrder(es: seq<Entry>, k: nat)
    requires SweepUnobservable.Timely(es) && k <= |es|
    ensures SweepUnobservable.Timely(es[k..])
  {
  }

  lemma IntervalAscends(es: seq<Entry>, next: nat)
    requires T.Interval(es, next)
    ensures C.Ascending(es)
  {
  }

  /** So its numbers are consecutive and end with the last one given out. */
  lemma PageNumbers(older: seq<Entry>, page: seq<Entry>, next: nat)
    requires T.Interval(older + page, next)
    ensures |page| < next && Numbers(page) == Span(next - |page|, next)
  {
    forall i | 0 <= i < |page|
      ensures page[i].id == next - |page| + i
    {
      assert (older + page)[|older| + i] == page[i];
    }
  }

  /** The channel's expiries are in order over a run, on a clock that does not read before zero. */
  ghost predicate Orderly(cap: int, acts: seq<Action>, id: S.Id) {
    T.InOrder(cap, StoreRun(cap, acts), id) && T.ReadsNoneBelowZero(StoreRun(cap, acts))
  }

  /** The stored stream a reader's page is read from in such a run. */
  lemma OrderlyAtRead(cap: int, acts: seq<Action>, id: S.Id)
    requires Orderly(cap, acts, id)
    ensures T.Interval(Stream(Run(cap, acts), id), NextSeq(Run(cap, acts), id))
    ensures SweepUnobservable.Timely(Stream(Run(cap, acts), id))
  {
    StoreRuns(cap, acts);
    T.ContiguousInEveryRun(cap, StoreRun(cap, acts), id);
    if id in Run(cap, acts).store.chans {
      T.ExpiriesFromZero(cap, StoreRun(cap, acts), id);
    }
  }

  /** The page's numbers are the last ones given out. */
  predicate PageSpans(m: Seam) {
    && From(m) < NextSeq(m.atRead, m.id) && |PageOf(m)| < NextSeq(m.atRead, m.id)
    && Numbers(PageOf(m)) == Span(NextSeq(m.atRead, m.id) - |PageOf(m)|, NextSeq(m.atRead, m.id))
  }

  /** The reader has been handed the places From .. Stop-1 of the log, which hold the messages
      numbered From+1 .. Stop, and its page is the last numbers given out, with their messages. */
  ghost predicate SeamRight(m: Seam) {
    && Handed(m) && PageSpans(m)
    && forall e :: e in PageOf(m) && e.id <= |LogOf(m.now, m.id)| ==> e.id > 0 && e.blob == LogOf(m.now, m.id)[e.id - 1].body
  }

  /** A stored entry is the message that is, or will be, at its place in the log. */
  lemma StoredIsLogged(s: System, s': System, id: S.Id, e: Entry)
    requires Good(s) && Filed(s, id) && Filed(s', id) && Later(s, s') && PlacesRight(s') && LogOf(s, id) <= LogOf(s', id)
    requires e in Stream(s, id) && e.id <= |LogOf(s', id)|
    ensures e.id > 0 && e.blob == LogOf(s', id)[e.id - 1].body
  {
    if e.id > |LogOf(s, id)| {
      assert !NobodyInFlight(s, id);
      var p :| InFlight(s, id, p);
      assert NumberRight(s, p) && PubLater(s.pubs[p], s'.pubs[p]);
      assert !InFlight(s', id, p) && PlaceRight(s', p);
    } else {
      assert LogOf(s, id)[e.id - 1] == LogOf(s', id)[e.id - 1];
    }
  }

  lemma SeamIsRight(cap: int, before: seq<Action>, r: nat, id: S.Id, after: nat, mid: seq<Action>,
                    limit: nat, clock: int, rest: seq<Action>)
    requires r !in Run(cap, before).readers && DoesNotRead(mid, r)
    requires SingleFile(cap, SeamRun(before, r, id, after, mid) + [Read(r, limit, clock)] + rest, id)
    requires Orderly(cap, SeamRun(before, r, id, after, mid), id)
    requires |Stream(Run(cap, SeamRun(before, r, id, after, mid)), id)| <= limit
    ensures SeamRight(TheSeam(cap, before, r, id, after, mid, limit, clock, rest))
  {
    SeamIsJoined(cap, before, r, id, after, mid, limit, clock, rest);
    SeamIsHanded(cap, before, r, id, after, mid, limit, clock, rest);
    PlacedInEveryRun(cap, SeamRun(before, r, id, after, mid) + [Read(r, limit, clock)] + rest);
    FiledAtMoments(cap, before, r, id, after, mid, limit, clock, rest);
    OrderlyAtRead(cap, SeamRun(before, r, id, after, mid), id);
    LogsGrow(cap, before, r, id, after, mid, limit, clock, rest);
    MomentsAreRight(TheSeam(cap, before, r, id, after, mid, limit, clock, rest));
  }

  lemma MomentsAreRight(m: Seam)
    requires Joined(m) && Handed(m) && PlacesRight(m.now) && Filed(m.atRead, m.id) && Filed(m.now, m.id)
    requires LogOf(m.atAttach, m.id) <= LogOf(m.atRead, m.id) <= LogOf(m.now, m.id)
    requires T.Interval(Stream(m.atRead, m.id), NextSeq(m.atRead, m.id)) && SweepUnobservable.Timely(Stream(m.atRead, m.id))
    requires |Stream(m.atRead, m.id)| <= m.limit
    ensures SeamRight(m)
  {
    PageFromStored(m);
    AtLeastLog(m.atRead, m.id);
    forall e | e in PageOf(m) && e.id <= |LogOf(m.now, m.id)|
      ensures e.id > 0 && e.blob == LogOf(m.now, m.id)[e.id - 1].body
    {
      R.PageStored(Stream(m.atRead, m.id), m.after, m.limit, m.clock, e);
      StoredIsLogged(m.atRead, m.now, m.id, e);
    }
  }

  lemma PageFromStored(m: Seam)
    requires T.Interval(Stream(m.atRead, m.id), NextSeq(m.atRead, m.id)) && SweepUnobservable.Timely(Stream(m.atRead, m.id))
    requires |Stream(m.atRead, m.id)| <= m.limit
    ensures |PageOf(m)| < NextSeq(m.atRead, m.id)
    ensures Numbers(PageOf(m)) == Span(NextSeq(m.atRead, m.id) - |PageOf(m)|, NextSeq(m.atRead, m.id))
  {
    var es := Stream(m.atRead, m.id);
    IntervalAscends(es, NextSeq(m.atRead, m.id));
    var older := PageIsNewest(es, m.after, m.limit, m.clock);
    PageNumbers(older, PageOf(m), NextSeq(m.atRead, m.id));
  }

  lemma FiledAtMoments(cap: int, before: seq<Action>, r: nat, id: S.Id, after: nat, mid: seq<Action>,
                       limit: nat, clock: int, rest: seq<Action>)
    requires SingleFile(cap, SeamRun(before, r, id, after, mid) + [Read(r, limit, clock)] + rest, id)
    ensures var m := TheSeam(cap, before, r, id, after, mid, limit, clock, rest);
            Filed(m.atRead, id) && Filed(m.now, id)
  {
    var upToRead, read := SeamRun(before, r, id, after, mid), [Read(r, limit, clock)];
    FiledInEveryRun(cap, upToRead + read + rest, id);
    assert upToRead + read + rest == upToRead + (read + rest);
    SingleFileBefore(cap, upToRead, read + rest, id);
    FiledInEveryRun(cap, upToRead, id);
  }

  lemma LogsGrow(cap: int, before: seq<Action>, r: nat, id: S.Id, after: nat, mid: seq<Action>,
                 limit: nat, clock: int, rest: seq<Action>)
    ensures var m := TheSeam(cap, before, r, id, after, mid, limit, clock, rest);
            LogOf(m.atAttach, id) <= LogOf(m.atRead, id) <= LogOf(m.now, id)
  {
    var upToRead, attach, read := SeamRun(before, r, id, after, mid), [Attach(r, id, after)], [Read(r, limit, clock)];
    assert upToRead == before + (attach + mid);
    LogGrowsOn(cap, before, attach + mid, id);
    assert upToRead + read + rest == upToRead + (read + rest);
    LogGrowsOn(cap, upToRead, read + rest, id);
  }

  /** What the reader is left with, as numbers. */
  ghost function ReaderSees(m: Seam): seq<nat> {
    Merged(Numbers(PageOf(m)), Span(From(m) + 1, Stop(m) + 1))
  }

  /** The entry is stored when the reader reads, past its cursor and not expired. */
  predicate ToBeRead(m: Seam, e: Entry) {
    e in Stream(m.atRead, m.id) && e.id > m.after && !S.Expired(e, m.clock)
  }

  /** Nothing has been delivered, or nothing has been numbered since the reader subscribed, or nothing
      is to be read, or the first message since is still to be read. */
  ghost predicate NoOlderFrame(m: Seam) {
    || Stop(m) == From(m)
    || NextSeq(m.atRead, m.id) == From(m) + 1
    || (forall e :: !ToBeRead(m, e))
    || exists e :: ToBeRead(m, e) && e.id == From(m) + 1
  }

  /** Seam exactness for one publisher: the page and then the live frames, repeats removed, are one
      run of consecutive numbers if and only if no live frame is older than what the store still has
      for the reader. */
  lemma SeamIsSeamlessIff(cap: int, before: seq<Action>, r: nat, id: S.Id, after: nat, mid: seq<Action>,
                          limit: nat, clock: int, rest: seq<Action>)
    requires r !in Run(cap, before).readers && DoesNotRead(mid, r)
    requires SingleFile(cap, SeamRun(before, r, id, after, mid) + [Read(r, limit, clock)] + rest, id)
    requires Orderly(cap, SeamRun(before, r, id, after, mid), id)
    requires |Stream(Run(cap, SeamRun(before, r, id, after, mid)), id)| <= limit
    ensures var m := TheSeam(cap, before, r, id, after, mid, limit, clock, rest);
            SeamRight(m) && (Consecutive(ReaderSees(m)) <==> NoOlderFrame(m))
  {
    var m := TheSeam(cap, before, r, id, after, mid, limit, clock, rest);
    SeamIsRight(cap, before, r, id, after, mid, limit, clock, rest);
    OrderlyAtRead(cap, SeamRun(before, r, id, after, mid), id);
    RightSeamMerges(m);
  }

  lemma RightSeamMerges(m: Seam)
    requires SeamRight(m) && T.Interval(Stream(m.atRead, m.id), NextSeq(m.atRead, m.id)) && |Stream(m.atRead, m.id)| <= m.limit
    ensures Consecutive(ReaderSees(m)) <==> NoOlderFrame(m)
  {
    NoOlderIff(m);
    SeesIff(m);
  }

  /** In terms of the page: it is empty, or nothing has been delivered, or it begins no later than the
      first live frame. */
  predicate BeginsInTime(m: Seam) {
    PageOf(m) == [] || Stop(m) == From(m) || NextSeq(m.atRead, m.id) <= From(m) + 1 + |PageOf(m)|
  }

  lemma SeesIff(m: Seam)
    requires PageSpans(m)
    ensures Consecutive(ReaderSees(m)) <==> BeginsInTime(m)
  {
    SpansMergeIff(Numbers(PageOf(m)), |PageOf(m)|, NextSeq(m.atRead, m.id), From(m), Stop(m) - From(m));
  }

  lemma SpansMergeIff(numbers: seq<nat>, size: nat, next: nat, from: nat, more: nat)
    requires size < next && from < next && numbers == Span(next - size, next)
    ensures Consecutive(Merged(numbers, Span(from + 1, from + more + 1))) <==> size == 0 || more == 0 || next <= from + 1 + size
  {
    MergeConsecutiveIff(next - size, next, from + 1, from + more + 1);
  }

  lemma NoOlderIff(m: Seam)
    requires SeamRight(m) && T.Interval(Stream(m.atRead, m.id), NextSeq(m.atRead, m.id)) && |Stream(m.atRead, m.id)| <= m.limit
    ensures NoOlderFrame(m) <==> BeginsInTime(m)
  {
    IntervalAscends(Stream(m.atRead, m.id), NextSeq(m.atRead, m.id));
    Pages.PageIsWhole(Stream(m.atRead, m.id), m.after, m.limit, m.clock);
    PageReaches(m, From(m) + 1);
  }

  /** What is to be read is the page, and the page holds the numbers from its first on. */
  lemma PageReaches(m: Seam, n: nat)
    requires SeamRight(m) && Pages.WholePage(PageOf(m), Stream(m.atRead, m.id), m.after, m.clock)
    ensures PageOf(m) == [] <==> forall e :: !ToBeRead(m, e)
    ensures (exists e :: ToBeRead(m, e) && e.id == n) <==> NextSeq(m.atRead, m.id) - |PageOf(m)| <= n < NextSeq(m.atRead, m.id)
  {
    var page, next := PageOf(m), NextSeq(m.atRead, m.id);
    assert forall e :: ToBeRead(m, e) <==> e in page;
    assert forall i :: 0 <= i < |page| ==> Numbers(page)[i] == page[i].id;
    if page != [] {
      assert ToBeRead(m, page[0]);
    }
    if next - |page| <= n < next {
      assert ToBeRead(m, page[n - (next - |page|)]);
    }
  }
}
