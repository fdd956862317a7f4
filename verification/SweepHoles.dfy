/** Which streams sweeping can make holes in: from any state with no hole, no continuation by sweeps
    makes one if and only if no stored entry outlasts a newer one. */
module SweepHoles {
  import opened Eviction
  import opened StoreMachine
  import opened StoreConservation
  import opened StoreSafety
  import opened Contiguity

  // --- running on from a state ---

  function RunFrom(cap: int, s: Store, acts: seq<Action>): Store
    decreases |acts|
  {
    if acts == [] then s else RunFrom(cap, Apply(cap, s, acts[0]), acts[1..])
  }

  lemma RunFromStep(cap: int, s: Store, acts: seq<Action>)
    requires acts != []
    ensures RunFrom(cap, s, acts) == RunFrom(cap, Apply(cap, s, acts[0]), acts[1..])
  {
  }

  lemma {:induction false} RunOn(cap: int, acts: seq<Action>, more: seq<Action>)
    ensures Run(cap, acts + more) == RunFrom(cap, Run(cap, acts), more)
    decreases |more|
  {
    if more == [] {
      assert acts + more == acts;
    } else {
      var first, rest := more[0], more[1..];
      assert acts + more == acts + [first] + rest;
      RunOn(cap, acts + [first], rest);
      RunStep(cap, acts, first);
      RunFromStep(cap, Run(cap, acts), more);
    }
  }

  lemma {:induction false} RunTwice(cap: int, s: Store, xs: seq<Action>, ys: seq<Action>)
    ensures RunFrom(cap, s, xs + ys) == RunFrom(cap, RunFrom(cap, s, xs), ys)
    decreases |xs|
  {
    if xs == [] {
      assert xs + ys == ys;
    } else {
      RunTwice(cap, Apply(cap, s, xs[0]), xs[1..], ys);
      assert (xs + ys)[1..] == xs[1..] + ys;
    }
  }

  predicate Sweeps(a: Action) {
    a.SweepBegin? || a.SweepScan? || a.SweepVisit? || a.SweepPay?
  }

  ghost predicate OnlySweeps(acts: seq<Action>) {
    forall a :: a in acts ==> Sweeps(a)
  }

  lemma SweepIsInOrder(s: Store, a: Action, id: Id)
    requires Sweeps(a)
    ensures AppendsInOrder(s, a, id)
  {
  }

  /** The channel is still there and its numbers have no hole. */
  predicate NoHole(s: Store, id: Id) {
    id in s.chans && Interval(s.chans[id].stream, s.chans[id].nextSeq)
  }

  // --- in order: no hole ---

  lemma SweepStepKeepsChannels(cap: int, s: Store, a: Action)
    requires Sweeps(a)
    ensures Apply(cap, s, a).chans.Keys == s.chans.Keys
  {
  }

  lemma {:induction false} SweepsStayContiguous(cap: int, acts: seq<Action>, more: seq<Action>, id: Id)
    requires id in Run(cap, acts).chans && Contiguous(Run(cap, acts), id) && OnlySweeps(more)
    ensures id in Run(cap, acts + more).chans && Contiguous(Run(cap, acts + more), id)
    decreases |more|
  {
    if more == [] {
      assert acts + more == acts;
    } else {
      var before, a := acts + more[..|more| - 1], more[|more| - 1];
      SweepsStayContiguous(cap, acts, more[..|more| - 1], id);
      assert acts + more == before + [a];
      RunStep(cap, before, a);
      ConservedInEveryRun(cap, before);
      SweepersMissNothing(cap, before);
      SweepIsInOrder(Run(cap, before), a, id);
      StepStaysContiguous(cap, Run(cap, before), a, id);
      SweepStepKeepsChannels(cap, Run(cap, before), a);
    }
  }

  // --- out of order: a sweep that makes one ---

  /** The sweeper is on the channel with rest still to visit, and es is stored. */
  predicate On(s: Store, k: nat, id: Id, now: int, rest: seq<Entry>, es: seq<Entry>, next: nat) {
    && k in s.sweepers && s.sweepers[k].id == id && s.sweepers[k].now == now && s.sweepers[k].rest == rest
    && id in s.chans && s.chans[id].stream == es && s.chans[id].nextSeq == next
  }

  /** How many commands a debt takes to pay at most. */
  function Commands(d: Due): nat {
    match d
    case NoDue => 0
    case DueAccount(_, _) => 1
    case DueOwner(_) => 2
    case DueMsgs(_) => 3
    case DueBytes(_) => 4
  }

  function Pays(k: nat, n: nat): seq<Action> {
    if n == 0 then [] else [SweepPay(k)] + Pays(k, n - 1)
  }

  /** A visit and the four commands that may follow it. */
  function Round(k: nat): seq<Action> {
    [SweepVisit(k)] + Pays(k, 4)
  }

  lemma PayGoesOn(cap: int, s: Store, k: nat, id: Id, now: int, rest: seq<Entry>, es: seq<Entry>, next: nat)
    requires On(s, k, id, now, rest, es, next)
    ensures var s' := Apply(cap, s, SweepPay(k));
            && On(s', k, id, now, rest, es, next)
            && Commands(s'.sweepers[k].due) <= Commands(s.sweepers[k].due)
            && (Commands(s.sweepers[k].due) > 0 ==> Commands(s'.sweepers[k].due) < Commands(s.sweepers[k].due))
  {
  }

  lemma {:induction false} PaysGoOn(cap: int, s: Store, k: nat, id: Id, now: int, rest: seq<Entry>, es: seq<Entry>, next: nat, n: nat)
    requires On(s, k, id, now, rest, es, next) && Commands(s.sweepers[k].due) <= n
    ensures var s' := RunFrom(cap, s, Pays(k, n)); On(s', k, id, now, rest, es, next) && s'.sweepers[k].due == NoDue
    decreases n
  {
    if n > 0 {
      PayGoesOn(cap, s, k, id, now, rest, es, next);
      PaysGoOn(cap, Apply(cap, s, SweepPay(k)), k, id, now, rest, es, next, n - 1);
      assert Pays(k, n)[1..] == Pays(k, n - 1);
    }
  }

  lemma {:induction false} OnlyPays(k: nat, n: nat)
    ensures OnlySweeps(Pays(k, n))
  {
    if n > 0 {
      OnlyPays(k, n - 1);
    }
  }

  /** What a visit of the first entry of the snapshot leaves. */
  function Visited(e: Entry, es: seq<Entry>, now: int): seq<Entry> {
    if Sweepable(e, now) && Holds(es, e.id) then Without(es, e.id) else es
  }

  lemma RoundGoesOn(cap: int, s: Store, k: nat, id: Id, now: int, rest: seq<Entry>, es: seq<Entry>, next: nat)
    requires On(s, k, id, now, rest, es, next) && s.sweepers[k].due == NoDue && rest != []
    ensures var s' := RunFrom(cap, s, Round(k));
            On(s', k, id, now, rest[1..], Visited(rest[0], es, now), next) && s'.sweepers[k].due == NoDue
  {
    assert Round(k)[1..] == Pays(k, 4);
    PaysGoOn(cap, Apply(cap, s, SweepVisit(k)), k, id, now, rest[1..], Visited(rest[0], es, now), next, 4);
  }

  /** All that is left to visit is visited: of it exactly what is sweepable goes. */
  lemma {:induction false} VisitTheRest(cap: int, s: Store, k: nat, id: Id, now: int, rest: seq<Entry>, es: seq<Entry>, next: nat)
      returns (acts: seq<Action>, left: seq<Entry>)
    requires On(s, k, id, now, rest, es, next) && s.sweepers[k].due == NoDue
    requires Ascending(es) && forall e, f :: e in rest && f in es && e.id == f.id ==> e == f
    ensures OnlySweeps(acts) && On(RunFrom(cap, s, acts), k, id, now, [], left, next)
    ensures forall e :: e in left <==> e in es && !(e in rest && Sweepable(e, now))
    decreases |rest|
  {
    if rest == [] {
      acts, left := [], es;
    } else {
      var e, es' := rest[0], Visited(rest[0], es, now);
      VisitedMembers(e, es, now);
      RoundGoesOn(cap, s, k, id, now, rest, es, next);
      assert rest == [e] + rest[1..];
      acts, left := VisitTheRest(cap, RunFrom(cap, s, Round(k)), k, id, now, rest[1..], es', next);
      RunTwice(cap, s, Round(k), acts);
      OnlyPays(k, 4);
      acts := Round(k) + acts;
    }
  }

  lemma VisitedMembers(e: Entry, es: seq<Entry>, now: int)
    requires Ascending(es) && forall f :: f in es && e.id == f.id ==> e == f
    ensures Ascending(Visited(e, es, now))
    ensures forall f :: f in Visited(e, es, now) <==> f in es && !(f == e && Sweepable(e, now))
  {
    if Sweepable(e, now) && Holds(es, e.id) {
      assert e in es;
      WithoutFacts(es, e);
    }
  }

  lemma {:induction false} Listed(ids: set<Id>) returns (list: seq<Id>)
    ensures multiset(list) == multiset(ids)
    decreases ids
  {
    if ids == {} {
      list := [];
    } else {
      var id :| id in ids;
      list := Listed(ids - {id});
      list := [id] + list;
      assert multiset(ids) == multiset(ids - {id})[id := 1];
    }
  }

  lemma {:induction false} AboveAll(ks: set<nat>) returns (k: nat)
    ensures forall j :: j in ks ==> j < k
    decreases ks
  {
    if ks == {} {
      k := 0;
    } else {
      var j :| j in ks;
      k := AboveAll(ks - {j});
      k := if j < k then k else j + 1;
      assert forall i :: i in ks ==> i == j || i in ks - {j};
    }
  }

  /** A new sweeper goes to the channel first. */
  lemma BeginOn(cap: int, s: Store, id: Id, now: int) returns (k: nat, acts: seq<Action>)
    requires id in s.chans
    ensures OnlySweeps(acts)
    ensures var s' := RunFrom(cap, s, acts);
            On(s', k, id, now, s.chans[id].stream, s.chans[id].stream, s.chans[id].nextSeq) && s'.sweepers[k].due == NoDue
  {
    k := AboveAll(s.sweepers.Keys);
    var others := Listed(s.chans.Keys - {id});
    var ids := [id] + others;
    assert multiset(ids) == multiset(s.chans.Keys);
    acts := [SweepBegin(k, now, ids), SweepScan(k)];
    var s1 := Apply(cap, s, SweepBegin(k, now, ids));
    assert s1 == s.(sweepers := s.sweepers[k := Sweeper(now, ids, "", [], NoDue)]);
    assert acts[1..] == [SweepScan(k)] && [SweepScan(k)][1..] == [];
    assert RunFrom(cap, s, acts) == RunFrom(cap, s1, [SweepScan(k)]) == Apply(cap, s1, SweepScan(k));
  }

  /** Where no hole is, with an entry every newer one is left. */
  lemma NewerLeft(es: seq<Entry>, left: seq<Entry>, next: nat, i: nat, j: nat)
    requires Interval(es, next) && Interval(left, next) && i < j < |es| && es[i] in left && forall e :: e in left ==> e in es
    ensures es[j] in left
  {
    var k :| 0 <= k < |left| && left[k] == es[i];
    var f := left[k + j - i];
    assert f in left;
    var m :| 0 <= m < |es| && es[m] == f;
    assert m == j;
  }

  /** Out of order, a sweep that reads the expiry of the newer of two such entries makes a hole. */
  lemma OutOfOrderHole(cap: int, acts: seq<Action>, id: Id) returns (more: seq<Action>)
    requires NoHole(Run(cap, acts), id) && !ExpiresInOrder(Run(cap, acts).chans[id].stream)
    ensures OnlySweeps(more) && !NoHole(Run(cap, acts + more), id)
  {
    var s := Run(cap, acts);
    var es, next := s.chans[id].stream, s.chans[id].nextSeq;
    var i, j :| 0 <= i < j < |es| && !NoLater(es[i], es[j]);
    ConservedInEveryRun(cap, acts);
    assert Sequenced(s.chans[id]);
    SameIdSameEntry(es);
    var k, begin := BeginOn(cap, s, id, es[j].exp);
    var visits, left := VisitTheRest(cap, RunFrom(cap, s, begin), k, id, es[j].exp, es, es, next);
    more := begin + visits;
    RunOn(cap, acts, more);
    RunTwice(cap, s, begin, visits);
    if Interval(left, next) {
      NewerLeft(es, left, next, i, j);
    }
  }

  /** Holes exactly: from any reachable state whose stored numbers are an interval, in the middle of
      sweeps or not, they stay one through every continuation by sweep steps if and only if no stored
      entry outlasts a newer one. */
  lemma SweepsLeaveNoHoleIff(cap: int, acts: seq<Action>, id: Id)
    requires NoHole(Run(cap, acts), id)
    ensures (forall more :: OnlySweeps(more) ==> NoHole(Run(cap, acts + more), id))
            <==> ExpiresInOrder(Run(cap, acts).chans[id].stream)
  {
    if ExpiresInOrder(Run(cap, acts).chans[id].stream) {
      forall more | OnlySweeps(more)
        ensures NoHole(Run(cap, acts + more), id)
      {
        SweepsStayContiguous(cap, acts, more, id);
      }
    } else {
      var more := OutOfOrderHole(cap, acts, id);
    }
  }
}
