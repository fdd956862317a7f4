/** Token-bucket rate limiting over real-valued time. */
module TokenBucketSpec {

  /** The time of the last refill; never is Go's zero time. */
  datatype Last = Never | At(t: real)

  datatype Bucket = Bucket(capacity: real, tokens: real, rate: real, last: Last)

  function Min(a: real, b: real): real { if a <= b then a else b }

  /** The tokens that come in over some time. */
  function Gain(dt: real, rate: real): real { dt * rate }

  /** How far a call at time t moves the bucket's clock; a stale time moves it not at all. */
  function Elapsed(b: Bucket, t: real): real {
    if b.last.At? && t - b.last.t > 0.0 then t - b.last.t else 0.0
  }

  /** The bucket once a call at time t has refilled it. */
  function Refilled(b: Bucket, t: real): Bucket {
    if b.last == Never then b.(last := At(t))
    else if t - b.last.t > 0.0 then b.(tokens := Min(b.tokens + Gain(t - b.last.t, b.rate), b.capacity), last := At(t))
    else b
  }

  predicate Grants(b: Bucket, t: real) {
    Refilled(b, t).tokens >= 1.0
  }

  function Called(b: Bucket, t: real): Bucket {
    var r := Refilled(b, t);
    if r.tokens >= 1.0 then r.(tokens := r.tokens - 1.0) else r
  }

  /** What a refill could not hold. */
  function Spilled(b: Bucket, t: real): real {
    b.tokens + Gain(Elapsed(b, t), b.rate) - Refilled(b, t).tokens
  }

  // --- sequences of calls, with their times in any order ---

  function Calls(b: Bucket, ts: seq<real>): Bucket
    decreases |ts|
  {
    if ts == [] then b else Calls(Called(b, ts[0]), ts[1..])
  }

  function Granted(b: Bucket, ts: seq<real>): nat
    decreases |ts|
  {
    if ts == [] then 0
    else (if Grants(b, ts[0]) then 1 else 0) + Granted(Called(b, ts[0]), ts[1..])
  }

  function AllSpilled(b: Bucket, ts: seq<real>): real
    decreases |ts|
  {
    if ts == [] then 0.0 else Spilled(b, ts[0]) + AllSpilled(Called(b, ts[0]), ts[1..])
  }

  ghost predicate Valid(b: Bucket) {
    b.rate >= 0.0 && 0.0 <= b.tokens <= b.capacity
  }

  lemma StillValid(b: Bucket, t: real)
    requires Valid(b)
    ensures Valid(Called(b, t)) && Called(b, t).capacity == b.capacity && Called(b, t).rate == b.rate
    ensures Called(b, t).last.At?
    ensures b.last.At? ==> Called(b, t).last.t == b.last.t + Elapsed(b, t)
    ensures Spilled(b, t) >= 0.0
  {
    Credit(b, t);
  }

  lemma Credit(b: Bucket, t: real)
    requires b.rate >= 0.0
    ensures Gain(Elapsed(b, t), b.rate) >= 0.0
  {
  }

  /** Tokens are conserved: those granted, left over and spilled are those there were and those the
      clock's advance brought. */
  lemma {:induction false} TokensConserved(b: Bucket, ts: seq<real>)
    requires Valid(b) && b.last.At?
    ensures Calls(b, ts).last.At? && Valid(Calls(b, ts)) && Calls(b, ts).capacity == b.capacity
    ensures Calls(b, ts).last.t >= b.last.t && AllSpilled(b, ts) >= 0.0
    ensures Granted(b, ts) as real + Calls(b, ts).tokens + AllSpilled(b, ts)
            == b.tokens + Gain(Calls(b, ts).last.t - b.last.t, b.rate)
    decreases |ts|
  {
    if ts == [] {
      GainSum(0.0, 0.0, b.rate);
    } else {
      StillValid(b, ts[0]);
      var b' := Called(b, ts[0]);
      TokensConserved(b', ts[1..]);
      GainSum(Elapsed(b, ts[0]), Calls(b, ts).last.t - b'.last.t, b.rate);
    }
  }

  lemma GainSum(x: real, y: real, rate: real)
    ensures Gain(x, rate) + Gain(y, rate) == Gain(x + y, rate) && Gain(0.0, rate) == 0.0
  {
  }

  /** The rate bound: in any consecutive calls, whatever the order of their times, no more are
      granted than the capacity and what the advance of the bucket's clock over them refills. */
  lemma WindowBound(b: Bucket, ts: seq<real>)
    requires Valid(b) && b.last.At?
    ensures Calls(b, ts).last.At?
    ensures Granted(b, ts) as real <= b.capacity + Gain(Calls(b, ts).last.t - b.last.t, b.rate)
    ensures Granted(b, ts) as real <= b.tokens - Calls(b, ts).tokens + Gain(Calls(b, ts).last.t - b.last.t, b.rate)
  {
    TokensConserved(b, ts);
  }

  /** A denied key is granted its next call as soon as its clock has advanced by 1/rate, and denied
      before that exactly while the refill falls short of a token. */
  lemma DeniedThenGranted(b: Bucket, t: real, t': real)
    requires Valid(b) && b.capacity >= 1.0 && b.rate > 0.0 && !Grants(b, t)
    ensures var b' := Called(b, t);
            && b'.last.At?
            && (t' >= b'.last.t + 1.0 / b.rate ==> Grants(b', t'))
            && (Grants(b', t') <==> t' > b'.last.t && b'.tokens + Gain(t' - b'.last.t, b.rate) >= 1.0)
  {
    StillValid(b, t);
    var b' := Called(b, t);
    if t' >= b'.last.t + 1.0 / b.rate {
      assert 1.0 / b.rate > 0.0;
      Advance(t' - b'.last.t, b.rate);
    }
  }

  lemma Advance(x: real, rate: real)
    requires rate > 0.0 && x >= 1.0 / rate
    ensures Gain(x, rate) >= 1.0
  {
    var unit := 1.0 / rate;
    assert unit * rate == 1.0;
    GainSum(x - unit, unit, rate);
    assert (x - unit) * rate >= 0.0;
  }

  /** A denied key is ever granted a call again if and only if its bucket can hold a token. */
  lemma GrantedAgainIff(b: Bucket, t: real)
    requires Valid(b) && b.rate > 0.0 && !Grants(b, t)
    ensures (exists t' :: Grants(Called(b, t), t')) <==> b.capacity >= 1.0
  {
    StillValid(b, t);
    var b' := Called(b, t);
    if b.capacity >= 1.0 {
      DeniedThenGranted(b, t, b'.last.t + 1.0 / b.rate);
      assert Grants(b', b'.last.t + 1.0 / b.rate);
    }
  }

  predicate AllWithin(ts: seq<real>, t1: real, t2: real) {
    forall i :: 0 <= i < |ts| ==> t1 <= ts[i] <= t2
  }

  /** What a bucket can still grant to calls at times from t1 to t2. */
  function Budget(b: Bucket, t1: real, t2: real): real {
    if b.last == Never || b.last.t < t1 then b.capacity + Gain(t2 - t1, b.rate)
    else if b.last.t <= t2 then b.tokens + Gain(t2 - b.last.t, b.rate)
    else b.tokens
  }

  lemma BudgetStep(b: Bucket, t: real, t1: real, t2: real)
    requires Valid(b) && t1 <= t <= t2
    ensures Budget(Called(b, t), t1, t2) + (if Grants(b, t) then 1.0 else 0.0) <= Budget(b, t1, t2)
    ensures Budget(b, t1, t2) >= 0.0
  {
    var t0 := if b.last == Never || b.last.t < t1 then t1 else if b.last.t <= t then b.last.t else t;
    GainSum(t - t0, t2 - t, b.rate);
    GainNotNegative(t - t0, b.rate);
    GainNotNegative(t2 - t, b.rate);
    if b.last.At? && t1 <= b.last.t <= t2 {
      GainNotNegative(t2 - b.last.t, b.rate);
    }
  }

  lemma GainNotNegative(x: real, rate: real)
    requires x >= 0.0 && rate >= 0.0
    ensures Gain(x, rate) >= 0.0
  {
  }

  lemma {:induction false} WithinBudget(b: Bucket, ts: seq<real>, t1: real, t2: real)
    requires Valid(b) && t1 <= t2 && AllWithin(ts, t1, t2)
    ensures 0.0 <= Granted(b, ts) as real <= Budget(b, t1, t2)
    decreases |ts|
  {
    if ts == [] {
      BudgetStep(b, t1, t1, t2);
    } else {
      StillValid(b, ts[0]);
      BudgetStep(b, ts[0], t1, t2);
      WithinBudget(Called(b, ts[0]), ts[1..], t1, t2);
    }
  }

  /** The rate bound by the clock on the wall: calls whose times all lie between t1 and t2 are granted
      no more than the capacity and the refill of that time, however long the bucket was idle. */
  lemma TimeBound(b: Bucket, ts: seq<real>, t1: real, t2: real)
    requires Valid(b) && t1 <= t2 && AllWithin(ts, t1, t2)
    ensures Granted(b, ts) as real <= b.capacity + Gain(t2 - t1, b.rate)
  {
    WithinBudget(b, ts, t1, t2);
    if b.last.At? && t1 <= b.last.t <= t2 {
      GainSum(b.last.t - t1, t2 - b.last.t, b.rate);
      GainNotNegative(b.last.t - t1, b.rate);
    }
    GainNotNegative(t2 - t1, b.rate);
  }

  // --- what is granted exactly ---

  /** What a bucket holds at time t: its tokens and what has come in since, up to its capacity. */
  function Available(b: Bucket, t: real): real {
    var elapsed := if b.last.At? && t > b.last.t then t - b.last.t else 0.0;
    var full := b.tokens + elapsed * b.rate;
    if full > b.capacity then b.capacity else full
  }

  function Simultaneous(n: nat, t: real): (ts: seq<real>)
    ensures |ts| == n && forall i :: 0 <= i < n ==> ts[i] == t
  {
    seq(n, i => t)
  }

  lemma OneFewer(n: nat, t: real)
    requires n > 0
    ensures Simultaneous(n, t)[0] == t && Simultaneous(n, t)[1..] == Simultaneous(n - 1, t)
  {
  }

  lemma CallTakes(b: Bucket, t: real)
    requires Valid(b)
    ensures Grants(b, t) <==> Available(b, t) >= 1.0
    ensures var b' := Called(b, t); b'.last.At? && b'.last.t >= t && b'.tokens == Available(b, t) - (if Grants(b, t) then 1.0 else 0.0)
  {
  }

  function AtMost(n: nat, whole: int): int {
    if n <= whole then n else whole
  }

  /** With nothing more to come in, whole tokens are granted one by one. */
  lemma {:induction false} WholeTokens(b: Bucket, n: nat, t: real)
    requires Valid(b) && b.last.At? && b.last.t >= t
    ensures Granted(b, Simultaneous(n, t)) == AtMost(n, b.tokens.Floor)
    decreases n
  {
    if n > 0 {
      OneFewer(n, t);
      CallTakes(b, t);
      StillValid(b, t);
      WholeTokens(Called(b, t), n - 1, t);
    }
  }

  /** The exact count: of n calls at one time, whatever came before, as many are granted as there are
      whole tokens in the bucket then. */
  lemma SimultaneousExactly(b: Bucket, n: nat, t: real)
    requires Valid(b)
    ensures Granted(b, Simultaneous(n, t)) == AtMost(n, Available(b, t).Floor)
  {
    if n > 0 {
      OneFewer(n, t);
      CallTakes(b, t);
      StillValid(b, t);
      WholeTokens(Called(b, t), n - 1, t);
    }
  }

  /** A bucket left alone for capacity / rate has its whole burst back. */
  lemma RestedHasItsBurst(b: Bucket, n: nat, t: real)
    requires Valid(b) && b.rate > 0.0 && b.last.At? && t - b.last.t >= b.capacity / b.rate && n as real <= b.capacity
    ensures Granted(b, Simultaneous(n, t)) == n
  {
    RestFills(b.capacity, b.rate, t - b.last.t);
    FullWhenBrought(b, t);
    SimultaneousExactly(b, n, t);
    WholeAtLeast(n, b.capacity);
  }

  lemma FullWhenBrought(b: Bucket, t: real)
    requires Valid(b) && b.last.At? && t >= b.last.t && (t - b.last.t) * b.rate >= b.capacity
    ensures Available(b, t) == b.capacity
  {
  }

  lemma WholeAtLeast(n: nat, x: real)
    requires n as real <= x
    ensures n <= x.Floor
  {
  }

  lemma RestFills(capacity: real, rate: real, elapsed: real)
    requires capacity >= 0.0 && rate > 0.0 && elapsed >= capacity / rate
    ensures elapsed >= 0.0 && elapsed * rate >= capacity
  {
    var rest := capacity / rate;
    assert rest * rate == capacity;
    Monotone(rest, elapsed, rate);
  }

  lemma Monotone(x: real, y: real, rate: real)
    requires x <= y && rate > 0.0
    ensures x * rate <= y * rate
  {
  }

  /** Tokens are lost only at a full bucket. */
  lemma SpillsOnlyWhenFull(b: Bucket, t: real)
    requires Valid(b) && Spilled(b, t) > 0.0
    ensures Refilled(b, t).tokens == b.capacity
  {
  }

  // --- the periodic clean-up ---

  /** Clean-up credits an idle bucket up to now, without moving its clock. */
  function Cleaned(b: Bucket, t: real): Bucket {
    if Elapsed(b, t) > 0.0 then b.(tokens := b.tokens + Gain(Elapsed(b, t), b.rate)) else b
  }

  /** The clean-up drops the bucket when that fills it. */
  predicate Survives(b: Bucket, t: real) {
    Elapsed(b, t) > 0.0 ==> Cleaned(b, t).tokens < b.capacity
  }

  /** A bucket that survives the clean-up is credited the same time twice: the next call at that
      moment finds more tokens than it should exactly if the time brought any at all. */
  lemma SurvivorIsCreditedTwice(b: Bucket, t: real)
    requires Valid(b) && b.last.At? && Survives(b, t)
    ensures Refilled(Cleaned(b, t), t).tokens > Refilled(b, t).tokens <==> Gain(Elapsed(b, t), b.rate) > 0.0
  {
    Credit(b, t);
    if Elapsed(b, t) > 0.0 {
      assert Elapsed(Cleaned(b, t), t) == Elapsed(b, t);
    } else {
      GainSum(0.0, 0.0, b.rate);
    }
  }

  // --- one limiter, many keys ---

  datatype Call = Call(key: string, t: real)

  datatype Limiter = Limiter(capacity: real, rate: real, buckets: map<string, Bucket>)

  /** The bucket a call finds: a new one is full, with its clock at the call. */
  function BucketFor(m: Limiter, c: Call): Bucket {
    if c.key in m.buckets then m.buckets[c.key] else Bucket(m.capacity, m.capacity, m.rate, At(c.t))
  }

  function Limit(m: Limiter, c: Call): Limiter {
    m.(buckets := m.buckets[c.key := Called(BucketFor(m, c), c.t)])
  }

  function LimitAll(m: Limiter, cs: seq<Call>): Limiter
    decreases |cs|
  {
    if cs == [] then m else LimitAll(Limit(m, cs[0]), cs[1..])
  }

  /** How many of the calls for a key are granted. */
  function GrantedTo(m: Limiter, cs: seq<Call>, key: string): nat
    decreases |cs|
  {
    if cs == [] then 0
    else (if cs[0].key == key && Grants(BucketFor(m, cs[0]), cs[0].t) then 1 else 0) + GrantedTo(Limit(m, cs[0]), cs[1..], key)
  }

  /** The times of the calls for a key. */
  function TimesOf(cs: seq<Call>, key: string): seq<real> {
    if cs == [] then []
    else (if cs[0].key == key then [cs[0].t] else []) + TimesOf(cs[1..], key)
  }

  /** Keys do not interfere: what a key is granted, and the bucket it is left with, depend on its
      own calls alone. */
  lemma {:induction false} KeysAreIndependent(m: Limiter, cs: seq<Call>, key: string)
    requires key in m.buckets
    ensures key in LimitAll(m, cs).buckets
    ensures LimitAll(m, cs).buckets[key] == Calls(m.buckets[key], TimesOf(cs, key))
    ensures GrantedTo(m, cs, key) == Granted(m.buckets[key], TimesOf(cs, key))
    decreases |cs|
  {
    if cs != [] {
      KeysAreIndependent(Limit(m, cs[0]), cs[1..], key);
      if cs[0].key == key {
        assert TimesOf(cs, key)[1..] == TimesOf(cs[1..], key);
      } else {
        assert TimesOf(cs, key) == TimesOf(cs[1..], key);
      }
    }
  }

  ghost predicate ValidLimiter(m: Limiter) {
    && m.rate >= 0.0 && m.capacity >= 0.0
    && forall k :: k in m.buckets ==> ValidIn(m, m.buckets[k])
  }

  ghost predicate ValidIn(m: Limiter, b: Bucket) {
    Valid(b) && b.last.At? && b.capacity == m.capacity && b.rate == m.rate
  }

  lemma LimitStaysValid(m: Limiter, c: Call)
    requires ValidLimiter(m)
    ensures ValidLimiter(Limit(m, c))
  {
    StillValid(BucketFor(m, c), c.t);
    Credit(BucketFor(m, c), c.t);
  }

  lemma {:induction false} AllStayValid(m: Limiter, cs: seq<Call>)
    requires ValidLimiter(m)
    ensures ValidLimiter(LimitAll(m, cs))
    decreases |cs|
  {
    if cs != [] {
      LimitStaysValid(m, cs[0]);
      AllStayValid(Limit(m, cs[0]), cs[1..]);
    }
  }

  /** The bound for a key in any run of a limiter: over any consecutive calls, between any others,
      it is granted no more than the burst and the refill of its own clock's advance. */
  lemma LimiterBound(capacity: real, rate: real, before: seq<Call>, window: seq<Call>, key: string)
    requires capacity >= 0.0 && rate >= 0.0
    requires key in LimitAll(Limiter(capacity, rate, map[]), before).buckets
    ensures var m := LimitAll(Limiter(capacity, rate, map[]), before);
            var m' := LimitAll(m, window);
            && key in m'.buckets && m.buckets[key].last.At? && m'.buckets[key].last.At?
            && GrantedTo(m, window, key) as real <= capacity + Gain(m'.buckets[key].last.t - m.buckets[key].last.t, rate)
  {
    var m0 := Limiter(capacity, rate, map[]);
    AllStayValid(m0, before);
    SamePolicy(m0, before);
    BoundFrom(LimitAll(m0, before), window, key);
  }

  lemma BoundFrom(m: Limiter, window: seq<Call>, key: string)
    requires ValidLimiter(m) && key in m.buckets
    ensures var m' := LimitAll(m, window);
            && key in m'.buckets && m.buckets[key].last.At? && m'.buckets[key].last.At?
            && GrantedTo(m, window, key) as real <= m.capacity + Gain(m'.buckets[key].last.t - m.buckets[key].last.t, m.rate)
  {
    KeysAreIndependent(m, window, key);
    assert ValidIn(m, m.buckets[key]);
    WindowBound(m.buckets[key], TimesOf(window, key));
  }

  /** The bound when the key makes its first call within the window: counted from that call. */
  lemma FirstWindowBound(m: Limiter, window: seq<Call>, key: string)
    requires ValidLimiter(m) && key !in m.buckets && TimesOf(window, key) != []
    ensures var m' := LimitAll(m, window);
            && key in m'.buckets && m'.buckets[key].last.At?
            && GrantedTo(m, window, key) as real
               <= m.capacity + Gain(m'.buckets[key].last.t - TimesOf(window, key)[0], m.rate)
  {
    FirstCallMakesBucket(m, window, key);
    WindowBound(Bucket(m.capacity, m.capacity, m.rate, At(TimesOf(window, key)[0])), TimesOf(window, key));
  }

  lemma {:induction false} FirstCallMakesBucket(m: Limiter, cs: seq<Call>, key: string)
    requires key !in m.buckets && TimesOf(cs, key) != []
    ensures key in LimitAll(m, cs).buckets
    ensures var ts := TimesOf(cs, key);
            var b := Bucket(m.capacity, m.capacity, m.rate, At(ts[0]));
            LimitAll(m, cs).buckets[key] == Calls(b, ts) && GrantedTo(m, cs, key) == Granted(b, ts)
    decreases |cs|
  {
    if cs[0].key == key {
      KeysAreIndependent(Limit(m, cs[0]), cs[1..], key);
      assert TimesOf(cs, key)[1..] == TimesOf(cs[1..], key);
    } else {
      assert TimesOf(cs, key) == TimesOf(cs[1..], key);
      FirstCallMakesBucket(Limit(m, cs[0]), cs[1..], key);
    }
  }

  /** A new key starts with its whole burst. */
  lemma NewKeyHasItsBurst(m: Limiter, key: string, n: nat, t: real)
    requires ValidLimiter(m) && key !in m.buckets
    ensures GrantedTo(m, seq(n, i => Call(key, t)), key) == AtMost(n, m.capacity.Floor)
  {
    var cs := seq(n, i => Call(key, t));
    TimesOfOne(cs, key, n, t);
    if n > 0 {
      assert TimesOf(cs, key) != [];
      FirstCallMakesBucket(m, cs, key);
      SimultaneousExactly(Bucket(m.capacity, m.capacity, m.rate, At(t)), n, t);
    }
  }

  lemma {:induction false} TimesOfOne(cs: seq<Call>, key: string, n: nat, t: real)
    requires |cs| == n && forall i :: 0 <= i < n ==> cs[i] == Call(key, t)
    ensures TimesOf(cs, key) == Simultaneous(n, t)
    decreases n
  {
    if n > 0 {
      TimesOfOne(cs[1..], key, n - 1, t);
      OneFewer(n, t);
      assert Simultaneous(n, t) == [t] + Simultaneous(n - 1, t);
    }
  }

  lemma {:induction false} NoCallsNoGrants(m: Limiter, cs: seq<Call>, key: string)
    requires TimesOf(cs, key) == []
    ensures GrantedTo(m, cs, key) == 0
    decreases |cs|
  {
    if cs != [] {
      NoCallsNoGrants(Limit(m, cs[0]), cs[1..], key);
    }
  }

  /** The same for a key in any run of a limiter, whether the key is new or not. */
  lemma LimiterTimeBound(capacity: real, rate: real, before: seq<Call>, window: seq<Call>, key: string, t1: real, t2: real)
    requires capacity >= 0.0 && rate >= 0.0 && t1 <= t2 && AllWithin(TimesOf(window, key), t1, t2)
    ensures GrantedTo(LimitAll(Limiter(capacity, rate, map[]), before), window, key) as real <= capacity + Gain(t2 - t1, rate)
  {
    var m0 := Limiter(capacity, rate, map[]);
    var m, ts := LimitAll(m0, before), TimesOf(window, key);
    AllStayValid(m0, before);
    SamePolicy(m0, before);
    if key in m.buckets {
      assert ValidIn(m, m.buckets[key]);
      KeysAreIndependent(m, window, key);
      TimeBound(m.buckets[key], ts, t1, t2);
    } else if ts != [] {
      FirstCallMakesBucket(m, window, key);
      TimeBound(Bucket(m.capacity, m.capacity, m.rate, At(ts[0])), ts, t1, t2);
    } else {
      NoCallsNoGrants(m, window, key);
      GainNotNegative(t2 - t1, rate);
    }
  }

  lemma {:induction false} SamePolicy(m: Limiter, cs: seq<Call>)
    ensures LimitAll(m, cs).capacity == m.capacity && LimitAll(m, cs).rate == m.rate
    decreases |cs|
  {
    if cs != [] {
      SamePolicy(Limit(m, cs[0]), cs[1..]);
    }
  }
}

/** The limiter's objects: buckets updated in place under their keys, and a connection counter. */
module TokenBucketObjects {
  import opened TokenBucketSpec

  class TokenBucket {
    const capacity: real
    const refillRate: real
    var tokens: real
    var last: Last

    constructor (capacity: real, tokens: real, refillRate: real, last: Last)
      ensures View() == Bucket(capacity, tokens, refillRate, last)
    {
      this.capacity, this.refillRate := capacity, refillRate;
      this.tokens, this.last := tokens, last;
    }

    function View(): Bucket
      reads this
    {
      Bucket(capacity, tokens, refillRate, last)
    }

    method Allow(t: real) returns (ok: bool)
      modifies this
      ensures ok == Grants(old(View()), t) && View() == Called(old(View()), t)
      ensures old(Valid(View())) ==>
                (ok <==> old(Available(View(), t)) >= 1.0) && tokens == old(Available(View(), t)) - (if ok then 1.0 else 0.0)
    {
      ghost var before := View();
      if Valid(before) {
        CallTakes(before, t);
      }
      if last == Never {
        last := At(t);
      }
      var elapsed := t - last.t;
      if elapsed > 0.0 {
        tokens := tokens + Gain(elapsed, refillRate);
        if tokens > capacity {
          tokens := capacity;
        }
        last := At(t);
      }
      if tokens >= 1.0 {
        tokens := tokens - 1.0;
        return true;
      }
      return false;
    }
  }

  class RateLimiter {
    const capacity: real
    const refillRate: real
    var buckets: map<string, TokenBucket>

    constructor (burst: int, perSecond: real)
      ensures Valid() && View() == Limiter(burst as real, perSecond, map[])
    {
      capacity, refillRate := burst as real, perSecond;
      buckets := map[];
    }

    /** No two keys share a bucket. */
    ghost predicate Valid()
      reads this
    {
      forall k, l :: k in buckets && l in buckets && buckets[k] == buckets[l] ==> k == l
    }

    function View(): Limiter
      reads this, buckets.Values
    {
      Limiter(capacity, refillRate, map k | k in buckets :: buckets[k].View())
    }

    /** One call at time t: exactly the limiter's step, whose bucket answers. */
    method Allow(key: string, t: real) returns (ok: bool)
      requires Valid()
      modifies this, buckets.Values
      ensures Valid()
      ensures ok == Grants(BucketFor(old(View()), Call(key, t)), t)
      ensures View() == Limit(old(View()), Call(key, t))
      ensures forall k :: k in buckets ==> buckets[k] in old(buckets.Values) || fresh(buckets[k])
    {
      ghost var before := View();
      if key !in buckets {
        var made := new TokenBucket(capacity, capacity, refillRate, At(t));
        buckets := buckets[key := made];
      }
      ok := buckets[key].Allow(t);
      assert View().buckets == Limit(before, Call(key, t)).buckets;
    }
  }

  class ConnCounter {
    const max: int
    var count: map<string, int>

    constructor (max: int)
      ensures Valid() && this.max == max && count == map[]
    {
      this.max := max;
      count := map[];
    }

    /** Every key that is listed holds at least one connection and no more than the cap. */
    ghost predicate Valid()
      reads this
    {
      forall k :: k in count ==> 0 < count[k] <= max
    }

    function Held(key: string): int
      reads this
    {
      if key in count then count[key] else 0
    }

    method Acquire(key: string) returns (ok: bool)
      requires Valid()
      modifies this
      ensures Valid() && ok == (old(Held(key)) < max)
      ensures Held(key) == old(Held(key)) + (if ok then 1 else 0)
      ensures forall k :: k != key ==> Held(k) == old(Held(k))
    {
      if Held(key) >= max {
        return false;
      }
      count := count[key := Held(key) + 1];
      return true;
    }

    method Release(key: string)
      requires Valid()
      modifies this
      ensures Valid() && Held(key) == (if old(Held(key)) > 0 then old(Held(key)) - 1 else 0)
      ensures forall k :: k != key ==> Held(k) == old(Held(k))
      ensures key in count ==> count[key] > 0
    {
      if Held(key) > 0 {
        count := count[key := count[key] - 1];
        if count[key] == 0 {
          count := count - {key};
        }
      }
    }
  }
}
