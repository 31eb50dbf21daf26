/**
 * The Redis counter and the failover between it and the in-memory buckets. Redis keeps
 * time in milliseconds; a key lives through its expiry instant and is gone after it.
 */
module RateLimitFailover {
  import opened Basics
  import opened RateLimit

  const MS := 1_000_000

  /** A counter with its expiry, in Redis milliseconds. */
  datatype Counter = Counter(value: nat, expiresAt: int)

  type Counters = map<string, Counter>

  predicate Gone(counters: Counters, key: string, ms: int) {
    key !in counters || ms > counters[key].expiresAt
  }

  /** The Lua script: INCR, PEXPIRE on the first call, PTTL. An expiry that is not positive deletes the key. */
  function Script(counters: Counters, key: string, windowMs: int, ms: int): (r: (Counters, nat, int)) {
    var current := if Gone(counters, key, ms) then 1 else counters[key].value + 1;
    if current == 1 then
      if windowMs <= 0 then (counters - {key}, 1, -2)
      else (counters[key := Counter(1, ms + windowMs)], 1, windowMs)
    else (counters[key := counters[key].(value := current)], current, counters[key].expiresAt - ms)
  }

  datatype Limiter = Limiter(counters: Counters, buckets: Buckets)

  /** allowRedis: the script's verdict, or the buckets' when no reply came. */
  function Redis(l: Limiter, c: Arrival, reply: Fault): (r: (Limiter, bool)) {
    if c.limit <= 0 then (l, true)
    else
      var (counters, current, _) := Script(l.counters, c.key, c.window / MS, c.now / MS);
      match reply
      case Healthy => (l.(counters := counters), current <= c.limit)
      case Lost => (l.(buckets := Memory(l.buckets, c).0), Memory(l.buckets, c).1)
      case AckLost => (Limiter(counters, Memory(l.buckets, c).0), Memory(l.buckets, c).1)
  }

  /** A call together with what became of its round trip to Redis. */
  datatype Try = Try(call: Arrival, reply: Fault)

  function AfterTries(tries: seq<Try>): (l: Limiter) {
    if |tries| == 0 then Limiter(map[], map[])
    else Redis(AfterTries(tries[..|tries| - 1]), tries[|tries| - 1].call, tries[|tries| - 1].reply).0
  }

  predicate TryAllowed(tries: seq<Try>, i: nat)
    requires i < |tries|
  {
    Redis(AfterTries(tries[..i]), tries[i].call, tries[i].reply).1
  }

  // ------------------------------------------------------------- the two part logs

  /** The calls the buckets saw. */
  function MemoryLog(tries: seq<Try>): (log: seq<Arrival>) {
    if |tries| == 0 then []
    else
      var last := tries[|tries| - 1];
      MemoryLog(tries[..|tries| - 1]) + (if last.reply.Healthy? then [] else [last.call])
  }

  function InMs(c: Arrival): (m: Arrival) {
    c.(window := c.window / MS, now := c.now / MS)
  }

  /** The calls the script saw, on the millisecond clock. */
  function RedisLog(tries: seq<Try>): (log: seq<Arrival>) {
    if |tries| == 0 then []
    else
      var last := tries[|tries| - 1];
      RedisLog(tries[..|tries| - 1]) + (if last.reply.Lost? then [] else [InMs(last.call)])
  }

  /** Every limited call on the key asks for a window of at least a millisecond. */
  predicate WideWindows(tries: seq<Try>, key: string) {
    forall i :: 0 <= i < |tries| && On(tries[i].call, key) ==> tries[i].call.window >= MS
  }

  /** The counter of the key is a bucket on another clock. */
  predicate Twin(counters: Counters, buckets: Buckets, key: string) {
    && (key in counters <==> key in buckets)
    && (key in counters ==>
          counters[key].value == buckets[key].count >= 1 && counters[key].expiresAt == buckets[key].windowEnd)
  }

  /** On one clock the script counts and expires as the buckets do. */
  lemma ScriptIsMemory(counters: Counters, buckets: Buckets, c: Arrival)
    requires Twin(counters, buckets, c.key) && c.window > 0
    ensures var s := Script(counters, c.key, c.window, c.now); var m := Memory(buckets, c);
      Twin(s.0, m.0, c.key) && s.1 == m.0[c.key].count && (c.limit >= 1 ==> (s.1 <= c.limit <==> m.1))
  {
  }

  lemma OtherKeysStay(counters: Counters, buckets: Buckets, c: Arrival, key: string)
    requires Twin(counters, buckets, key) && key != c.key
    ensures Twin(Script(counters, c.key, c.window, c.now).0, Memory(buckets, c).0, key)
  {
  }

  /** One call, seen from both sides. */
  lemma TrySides(l: Limiter, m: seq<Arrival>, r: seq<Arrival>, t: Try, key: string)
    requires l.buckets == After(m) && Twin(l.counters, After(r), key) && (On(t.call, key) ==> t.call.window >= MS)
    ensures var l' := Redis(l, t.call, t.reply).0;
      && l'.buckets == After(m + (if t.reply.Healthy? then [] else [t.call]))
      && Twin(l'.counters, After(r + (if t.reply.Lost? then [] else [InMs(t.call)])), key)
  {
    AfterSnoc(m, t.call);
    AfterSnoc(r, InMs(t.call));
    assert m + [] == m && r + [] == r;
    if On(t.call, key) {
      ScriptIsMemory(l.counters, After(r), InMs(t.call));
    } else if t.call.limit > 0 {
      OtherKeysStay(l.counters, After(r), InMs(t.call), key);
    }
    hide Script, Memory, After, Twin;
  }

  /** Each side of the limiter only ever depends on its own part of the calls. */
  lemma {:induction false} SidesFollowTheirLogs(tries: seq<Try>, key: string)
    requires WideWindows(tries, key)
    ensures AfterTries(tries).buckets == After(MemoryLog(tries))
    ensures Twin(AfterTries(tries).counters, After(RedisLog(tries)), key)
  {
    if |tries| > 0 {
      var front, last := tries[..|tries| - 1], tries[|tries| - 1];
      SidesFollowTheirLogs(front, key);
      TrySides(AfterTries(front), MemoryLog(front), RedisLog(front), last, key);
      hide Redis, After, Twin, InMs;
    }
  }

  // ------------------------------------------------------------- the failover bound

  /** How many calls of limit L on the key, stamped lo..hi, the limiter let through. */
  function LetThrough(tries: seq<Try>, key: string, L: int, lo: int, hi: int): (n: nat) {
    if |tries| == 0 then 0
    else
      var i := |tries| - 1;
      LetThrough(tries[..i], key, L, lo, hi)
          + (if Hit(tries[i].call, key, L, lo, hi) && TryAllowed(tries, i) then 1 else 0)
  }

  /** Whatever was let through was let through by the buckets or by the counters. */
  lemma {:induction false} LetThroughBySides(tries: seq<Try>, key: string, L: int, lo: int, hi: int)
    requires WideWindows(tries, key) && L > 0
    ensures LetThrough(tries, key, L, lo, hi)
         <= |AllowedBetween(MemoryLog(tries), key, L, lo, hi)|
             + |AllowedBetween(RedisLog(tries), key, L, lo / MS, hi / MS)|
  {
    if |tries| > 0 {
      var front, last := tries[..|tries| - 1], tries[|tries| - 1];
      LetThroughBySides(front, key, L, lo, hi);
      SidesFollowTheirLogs(front, key);
      GrowLog(MemoryLog(front), last.call, key, L, lo, hi);
      GrowLog(RedisLog(front), InMs(last.call), key, L, lo / MS, hi / MS);
      assert MemoryLog(front) + [] == MemoryLog(front) && RedisLog(front) + [] == RedisLog(front);
      if Hit(last.call, key, L, lo, hi) {
        FloorKeepsOrder(lo, last.call.now);
        FloorKeepsOrder(last.call.now, hi);
        ScriptIsMemory(AfterTries(front).counters, After(RedisLog(front)), InMs(last.call));
      }
    }
  }

  lemma FloorKeepsOrder(a: int, b: int)
    requires a <= b
    ensures a / MS <= b / MS
  {
  }

  /** One window length on the key, and clock readings in order. */
  predicate SteadyTries(tries: seq<Try>, key: string, window: int) {
    && (forall i :: 0 <= i < |tries| && On(tries[i].call, key) ==> tries[i].call.window == window)
    && (forall i, j :: 0 <= i < j < |tries| && On(tries[i].call, key) && On(tries[j].call, key)
          ==> tries[i].call.now <= tries[j].call.now)
  }

  /** Later than everything the log holds on the key. */
  predicate Bounds(log: seq<Arrival>, key: string, now: int) {
    forall i :: 0 <= i < |log| && On(log[i], key) ==> log[i].now <= now
  }

  lemma {:induction false} LogsAreSteady(tries: seq<Try>, key: string, window: int, now: int)
    requires SteadyTries(tries, key, window)
    requires forall i :: 0 <= i < |tries| && On(tries[i].call, key) ==> tries[i].call.now <= now
    ensures Steady(MemoryLog(tries), key, window) && Bounds(MemoryLog(tries), key, now)
    ensures Steady(RedisLog(tries), key, window / MS) && Bounds(RedisLog(tries), key, now / MS)
  {
    if |tries| > 0 {
      var front, last := tries[..|tries| - 1], tries[|tries| - 1];
      if On(last.call, key) {
        LogsAreSteady(front, key, window, last.call.now);
        FloorKeepsOrder(last.call.now, now);
      } else {
        LogsAreSteady(front, key, window, now);
      }
    }
  }

  /** For every pattern of Redis failures, including replies lost after the script ran, and every window of at
      least a millisecond: any closed interval of one window length holds at most 4 L - 1 calls of limit L on a
      key that were let through, and one less if the window is a whole number of milliseconds. */
  lemma FailoverBound(tries: seq<Try>, key: string, window: int, L: int, start: int)
    requires L > 0 && window >= MS && SteadyTries(tries, key, window)
    ensures LetThrough(tries, key, L, start, start + window) <= if window % MS == 0 then 4 * L - 2 else 4 * L - 1
  {
    hide LetThrough, MemoryLog, RedisLog, AllowedBetween, Steady, SteadyTries, WideWindows, Bounds, On;
    SteadyIsWide(tries, key, window);
    WindowInMs(start, window);
    var now := LastStamp(tries, key);
    var s, e := start / MS, (start + window) / MS;
    LogsAreSteady(tries, key, window, now);
    LetThroughBySides(tries, key, L, start, start + window);
    IntervalBound(MemoryLog(tries), key, window, L, start);
    IntervalBound(RedisLog(tries), key, window / MS, L, s);
    LongIntervalBound(RedisLog(tries), key, window / MS, L, s);
    WiderHoldsMore(RedisLog(tries), key, L, s, e, s + window / MS + 1);
  }

  lemma SteadyIsWide(tries: seq<Try>, key: string, window: int)
    requires window >= MS && SteadyTries(tries, key, window)
    ensures WideWindows(tries, key) && window / MS >= 0
  {
  }

  lemma WiderHoldsMore(log: seq<Arrival>, key: string, L: int, lo: int, hi: int, higher: int)
    requires hi <= higher
    ensures |AllowedBetween(log, key, L, lo, hi)| <= |AllowedBetween(log, key, L, lo, higher)|
  {
    SubsetSize(AllowedBetween(log, key, L, lo, hi), AllowedBetween(log, key, L, lo, higher));
    hide *;
  }

  lemma WindowInMs(start: int, window: int)
    ensures window % MS == 0 ==> (start + window) / MS == start / MS + window / MS
    ensures (start + window) / MS <= start / MS + window / MS + 1
  {
  }

  lemma {:induction false} LastStamp(tries: seq<Try>, key: string) returns (now: int)
    ensures forall i :: 0 <= i < |tries| && On(tries[i].call, key) ==> tries[i].call.now <= now
  {
    now := 0;
    for n := 0 to |tries|
      invariant forall i :: 0 <= i < n && On(tries[i].call, key) ==> tries[i].call.now <= now
    {
      if tries[n].call.now > now {
        now := tries[n].call.now;
      }
    }
  }

  // ------------------------------------------------------------- below a millisecond

  /** PEXPIRE with nothing left deletes the key: no counter of the key survives a call, whatever the replies. */
  lemma {:induction false} NoCounterSurvives(tries: seq<Try>, key: string)
    requires forall i :: 0 <= i < |tries| && On(tries[i].call, key) ==> tries[i].call.window < MS
    ensures key !in AfterTries(tries).counters
  {
    if |tries| > 0 {
      NoCounterSurvives(tries[..|tries| - 1], key);
    }
  }

  /** So every call that Redis answers is let through. */
  lemma SubMillisecondIsUnlimited(tries: seq<Try>, i: nat)
    requires i < |tries| && tries[i].reply.Healthy?
    requires forall j :: 0 <= j <= i && On(tries[j].call, tries[i].call.key) ==> tries[j].call.window < MS
    requires tries[i].call.window < MS
    ensures TryAllowed(tries, i)
  {
    NoCounterSurvives(tries[..i], tries[i].call.key);
  }

  lemma {:induction false} SubMillisecondFlood(c: Arrival, n: nat)
    requires 0 <= c.window < MS && c.limit > 0
    ensures LetThrough(Repeat(Try(c, Healthy), n), c.key, c.limit, c.now, c.now + c.window) == n
  {
    if n > 0 {
      var tries := Repeat(Try(c, Healthy), n);
      SubMillisecondFlood(c, n - 1);
      assert tries[..n - 1] == Repeat(Try(c, Healthy), n - 1);
      SubMillisecondIsUnlimited(tries, n - 1);
      hide TryAllowed;
    }
  }

  predicate WithinBound(tries: seq<Try>, key: string, window: int, L: int, start: int) {
    SteadyTries(tries, key, window) ==> LetThrough(tries, key, L, start, start + window) <= 4 * L - 1
  }

  ghost predicate Bounded(key: string, window: int, L: int) {
    forall tries, start :: WithinBound(tries, key, window, L, start)
  }

  /** Nothing is stamped in an interval that ends before it begins. */
  lemma {:induction false} EmptyInterval(tries: seq<Try>, key: string, L: int, lo: int, hi: int)
    requires hi < lo
    ensures LetThrough(tries, key, L, lo, hi) == 0
  {
    if |tries| > 0 {
      EmptyInterval(tries[..|tries| - 1], key, L, lo, hi);
    }
  }

  /** The limiter bounds what it lets through exactly for windows of at least a millisecond; for a negative
      window there is no interval to speak of. */
  lemma BoundedIffWide(key: string, window: int, L: int)
    requires L > 0
    ensures Bounded(key, window, L) <==> window >= MS || window < 0
  {
    if window < 0 {
      forall tries, start ensures WithinBound(tries, key, window, L, start) {
        EmptyInterval(tries, key, L, start, start + window);
      }
    } else if window < MS {
      var c := Arrival(key, L, window, 0);
      var flood := Repeat(Try(c, Healthy), 4 * L);
      SubMillisecondFlood(c, 4 * L);
      assert SteadyTries(flood, key, window) && LetThrough(flood, key, L, 0, 0 + window) == 4 * L;
      assert !WithinBound(flood, key, window, L, 0);
    } else {
      forall tries, start ensures WithinBound(tries, key, window, L, start) {
        if SteadyTries(tries, key, window) {
          FailoverBound(tries, key, window, L, start);
        }
      }
    }
    hide LetThrough, SteadyTries;
  }

  // ------------------------------------------------------------- the bound is reached

  lemma LetThroughSnoc(tries: seq<Try>, t: Try, key: string, L: int, lo: int, hi: int)
    ensures AfterTries(tries + [t]) == Redis(AfterTries(tries), t.call, t.reply).0
    ensures LetThrough(tries + [t], key, L, lo, hi)
         == LetThrough(tries, key, L, lo, hi)
             + (if Hit(t.call, key, L, lo, hi) && Redis(AfterTries(tries), t.call, t.reply).1 then 1 else 0)
  {
    assert (tries + [t])[..|tries|] == tries;
    hide Redis;
  }

  lemma LostSnoc(tries: seq<Try>, c: Arrival, lo: int, hi: int)
    requires c.limit > 0
    ensures var l, l' := AfterTries(tries), AfterTries(tries + [Try(c, Lost)]);
      && l'.counters == l.counters && c.key in l'.buckets
      && l'.buckets[c.key] == Bucket(Base(l.buckets, c) + 1, EndOf(l.buckets, c))
      && LetThrough(tries + [Try(c, Lost)], c.key, c.limit, lo, hi)
         == LetThrough(tries, c.key, c.limit, lo, hi)
             + (if lo <= c.now <= hi && Base(l.buckets, c) + 1 <= c.limit then 1 else 0)
  {
    LetThroughSnoc(tries, Try(c, Lost), c.key, c.limit, lo, hi);
    BucketStep(AfterTries(tries).buckets, c);
    hide LetThrough, AfterTries, Memory, Script;
  }

  /** A burst without replies, for which the bucket has room. */
  lemma {:induction false} LostBurst(tries: seq<Try>, c: Arrival, n: nat, lo: int, hi: int)
    requires c.limit > 0 && c.window >= 0 && Base(AfterTries(tries).buckets, c) + n <= c.limit
    ensures var l, l' := AfterTries(tries), AfterTries(tries + Repeat(Try(c, Lost), n));
      && l'.counters == l.counters && (n == 0 ==> l' == l)
      && (n > 0 ==> c.key in l'.buckets && l'.buckets[c.key] == Bucket(Base(l.buckets, c) + n, EndOf(l.buckets, c)))
    ensures LetThrough(tries + Repeat(Try(c, Lost), n), c.key, c.limit, lo, hi)
         == LetThrough(tries, c.key, c.limit, lo, hi) + (if lo <= c.now <= hi then n else 0)
  {
    hide LetThrough, AfterTries, Repeat;
    if n == 0 {
      assert tries + Repeat(Try(c, Lost), 0) == tries;
    } else {
      LostBurst(tries, c, n - 1, lo, hi);
      RepeatSnoc(tries, Try(c, Lost), n - 1);
      LostSnoc(tries + Repeat(Try(c, Lost), n - 1), c, lo, hi);
    }
  }

  /** What the counter of a call's key will count from, and when it ends. */
  function CounterBase(counters: Counters, c: Arrival): (n: nat) {
    if Gone(counters, c.key, c.now / MS) then 0 else counters[c.key].value
  }

  function CounterEnd(counters: Counters, c: Arrival): (t: int) {
    if Gone(counters, c.key, c.now / MS) then c.now / MS + c.window / MS else counters[c.key].expiresAt
  }

  lemma ScriptStep(counters: Counters, c: Arrival)
    requires c.window >= MS && (c.key in counters ==> counters[c.key].value > 0)
    ensures var s := Script(counters, c.key, c.window / MS, c.now / MS);
      && s.1 == CounterBase(counters, c) + 1 && c.key in s.0
      && s.0[c.key] == Counter(CounterBase(counters, c) + 1, CounterEnd(counters, c))
  {
  }

  lemma AnsweredSnoc(tries: seq<Try>, c: Arrival, lo: int, hi: int)
    requires c.limit > 0 && c.window >= MS
    requires c.key in AfterTries(tries).counters ==> AfterTries(tries).counters[c.key].value > 0
    ensures var l, l' := AfterTries(tries), AfterTries(tries + [Try(c, Healthy)]);
      && l'.buckets == l.buckets && c.key in l'.counters
      && l'.counters[c.key] == Counter(CounterBase(l.counters, c) + 1, CounterEnd(l.counters, c))
      && LetThrough(tries + [Try(c, Healthy)], c.key, c.limit, lo, hi)
         == LetThrough(tries, c.key, c.limit, lo, hi)
             + (if lo <= c.now <= hi && CounterBase(l.counters, c) + 1 <= c.limit then 1 else 0)
  {
    LetThroughSnoc(tries, Try(c, Healthy), c.key, c.limit, lo, hi);
    ScriptStep(AfterTries(tries).counters, c);
    hide LetThrough, AfterTries, Memory, Script, CounterBase, CounterEnd;
  }

  /** A burst that Redis answers, for which the counter has room. */
  lemma {:induction false} AnsweredBurst(tries: seq<Try>, c: Arrival, n: nat, lo: int, hi: int)
    requires c.limit > 0 && c.window >= MS && CounterBase(AfterTries(tries).counters, c) + n <= c.limit
    requires c.key in AfterTries(tries).counters ==> AfterTries(tries).counters[c.key].value > 0
    ensures var l, l' := AfterTries(tries), AfterTries(tries + Repeat(Try(c, Healthy), n));
      && l'.buckets == l.buckets && (n == 0 ==> l' == l)
      && (n > 0 ==>
            c.key in l'.counters
            && l'.counters[c.key] == Counter(CounterBase(l.counters, c) + n, CounterEnd(l.counters, c)))
    ensures LetThrough(tries + Repeat(Try(c, Healthy), n), c.key, c.limit, lo, hi)
         == LetThrough(tries, c.key, c.limit, lo, hi) + (if lo <= c.now <= hi then n else 0)
  {
    hide LetThrough, AfterTries, Repeat;
    if n == 0 {
      assert tries + Repeat(Try(c, Healthy), 0) == tries;
    } else {
      AnsweredBurst(tries, c, n - 1, lo, hi);
      RepeatSnoc(tries, Try(c, Healthy), n - 1);
      AnsweredSnoc(tries + Repeat(Try(c, Healthy), n - 1), c, lo, hi);
    }
  }

  /** A whole number of milliseconds: both sides at the edge of their first window, then a tick of their own later. */
  function EdgeTries(key: string, L: nat, window: int): (tries: seq<Try>)
    requires L > 0
  {
    var a := Arrival(key, L, window, 0);
    Repeat(Try(a, Lost), 1) + Repeat(Try(a, Healthy), 1)
    + Repeat(Try(a.(now := window), Lost), L - 1) + Repeat(Try(a.(now := window), Healthy), L - 1)
    + Repeat(Try(a.(now := window + 1), Lost), L) + Repeat(Try(a.(now := window + MS), Healthy), L)
  }

  /** Otherwise the interval can reach one millisecond further than the counter, from the last instant of one. */
  function SkewedStart(window: int): (start: int) {
    (window / MS + 1) * MS + MS - 1
  }

  function SkewedTries(key: string, L: nat, window: int): (tries: seq<Try>)
    requires L > 0
  {
    var start := SkewedStart(window);
    var a := Arrival(key, L, window, start);
    Repeat(Try(a.(now := start - window), Lost), 1) + Repeat(Try(a, Lost), L - 1) + Repeat(Try(a, Healthy), L)
    + Repeat(Try(a.(now := start + 1), Lost), L) + Repeat(Try(a.(now := start + window), Healthy), L)
  }

  lemma EdgeReaches(key: string, L: nat, window: int)
    requires L > 0 && window >= MS && window % MS == 0
    ensures LetThrough(EdgeTries(key, L, window), key, L, window, window + window) == 4 * L - 2
  {
    hide LetThrough, AfterTries, Repeat;
    var a := Arrival(key, L, window, 0);
    var t0: seq<Try> := [];
    assert AfterTries(t0) == Limiter(map[], map[]) && LetThrough(t0, key, L, window, window + window) == 0 by {
      NoTries(key, L, window, window + window);
    }
    LostBurst(t0, a, 1, window, window + window);
    assert t0 + Repeat(Try(a, Lost), 1) == Repeat(Try(a, Lost), 1);
    var t1 := Repeat(Try(a, Lost), 1);
    AnsweredBurst(t1, a, 1, window, window + window);
    var t2 := t1 + Repeat(Try(a, Healthy), 1);
    LostBurst(t2, a.(now := window), L - 1, window, window + window);
    var t3 := t2 + Repeat(Try(a.(now := window), Lost), L - 1);
    AnsweredBurst(t3, a.(now := window), L - 1, window, window + window);
    var t4 := t3 + Repeat(Try(a.(now := window), Healthy), L - 1);
    LostBurst(t4, a.(now := window + 1), L, window, window + window);
    var t5 := t4 + Repeat(Try(a.(now := window + 1), Lost), L);
    assert (window + MS) / MS == window / MS + 1;
    AnsweredBurst(t5, a.(now := window + MS), L, window, window + window);
  }

  lemma NoTries(key: string, L: int, lo: int, hi: int)
    ensures AfterTries([]) == Limiter(map[], map[]) && LetThrough([], key, L, lo, hi) == 0
  {
  }

  lemma SkewedTimes(window: int)
    requires window >= MS && window % MS != 0
    ensures var s := SkewedStart(window);
      && s / MS == window / MS + 1 && (s + window) / MS == 2 * (window / MS) + 2
  {
    var w, f := window / MS, window % MS;
    assert window == w * MS + f;
    assert SkewedStart(window) == (w + 1) * MS + (MS - 1);
    assert SkewedStart(window) + window == (2 * w + 2) * MS + (f - 1);
  }

  /** The first three bursts: a bucket full at its end, a counter full at its beginning. */
  lemma SkewedFirst(a: Arrival, w: int) returns (tries: seq<Try>)
    requires a.limit > 0 && a.window >= MS && w == a.window / MS && a.now / MS == w + 1
    ensures tries == Repeat(Try(a.(now := a.now - a.window), Lost), 1) + Repeat(Try(a, Lost), a.limit - 1)
      + Repeat(Try(a, Healthy), a.limit)
    ensures var l := AfterTries(tries);
      && a.key in l.buckets && l.buckets[a.key] == Bucket(a.limit, a.now)
      && a.key in l.counters && l.counters[a.key] == Counter(a.limit, w + 1 + w)
    ensures LetThrough(tries, a.key, a.limit, a.now, a.now + a.window) == 2 * a.limit - 1
  {
    hide LetThrough, AfterTries, Repeat;
    var lo, hi, first := a.now, a.now + a.window, a.(now := a.now - a.window);
    NoTries(a.key, a.limit, lo, hi);
    LostBurst([], first, 1, lo, hi);
    assert [] + Repeat(Try(first, Lost), 1) == Repeat(Try(first, Lost), 1);
    tries := Repeat(Try(first, Lost), 1);
    LostBurst(tries, a, a.limit - 1, lo, hi);
    tries := tries + Repeat(Try(a, Lost), a.limit - 1);
    AnsweredBurst(tries, a, a.limit, lo, hi);
    tries := tries + Repeat(Try(a, Healthy), a.limit);
  }

  /** The last two: both sides have just begun anew. */
  lemma SkewedLast(front: seq<Try>, a: Arrival, w: int) returns (tries: seq<Try>)
    requires a.limit > 0 && a.window >= MS && w == a.window / MS && (a.now + a.window) / MS == 2 * w + 2
    requires var l := AfterTries(front);
      && a.key in l.buckets && l.buckets[a.key] == Bucket(a.limit, a.now)
      && a.key in l.counters && l.counters[a.key] == Counter(a.limit, w + 1 + w)
    ensures tries == front + Repeat(Try(a.(now := a.now + 1), Lost), a.limit)
      + Repeat(Try(a.(now := a.now + a.window), Healthy), a.limit)
    ensures LetThrough(tries, a.key, a.limit, a.now, a.now + a.window)
         == LetThrough(front, a.key, a.limit, a.now, a.now + a.window) + 2 * a.limit
  {
    hide LetThrough, AfterTries, Repeat;
    var lo, hi := a.now, a.now + a.window;
    LostBurst(front, a.(now := a.now + 1), a.limit, lo, hi);
    tries := front + Repeat(Try(a.(now := a.now + 1), Lost), a.limit);
    AnsweredBurst(tries, a.(now := a.now + a.window), a.limit, lo, hi);
    tries := tries + Repeat(Try(a.(now := a.now + a.window), Healthy), a.limit);
  }

  lemma SkewedBursts(a: Arrival, w: int)
    requires a.limit > 0 && a.window >= MS && w == a.window / MS && a.now / MS == w + 1
      && (a.now + a.window) / MS == 2 * w + 2
    requires a.now == SkewedStart(a.window)
    ensures LetThrough(SkewedTries(a.key, a.limit, a.window), a.key, a.limit, a.now, a.now + a.window)
      == 4 * a.limit - 1
  {
    hide LetThrough, AfterTries, Repeat, SkewedStart;
    var front := SkewedFirst(a, w);
    var tries := SkewedLast(front, a, w);
    assert tries == SkewedTries(a.key, a.limit, a.window);
  }

  lemma SkewedReaches(key: string, L: nat, window: int)
    requires L > 0 && window >= MS && window % MS != 0
    ensures var start := SkewedStart(window);
      LetThrough(SkewedTries(key, L, window), key, L, start, start + window) == 4 * L - 1
  {
    hide LetThrough, SkewedTries, SkewedStart;
    SkewedTimes(window);
    SkewedBursts(Arrival(key, L, window, SkewedStart(window)), window / MS);
  }

  lemma EdgeIsSteady(key: string, L: nat, window: int)
    requires L > 0 && window >= MS
    ensures SteadyTries(EdgeTries(key, L, window), key, window)
  {
    var tries := EdgeTries(key, L, window);
    forall i | 0 <= i < |tries|
      ensures tries[i].call.window == window
      ensures tries[i].call.now == if i < 2 then 0 else if i < 2 * L then window
                                   else if i < 3 * L then window + 1 else window + MS
    {
    }
    hide EdgeTries;
  }

  lemma SkewedIsSteady(key: string, L: nat, window: int)
    requires L > 0 && window >= MS
    ensures SteadyTries(SkewedTries(key, L, window), key, window)
  {
    var tries, start := SkewedTries(key, L, window), SkewedStart(window);
    forall i | 0 <= i < |tries|
      ensures tries[i].call.window == window
      ensures tries[i].call.now == if i < 1 then start - window else if i < 2 * L then start
                                   else if i < 3 * L then start + 1 else start + window
    {
      hide SkewedStart;
    }
    hide SkewedTries, SkewedStart;
  }

  /** Both bounds of FailoverBound are reached, for every limit and every window of at least a millisecond. */
  lemma FailoverBoundIsReached(key: string, window: int, L: nat) returns (tries: seq<Try>, start: int)
    requires L > 0 && window >= MS
    ensures SteadyTries(tries, key, window)
    ensures LetThrough(tries, key, L, start, start + window) == if window % MS == 0 then 4 * L - 2 else 4 * L - 1
  {
    hide EdgeTries, SkewedTries, SteadyTries, LetThrough, SkewedStart;
    if window % MS == 0 {
      EdgeIsSteady(key, L, window);
      EdgeReaches(key, L, window);
      tries, start := EdgeTries(key, L, window), window;
    } else {
      SkewedIsSteady(key, L, window);
      SkewedReaches(key, L, window);
      tries, start := SkewedTries(key, L, window), SkewedStart(window);
    }
  }

  // ------------------------------------------------------------- the twins agree

  /** Calls on the key are answered, and stamped and windowed on the millisecond grid. */
  predicate Answered(tries: seq<Try>, key: string) {
    forall i :: 0 <= i < |tries| && On(tries[i].call, key) ==>
      tries[i].reply.Healthy? && tries[i].call.now % MS == 0 && tries[i].call.window % MS == 0
  }

  function Calls(tries: seq<Try>): (log: seq<Arrival>)
    ensures |log| == |tries| && forall i :: 0 <= i < |tries| ==> log[i] == tries[i].call
  {
    seq(|tries|, i requires 0 <= i < |tries| => tries[i].call)
  }

  predicate Scaled(counters: Counters, buckets: Buckets, key: string) {
    && (key in counters <==> key in buckets)
    && (key in counters ==>
          counters[key].value == buckets[key].count >= 1 && counters[key].expiresAt * MS == buckets[key].windowEnd)
  }

  lemma ScriptScales(counters: Counters, buckets: Buckets, c: Arrival)
    requires Scaled(counters, buckets, c.key) && c.limit > 0 && c.window >= MS && c.now % MS == 0 && c.window % MS == 0
    ensures var s := Script(counters, c.key, c.window / MS, c.now / MS); var m := Memory(buckets, c);
      Scaled(s.0, m.0, c.key) && (s.1 <= c.limit <==> m.1)
  {
    assert c.now == c.now / MS * MS && c.window == c.window / MS * MS;
  }

  lemma {:induction false} AnsweredScales(tries: seq<Try>, key: string)
    requires Answered(tries, key) && WideWindows(tries, key)
    ensures Scaled(AfterTries(tries).counters, After(Calls(tries)), key)
  {
    if |tries| > 0 {
      var front, last := tries[..|tries| - 1], tries[|tries| - 1];
      AnsweredScales(front, key);
      assert Calls(tries) == Calls(front) + [last.call];
      AfterSnoc(Calls(front), last.call);
      if On(last.call, key) {
        ScriptScales(AfterTries(front).counters, After(Calls(front)), last.call);
      }
      hide After, Calls;
    }
  }

  /** Without errors on a key, on the millisecond clock, Redis and the in-memory twin answer its calls alike,
      whatever happens on other keys. */
  lemma TwinsAgree(tries: seq<Try>, i: nat)
    requires i < |tries| && Answered(tries, tries[i].call.key) && WideWindows(tries, tries[i].call.key)
    ensures TryAllowed(tries, i) <==> Allowed(Calls(tries), i)
  {
    AnsweredScales(tries[..i], tries[i].call.key);
    assert Calls(tries)[..i] == Calls(tries[..i]);
    if tries[i].call.limit > 0 {
      ScriptScales(AfterTries(tries[..i]).counters, After(Calls(tries[..i])), tries[i].call);
    }
  }
}
