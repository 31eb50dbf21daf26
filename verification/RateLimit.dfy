/**
 * Fixed-window rate limiting: the in-memory buckets as a machine over the log of arrivals,
 * an independent reading of the same log as greedy windows, and the bounds that follow.
 * Times are nanoseconds.
 */
module RateLimit {
  import opened Basics

  /** One Allow call, at the clock reading it made. */
  datatype Arrival = Arrival(key: string, limit: int, window: int, now: int)

  datatype Bucket = Bucket(count: nat, windowEnd: int)

  type Buckets = map<string, Bucket>

  predicate Expired(buckets: Buckets, key: string, now: int) {
    key !in buckets || now > buckets[key].windowEnd
  }

  /** allowMemory on the map of buckets. */
  function Memory(buckets: Buckets, c: Arrival): (r: (Buckets, bool)) {
    if Expired(buckets, c.key, c.now) then (buckets[c.key := Bucket(1, c.now + c.window)], true)
    else
      var n := buckets[c.key].count + 1;
      (buckets[c.key := Bucket(n, buckets[c.key].windowEnd)], n <= c.limit)
  }

  /** Allow without Redis: no limit means no bucket. */
  function Allow(buckets: Buckets, c: Arrival): (r: (Buckets, bool)) {
    if c.limit <= 0 then (buckets, true) else Memory(buckets, c)
  }

  function After(log: seq<Arrival>): (buckets: Buckets) {
    if |log| == 0 then map[] else Allow(After(log[..|log| - 1]), log[|log| - 1]).0
  }

  /** What call i of the log was told. */
  predicate Allowed(log: seq<Arrival>, i: nat)
    requires i < |log|
  {
    Allow(After(log[..i]), log[i]).1
  }

  // ----------------------------------------------------------- the log cut into windows

  predicate On(c: Arrival, key: string) {
    c.key == key && c.limit > 0
  }

  /** The last call on the key before position n, or -1. */
  function Previous(log: seq<Arrival>, key: string, n: nat): (j: int)
    requires n <= |log|
    ensures -1 <= j < n
    ensures j >= 0 ==> On(log[j], key)
    ensures forall i :: j < i < n ==> !On(log[i], key)
  {
    if n == 0 then -1 else if On(log[n - 1], key) then n - 1 else Previous(log, key, n - 1)
  }

  /** The call that opened the window of call i: greedily, a window lasts until the first call strictly
      after the opener's time plus the opener's window length. */
  function Opener(log: seq<Arrival>, i: nat): (o: nat)
    requires i < |log| && log[i].limit > 0
    ensures o <= i && On(log[o], log[i].key)
  {
    var j := Previous(log, log[i].key, i);
    if j < 0 then i
    else
      var o := Opener(log, j);
      if log[i].now > log[o].now + log[o].window then i else o
  }

  /** How many calls on the key lie in positions lo..hi-1. */
  function CallsOn(log: seq<Arrival>, key: string, lo: nat, hi: nat): (n: nat)
    requires lo <= hi <= |log|
  {
    if lo == hi then 0 else CallsOn(log, key, lo, hi - 1) + (if On(log[hi - 1], key) then 1 else 0)
  }

  /** The place of call i in its window, counting from 1. */
  function Rank(log: seq<Arrival>, i: nat): (n: nat)
    requires i < |log| && log[i].limit > 0
  {
    CallsOn(log, log[i].key, Opener(log, i), i + 1)
  }

  lemma {:induction false} PrefixFacts(log: seq<Arrival>, n: nat, i: nat)
    requires i < n <= |log| && log[i].limit > 0
    ensures Opener(log[..n], i) == Opener(log, i) && Rank(log[..n], i) == Rank(log, i)
    decreases i
  {
    PrefixPrevious(log, n, log[i].key, i);
    var j := Previous(log, log[i].key, i);
    if j >= 0 {
      PrefixFacts(log, n, j);
    }
    PrefixCalls(log, n, log[i].key, Opener(log, i), i + 1);
  }

  lemma {:induction false} PrefixPrevious(log: seq<Arrival>, n: nat, key: string, i: nat)
    requires i <= n <= |log|
    ensures Previous(log[..n], key, i) == Previous(log, key, i)
  {
    if i > 0 {
      PrefixPrevious(log, n, key, i - 1);
    }
  }

  lemma {:induction false} PrefixCalls(log: seq<Arrival>, n: nat, key: string, lo: nat, hi: nat)
    requires lo <= hi <= n <= |log|
    ensures CallsOn(log[..n], key, lo, hi) == CallsOn(log, key, lo, hi)
  {
    if lo < hi {
      PrefixCalls(log, n, key, lo, hi - 1);
    }
  }

  lemma {:induction false} NoCalls(log: seq<Arrival>, key: string, lo: nat, hi: nat)
    requires lo <= hi <= |log| && forall i :: lo <= i < hi ==> !On(log[i], key)
    ensures CallsOn(log, key, lo, hi) == 0
  {
    if lo < hi {
      NoCalls(log, key, lo, hi - 1);
    }
  }

  lemma {:induction false} CallsSplit(log: seq<Arrival>, key: string, lo: nat, mid: nat, hi: nat)
    requires lo <= mid <= hi <= |log|
    ensures CallsOn(log, key, lo, hi) == CallsOn(log, key, lo, mid) + CallsOn(log, key, mid, hi)
    decreases hi - mid
  {
    if mid < hi {
      CallsSplit(log, key, lo, mid, hi - 1);
    }
  }

  lemma CallsGrow(log: seq<Arrival>, key: string, lo: nat, hi: nat)
    requires lo <= hi < |log|
    ensures CallsOn(log, key, lo, hi + 1) == CallsOn(log, key, lo, hi) + (if On(log[hi], key) then 1 else 0)
  {
  }

  lemma OpenerStep(log: seq<Arrival>, i: nat)
    requires i < |log| && log[i].limit > 0
    ensures var j := Previous(log, log[i].key, i);
      Opener(log, i) == if j < 0 then i
                        else if log[i].now > log[Opener(log, j)].now + log[Opener(log, j)].window then i
                        else Opener(log, j)
  {
  }

  lemma NoneBetween(log: seq<Arrival>, i: nat)
    requires i < |log| && log[i].limit > 0
    ensures CallsOn(log, log[i].key, Previous(log, log[i].key, i) + 1, i) == 0
  {
    NoCalls(log, log[i].key, Previous(log, log[i].key, i) + 1, i);
    hide *;
  }

  lemma RankIs(log: seq<Arrival>, i: nat)
    requires i < |log| && log[i].limit > 0
    ensures Rank(log, i) == CallsOn(log, log[i].key, Opener(log, i), i) + 1
  {
    CallsGrow(log, log[i].key, Opener(log, i), i);
  }

  lemma RankOfLater(log: seq<Arrival>, i: nat, j: nat)
    requires j < i < |log| && log[i].limit > 0 && log[j].limit > 0 && log[j].key == log[i].key
    requires Previous(log, log[i].key, i) == j && Opener(log, j) == Opener(log, i)
    ensures Rank(log, i) == Rank(log, j) + 1
  {
    hide *;
    RankIs(log, i);
    NoneBetween(log, i);
    CallsSplit(log, log[i].key, Opener(log, i), j + 1, i);
    RankIsAll(log, j);
  }

  lemma RankIsAll(log: seq<Arrival>, j: nat)
    requires j < |log| && log[j].limit > 0
    ensures Rank(log, j) == CallsOn(log, log[j].key, Opener(log, j), j + 1)
  {
  }

  /** The rank grows by one from a call to the next call of the same window, and starts at 1. */
  lemma RankStep(log: seq<Arrival>, i: nat)
    requires i < |log| && log[i].limit > 0
    ensures var j := Previous(log, log[i].key, i);
      Rank(log, i) == if j < 0 || Opener(log, i) == i then 1 else Rank(log, j) + 1
  {
    var j := Previous(log, log[i].key, i);
    OpenerStep(log, i);
    hide Rank, Opener, Previous, CallsOn;
    if j < 0 || Opener(log, i) == i {
      RankIs(log, i);
      NoCalls(log, log[i].key, i, i);
    } else {
      RankOfLater(log, i, j);
    }
  }

  /** The bucket of the key holds exactly the rank of call j and the end of its window. */
  ghost predicate Tracks(b: Buckets, log: seq<Arrival>, key: string, j: int)
    requires -1 <= j < |log| && (j >= 0 ==> On(log[j], key))
  {
    if j < 0 then key !in b
    else key in b && b[key] == Bucket(Rank(log, j), log[Opener(log, j)].now + log[Opener(log, j)].window)
  }

  lemma TracksPrefix(b: Buckets, log: seq<Arrival>, n: nat, key: string, j: int)
    requires n <= |log| && -1 <= j < n && (j >= 0 ==> On(log[j], key))
    ensures Tracks(b, log[..n], key, j) <==> Tracks(b, log, key, j)
  {
    if j >= 0 {
      PrefixFacts(log, n, j);
    }
  }

  /** What one limited call makes of its bucket. */
  lemma BucketStep(b: Buckets, c: Arrival)
    requires c.limit > 0
    ensures var b' := Allow(b, c).0;
      && c.key in b'
      && b'[c.key] == (if Expired(b, c.key, c.now) then Bucket(1, c.now + c.window)
                      else Bucket(b[c.key].count + 1, b[c.key].windowEnd))
      && (Allow(b, c).1 <==> b'[c.key].count <= c.limit)
  {
  }

  /** One more call on the key. */
  lemma TracksStep(b: Buckets, log: seq<Arrival>, i: nat)
    requires i < |log| && log[i].limit > 0
    requires Tracks(b, log, log[i].key, Previous(log, log[i].key, i))
    ensures Tracks(Allow(b, log[i]).0, log, log[i].key, i)
    ensures Allow(b, log[i]).1 <==> Rank(log, i) <= log[i].limit
  {
    hide Rank, Opener, Previous, CallsOn, Allow, Memory;
    RankStep(log, i);
    OpenerStep(log, i);
    BucketStep(b, log[i]);
  }

  /** After any log, the bucket of a key tracks the last call on it. */
  lemma {:induction false} BucketsFollowWindows(log: seq<Arrival>, key: string)
    ensures Tracks(After(log), log, key, Previous(log, key, |log|))
  {
    if |log| > 0 {
      var n := |log| - 1;
      var c := log[n];
      var j := Previous(log, key, n);
      BucketsFollowWindows(log[..n], key);
      PrefixPrevious(log, n, key, n);
      TracksPrefix(After(log[..n]), log, n, key, j);
      if On(c, key) {
        TracksStep(After(log[..n]), log, n);
      } else {
        assert Previous(log, key, n + 1) == j;
        hide Tracks;
        OtherKey(After(log[..n]), log, key, j, c);
      }
    }
  }

  lemma OtherKey(b: Buckets, log: seq<Arrival>, key: string, j: int, c: Arrival)
    requires -1 <= j < |log| && (j >= 0 ==> On(log[j], key)) && Tracks(b, log, key, j) && !On(c, key)
    ensures Tracks(Allow(b, c).0, log, key, j)
  {
  }

  /** The limiter refines the window reading: a call is allowed exactly when its rank in its greedy
      window is within its own limit (or it has no limit). */
  lemma AllowedIffRankWithinLimit(log: seq<Arrival>, i: nat)
    requires i < |log|
    ensures Allowed(log, i) <==> log[i].limit <= 0 || Rank(log, i) <= log[i].limit
  {
    if log[i].limit > 0 {
      var key := log[i].key;
      BucketsFollowWindows(log[..i], key);
      PrefixPrevious(log, i, key, i);
      TracksPrefix(After(log[..i]), log, i, key, Previous(log, key, i));
      TracksStep(After(log[..i]), log, i);
    }
  }

  // ----------------------------------------------------------- keys do not interact

  function OnlyKey(log: seq<Arrival>, key: string): (mine: seq<Arrival>) {
    if |log| == 0 then []
    else OnlyKey(log[..|log| - 1], key) + (if log[|log| - 1].key == key then [log[|log| - 1]] else [])
  }

  predicate AgreeOn(a: Buckets, b: Buckets, key: string) {
    (key in a <==> key in b) && (key in a ==> a[key] == b[key])
  }

  lemma AgreeStep(a: Buckets, b: Buckets, c: Arrival, key: string)
    requires AgreeOn(a, b, key)
    ensures AgreeOn(Allow(a, c).0, if c.key == key then Allow(b, c).0 else b, key)
  {
  }

  lemma {:induction false} OwnBucketOnly(log: seq<Arrival>, key: string)
    ensures AgreeOn(After(log), After(OnlyKey(log, key)), key)
  {
    if |log| > 0 {
      var front, c := log[..|log| - 1], log[|log| - 1];
      var mine := OnlyKey(front, key);
      OwnBucketOnly(front, key);
      AgreeStep(After(front), After(mine), c, key);
      AfterSnoc(mine, c);
      assert mine + [] == mine;
      hide Allow, AgreeOn;
    }
  }

  /** The answer to a call is the one it would get if calls on other keys had never happened. */
  lemma KeysDoNotInteract(log: seq<Arrival>, c: Arrival)
    ensures Allow(After(log), c).1 == Allow(After(OnlyKey(log, c.key)), c).1
  {
    OwnBucketOnly(log, c.key);
  }

  // ----------------------------------------------------------- bounds

  /** Calls on the key with limit L that were allowed and satisfy a time condition lo <= now <= hi. */
  function AllowedBetween(log: seq<Arrival>, key: string, L: int, lo: int, hi: int): (calls: set<nat>) {
    set i: nat | i < |log| && log[i].key == key && log[i].limit == L && lo <= log[i].now <= hi && Allowed(log, i)
  }

  /** Calls of one window with limit L that were allowed. */
  function AllowedInWindow(log: seq<Arrival>, o: nat, L: int): (calls: set<nat>)
    requires L > 0
  {
    set i: nat | i < |log| && log[i].limit == L && Opener(log, i) == o && Allowed(log, i)
  }

  function UpTo(n: nat): (s: set<nat>)
    ensures |s| == n && forall k: nat :: k in s <==> 1 <= k <= n
  {
    if n == 0 then {} else UpTo(n - 1) + {n}
  }

  /** A set that maps one-to-one into 1..n has at most n elements. */
  lemma {:induction false} InjectionBound(s: set<nat>, f: nat -> nat, n: nat)
    requires forall i :: i in s ==> 1 <= f(i) <= n
    requires forall i, j :: i in s && j in s && f(i) == f(j) ==> i == j
    ensures |s| <= n
  {
    var image := set i | i in s :: f(i);
    ImageSize(s, f);
    SubsetSize(image, UpTo(n));
  }

  lemma {:induction false} ImageSize(s: set<nat>, f: nat -> nat)
    requires forall i, j :: i in s && j in s && f(i) == f(j) ==> i == j
    ensures |set i | i in s :: f(i)| == |s|
  {
    if s != {} {
      var x :| x in s;
      var rest := s - {x};
      ImageSize(rest, f);
      assert (set i | i in s :: f(i)) == (set i | i in rest :: f(i)) + {f(x)};
    }
  }

  /** Openers open their own window, and never move backwards. */
  lemma {:induction false} OpenersAdvance(log: seq<Arrival>, i: nat, j: nat)
    requires i <= j < |log| && log[i].limit > 0 && log[j].limit > 0 && log[i].key == log[j].key
    ensures Opener(log, i) <= Opener(log, j)
    ensures Opener(log, Opener(log, j)) == Opener(log, j)
    ensures i < j && Opener(log, i) == Opener(log, j) ==> Rank(log, i) < Rank(log, j)
    decreases j
  {
    var k := Previous(log, log[j].key, j);
    if k >= 0 {
      OpenersAdvance(log, if i <= k then i else k, k);
      RankStep(log, j);
    }
  }

  /** Within one window at most L calls of limit L are allowed. No assumption on the clock. */
  lemma PerWindowBound(log: seq<Arrival>, o: nat, L: int)
    requires L > 0
    ensures forall i, j :: i in AllowedInWindow(log, o, L) && j in AllowedInWindow(log, o, L) ==>
      log[i].key == log[j].key
    ensures |AllowedInWindow(log, o, L)| <= L
  {
    var s := AllowedInWindow(log, o, L);
    var f := (i: nat) => if i < |log| && log[i].limit > 0 then Rank(log, i) else 0;
    forall i | i in s ensures 1 <= f(i) <= L {
      AllowedIffRankWithinLimit(log, i);
      RankStep(log, i);
    }
    forall i, j | i in s && j in s && f(i) == f(j) ensures i == j {
      OpenersAdvance(log, if i <= j then i else j, if i <= j then j else i);
    }
    InjectionBound(s, f, L);
  }

  /** Calls on the key share one window length and are stamped in nondecreasing order. */
  predicate Steady(log: seq<Arrival>, key: string, window: int) {
    && (forall i :: 0 <= i < |log| && On(log[i], key) ==> log[i].window == window)
    && (forall i, j :: 0 <= i < j < |log| && On(log[i], key) && On(log[j], key) ==> log[i].now <= log[j].now)
  }

  /** A window that is not the key's first was opened after the end of the window before it. */
  lemma OpenedAfterPreviousEnd(log: seq<Arrival>, key: string, window: int, o: nat, p: nat)
    requires Steady(log, key, window) && o < |log| && On(log[o], key) && Opener(log, o) == o
    requires p < o && On(log[p], key)
    ensures var q := Previous(log, key, o); q >= p && log[o].now > log[Opener(log, q)].now + window
  {
    var q := Previous(log, key, o);
    assert q >= p;
    assert Opener(log, q) <= q;
  }

  /** Three windows cannot all be touched within one window length. */
  lemma ThirdWindowIsLater(log: seq<Arrival>, key: string, window: int, i: nat, j: nat, k: nat)
    requires Steady(log, key, window)
    requires i < |log| && j < |log| && k < |log| && On(log[i], key) && On(log[j], key) && On(log[k], key)
    requires Opener(log, i) < Opener(log, j) < Opener(log, k)
    ensures log[k].now > log[i].now + window
  {
    var o2, o3 := Opener(log, j), Opener(log, k);
    OpenersAdvance(log, j, j);
    OpenersAdvance(log, k, k);
    OpenersAdvance(log, if o2 <= i then o2 else i, if o2 <= i then i else o2);
    OpenedAfterPreviousEnd(log, key, window, o3, o2);
    var q := Previous(log, key, o3);
    OpenersAdvance(log, o2, q);
    hide Opener, Previous;
    assert i < o2 <= Opener(log, q);
    InOrder(log, key, window, i, Opener(log, q));
    InOrder(log, key, window, o3, k);
  }

  lemma InOrder(log: seq<Arrival>, key: string, window: int, i: nat, j: nat)
    requires Steady(log, key, window) && i <= j < |log| && On(log[i], key) && On(log[j], key)
    ensures log[i].now <= log[j].now
  {
  }

  /** Where an allowed call sits when two windows are touched: the earlier window, opened by o before the
      interval began, offers ranks 2..L, the later one ranks 1..L. */
  function Slot(log: seq<Arrival>, o: nat, L: int, i: nat): (n: int)
    requires i < |log| && log[i].limit > 0
  {
    if Opener(log, i) == o then Rank(log, i) - 1 else L - 1 + Rank(log, i)
  }

  lemma Earliest(s: set<nat>) returns (m: nat)
    requires s != {}
    ensures m in s && forall i :: i in s ==> m <= i
  {
    var x :| x in s;
    m := x;
    var rest := s - {x};
    if rest != {} {
      var r := Earliest(rest);
      if r < x {
        m := r;
      }
      assert forall i :: i in rest ==> m <= i;
    }
    forall i | i in s ensures m <= i {
      assert i == x || i in rest;
    }
  }

  lemma RankInRange(log: seq<Arrival>, L: int, i: nat)
    requires L > 0 && i < |log| && log[i].limit == L && Allowed(log, i)
    ensures 1 <= Rank(log, i) <= L && (Rank(log, i) == 1 ==> Opener(log, i) == i)
  {
    AllowedIffRankWithinLimit(log, i);
    RankStep(log, i);
    if Previous(log, log[i].key, i) >= 0 {
      RankStep(log, Previous(log, log[i].key, i));
    }
  }

  /** If a later window is touched too, the opener of the earlier one lies before the interval. */
  lemma OpenerLeftOut(log: seq<Arrival>, key: string, window: int, start: int, i: nat, k: nat)
    requires Steady(log, key, window) && i < |log| && k < |log| && On(log[i], key) && On(log[k], key)
    requires Opener(log, i) < Opener(log, k) && log[k].now <= start + window
    ensures log[Opener(log, i)].now < start
  {
    var o, o2 := Opener(log, i), Opener(log, k);
    OpenersAdvance(log, i, i);
    OpenersAdvance(log, k, k);
    OpenedAfterPreviousEnd(log, key, window, o2, o);
    var q := Previous(log, key, o2);
    OpenersAdvance(log, o, q);
    hide Opener, Previous;
    InOrder(log, key, window, o, Opener(log, q));
    InOrder(log, key, window, o2, k);
  }

  lemma SlotInRange(log: seq<Arrival>, key: string, window: int, L: int, start: int, first: nat, k: nat, i: nat)
    requires L > 0 && Steady(log, key, window)
    requires var s := AllowedBetween(log, key, L, start, start + window); first in s && k in s && i in s && first <= i
    requires Opener(log, first) < Opener(log, k)
    ensures 1 <= Slot(log, Opener(log, first), L, i) <= 2 * L - 1
  {
    RankInRange(log, L, i);
    OpenerLeftOut(log, key, window, start, first, k);
  }

  /** Two allowed calls of one interval with the same opener choice and slot are the same call. */
  lemma SameSlotSameCall(log: seq<Arrival>, key: string, window: int, L: int, start: int, first: nat, i: nat, j: nat)
    requires L > 0 && Steady(log, key, window)
    requires var s := AllowedBetween(log, key, L, start, start + window);
      first in s && i in s && j in s && first <= i <= j
    requires Slot(log, Opener(log, first), L, i) == Slot(log, Opener(log, first), L, j)
    ensures i == j
  {
    RankInRange(log, L, i);
    RankInRange(log, L, j);
    OpenersAdvance(log, first, i);
    OpenersAdvance(log, i, j);
    if Opener(log, first) < Opener(log, i) < Opener(log, j) {
      ThirdWindowIsLater(log, key, window, first, i, j);
    }
  }

  /** Any closed interval of one window length holds at most 2 L - 1 allowed calls of limit L on a key,
      whatever other limits the key is used with. */
  lemma IntervalBound(log: seq<Arrival>, key: string, window: int, L: int, start: int)
    requires L > 0 && Steady(log, key, window)
    ensures |AllowedBetween(log, key, L, start, start + window)| <= 2 * L - 1
  {
    var s := AllowedBetween(log, key, L, start, start + window);
    if s != {} {
      var first := Earliest(s);
      var o := Opener(log, first);
      if k :| k in s && Opener(log, k) != o {
        OpenersAdvance(log, first, k);
        TwoWindowBound(log, key, window, L, start, first, k);
      } else {
        forall i | i in s ensures i in AllowedInWindow(log, o, L) {
        }
        SubsetSize(s, AllowedInWindow(log, o, L));
        PerWindowBound(log, o, L);
      }
    }
  }

  function Slots(log: seq<Arrival>, o: nat, L: int): (f: nat -> nat)
    ensures forall i: nat :: (i < |log| && log[i].limit > 0 && Slot(log, o, L, i) >= 0) ==> f(i) == Slot(log, o, L, i)
  {
    (i: nat) => if i < |log| && log[i].limit > 0 && Slot(log, o, L, i) >= 0 then Slot(log, o, L, i) else 0
  }

  lemma TwoWindowBound(log: seq<Arrival>, key: string, window: int, L: int, start: int, first: nat, k: nat)
    requires L > 0 && Steady(log, key, window)
    requires var s := AllowedBetween(log, key, L, start, start + window);
      first in s && k in s && forall i :: i in s ==> first <= i
    requires Opener(log, first) < Opener(log, k)
    ensures |AllowedBetween(log, key, L, start, start + window)| <= 2 * L - 1
  {
    var s := AllowedBetween(log, key, L, start, start + window);
    var o := Opener(log, first);
    var f := Slots(log, o, L);
    AllInSlots(log, key, window, L, start, first, k, f);
    hide Slot, Opener, AllowedBetween, Steady, Slots;
    InjectionBound(s, f, 2 * L - 1);
  }

  lemma AllInSlots(log: seq<Arrival>, key: string, window: int, L: int, start: int, first: nat, k: nat, f: nat -> nat)
    requires L > 0 && Steady(log, key, window)
    requires var s := AllowedBetween(log, key, L, start, start + window);
      first in s && k in s && forall i :: i in s ==> first <= i
    requires Opener(log, first) < Opener(log, k)
    requires forall i: nat ::
      (i < |log| && log[i].limit > 0 && Slot(log, Opener(log, first), L, i) >= 0) ==>
          f(i) == Slot(log, Opener(log, first), L, i)
    ensures var s := AllowedBetween(log, key, L, start, start + window);
      (forall i :: i in s ==> 1 <= f(i) <= 2 * L - 1) && (forall i, j :: i in s && j in s && f(i) == f(j) ==> i == j)
  {
    var s := AllowedBetween(log, key, L, start, start + window);
    var o := Opener(log, first);
    forall i | i in s ensures f(i) == Slot(log, o, L, i) && 1 <= f(i) <= 2 * L - 1 {
      SlotInRange(log, key, window, L, start, first, k, i);
    }
    hide Slot, Opener;
    forall i, j | i in s && j in s && f(i) == f(j) ensures i == j {
      SameSlotSameCall(log, key, window, L, start, first, if i <= j then i else j, if i <= j then j else i);
    }
  }

  // ----------------------------------------------------------- how far the bound carries

  predicate Hit(c: Arrival, key: string, L: int, lo: int, hi: int) {
    c.key == key && c.limit == L && lo <= c.now <= hi
  }

  lemma AfterSnoc(log: seq<Arrival>, c: Arrival)
    ensures After(log + [c]) == Allow(After(log), c).0
  {
    assert (log + [c])[..|log|] == log;
  }

  lemma AllowedPrefix(log: seq<Arrival>, c: Arrival, i: nat)
    requires i <= |log|
    ensures Allowed(log + [c], i) <==> if i < |log| then Allowed(log, i) else Allow(After(log), c).1
  {
    assert (log + [c])[..i] == log[..i];
    assert log[..|log|] == log;
  }

  lemma GrowMember(log: seq<Arrival>, c: Arrival, key: string, L: int, lo: int, hi: int, i: nat)
    ensures i in AllowedBetween(log + [c], key, L, lo, hi) <==>
      i in AllowedBetween(log, key, L, lo, hi) || (i == |log| && Hit(c, key, L, lo, hi) && Allow(After(log), c).1)
  {
    if i <= |log| {
      AllowedPrefix(log, c, i);
    }
    hide Allowed, After, Allow;
    assert i < |log| ==> (log + [c])[i] == log[i];
  }

  lemma GrowLog(log: seq<Arrival>, c: Arrival, key: string, L: int, lo: int, hi: int)
    ensures |AllowedBetween(log + [c], key, L, lo, hi)|
         == |AllowedBetween(log, key, L, lo, hi)| + (if Hit(c, key, L, lo, hi) && Allow(After(log), c).1 then 1 else 0)
  {
    var s, s' := AllowedBetween(log, key, L, lo, hi), AllowedBetween(log + [c], key, L, lo, hi);
    assert |log| !in s;
    hide *;
    forall i: nat ensures i in s' <==> i in s || (i == |log| && Hit(c, key, L, lo, hi) && Allow(After(log), c).1) {
      GrowMember(log, c, key, L, lo, hi, i);
    }
    assert s' == if Hit(c, key, L, lo, hi) && Allow(After(log), c).1 then s + {|log|} else s;
  }

  /** A later window opens after the end of an earlier one. */
  lemma LaterOpener(log: seq<Arrival>, key: string, window: int, i: nat, j: nat)
    requires Steady(log, key, window) && i < |log| && j < |log| && On(log[i], key) && On(log[j], key)
    requires Opener(log, i) < Opener(log, j)
    ensures log[Opener(log, j)].now > log[Opener(log, i)].now + window
  {
    var o1, o2 := Opener(log, i), Opener(log, j);
    OpenersAdvance(log, i, i);
    OpenersAdvance(log, j, j);
    OpenedAfterPreviousEnd(log, key, window, o2, o1);
    var q := Previous(log, key, o2);
    OpenersAdvance(log, o1, q);
    hide Opener, Previous;
    InOrder(log, key, window, o1, Opener(log, q));
  }

  /** Three windows cannot all be touched within one window length and a tick. */
  lemma ThirdWindowIsMuchLater(log: seq<Arrival>, key: string, window: int, i: nat, j: nat, k: nat)
    requires Steady(log, key, window) && window >= 0
    requires i < |log| && j < |log| && k < |log| && On(log[i], key) && On(log[j], key) && On(log[k], key)
    requires Opener(log, i) < Opener(log, j) < Opener(log, k)
    ensures log[k].now > log[i].now + window + 1
  {
    InItsWindow(log, key, window, i);
    LaterOpener(log, key, window, i, j);
    LaterOpener(log, key, window, j, k);
    hide Opener, Previous;
    InOrder(log, key, window, Opener(log, k), k);
  }

  lemma InItsWindow(log: seq<Arrival>, key: string, window: int, i: nat)
    requires Steady(log, key, window) && window >= 0 && i < |log| && On(log[i], key)
    ensures log[i].now <= log[Opener(log, i)].now + window
  {
    OpenerStep(log, i);
    hide Opener, Previous;
  }

  /** An interval one tick longer than the window still touches two windows at most: 2 L. */
  lemma LongIntervalBound(log: seq<Arrival>, key: string, window: int, L: int, start: int)
    requires L > 0 && window >= 0 && Steady(log, key, window)
    ensures |AllowedBetween(log, key, L, start, start + window + 1)| <= 2 * L
  {
    var s := AllowedBetween(log, key, L, start, start + window + 1);
    if s != {} {
      var first := Earliest(s);
      var o := Opener(log, first);
      var k := if k :| k in s && Opener(log, k) != o then k else first;
      var o2 := Opener(log, k);
      OpenersAdvance(log, first, k);
      forall i | i in s ensures i in AllowedInWindow(log, o, L) + AllowedInWindow(log, o2, L) {
        NoThirdWindow(log, key, window, L, start, first, k, i);
      }
      PerWindowBound(log, o, L);
      PerWindowBound(log, o2, L);
      hide *;
      SubsetSize(s, AllowedInWindow(log, o, L) + AllowedInWindow(log, o2, L));
      UnionSize(AllowedInWindow(log, o, L), AllowedInWindow(log, o2, L));
    }
  }

  lemma UnionSize(a: set<nat>, b: set<nat>)
    ensures |a + b| <= |a| + |b|
  {
  }

  lemma NoThirdWindow(log: seq<Arrival>, key: string, window: int, L: int, start: int, first: nat, k: nat, i: nat)
    requires L > 0 && window >= 0 && Steady(log, key, window)
    requires var s := AllowedBetween(log, key, L, start, start + window + 1);
      first in s && k in s && i in s && first <= i && first <= k
      && (Opener(log, k) == Opener(log, first) ==> forall j :: j in s ==> Opener(log, j) == Opener(log, first))
    ensures Opener(log, i) == Opener(log, first) || Opener(log, i) == Opener(log, k)
  {
    OpenersAdvance(log, first, i);
    OpenersAdvance(log, first, k);
    var a, b, c := Opener(log, first), Opener(log, i), Opener(log, k);
    if a < b < c {
      ThirdWindowIsMuchLater(log, key, window, first, i, k);
    } else if a < c < b {
      ThirdWindowIsMuchLater(log, key, window, first, k, i);
    }
    hide Opener, Allowed;
  }

  // ----------------------------------------------------------- the bound is reached

  function Repeat<T>(x: T, n: nat): (xs: seq<T>)
    ensures |xs| == n && forall i :: 0 <= i < n ==> xs[i] == x
  {
    seq(n, i => x)
  }

  lemma RepeatSnoc<T>(xs: seq<T>, x: T, n: nat)
    ensures xs + Repeat(x, n + 1) == xs + Repeat(x, n) + [x]
  {
  }

  /** What the bucket of a call's key will count from: an expired bucket starts at nothing. */
  function Base(b: Buckets, c: Arrival): (n: nat) {
    if Expired(b, c.key, c.now) then 0 else b[c.key].count
  }

  function EndOf(b: Buckets, c: Arrival): (t: int) {
    if Expired(b, c.key, c.now) then c.now + c.window else b[c.key].windowEnd
  }

  /** A burst of n calls at one instant that the limit has room for is allowed in full. */
  lemma {:induction false} BurstAllowed(log: seq<Arrival>, c: Arrival, n: nat, lo: int, hi: int)
    requires c.limit > 0 && c.window >= 0 && Base(After(log), c) + n <= c.limit
    ensures var b, b' := After(log), After(log + Repeat(c, n));
      n > 0 ==> c.key in b' && b'[c.key] == Bucket(Base(b, c) + n, EndOf(b, c))
    ensures |AllowedBetween(log + Repeat(c, n), c.key, c.limit, lo, hi)|
         == |AllowedBetween(log, c.key, c.limit, lo, hi)| + (if lo <= c.now <= hi then n else 0)
  {
    if n == 0 {
      assert log + Repeat(c, 0) == log;
    } else {
      var front := log + Repeat(c, n - 1);
      BurstAllowed(log, c, n - 1, lo, hi);
      RepeatSnoc(log, c, n - 1);
      BucketStep(After(front), c);
      AfterSnoc(front, c);
      GrowLog(front, c, c.key, c.limit, lo, hi);
      if n == 1 {
        assert front == log;
      }
      hide Allow, Memory, After, AllowedBetween;
    }
  }

  /** Place for all of a window but one at its end, then a whole window one tick later. */
  function EdgeLog(key: string, L: nat, window: int): (log: seq<Arrival>)
    requires L > 0
  {
    [Arrival(key, L, window, 0)] + Repeat(Arrival(key, L, window, window), L - 1)
        + Repeat(Arrival(key, L, window, window + 1), L)
  }

  lemma EdgeLogIsSteady(key: string, L: nat, window: int)
    requires L > 0 && window > 0
    ensures Steady(EdgeLog(key, L, window), key, window)
  {
    var log := EdgeLog(key, L, window);
    forall i | 0 <= i < |log|
      ensures log[i].window == window && log[i].now == if i == 0 then 0 else if i < L then window else window + 1
    {
    }
  }

  lemma FirstCall(c: Arrival, lo: int, hi: int)
    requires c.limit > 0 && c.now < lo
    ensures After([c]) == map[c.key := Bucket(1, c.now + c.window)]
    ensures |AllowedBetween([c], c.key, c.limit, lo, hi)| == 0
  {
    assert [c][..0] == [];
    assert AllowedBetween([c], c.key, c.limit, lo, hi) == {};
  }

  /** The opener and the burst at the end of its window. */
  lemma EdgeOfFirstWindow(a: Arrival, b: Arrival, L: nat, window: int)
    requires L > 0 && window > 0 && a == Arrival(a.key, L, window, 0) && b == a.(now := window)
    ensures var log := [a] + Repeat(b, L - 1);
      && a.key in After(log) && After(log)[a.key] == Bucket(L, window)
      && |AllowedBetween(log, a.key, L, window, window + window)| == L - 1
  {
    FirstCall(a, window, window + window);
    BurstAllowed([a], b, L - 1, window, window + window);
    hide After, AllowedBetween;
    if L == 1 {
      assert [a] + Repeat(b, 0) == [a];
    }
  }

  /** The bound of IntervalBound is reached, for every limit and every window. */
  lemma BoundIsReached(key: string, L: nat, window: int)
    requires L > 0 && window > 0
    ensures Steady(EdgeLog(key, L, window), key, window)
    ensures |AllowedBetween(EdgeLog(key, L, window), key, L, window, window + window)| == 2 * L - 1
  {
    EdgeLogIsSteady(key, L, window);
    var a, b, c := Arrival(key, L, window, 0), Arrival(key, L, window, window), Arrival(key, L, window, window + 1);
    EdgeOfFirstWindow(a, b, L, window);
    hide After, AllowedBetween, Steady, Repeat;
    BurstAllowed([a] + Repeat(b, L - 1), c, L, window, window + window);
  }
}
