/**
 * The limiter object: a map from key to bucket object, each updated in place, and an
 * optional Redis server. Proved against the machines of RateLimit and RateLimitFailover.
 * Also the middleware's choice of key and its Retry-After header.
 */
module RateLimiter {
  import opened Basics
  import opened RateLimit
  import opened RateLimitFailover

  class TokenBucket {
    var count: nat
    var windowEnd: int

    constructor (count: nat, windowEnd: int)
      ensures this.count == count && this.windowEnd == windowEnd
    {
      this.count, this.windowEnd := count, windowEnd;
    }
  }

  /** The shared Redis server. */
  class RedisServer {
    var counters: Counters

    constructor ()
      ensures counters == map[]
    {
      counters := map[];
    }

    /** EVAL of the script; `reply` says whether it ran and whether the answer came back in time. */
    method Eval(key: string, windowMs: int, ms: int, reply: Fault) returns (ok: bool, current: nat, ttl: int)
      modifies this
      ensures ok <==> reply.Healthy?
      ensures counters == if reply.Lost? then old(counters) else Script(old(counters), key, windowMs, ms).0
      ensures ok ==>
        current == Script(old(counters), key, windowMs, ms).1 && ttl == Script(old(counters), key, windowMs, ms).2
    {
      ok, current, ttl := reply.Healthy?, 0, 0;
      if !reply.Lost? {
        var r := Script(counters, key, windowMs, ms);
        counters, current, ttl := r.0, r.1, r.2;
      }
    }
  }

  function Positive(d: int): (r: nat) {
    if d < 0 then 0 else d
  }

  class RateLimiter {
    const client: RedisServer?
    var buckets: map<string, TokenBucket>

    constructor (client: RedisServer?)
      ensures this.client == client && Valid() && View() == map[]
    {
      this.client := client;
      buckets := map[];
    }

    /** No two keys share a bucket object. */
    ghost predicate Valid()
      reads this
    {
      forall k, l :: k in buckets && l in buckets && k != l ==> buckets[k] != buckets[l]
    }

    ghost function Objects(): (objects: set<TokenBucket>)
      reads this
    {
      set k | k in buckets :: buckets[k]
    }

    /** The buckets as values. */
    ghost function View(): (b: Buckets)
      reads this, Objects()
    {
      map k | k in buckets :: Bucket(buckets[k].count, buckets[k].windowEnd)
    }

    /** allowMemory; `later` is the clock read again for Retry-After. */
    method AllowMemory(c: Arrival, later: int) returns (allowed: bool, retryAfter: nat)
      requires Valid()
      modifies this, Objects()
      ensures Valid() && fresh(Objects() - old(Objects()))
      ensures View() == Memory(old(View()), c).0 && allowed == Memory(old(View()), c).1
      ensures retryAfter == if allowed then 0 else Positive(View()[c.key].windowEnd - later)
      ensures !allowed && later <= View()[c.key].windowEnd ==> later + retryAfter == View()[c.key].windowEnd
      ensures !allowed && later > View()[c.key].windowEnd ==> retryAfter == 0
    {
      if c.key !in buckets || c.now > buckets[c.key].windowEnd {
        var b := new TokenBucket(1, c.now + c.window);
        buckets := buckets[c.key := b];
        return true, 0;
      }
      allowed, retryAfter := CountCall(c, later);
    }

    /** The window is still open: count the call in the key's own bucket. */
    method CountCall(c: Arrival, later: int) returns (allowed: bool, retryAfter: nat)
      requires Valid() && c.key in buckets && c.now <= buckets[c.key].windowEnd
      modifies Objects()
      ensures Valid() && buckets == old(buckets)
      ensures View() == Memory(old(View()), c).0 && allowed == Memory(old(View()), c).1
      ensures retryAfter == if allowed then 0 else Positive(View()[c.key].windowEnd - later)
    {
      var b := buckets[c.key];
      b.count := b.count + 1;
      if b.count <= c.limit {
        return true, 0;
      }
      return false, Positive(b.windowEnd - later);
    }

    /** allowRedis: ask the script, fall back to the buckets when no answer came. */
    method AllowRedis(c: Arrival, reply: Fault, later: int) returns (allowed: bool, retryAfter: nat)
      requires Valid() && client != null && c.limit > 0
      modifies this, Objects(), client
      ensures Valid() && fresh(Objects() - old(Objects()))
      ensures Limiter(client.counters, View()) == Redis(Limiter(old(client.counters), old(View())), c, reply).0
      ensures allowed == Redis(Limiter(old(client.counters), old(View())), c, reply).1
      ensures retryAfter ==
        if allowed then 0
        else if reply.Healthy? then Positive(Script(old(client.counters), c.key, c.window / MS, c.now / MS).2 * MS)
        else Positive(View()[c.key].windowEnd - later)
    {
      var ok, current, ttl := client.Eval(c.key, c.window / MS, c.now / MS, reply);
      if !ok {
        allowed, retryAfter := AllowMemory(c, later);
        return;
      }
      if current <= c.limit {
        return true, 0;
      }
      return false, Positive(ttl * MS);
    }

    /** Allow. */
    method AllowCall(c: Arrival, reply: Fault, later: int) returns (allowed: bool, retryAfter: nat)
      requires Valid()
      modifies this, Objects(), if client == null then {} else {client}
      ensures Valid() && fresh(Objects() - old(Objects()))
      ensures client == null ==> View() == Allow(old(View()), c).0 && allowed == Allow(old(View()), c).1
      ensures client != null ==>
        var r := Redis(Limiter(old(client.counters), old(View())), c, reply);
        Limiter(client.counters, View()) == r.0 && allowed == r.1
      ensures retryAfter ==
        if allowed then 0
        else if client != null && reply.Healthy?
            then Positive(Script(old(client.counters), c.key, c.window / MS, c.now / MS).2 * MS)
        else Positive(View()[c.key].windowEnd - later)
    {
      if c.limit <= 0 {
        return true, 0;
      }
      if client != null {
        allowed, retryAfter := AllowRedis(c, reply, later);
      } else {
        allowed, retryAfter := AllowMemory(c, later);
      }
    }
  }

  // ----------------------------------------------------------- Retry-After

  const SECOND := 1_000_000_000

  /** formatRetryAfter as a number: whole seconds, rounded up, at least one. */
  function RetrySeconds(d: nat): (secs: nat) {
    var s := (d + SECOND - 1) / SECOND;
    if s <= 0 then 1 else s
  }

  /** A denied client that comes back exactly when the header says finds a fresh window unless the wait left
      was a positive whole number of seconds: then it arrives on the last instant of the old one. */
  lemma WaitingTheHeaderSufficesIff(buckets: Buckets, denied: Arrival, later: int)
    requires !Memory(buckets, denied).1
    ensures var b := Memory(buckets, denied).0;
      var left := Positive(b[denied.key].windowEnd - later);
      Expired(b, denied.key, later + RetrySeconds(left) * SECOND) <==>
        left % SECOND != 0 || left == 0
  {
    var left := Positive(Memory(buckets, denied).0[denied.key].windowEnd - later);
    var q := left / SECOND;
    assert left == q * SECOND + left % SECOND;
    if left % SECOND == 0 {
      assert (left + SECOND - 1) / SECOND == q;
    } else {
      assert (left + SECOND - 1) / SECOND == q + 1;
    }
  }

  /** The same for a denial by the Redis script, whose wait comes from the key's ttl. */
  lemma WaitingTheRedisHeaderSufficesIff(counters: Counters, denied: Arrival)
    requires denied.limit > 0 && Script(counters, denied.key, denied.window / MS, denied.now / MS).1 > denied.limit
    ensures var (after, _, ttl) := Script(counters, denied.key, denied.window / MS, denied.now / MS);
      var left := Positive(ttl * MS);
      Gone(after, denied.key, denied.now / MS + RetrySeconds(left) * (SECOND / MS)) <==> left % SECOND != 0 || left == 0
  {
    var ttl := Script(counters, denied.key, denied.window / MS, denied.now / MS).2;
    var q, r := ttl / 1000, ttl % 1000;
    assert ttl >= 0 && ttl == q * 1000 + r && SECOND == 1000 * MS;
    assert ttl * MS == q * SECOND + r * MS && 0 <= r * MS < SECOND;
    WholeAndRest(q, r * MS);
    hide Script;
  }

  lemma WholeAndRest(q: nat, rest: nat)
    requires rest < SECOND
    ensures (q * SECOND + rest) % SECOND == rest && (q * SECOND + rest) / SECOND == q
    ensures RetrySeconds(q * SECOND + rest) == if rest > 0 then q + 1 else if q == 0 then 1 else q
  {
    if rest == 0 {
      assert (q * SECOND + SECOND - 1) / SECOND == q;
    } else {
      assert (q * SECOND + rest + SECOND - 1) / SECOND == q + 1;
    }
  }

  // ----------------------------------------------------------- which calls share a counter

  /** What deriveRateLimitKey looks at; tenant and user are "" without claims. */
  datatype HttpCall = HttpCall(path: string, remoteAddr: string, tenant: string, user: string)

  /** strings.LastIndex(s, sub) for a one- or two-character sub. */
  function LastIndex(s: string, sub: string): (i: int)
    requires sub != ""
    ensures -1 <= i
    ensures i >= 0 ==> i + |sub| <= |s| && s[i..i + |sub|] == sub
    decreases |s|
  {
    if |s| < |sub| then -1
    else if s[|s| - |sub|..] == sub then |s| - |sub|
    else LastIndex(s[..|s| - 1], sub)
  }

  function StripPort(addr: string): (ip: string) {
    if "[" <= addr then
      var i := LastIndex(addr, "]:");
      if i != -1 then addr[..i + 1] else addr
    else
      var i := LastIndex(addr, ":");
      if i != -1 then addr[..i] else addr
  }

  const LOGIN := "/api/v1/auth/login"
  const REFRESH := "/api/v1/auth/refresh"

  predicate AuthRoute(c: HttpCall) {
    c.path == LOGIN || c.path == REFRESH
  }

  function DeriveKey(c: HttpCall): (key: Option<string>) {
    if AuthRoute(c) then Some("rl:auth:" + StripPort(c.remoteAddr))
    else if "/api/v1/" <= c.path && c.tenant != "" && c.user != "" then Some("rl:api:" + c.tenant + ":" + c.user)
    else None
  }

  lemma ColonSplits(t: string, u: string, v: string, w: string)
    requires ':' !in t && ':' !in v
    ensures t + ":" + u == v + ":" + w <==> t == v && u == w
  {
    var a, b := t + ":" + u, v + ":" + w;
    assert a[|t|] == ':' && forall i :: 0 <= i < |t| ==> a[i] == t[i] != ':';
    assert b[|v|] == ':' && forall i :: 0 <= i < |v| ==> b[i] == v[i] != ':';
    if a == b {
      assert t == a[..|t|] && v == b[..|v|] && u == a[|t| + 1..] && w == b[|v| + 1..];
    }
  }

  /** A login or a refresh. */
  predicate SignsIn(c: HttpCall) {
    c.path == "/api/v1/auth/login" || c.path == "/api/v1/auth/refresh"
  }

  /** Any other call below /api/v1/ with the claims of a user. */
  predicate HasClaims(c: HttpCall) {
    !SignsIn(c) && "/api/v1/" <= c.path && c.tenant != "" && c.user != ""
  }

  /** Two calls share a counter exactly when both sign in, by login or refresh, from one address, or both carry claims
      of one user of one tenant; tenant ids are UUIDs, so they hold no colon. */
  lemma SharedCounterIff(a: HttpCall, b: HttpCall)
    requires ':' !in a.tenant && ':' !in b.tenant
    ensures DeriveKey(a).Some? && DeriveKey(a) == DeriveKey(b) <==>
      || (SignsIn(a) && SignsIn(b) && StripPort(a.remoteAddr) == StripPort(b.remoteAddr))
      || (HasClaims(a) && HasClaims(b) && a.tenant == b.tenant && a.user == b.user)
  {
    if DeriveKey(a).Some? && DeriveKey(b).Some? {
      var x, y := DeriveKey(a).value, DeriveKey(b).value;
      if SignsIn(a) != SignsIn(b) {
        assert x[4] != y[4];
      } else if SignsIn(a) {
        assert x[8..] == StripPort(a.remoteAddr) && y[8..] == StripPort(b.remoteAddr);
      } else {
        assert x[7..] == a.tenant + ":" + a.user && y[7..] == b.tenant + ":" + b.user;
        ColonSplits(a.tenant, a.user, b.tenant, b.user);
      }
    }
  }

  /** A call has a counter at all exactly when it signs in or carries claims. */
  lemma LimitedIff(c: HttpCall)
    ensures DeriveKey(c).Some? <==> SignsIn(c) || HasClaims(c)
  {
  }

  /** An address without a port stays as it is. */
  lemma NoPortStays(addr: string)
    requires if "[" <= addr then ']' !in addr[..|addr| - 1] else ':' !in addr
    ensures StripPort(addr) == addr
  {
    if "[" <= addr {
      assert forall i :: 0 <= i < |addr| - 1 ==> addr[i] == addr[..|addr| - 1][i];
      AbsentIndex(addr, "]:", ']');
    } else {
      AbsentIndex(addr, ":", ':');
    }
  }

  lemma {:induction false} AbsentIndex(s: string, sub: string, c: char)
    requires sub != "" && sub[0] == c && forall i :: 0 <= i <= |s| - |sub| ==> s[i] != c
    ensures LastIndex(s, sub) == -1
    decreases |s|
  {
    if |s| >= |sub| {
      assert s[|s| - |sub|..][0] == s[|s| - |sub|];
      AbsentIndex(s[..|s| - 1], sub, c);
    }
  }

  /** The port never matters for an IPv4 address: its digits hold no colon. */
  lemma PortIsStripped(host: string, port: string)
    requires ':' !in port && !("[" <= host + ":" + port)
    ensures StripPort(host + ":" + port) == host
  {
    LastColon(host, port);
  }

  /** Nor for a bracketed IPv6 address, whose brackets stay. */
  lemma BracketedPortIsStripped(host: string, port: string)
    requires |host| > 1 && host[0] == '[' && host[|host| - 1] == ']' && ']' !in port
    ensures StripPort(host + ":" + port) == host
  {
    LastBracket(host, port);
    var addr := host + ":" + port;
    assert addr[0] == '[' && addr[..1] == "[";
  }

  /** Without its last character, unless the text ends in what is looked for. */
  lemma LastIndexShrinks(s: string, sub: string)
    requires sub != "" && |s| >= |sub| && s[|s| - |sub|..] != sub
    ensures LastIndex(s, sub) == LastIndex(s[..|s| - 1], sub)
  {
  }

  lemma {:induction false} LastBracket(host: string, port: string)
    requires |host| > 1 && host[|host| - 1] == ']' && ']' !in port
    ensures LastIndex(host + ":" + port, "]:") == |host| - 1
    decreases |port|
  {
    var s := host + ":" + port;
    var end := s[|s| - 2..];
    if port != "" {
      assert end[0] == if |port| == 1 then ':' else port[|port| - 2];
      LastIndexShrinks(s, "]:");
      assert s[..|s| - 1] == host + ":" + port[..|port| - 1];
      hide LastIndex;
      LastBracket(host, port[..|port| - 1]);
    } else {
      assert end == "]:";
    }
  }

  lemma {:induction false} LastColon(host: string, port: string)
    requires ':' !in port
    ensures LastIndex(host + ":" + port, ":") == |host|
    decreases |port|
  {
    var s := host + ":" + port;
    if port != "" {
      assert s[|s| - 1..] == [port[|port| - 1]];
      assert s[..|s| - 1] == host + ":" + port[..|port| - 1];
      LastColon(host, port[..|port| - 1]);
    } else {
      assert s[|s| - 1..] == ":";
    }
  }
}
