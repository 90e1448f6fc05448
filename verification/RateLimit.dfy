/**
 The fixed-window rate limiter (internal/api/ratelimit.go), once in memory and once as a
 counter with an expiry in Valkey. Time is an integer number of nanoseconds.
 */
module RateLimit {
  import opened Prelude
  import opened Valkey

  datatype Bucket = Bucket(count: int, windowStart: int)

  type Buckets = map<string, Bucket>

  datatype Decision = Decision(allowed: bool, retryAfter: int)

  /** The integer keys at the Valkey server. */
  type Remote = map<string, Key>

  /** How the commands of one request ended: no client, an error, or the replies that matter. */
  datatype Reply = NoClient | Failed | Replied(expireOk: bool, ttl: Option<int>)

  datatype Request = Request(key: string, now: int)

  /** What TTL would reply to each request of a trace; `None` is an error. */
  type Ttls = nat -> Option<int>

  /** Duration.Seconds truncated to an integer. */
  function Seconds(window: int): int {
    if window >= 0 then window / SECOND else -(-window / SECOND)
  }

  function AtLeastOne(x: int): int {
    if x < 1 then 1 else x
  }

  function MemoryStep(limit: int, window: int, buckets: Buckets, key: string, now: int): (Buckets, Decision) {
    if key !in buckets || now - buckets[key].windowStart >= window then
      (buckets[key := Bucket(1, now)], Decision(true, 0))
    else
      var b := Bucket(buckets[key].count + 1, buckets[key].windowStart);
      (buckets[key := b],
       if b.count > limit then Decision(false, AtLeastOne((window - (now - b.windowStart)) / SECOND))
       else Decision(true, 0))
  }

  function At(remote: Remote, key: string): Key {
    if key in remote then remote[key] else Absent
  }

  function Put(remote: Remote, key: string, k: Key): Remote {
    if k.Absent? then remote - {key} else remote[key := k]
  }

  lemma PutTwice(remote: Remote, key: string, k: Key, l: Key)
    ensures Put(Put(remote, key, k), key, l) == Put(remote, key, l)
  {
    assert (remote - {key}) - {key} == remote - {key};
    assert k.Present? ==> remote[key := k] - {key} == remote - {key};
    assert k.Absent? && l.Present? ==> (remote - {key})[key := l] == remote[key := l];
  }

  predicate Live(remote: Remote, key: string, now: int) {
    At(remote, key).Live(now)
  }

  function ValkeyStep(limit: int, window: int, remote: Remote, key: string, now: int, expireOk: bool, ttl: Option<int>)
    : (Remote, Decision)
  {
    var counted := At(remote, key).Incr(now);
    var count := counted.Get(now);
    (Put(remote, key, if count == 1 && expireOk then counted.Expire(now, Seconds(window) * SECOND) else counted),
     if count > limit then
       Decision(false, AtLeastOne(if ttl.None? || ttl.value < 0 then Seconds(window) else ttl.value))
     else Decision(true, 0))
  }

  class RateLimiter {
    const limit: int
    const window: int
    const prefix: string
    const enabled: bool
    var buckets: Buckets
    var remote: Remote

    /** newRateLimiter: a limit that is not positive switches the limiter off. */
    constructor (limit: int, window: int, prefix: string, enabled: bool)
      ensures this.enabled == (enabled && limit > 0)
      ensures this.enabled ==> this.limit == limit && this.window == window && this.prefix == prefix
      ensures buckets == map[] && remote == map[]
    {
      this.enabled := enabled && limit > 0;
      this.limit, this.window, this.prefix := limit, window, prefix;
      buckets, remote := map[], map[];
    }

    method AllowMemory(fullKey: string, now: int) returns (allowed: bool, retryAfter: int)
      modifies this`buckets
      ensures (buckets, Decision(allowed, retryAfter)) == MemoryStep(limit, window, old(buckets), fullKey, now)
    {
      if fullKey !in buckets || now - buckets[fullKey].windowStart >= window {
        buckets := buckets[fullKey := Bucket(1, now)];
        return true, 0;
      }
      var b := buckets[fullKey];
      b := b.(count := b.count + 1);
      buckets := buckets[fullKey := b];
      if b.count > limit {
        retryAfter := (window - (now - b.windowStart)) / SECOND;
        if retryAfter < 1 {
          retryAfter := 1;
        }
        return false, retryAfter;
      }
      return true, 0;
    }

    method AllowValkey(fullKey: string, now: int, expireOk: bool, ttlReply: Option<int>)
      returns (allowed: bool, retryAfter: int)
      modifies this`remote
      ensures (remote, Decision(allowed, retryAfter))
           == ValkeyStep(limit, window, old(remote), fullKey, now, expireOk, ttlReply)
    {
      remote := Put(remote, fullKey, At(remote, fullKey).Incr(now));
      var count := At(remote, fullKey).Get(now);
      if count == 1 && expireOk {
        var timed := At(remote, fullKey).Expire(now, Seconds(window) * SECOND);
        PutTwice(old(remote), fullKey, At(remote, fullKey), timed);
        remote := Put(remote, fullKey, timed);
      }
      if count > limit {
        var ttl := if ttlReply.Some? then ttlReply.value else -1;
        if ttl < 0 {
          ttl := Seconds(window);
        }
        if ttl < 1 {
          ttl := 1;
        }
        return false, ttl;
      }
      return true, 0;
    }

    /** Valkey decides when it answers; a missing or failing client falls back to memory. */
    method Allow(key: string, now: int, reply: Reply) returns (allowed: bool, retryAfter: int)
      modifies this
      ensures !enabled ==> allowed && retryAfter == 0 && buckets == old(buckets) && remote == old(remote)
      ensures enabled && reply.Replied? ==>
                && buckets == old(buckets)
                && (remote, Decision(allowed, retryAfter)) ==
                   ValkeyStep(limit, window, old(remote), prefix + ":" + key, now, reply.expireOk, reply.ttl)
      ensures enabled && !reply.Replied? ==>
                && remote == old(remote)
                && (buckets, Decision(allowed, retryAfter)) ==
                   MemoryStep(limit, window, old(buckets), prefix + ":" + key, now)
    {
      if !enabled {
        return true, 0;
      }
      var fullKey := prefix + ":" + key;
      match reply {
        case Replied(expireOk, ttl) =>
          allowed, retryAfter := AllowValkey(fullKey, now, expireOk, ttl);
        case _ =>
          allowed, retryAfter := AllowMemory(fullKey, now);
      }
    }
  }

  // ---------------------------------------------------------------- traces

  ghost predicate Nondecreasing(tr: seq<Request>) {
    forall i, j :: 0 <= i <= j < |tr| ==> tr[i].now <= tr[j].now
  }

  function RunMemory(limit: int, window: int, tr: seq<Request>): Buckets {
    if tr == [] then map[]
    else
      var last := tr[|tr| - 1];
      MemoryStep(limit, window, RunMemory(limit, window, tr[..|tr| - 1]), last.key, last.now).0
  }

  predicate AdmitsMemory(limit: int, window: int, before: seq<Request>, r: Request) {
    MemoryStep(limit, window, RunMemory(limit, window, before), r.key, r.now).1.allowed
  }

  function RunValkey(limit: int, window: int, tr: seq<Request>, ttls: Ttls): Remote {
    if tr == [] then map[]
    else
      var n := |tr| - 1;
      ValkeyStep(limit, window, RunValkey(limit, window, tr[..n], ttls), tr[n].key, tr[n].now, true, ttls(n)).0
  }

  predicate AdmitsValkey(limit: int, window: int, before: seq<Request>, r: Request, ttls: Ttls) {
    ValkeyStep(limit, window, RunValkey(limit, window, before, ttls), r.key, r.now, true, ttls(|before|)).1.allowed
  }

  /**
   The windows of a key, without any counter: the index of the request that opened the
   current one, or -1. A window opens at the first request of the key, and then at the
   first one at least `window` later than the opening before it.
   */
  function Opener(window: int, tr: seq<Request>, key: string): (p: int)
    ensures -1 <= p < |tr|
  {
    if tr == [] then -1
    else
      var n := |tr| - 1;
      var p := Opener(window, tr[..n], key);
      if tr[n].key == key && (p < 0 || tr[n].now - tr[p].now >= window) then n else p
  }

  /** Requests of `key` from index `from` on. */
  function Requests(tr: seq<Request>, key: string, from: nat): nat {
    if |tr| <= from then 0
    else Requests(tr[..|tr| - 1], key, from) + if tr[|tr| - 1].key == key then 1 else 0
  }

  /** Those of them the limiter lets through. */
  function Admitted(limit: int, window: int, tr: seq<Request>, key: string, from: nat): nat {
    if |tr| <= from then 0
    else
      var n := |tr| - 1;
      Admitted(limit, window, tr[..n], key, from)
      + if tr[n].key == key && AdmitsMemory(limit, window, tr[..n], tr[n]) then 1 else 0
  }

  /** Requests of `key` let through in the half-open interval of one window from `t` on. */
  function AdmittedWithin(limit: int, window: int, tr: seq<Request>, key: string, t: int): nat {
    if tr == [] then 0
    else
      var n := |tr| - 1;
      AdmittedWithin(limit, window, tr[..n], key, t)
      + if tr[n].key == key && t <= tr[n].now < t + window && AdmitsMemory(limit, window, tr[..n], tr[n]) then 1 else 0
  }

  /** The trace of one key alone. */
  function Only(tr: seq<Request>, key: string): seq<Request> {
    if tr == [] then []
    else Only(tr[..|tr| - 1], key) + if tr[|tr| - 1].key == key then [tr[|tr| - 1]] else []
  }

  // ---------------------------------------------------------------- what the memory limiter admits

  lemma {:induction false} BucketCounts(limit: int, window: int, tr: seq<Request>, key: string)
    ensures var p, bs := Opener(window, tr, key), RunMemory(limit, window, tr);
            if p < 0 then key !in bs
            else key in bs && bs[key] == Bucket(Requests(tr, key, p), tr[p].now) && Requests(tr, key, p) >= 1
  {
    if tr != [] {
      var n := |tr| - 1;
      BucketCounts(limit, window, tr[..n], key);
      if Opener(window, tr, key) == n {
        assert Requests(tr[..n], key, n) == 0;
      }
    }
  }

  /** A request is admitted exactly when it is among the first `limit` of its window. */
  lemma AdmittedIffEarlyInWindow(limit: int, window: int, before: seq<Request>, r: Request)
    requires limit >= 1
    ensures var tr := before + [r];
            AdmitsMemory(limit, window, before, r) <==> Requests(tr, r.key, Opener(window, tr, r.key)) <= limit
  {
    var tr := before + [r];
    assert tr[..|before|] == before;
    BucketCounts(limit, window, before, r.key);
    BucketCounts(limit, window, tr, r.key);
  }

  /** `tr` ends inside the window of `key` opened at index `p`. */
  ghost predicate InWindow(window: int, tr: seq<Request>, key: string, p: nat) {
    Opener(window, tr, key) == p
  }

  /** Each window admits exactly the smaller of the limit and the requests made in it. */
  lemma {:induction false} WindowAdmitsExactly(limit: int, window: int, tr: seq<Request>, key: string, p: nat)
    requires limit >= 1 && InWindow(window, tr, key, p)
    ensures Admitted(limit, window, tr, key, p) == Min(limit, Requests(tr, key, p))
  {
    var n := |tr| - 1;
    assert tr == tr[..n] + [tr[n]];
    if tr[n].key == key {
      AdmittedIffEarlyInWindow(limit, window, tr[..n], tr[n]);
    }
    if p < n {
      WindowAdmitsExactly(limit, window, tr[..n], key, p);
    }
  }

  lemma {:induction false} IntervalBound(limit: int, window: int, tr: seq<Request>, key: string, t: int)
    requires limit >= 1 && Nondecreasing(tr)
    ensures var a, bs := AdmittedWithin(limit, window, tr, key, t), RunMemory(limit, window, tr);
            && (tr != [] && tr[|tr| - 1].now < t ==> a == 0)
            && (key !in bs ==> a == 0)
            && (key in bs ==>
                  var b := bs[key];
                  && b.count >= 1
                  && b.windowStart <= tr[|tr| - 1].now
                  && (b.windowStart < t ==> a <= Min(b.count, limit) - 1)
                  && (t <= b.windowStart < t + window ==> a <= limit - 1 + Min(b.count, limit))
                  && (t + window <= b.windowStart ==> a <= 2 * limit - 1))
  {
    if tr != [] {
      IntervalBound(limit, window, tr[..|tr| - 1], key, t);
    }
  }

  /** No interval one window long, wherever it starts, sees more than 2 * limit - 1 admissions. */
  lemma NoBurstBeyondTwice(limit: int, window: int, tr: seq<Request>, key: string, t: int)
    requires limit >= 1 && Nondecreasing(tr)
    ensures AdmittedWithin(limit, window, tr, key, t) <= 2 * limit - 1
  {
    IntervalBound(limit, window, tr, key, t);
  }

  /** What other keys do never changes a decision. */
  lemma {:induction false} OtherKeysDoNotMatter(limit: int, window: int, tr: seq<Request>, r: Request)
    ensures AdmitsMemory(limit, window, tr, r) <==> AdmitsMemory(limit, window, Only(tr, r.key), r)
    ensures var bs, own := RunMemory(limit, window, tr), RunMemory(limit, window, Only(tr, r.key));
            (r.key in bs <==> r.key in own) && (r.key in bs ==> bs[r.key] == own[r.key])
  {
    if tr != [] {
      var n := |tr| - 1;
      OtherKeysDoNotMatter(limit, window, tr[..n], r);
      if tr[n].key == r.key {
        var own := Only(tr[..n], r.key);
        assert (own + [tr[n]])[..|own|] == own;
      } else {
        assert Only(tr, r.key) == Only(tr[..n], r.key);
      }
    }
  }

  // ---------------------------------------------------------------- the bound is reached

  function Burst(key: string, now: int, n: nat): seq<Request> {
    seq(n, _ => Request(key, now))
  }

  lemma AppendRequest(limit: int, window: int, tr: seq<Request>, r: Request, key: string, t: int)
    ensures RunMemory(limit, window, tr + [r])
         == MemoryStep(limit, window, RunMemory(limit, window, tr), r.key, r.now).0
    ensures AdmittedWithin(limit, window, tr + [r], key, t) == AdmittedWithin(limit, window, tr, key, t)
         + if r.key == key && t <= r.now < t + window && AdmitsMemory(limit, window, tr, r) then 1 else 0
  {
    assert (tr + [r])[..|tr|] == tr;
  }

  lemma {:induction false} BurstAdmitted(limit: int, window: int, tr: seq<Request>, key: string, now: int, n: nat,
                                         t: int)
    requires var bs := RunMemory(limit, window, tr);
             key in bs && now - bs[key].windowStart < window && bs[key].count + n <= limit
    requires t <= now < t + window
    ensures var all, b := tr + Burst(key, now, n), RunMemory(limit, window, tr)[key];
            && AdmittedWithin(limit, window, all, key, t) == AdmittedWithin(limit, window, tr, key, t) + n
            && RunMemory(limit, window, all) == RunMemory(limit, window, tr)[key := b.(count := b.count + n)]
  {
    hide RunMemory, AdmittedWithin;
    if n == 0 {
      assert tr + Burst(key, now, 0) == tr;
    } else {
      BurstAdmitted(limit, window, tr, key, now, n - 1, t);
      var before := tr + Burst(key, now, n - 1);
      assert tr + Burst(key, now, n) == before + [Request(key, now)];
      AppendRequest(limit, window, before, Request(key, now), key, t);
    }
  }

  /** The trace that reaches the bound: one window saved up for its end, then a fresh one. */
  ghost function WorstCase(limit: int, window: int, key: string): seq<Request>
    requires limit >= 1
  {
    [Request(key, 0)] + Burst(key, window - 1, limit - 1) + [Request(key, window)] + Burst(key, window, limit - 1)
  }

  lemma EmptyTrace(limit: int, window: int, key: string, t: int)
    ensures RunMemory(limit, window, []) == map[] && AdmittedWithin(limit, window, [], key, t) == 0
  {
  }

  lemma WorstCaseInOrder(limit: int, window: int, key: string)
    requires limit >= 1 && window >= 2
    ensures Nondecreasing(WorstCase(limit, window, key))
  {
  }

  lemma BoundIsReached(limit: int, window: int, key: string)
    requires limit >= 1 && window >= 2
    ensures Nondecreasing(WorstCase(limit, window, key))
    ensures AdmittedWithin(limit, window, WorstCase(limit, window, key), key, 1) == 2 * limit - 1
  {
    hide RunMemory, AdmittedWithin, Nondecreasing, Burst;
    WorstCaseInOrder(limit, window, key);
    EmptyTrace(limit, window, key, 1);
    var first, second := Request(key, 0), Request(key, window);
    assert [] + [first] == [first];
    AppendRequest(limit, window, [], first, key, 1);
    BurstAdmitted(limit, window, [first], key, window - 1, limit - 1, 1);
    var saved := [first] + Burst(key, window - 1, limit - 1);
    AppendRequest(limit, window, saved, second, key, 1);
    BurstAdmitted(limit, window, saved + [second], key, window, limit - 1, 1);
  }

  // ---------------------------------------------------------------- memory against Valkey

  ghost predicate SameDecisions(limit: int, window: int, tr: seq<Request>, ttls: Ttls) {
    forall i :: 0 <= i < |tr| ==> AgreeAt(limit, window, tr, ttls, i)
  }

  ghost predicate AgreeAt(limit: int, window: int, tr: seq<Request>, ttls: Ttls, i: nat)
    requires i < |tr|
  {
    AdmitsMemory(limit, window, tr[..i], tr[i]) <==> AdmitsValkey(limit, window, tr[..i], tr[i], ttls)
  }

  /** On every trace the two implementations take the same decision, whatever TTL replies. */
  ghost predicate Interchangeable(limit: int, window: int) {
    forall tr: seq<Request>, ttls: Ttls :: Nondecreasing(tr) ==> SameDecisions(limit, window, tr, ttls)
  }

  lemma {:induction false} StatesAgree(limit: int, window: int, tr: seq<Request>, ttls: Ttls, key: string, now: int)
    requires window <= 0 || window % SECOND == 0
    requires Nondecreasing(tr) && (tr != [] ==> tr[|tr| - 1].now <= now)
    ensures var bs, remote := RunMemory(limit, window, tr), RunValkey(limit, window, tr, ttls);
            && (key in bs && now - bs[key].windowStart < window ==>
                  && window > 0 && bs[key].count >= 1 && key in remote
                  && remote[key] == Present(bs[key].count, Some(bs[key].windowStart + window)))
            && (Live(remote, key, now) ==> key in bs && now - bs[key].windowStart < window)
  {
    if tr != [] {
      var n := |tr| - 1;
      StatesAgree(limit, window, tr[..n], ttls, key, now);
      StatesAgree(limit, window, tr[..n], ttls, key, tr[n].now);
      hide Nondecreasing, AtLeastOne;
    }
  }

  lemma AgreeOnWholeSeconds(limit: int, window: int)
    requires limit >= 1 && (window <= 0 || window % SECOND == 0)
    ensures Interchangeable(limit, window)
  {
    forall tr: seq<Request>, ttls: Ttls, i | Nondecreasing(tr) && 0 <= i < |tr|
      ensures AgreeAt(limit, window, tr, ttls, i)
    {
      StatesAgree(limit, window, tr[..i], ttls, tr[i].key, tr[i].now);
    }
  }

  /** `limit` requests at once, then one when Valkey's truncated window has just ended. */
  ghost function Straddle(limit: int, window: int): seq<Request>
    requires limit >= 1
  {
    Burst("", 0, limit) + [Request("", window / SECOND * SECOND)]
  }

  lemma {:induction false} BurstStates(limit: int, window: int, n: nat, ttls: Ttls)
    requires window > 0 && 1 <= n <= limit
    ensures RunMemory(limit, window, Burst("", 0, n)) == map["" := Bucket(n, 0)]
    ensures window >= SECOND ==>
              RunValkey(limit, window, Burst("", 0, n), ttls) == map["" := Present(n, Some(window / SECOND * SECOND))]
    ensures window < SECOND ==> RunValkey(limit, window, Burst("", 0, n), ttls) == map[]
  {
    var tr := Burst("", 0, n);
    assert tr[..n - 1] == Burst("", 0, n - 1);
    if n == 1 {
      assert tr[..0] == [];
      assert RunMemory(limit, window, []) == map[];
      assert RunValkey(limit, window, [], ttls) == map[];
    } else {
      BurstStates(limit, window, n - 1, ttls);
    }
  }

  lemma DisagreeOnFractions(limit: int, window: int)
    requires limit >= 1 && window > 0 && window % SECOND != 0
    ensures !Interchangeable(limit, window)
  {
    var tr, ttls: Ttls := Straddle(limit, window), _ => None;
    BurstStates(limit, window, limit, ttls);
    assert tr[..limit] == Burst("", 0, limit);
    assert window / SECOND * SECOND < window;
    assert !AgreeAt(limit, window, tr, ttls, limit);
    assert Nondecreasing(tr) && !SameDecisions(limit, window, tr, ttls);
  }

  /**
   The limiter may be moved between Valkey and memory without changing any decision
   exactly when its window is a whole number of seconds (or not positive at all).
   */
  lemma InterchangeableIff(limit: int, window: int)
    requires limit >= 1
    ensures Interchangeable(limit, window) <==> window <= 0 || window % SECOND == 0
  {
    if window <= 0 || window % SECOND == 0 {
      AgreeOnWholeSeconds(limit, window);
    } else {
      DisagreeOnFractions(limit, window);
    }
  }

  // ---------------------------------------------------------------- edge behaviour

  /** The state of a key after requests at the given times; only a first one can use its EXPIRE. */
  ghost function Hammer(limit: int, window: int, remote: Remote, key: string, times: seq<int>, ttls: Ttls): Remote {
    if times == [] then remote
    else
      var n := |times| - 1;
      var before := Hammer(limit, window, remote, key, times[..n], ttls);
      ValkeyStep(limit, window, before, key, times[n], true, ttls(n)).0
  }

  /** A request at `start` finds no live key, then come those at `times`, with TTL replies of their own. */
  ghost function Later(limit: int, window: int, remote: Remote, key: string, start: int, expireOk: bool,
                       ttl: Option<int>, times: seq<int>, ttls: Ttls): Remote {
    Hammer(limit, window, ValkeyStep(limit, window, remote, key, start, expireOk, ttl).0, key, times, ttls)
  }

  /** If the one EXPIRE of a window is lost the key never expires: the client stays locked out, whatever TTL replies. */
  lemma {:induction false} LostExpireLocksOut(limit: int, window: int, remote: Remote, key: string, start: int,
                                              ttl: Option<int>, times: seq<int>, ttls: Ttls, now: int,
                                              reply: Option<int>)
    requires limit >= 1 && !Live(remote, key, start)
    ensures var lost := ValkeyStep(limit, window, remote, key, start, false, ttl).0;
            var later := Later(limit, window, remote, key, start, false, ttl, times, ttls);
            && later == lost[key := Present(1 + |times|, None)]
            && (ValkeyStep(limit, window, later, key, now, true, reply).1.allowed <==> |times| + 2 <= limit)
  {
    if times != [] {
      LostExpireLocksOut(limit, window, remote, key, start, ttl, times[..|times| - 1], ttls, now, reply);
    }
  }

  /** The state of a key inside the window that `start` opened, with its EXPIRE done or lost. */
  lemma {:induction false} InsideWindow(limit: int, window: int, remote: Remote, key: string, start: int,
                                        expireOk: bool, ttl: Option<int>, times: seq<int>, ttls: Ttls)
    requires Seconds(window) >= 1 && !Live(remote, key, start)
    requires forall t <- times :: start <= t < start + Seconds(window) * SECOND
    ensures var expiry := if expireOk then Some(start + Seconds(window) * SECOND) else None;
            var later := Later(limit, window, remote, key, start, expireOk, ttl, times, ttls);
            key in later && later[key] == Present(1 + |times|, expiry)
  {
    if times != [] {
      var n := |times| - 1;
      assert times[n] in times && forall t <- times[..n] :: t in times;
      InsideWindow(limit, window, remote, key, start, expireOk, ttl, times[..n], ttls);
    }
  }

  /**
   Once the window is over, a request is admitted exactly when the EXPIRE that opened it
   took effect, or the requests ever made still fit the limit; TTL replies have no say.
   */
  lemma KeyComesBackIff(limit: int, window: int, remote: Remote, key: string, start: int, expireOk: bool,
                        ttl: Option<int>, times: seq<int>, ttls: Ttls, now: int, reply: Option<int>)
    requires limit >= 1 && Seconds(window) >= 1 && !Live(remote, key, start)
    requires forall t <- times :: start <= t < start + Seconds(window) * SECOND
    requires now >= start + Seconds(window) * SECOND
    ensures var later := Later(limit, window, remote, key, start, expireOk, ttl, times, ttls);
            ValkeyStep(limit, window, later, key, now, true, reply).1.allowed <==> expireOk || |times| + 2 <= limit
  {
    InsideWindow(limit, window, remote, key, start, expireOk, ttl, times, ttls);
  }

  /** A window shorter than a second never lasts: its EXPIRE deletes the key, and every request is admitted. */
  lemma {:induction false} SubSecondWindowAdmitsAll(limit: int, window: int, remote: Remote, key: string,
                                                    times: seq<int>, ttls: Ttls, now: int, reply: Option<int>)
    requires limit >= 1 && Seconds(window) < 1 && key !in remote
    ensures var later := Hammer(limit, window, remote, key, times, ttls);
            key !in later && ValkeyStep(limit, window, later, key, now, true, reply).1.allowed
  {
    if times != [] {
      SubSecondWindowAdmitsAll(limit, window, remote, key, times[..|times| - 1], ttls, now, reply);
    }
  }

  // ---------------------------------------------------------------- decisions and their retry hints

  /** Valkey admits by the count alone; a denied client is told what TTL replied, else the whole window, and never 0. */
  lemma ValkeyDecision(limit: int, window: int, remote: Remote, key: string, now: int, expireOk: bool, ttl: Option<int>)
    ensures var d := ValkeyStep(limit, window, remote, key, now, expireOk, ttl).1;
            var count := if Live(remote, key, now) then remote[key].value + 1 else 1;
            && (d.allowed <==> count <= limit)
            && (d.allowed ==> d.retryAfter == 0)
            && (!d.allowed && ttl.Some? && ttl.value >= 1 ==> d.retryAfter == ttl.value)
            && (!d.allowed && ttl.Some? && ttl.value == 0 ==> d.retryAfter == 1)
            && (!d.allowed && (ttl.None? || ttl.value < 0) ==>
                  d.retryAfter == if window >= SECOND then window / SECOND else 1)
  {
  }

  /** In memory a denied client is told the whole seconds left of its window, and never 0. */
  lemma MemoryDecision(limit: int, window: int, buckets: Buckets, key: string, now: int)
    ensures var d := MemoryStep(limit, window, buckets, key, now).1;
            var inWindow := key in buckets && now < buckets[key].windowStart + window;
            && (d.allowed <==> !inWindow || buckets[key].count + 1 <= limit)
            && (d.allowed ==> d.retryAfter == 0)
            && (!d.allowed ==>
                  var left := buckets[key].windowStart + window - now;
                  d.retryAfter == if left >= SECOND then left / SECOND else 1)
  {
  }

  /**
   A client that waits the advertised number of seconds is let in exactly when the
   truncated number covers what is left of the window; one second more always does.
   */
  lemma RetryAfterSufficesIff(limit: int, window: int, buckets: Buckets, key: string, now: int)
    requires limit >= 1 && key in buckets
    requires !MemoryStep(limit, window, buckets, key, now).1.allowed
    ensures var (next, d) := MemoryStep(limit, window, buckets, key, now);
            var left := buckets[key].windowStart + window - now;
            && left > 0
            && (MemoryStep(limit, window, next, key, now + d.retryAfter * SECOND).1.allowed <==>
                  left <= SECOND || left % SECOND == 0)
            && MemoryStep(limit, window, next, key, now + (d.retryAfter + 1) * SECOND).1.allowed
  {
  }
}
