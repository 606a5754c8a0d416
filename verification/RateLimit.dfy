/**
 * The per-IP rate limiter of internal/middleware/ratelimit.go. A limiter is the documented token bucket of
 * golang.org/x/time/rate over exact reals: it starts full, gains rps tokens a second up to burst, and Allow takes
 * one token or changes nothing. Times are seconds on one clock.
 */
module RateLimit {

  const IDLE_SECONDS: real := 600.0
  const RETRY_AFTER: real := 60.0

  datatype PolicyRaw = Policy(rps: real, burst: nat)
  type Policy = p: PolicyRaw | p.rps >= 0.0 witness Policy(0.0, 0)

  datatype Bucket = Bucket(tokens: real, last: real)

  datatype Slot = Slot(bucket: Bucket, lastSeen: real)

  type Slots = map<string, Slot>

  // ----- The token bucket ---------------------------------------------------------------------

  function Cap(p: Policy): real { p.burst as real }

  /** Tokens a bucket without a cap would have earned by time t. */
  function Clock(p: Policy, t: real): real { p.rps * t }

  /** Tokens available at time now: what was left, plus rps for every second since, at most burst. */
  function Level(p: Policy, b: Bucket, now: real): real {
    var l := b.tokens + (Clock(p, now) - Clock(p, b.last));
    if l < Cap(p) then l else Cap(p)
  }

  function NewBucket(p: Policy, now: real): Bucket { Bucket(Cap(p), now) }

  predicate Allows(p: Policy, b: Bucket, now: real) { Level(p, b, now) >= 1.0 }

  function AfterAllow(p: Policy, b: Bucket, now: real): Bucket {
    if Allows(p, b, now) then Bucket(Level(p, b, now) - 1.0, now) else b
  }

  // ----- The entry map ------------------------------------------------------------------------

  function BucketOf(p: Policy, m: Slots, ip: string, now: real): Bucket {
    if ip in m then m[ip].bucket else NewBucket(p, now)
  }

  predicate Admits(p: Policy, m: Slots, ip: string, now: real) {
    Allows(p, BucketOf(p, m, ip, now), now)
  }

  function AfterRequest(p: Policy, m: Slots, ip: string, now: real): Slots {
    m[ip := Slot(AfterAllow(p, BucketOf(p, m, ip, now), now), now)]
  }

  /** The cleanup's visit to one key. */
  function AfterCheck(m: Slots, ip: string, cutoff: real): Slots {
    if ip in m && m[ip].lastSeen < cutoff then m - {ip} else m
  }

  /** A cleanup that nothing interrupts. */
  function AfterCleanup(m: Slots, now: real): Slots {
    map ip | ip in m && !(m[ip].lastSeen < now - IDLE_SECONDS) :: m[ip]
  }

  /** One IP's entry, updated in place by touch and by its limiter. */
  class Entry {
    var limiter: Bucket
    var lastSeen: real

    constructor (p: Policy, now: real)
      ensures limiter == NewBucket(p, now)
    {
      limiter := NewBucket(p, now);
      lastSeen := now;
    }

    method Touch(now: real)
      modifies this`lastSeen
      ensures lastSeen == now
    {
      lastSeen := now;
    }

    method Allow(p: Policy, now: real) returns (ok: bool)
      modifies this`limiter
      ensures ok == Allows(p, old(limiter), now)
      ensures limiter == AfterAllow(p, old(limiter), now)
    {
      ok := Allows(p, limiter, now);
      if ok {
        limiter := Bucket(Level(p, limiter, now) - 1.0, now);
      }
    }
  }

  class RateLimiter {
    const policy: Policy
    var mu: map<string, Entry>

    ghost predicate Valid()
      reads this
    {
      forall a, b | a in mu && b in mu && mu[a] == mu[b] :: a == b
    }

    ghost function View(): Slots
      reads this, mu.Values
    {
      map ip | ip in mu :: Slot(mu[ip].limiter, mu[ip].lastSeen)
    }

    constructor (p: Policy)
      ensures Valid() && View() == map[] && policy == p
    {
      policy := p;
      mu := map[];
    }

    /** Finds or stores the entry of ip and marks it seen. */
    method GetEntry(ip: string, now: real) returns (e: Entry)
      requires Valid()
      modifies this, mu.Values
      ensures Valid() && ip in mu && mu[ip] == e
      ensures fresh(mu.Values - old(mu.Values))
      ensures View() == old(View())[ip := Slot(BucketOf(policy, old(View()), ip, now), now)]
    {
      if ip in mu {
        e := mu[ip];
        e.Touch(now);
        return;
      }
      e := new Entry(policy, now);
      e.Touch(now);
      mu := mu[ip := e];
    }

    /** The middleware: true lets the request through, false answers 429. */
    method Handle(ip: string, now: real) returns (ok: bool)
      requires Valid()
      modifies this, mu.Values
      ensures Valid() && fresh(mu.Values - old(mu.Values))
      ensures ok == Admits(policy, old(View()), ip, now)
      ensures View() == AfterRequest(policy, old(View()), ip, now)
    {
      var e := GetEntry(ip, now);
      assert View()[ip].bucket == e.limiter;
      ok := e.Allow(policy, now);
    }

    /** Checks one key against a cutoff and deletes it when it was last seen before. */
    method CheckKey(key: string, cutoff: real)
      requires Valid()
      modifies this
      ensures Valid() && mu.Values <= old(mu.Values)
      ensures View() == AfterCheck(old(View()), key, cutoff)
      ensures View() == if key in old(View()) && old(View())[key].lastSeen < cutoff then old(View()) - {key} else old(View())
    {
      if key in mu && mu[key].lastSeen < cutoff {
        mu := mu - {key};
      }
    }

    /** The cutoff is computed once; then each key is checked in turn. */
    method Cleanup(now: real)
      requires Valid()
      modifies this
      ensures Valid() && mu.Values <= old(mu.Values)
      ensures View() == AfterCleanup(old(View()), now)
      ensures forall ip | ip in old(View()) :: ip in View() <==> old(View())[ip].lastSeen >= now - 600.0
      ensures forall ip | ip in View() :: ip in old(View()) && View()[ip] == old(View())[ip]
    {
      var cutoff := now - IDLE_SECONDS;
      var keys := mu.Keys;
      ghost var all := View();
      while keys != {}
        invariant Valid() && mu.Values <= old(mu.Values)
        invariant keys <= all.Keys && View() == Remaining(all, keys, cutoff)
        decreases keys
      {
        var key :| key in keys;
        CheckKey(key, cutoff);
        RemainingStep(all, keys, key, cutoff);
        keys := keys - {key};
      }
    }
  }

  /** The map part way through a cleanup, with these keys still to check. */
  function Remaining(m: Slots, keys: set<string>, cutoff: real): Slots {
    map ip | ip in m && (ip in keys || !(m[ip].lastSeen < cutoff)) :: m[ip]
  }

  lemma RemainingStep(m: Slots, keys: set<string>, key: string, cutoff: real)
    requires key in keys && keys <= m.Keys
    ensures AfterCheck(Remaining(m, keys, cutoff), key, cutoff) == Remaining(m, keys - {key}, cutoff)
  {
  }

  // ----- Timed runs ---------------------------------------------------------------------------

  // Requests, and a cleanup's checks of single keys. Requests may come between the checks of one cleanup, and its
  // cutoff may be older than ten minutes by the time it reaches a key.
  datatype Event =
    | Request(ip: string, at: real)
    | Check(ip: string, cutoff: real, at: real)
  {
    predicate WellTimed() { Check? ==> cutoff <= at - IDLE_SECONDS }
  }

  predicate Ordered(from: real, events: seq<Event>)
    decreases |events|
  {
    events != [] ==> from <= events[0].at && events[0].WellTimed() && Ordered(events[0].at, events[1..])
  }

  /** One event; evict = false is the limiter that never forgets an entry. */
  function Next(p: Policy, evict: bool, m: Slots, e: Event): Slots {
    match e
    case Request(ip, at) => AfterRequest(p, m, ip, at)
    case Check(ip, cutoff, _) => if evict then AfterCheck(m, ip, cutoff) else m
  }

  function After(p: Policy, evict: bool, m: Slots, events: seq<Event>): Slots
    decreases |events|
  {
    if events == [] then m else After(p, evict, Next(p, evict, m, events[0]), events[1..])
  }

  /** The checks of one cleanup with the clock at now, key by key. */
  function Checks(keys: seq<string>, now: real): seq<Event> {
    if keys == [] then [] else [Check(keys[0], now - IDLE_SECONDS, now)] + Checks(keys[1..], now)
  }

  /** Uninterrupted, and over all keys in any order, they make a cleanup. */
  lemma {:induction false} ChecksAreCleanup(p: Policy, m: Slots, keys: seq<string>, now: real)
    requires forall ip | ip in m && m[ip].lastSeen < now - IDLE_SECONDS :: ip in keys
    ensures Ordered(now, Checks(keys, now))
    ensures After(p, true, m, Checks(keys, now)) == AfterCleanup(m, now)
    decreases |keys|
  {
    if keys == [] {
      assert AfterCleanup(m, now) == m;
    } else {
      var n := AfterCheck(m, keys[0], now - IDLE_SECONDS);
      assert Checks(keys, now)[1..] == Checks(keys[1..], now);
      assert AfterCleanup(n, now) == AfterCleanup(m, now);
      ChecksAreCleanup(p, n, keys[1..], now);
    }
  }

  /** The admission decisions of a run, one per request. */
  function Answers(p: Policy, evict: bool, m: Slots, events: seq<Event>): seq<bool>
    decreases |events|
  {
    if events == [] then []
    else
      (if events[0].Request? then [Admits(p, m, events[0].ip, events[0].at)] else [])
      + Answers(p, evict, Next(p, evict, m, events[0]), events[1..])
  }

  /** How many requests of ip a run of the real limiter admits. */
  function Admitted(p: Policy, m: Slots, events: seq<Event>, ip: string): nat
    decreases |events|
  {
    if events == [] then 0
    else
      var e := events[0];
      (if e.Request? && e.ip == ip && Admits(p, m, ip, e.at) then 1 else 0)
      + Admitted(p, Next(p, true, m, e), events[1..], ip)
  }

  // ----- Sanity of reachable maps -------------------------------------------------------------

  ghost predicate Sane(p: Policy, m: Slots, now: real) {
    forall ip | ip in m ::
      && 0.0 <= m[ip].bucket.tokens <= Cap(p)
      && m[ip].bucket.last <= m[ip].lastSeen <= now
  }

  // The facts about multiplication that the proofs need; everything below reasons about Clock alone.

  lemma ClockSpan(p: Policy, s: real, t: real)
    ensures Clock(p, t) - Clock(p, s) == p.rps * (t - s)
  {
  }

  lemma ClockMonotone(p: Policy, s: real, t: real)
    requires s <= t
    ensures Clock(p, s) <= Clock(p, t)
  {
  }

  lemma ClockAdvance(p: Policy, s: real, t: real, d: real)
    requires s + d <= t
    ensures Clock(p, t) - Clock(p, s) >= p.rps * d
  {
    ClockMonotone(p, s + d, t);
    ClockSpan(p, s, s + d);
    assert s + d - s == d;
  }

  lemma LevelGrows(p: Policy, b: Bucket, s: real, t: real)
    requires s <= t
    ensures Level(p, b, s) <= Level(p, b, t) <= Level(p, b, s) + (Clock(p, t) - Clock(p, s))
    ensures Level(p, b, s) == Cap(p) ==> Level(p, b, t) == Cap(p)
    ensures Level(p, b, t) == Cap(p) || Level(p, b, t) == Level(p, b, s) + (Clock(p, t) - Clock(p, s))
  {
    hide Clock;
    ClockMonotone(p, s, t);
  }

  lemma LevelIsNonNegative(p: Policy, b: Bucket, now: real)
    requires 0.0 <= b.tokens && b.last <= now
    ensures 0.0 <= Level(p, b, now) <= Cap(p)
  {
    hide Clock;
    ClockMonotone(p, b.last, now);
  }

  lemma SaneNext(p: Policy, evict: bool, m: Slots, e: Event, now: real)
    requires Sane(p, m, now) && now <= e.at
    ensures Sane(p, Next(p, evict, m, e), e.at)
  {
    hide Clock;
    if e.Request? {
      var b := BucketOf(p, m, e.ip, e.at);
      LevelIsNonNegative(p, b, e.at);
    }
  }

  lemma {:induction false} SaneAfter(p: Policy, evict: bool, m: Slots, events: seq<Event>, now: real)
    requires Sane(p, m, now) && Ordered(now, events)
    ensures events != [] ==> Sane(p, After(p, evict, m, events), events[|events| - 1].at)
    decreases |events|
  {
    hide Clock;
    if events != [] {
      SaneNext(p, evict, m, events[0], now);
      SaneAfter(p, evict, Next(p, evict, m, events[0]), events[1..], events[0].at);
    }
  }

  // ----- Eviction is unobservable -------------------------------------------------------------

  /** Idle entries have refilled by the time they may be evicted. */
  predicate RefillsWhileIdle(p: Policy) { Cap(p) <= p.rps * IDLE_SECONDS }

  /** An evictable bucket is full, now and later. */
  lemma EvictableIsFull(p: Policy, s: Slot, at: real, t: real)
    requires RefillsWhileIdle(p)
    requires 0.0 <= s.bucket.tokens && s.bucket.last <= s.lastSeen < at - IDLE_SECONDS && at <= t
    ensures Level(p, s.bucket, t) == Cap(p)
  {
    hide Clock;
    ClockAdvance(p, s.bucket.last, at, IDLE_SECONDS);
    LevelGrows(p, s.bucket, at, t);
  }

  /** Two buckets no later request can tell apart. */
  ghost predicate Alike(p: Policy, b: Bucket, c: Bucket, now: real) {
    b == c || (Level(p, b, now) == Cap(p) && Level(p, c, now) == Cap(p))
  }

  ghost predicate Bisimilar(p: Policy, m: Slots, n: Slots, now: real) {
    forall ip: string :: Alike(p, BucketOf(p, m, ip, now), BucketOf(p, n, ip, now), now)
  }

  lemma AlikeLater(p: Policy, m: Slots, n: Slots, ip: string, now: real, at: real)
    requires now <= at
    requires Alike(p, BucketOf(p, m, ip, now), BucketOf(p, n, ip, now), now)
    ensures Alike(p, BucketOf(p, m, ip, at), BucketOf(p, n, ip, at), at)
  {
    hide Clock;
    LevelGrows(p, BucketOf(p, m, ip, now), now, at);
    LevelGrows(p, BucketOf(p, n, ip, now), now, at);
    assert Level(p, NewBucket(p, at), at) == Cap(p);
  }

  lemma BisimilarNext(p: Policy, m: Slots, n: Slots, e: Event, now: real)
    requires RefillsWhileIdle(p)
    requires Sane(p, m, now) && now <= e.at && e.WellTimed() && Bisimilar(p, m, n, now)
    ensures e.Request? ==> Admits(p, m, e.ip, e.at) == Admits(p, n, e.ip, e.at)
    ensures Bisimilar(p, Next(p, true, m, e), Next(p, false, n, e), e.at)
  {
    hide Clock;
    var m', n' := Next(p, true, m, e), Next(p, false, n, e);
    forall ip: string ensures Alike(p, BucketOf(p, m', ip, e.at), BucketOf(p, n', ip, e.at), e.at) {
      AlikeLater(p, m, n, ip, now, e.at);
      if e.Check? && ip in m && ip !in m' {
        EvictableIsFull(p, m[ip], e.at, e.at);
      }
    }
    if e.Request? {
      AlikeLater(p, m, n, e.ip, now, e.at);
    }
  }

  lemma {:induction false} SameAnswers(p: Policy, m: Slots, n: Slots, events: seq<Event>, now: real)
    requires RefillsWhileIdle(p)
    requires Sane(p, m, now) && Bisimilar(p, m, n, now) && Ordered(now, events)
    ensures Answers(p, true, m, events) == Answers(p, false, n, events)
    decreases |events|
  {
    hide Clock;
    if events != [] {
      BisimilarNext(p, m, n, events[0], now);
      SaneNext(p, true, m, events[0], now);
      SameAnswers(p, Next(p, true, m, events[0]), Next(p, false, n, events[0]), events[1..], events[0].at);
    }
  }

  ghost predicate EvictionUnobservable(p: Policy) {
    forall start: real, events: seq<Event> | Ordered(start, events) ::
      Answers(p, true, map[], events) == Answers(p, false, map[], events)
  }

  /** Forgetting idle entries never shows, in any timed run, exactly when ten idle minutes refill a bucket. */
  lemma EvictionTheorem(p: Policy)
    ensures EvictionUnobservable(p) <==> RefillsWhileIdle(p)
    ensures EvictionUnobservable(p) <==> p.burst as real <= p.rps * 600.0
  {
    hide Clock;
    if RefillsWhileIdle(p) {
      forall start: real, events: seq<Event> | Ordered(start, events)
        ensures Answers(p, true, map[], events) == Answers(p, false, map[], events)
      {
        assert Bisimilar(p, map[], map[], start);
        SameAnswers(p, map[], map[], events, start);
      }
    } else {
      ForgottenDebt(p);
    }
  }

  lemma TenMinutes(p: Policy)
    ensures RefillsWhileIdle(p) <==> p.burst as real <= p.rps * 600.0
  {
  }

  // ----- Why the condition is needed ----------------------------------------------------------

  function Volley(ip: string, at: real, k: nat): seq<Event> {
    if k == 0 then [] else [Request(ip, at)] + Volley(ip, at, k - 1)
  }

  /** Spends a whole burst, waits just past the idle limit, is evicted, and spends a second burst at once. */
  function DebtRun(p: Policy, d: real): seq<Event> {
    Volley("ip", 0.0, p.burst) + ([Check("ip", d - IDLE_SECONDS, d)] + Volley("ip", d, p.burst))
  }

  lemma AllowSpendsOne(p: Policy, b: Bucket, at: real)
    requires Allows(p, b, at)
    ensures Level(p, AfterAllow(p, b, at), at) == Level(p, b, at) - 1.0
  {
    hide Clock;
  }

  lemma VolleyStep(p: Policy, m: Slots, at: real, k: nat, rest: seq<Event>)
    requires 0 < k <= p.burst && Level(p, BucketOf(p, m, "ip", at), at) == k as real
    ensures var events, m' := Volley("ip", at, k) + rest, AfterRequest(p, m, "ip", at);
            && events[0] == Request("ip", at) && events[1..] == Volley("ip", at, k - 1) + rest
            && Admits(p, m, "ip", at)
            && Level(p, BucketOf(p, m', "ip", at), at) == (k - 1) as real
            && AfterVolley(p, m', at, k - 1) == AfterVolley(p, m, at, k)
  {
    hide Clock;
    AllowSpendsOne(p, BucketOf(p, m, "ip", at), at);
  }

  lemma {:induction false} VolleyRun(p: Policy, evict: bool, m: Slots, at: real, k: nat, rest: seq<Event>)
    requires Ordered(at, rest)
    requires Level(p, BucketOf(p, m, "ip", at), at) == k as real && k <= p.burst
    ensures Ordered(at, Volley("ip", at, k) + rest)
    ensures Answers(p, evict, m, Volley("ip", at, k) + rest)
            == Trues(k) + Answers(p, evict, AfterVolley(p, m, at, k), rest)
    decreases k
  {
    hide Level, Admits, AfterVolley, AfterRequest, BucketOf;
    var events := Volley("ip", at, k) + rest;
    if k == 0 {
      assert events == rest;
      NoVolley(p, m, at);
    } else {
      var m' := AfterRequest(p, m, "ip", at);
      VolleyStep(p, m, at, k, rest);
      VolleyRun(p, evict, m', at, k - 1, rest);
      assert [true] + Trues(k - 1) == Trues(k);
    }
  }

  lemma NoVolley(p: Policy, m: Slots, at: real)
    ensures AfterVolley(p, m, at, 0) == m
  {
  }

  lemma {:induction false} VolleyAdmitted(p: Policy, m: Slots, at: real, k: nat, rest: seq<Event>)
    requires Level(p, BucketOf(p, m, "ip", at), at) == k as real && k <= p.burst
    ensures Admitted(p, m, Volley("ip", at, k) + rest, "ip")
            == k + Admitted(p, AfterVolley(p, m, at, k), rest, "ip")
    decreases k
  {
    hide Level, Admits, AfterVolley, AfterRequest, BucketOf;
    var events := Volley("ip", at, k) + rest;
    if k == 0 {
      assert events == rest;
      NoVolley(p, m, at);
    } else {
      VolleyStep(p, m, at, k, rest);
      VolleyAdmitted(p, AfterRequest(p, m, "ip", at), at, k - 1, rest);
    }
  }

  function Trues(k: nat): seq<bool> { seq(k, _ => true) }

  function AfterVolley(p: Policy, m: Slots, at: real, k: nat): Slots {
    if k == 0 then m else m["ip" := Slot(Bucket(0.0, at), at)]
  }

  lemma DebtPause(p: Policy) returns (d: real)
    requires !RefillsWhileIdle(p)
    ensures d > IDLE_SECONDS && p.rps * d < Cap(p)
    ensures Clock(p, d) - Clock(p, 0.0) < Cap(p)
  {
    if p.rps == 0.0 {
      d := IDLE_SECONDS + 1.0;
    } else {
      d := (IDLE_SECONDS + Cap(p) / p.rps) / 2.0;
      assert p.rps * (Cap(p) / p.rps) == Cap(p);
      assert p.rps * d == (p.rps * IDLE_SECONDS + Cap(p)) / 2.0;
    }
  }

  /** A volley is admitted in full only when the bucket held that many tokens. */
  lemma {:induction false} VolleyNeedsTokens(p: Policy, m: Slots, at: real, k: nat)
    requires Answers(p, false, m, Volley("ip", at, k)) == Trues(k)
    ensures k == 0 || Level(p, BucketOf(p, m, "ip", at), at) >= k as real
    decreases k
  {
    hide Clock;
    if k > 0 {
      var events := Volley("ip", at, k);
      var m' := AfterRequest(p, m, "ip", at);
      assert events[0] == Request("ip", at) && events[1..] == Volley("ip", at, k - 1);
      var answers := Answers(p, false, m, events);
      assert answers[0] == Trues(k)[0];
      assert answers[1..] == Trues(k)[1..] == Trues(k - 1);
      VolleyNeedsTokens(p, m', at, k - 1);
    }
  }

  /** The run's second half, evicting: the bucket is new, so the second burst passes. */
  lemma DebtRunShape(p: Policy, d: real)
    requires d > IDLE_SECONDS
    ensures Ordered(0.0, DebtRun(p, d))
    ensures Answers(p, true, map[], DebtRun(p, d)) == Trues(p.burst) + Trues(p.burst)
    ensures Answers(p, false, map[], DebtRun(p, d))
            == Trues(p.burst) + Answers(p, false, AfterVolley(p, map[], 0.0, p.burst), Volley("ip", d, p.burst))
    ensures Admitted(p, map[], DebtRun(p, d), "ip") == 2 * p.burst
  {
    hide Clock;
    var second := Volley("ip", d, p.burst);
    var tail := [Check("ip", d - IDLE_SECONDS, d)] + second;
    var spent := AfterVolley(p, map[], 0.0, p.burst);
    VolleyRun(p, true, map[], d, p.burst, []);
    VolleyAdmitted(p, map[], d, p.burst, []);
    assert second + [] == second;
    assert tail[0] == Check("ip", d - IDLE_SECONDS, d) && tail[1..] == second;
    assert AfterCheck(spent, "ip", d - IDLE_SECONDS) == map[];
    assert Answers(p, true, map[], second) == Trues(p.burst) + [];
    VolleyRun(p, true, map[], 0.0, p.burst, tail);
    VolleyRun(p, false, map[], 0.0, p.burst, tail);
    VolleyAdmitted(p, map[], 0.0, p.burst, tail);
  }

  lemma ForgottenDebt(p: Policy)
    requires !RefillsWhileIdle(p)
    ensures !EvictionUnobservable(p)
  {
    hide Clock;
    var d := DebtPause(p);
    DebtRunShape(p, d);
    var n := AfterVolley(p, map[], 0.0, p.burst);
    var late := Answers(p, false, n, Volley("ip", d, p.burst));
    if late == Trues(p.burst) {
      VolleyNeedsTokens(p, n, d, p.burst);
    }
    var x, y := Answers(p, true, map[], DebtRun(p, d)), Answers(p, false, map[], DebtRun(p, d));
    assert x[p.burst..] == Trues(p.burst) && y[p.burst..] == late;
  }

  // ----- Admissions in a window ---------------------------------------------------------------

  function Credit(p: Policy, m: Slots, ip: string, now: real): real { Level(p, BucketOf(p, m, ip, now), now) }

  /** Waiting earns at most rps tokens a second; only an admission spends, and it spends one. */
  lemma CreditStep(p: Policy, m: Slots, e: Event, ip: string, now: real)
    requires RefillsWhileIdle(p) && Sane(p, m, now) && now <= e.at && e.WellTimed()
    ensures var spent := if e.Request? && e.ip == ip && Admits(p, m, ip, e.at) then 1.0 else 0.0;
            0.0 <= Credit(p, Next(p, true, m, e), ip, e.at)
            && Credit(p, Next(p, true, m, e), ip, e.at) + spent == Credit(p, m, ip, e.at)
            && Credit(p, m, ip, e.at) <= Credit(p, m, ip, now) + (Clock(p, e.at) - Clock(p, now))
  {
    hide Clock;
    var b := BucketOf(p, m, ip, now);
    LevelGrows(p, b, now, e.at);
    LevelIsNonNegative(p, BucketOf(p, m, ip, e.at), e.at);
    ClockMonotone(p, now, e.at);
    if e.Check? && e.ip == ip && ip in m && ip !in AfterCheck(m, ip, e.cutoff) {
      EvictableIsFull(p, m[ip], e.at, e.at);
    }
  }

  lemma CreditIsNonNegative(p: Policy, m: Slots, ip: string, now: real)
    requires Sane(p, m, now)
    ensures 0.0 <= Credit(p, m, ip, now) <= Cap(p)
  {
    hide Clock;
    LevelIsNonNegative(p, BucketOf(p, m, ip, now), now);
  }

  lemma {:induction false} AdmittedFromCredit(p: Policy, m: Slots, events: seq<Event>, ip: string, now: real, end: real)
    requires RefillsWhileIdle(p) && Sane(p, m, now) && Ordered(now, events) && now <= end
    requires events != [] ==> events[|events| - 1].at <= end
    ensures Admitted(p, m, events, ip) as real <= Credit(p, m, ip, now) + (Clock(p, end) - Clock(p, now))
    decreases |events|
  {
    hide Clock;
    if events == [] {
      CreditIsNonNegative(p, m, ip, now);
      ClockMonotone(p, now, end);
    } else {
      var e := events[0];
      var m' := Next(p, true, m, e);
      SaneNext(p, true, m, e, now);
      LastIsLate(e.at, events[1..]);
      AdmittedFromCredit(p, m', events[1..], ip, e.at, end);
      CreditStep(p, m, e, ip, now);
    }
  }

  lemma {:induction false} LastIsLate(from: real, events: seq<Event>)
    requires Ordered(from, events)
    ensures events != [] ==> from <= events[|events| - 1].at
    decreases |events|
  {
    if events != [] {
      LastIsLate(events[0].at, events[1..]);
    }
  }

  lemma {:induction false} OrderedSplit(from: real, before: seq<Event>, window: seq<Event>)
    requires Ordered(from, before + window)
    ensures Ordered(from, before)
    ensures Ordered(if before == [] then from else before[|before| - 1].at, window)
    decreases |before|
  {
    if before == [] {
      assert before + window == window;
    } else {
      assert (before + window)[1..] == before[1..] + window;
      OrderedSplit(before[0].at, before[1..], window);
    }
  }

  /** burst + rps * W tokens, for a window of length W. */
  function Allowance(p: Policy, from: real, to: real): real { Cap(p) + p.rps * (to - from) }

  /** In a window that starts and ends with an event, the run admits at most this many requests of one IP. */
  ghost predicate WindowBounded(p: Policy) {
    forall start: real, before: seq<Event>, window: seq<Event>, ip: string |
      Ordered(start, before + window) && window != [] ::
      Admitted(p, After(p, true, map[], before), window, ip) as real
      <= Allowance(p, window[0].at, window[|window| - 1].at)
  }

  lemma WindowBound(p: Policy, start: real, before: seq<Event>, window: seq<Event>, ip: string)
    requires RefillsWhileIdle(p) && Ordered(start, before + window) && window != []
    ensures Admitted(p, After(p, true, map[], before), window, ip) as real
            <= Allowance(p, window[0].at, window[|window| - 1].at)
  {
    hide Clock, Allowance, RefillsWhileIdle;
    var m := After(p, true, map[], before);
    var first, end := window[0].at, window[|window| - 1].at;
    OrderedSplit(start, before, window);
    SaneAfter(p, true, map[], before, start);
    assert Sane(p, m, first);
    assert Ordered(first, window);
    LastIsLate(first, window);
    AdmittedFromCredit(p, m, window, ip, first, end);
    CreditIsNonNegative(p, m, ip, first);
    AllowanceSpan(p, first, end);
  }

  lemma AllowanceSpan(p: Policy, from: real, to: real)
    ensures Allowance(p, from, to) == Cap(p) + (Clock(p, to) - Clock(p, from))
  {
    ClockSpan(p, from, to);
  }

  /** burst + rps * W admissions in every window of length W: again exactly when idling refills a bucket. */
  lemma WindowTheorem(p: Policy)
    ensures WindowBounded(p) <==> RefillsWhileIdle(p)
    ensures RefillsWhileIdle(p) <==> p.burst as real <= p.rps * 600.0
  {
    TenMinutes(p);
    hide Clock, Allowance, RefillsWhileIdle, Ordered, Admitted;
    if RefillsWhileIdle(p) {
      forall start: real, before: seq<Event>, window: seq<Event>, ip: string |
        Ordered(start, before + window) && window != []
        ensures Admitted(p, After(p, true, map[], before), window, ip) as real
                <= Allowance(p, window[0].at, window[|window| - 1].at)
      {
        WindowBound(p, start, before, window, ip);
      }
    } else {
      var d := DebtPause(p);
      var run := DebtRun(p, d);
      DebtRunShape(p, d);
      DebtRunEnds(p, d);
      assert [] + run == run;
      AllowanceSpan(p, 0.0, d);
      assert Admitted(p, After(p, true, map[], []), run, "ip") as real > Allowance(p, 0.0, d);
    }
  }

  lemma {:induction false} VolleyTimes(at: real, k: nat)
    ensures |Volley("ip", at, k)| == k
    ensures forall i | 0 <= i < k :: Volley("ip", at, k)[i].at == at
    decreases k
  {
    if k > 0 {
      VolleyTimes(at, k - 1);
    }
  }

  lemma DebtRunEnds(p: Policy, d: real)
    requires p.burst > 0
    ensures var run := DebtRun(p, d); run != [] && run[0].at == 0.0 && run[|run| - 1].at == d
  {
    VolleyTimes(0.0, p.burst);
    VolleyTimes(d, p.burst);
  }

  // ----- Retry-After --------------------------------------------------------------------------

  predicate Silent(events: seq<Event>, ip: string) {
    forall i | 0 <= i < |events| :: events[i].Request? ==> events[i].ip != ip
  }

  /** Other clients do not touch an IP's credit, and forgetting its entry can only raise it. */
  lemma SilentStep(p: Policy, m: Slots, e: Event, ip: string, until: real)
    requires e.Request? ==> e.ip != ip
    ensures Credit(p, Next(p, true, m, e), ip, until) >= Credit(p, m, ip, until)
  {
    hide Clock;
    assert Level(p, NewBucket(p, until), until) == Cap(p);
  }

  lemma {:induction false} CreditWhileSilent(p: Policy, m: Slots, events: seq<Event>, ip: string, until: real)
    requires Silent(events, ip)
    ensures Credit(p, After(p, true, m, events), ip, until) >= Credit(p, m, ip, until)
    decreases |events|
  {
    hide Clock, Credit, Next;
    if events != [] {
      assert Silent(events[1..], ip);
      SilentStep(p, m, events[0], ip, until);
      CreditWhileSilent(p, Next(p, true, m, events[0]), events[1..], ip, until);
    }
  }

  /** A rate of n requests a minute with burst n, as every route of cmd/api/main.go is wired. */
  function PerMinute(n: nat): Policy { Policy(n as real / 60.0, n) }

  /** The wiring meets the refill condition, and the advertised wait unless its rate is zero. */
  lemma WiringRefills(n: nat)
    ensures RefillsWhileIdle(PerMinute(n))
    ensures EarnsInTime(PerMinute(n)) <==> n >= 1
  {
  }

  /** A client is silent, among any other traffic and cleanups, for the advertised time, and then sends a request. */
  ghost predicate WaitsAndRetries(start: real, before: seq<Event>, pause: seq<Event>, ip: string, from: real, retry: real) {
    && Ordered(start, before + pause) && Silent(pause, ip)
    && from + RETRY_AFTER <= retry
    && start <= from && (before != [] ==> before[|before| - 1].at <= from)
  }

  ghost predicate RetryAfterHonoured(p: Policy) {
    forall start: real, before: seq<Event>, pause: seq<Event>, ip: string, from: real, retry: real |
      WaitsAndRetries(start, before, pause, ip, from, retry) ::
      Admits(p, After(p, true, map[], before + pause), ip, retry)
  }

  predicate EarnsInTime(p: Policy) { p.burst >= 1 && p.rps * RETRY_AFTER >= 1.0 }

  lemma OneMinute(p: Policy)
    ensures EarnsInTime(p) <==> p.burst >= 1 && p.rps * 60.0 >= 1.0
  {
  }

  lemma RetryAdmitted(p: Policy, start: real, before: seq<Event>, pause: seq<Event>, ip: string, from: real, retry: real)
    requires EarnsInTime(p) && WaitsAndRetries(start, before, pause, ip, from, retry)
    ensures Admits(p, After(p, true, map[], before + pause), ip, retry)
  {
    hide Clock;
    OrderedSplit(start, before, pause);
    SaneAfter(p, true, map[], before, start);
    var m := After(p, true, map[], before);
    assert Sane(p, m, from);
    CreditWhileSilent(p, m, pause, ip, retry);
    AfterSplit(p, map[], before, pause);
    CreditEarned(p, m, ip, from, retry);
  }

  /** Spending a burst at time 0 and coming back after the advertised wait, alone. */
  lemma TooEarly(p: Policy)
    requires !EarnsInTime(p)
    ensures WaitsAndRetries(0.0, Volley("ip", 0.0, p.burst), [], "ip", 0.0, RETRY_AFTER)
    ensures !Admits(p, After(p, true, map[], Volley("ip", 0.0, p.burst) + []), "ip", RETRY_AFTER)
  {
    hide Clock, Level, AfterVolley, Admits;
    var before := Volley("ip", 0.0, p.burst);
    FirstBurst(p);
    VolleyRun(p, true, map[], 0.0, p.burst, []);
    VolleyTimes(0.0, p.burst);
    VolleyEnds(p, map[], 0.0, p.burst);
    assert before + [] == before;
    SpentIsEmpty(p);
  }

  lemma FirstBurst(p: Policy)
    ensures Level(p, BucketOf(p, map[], "ip", 0.0), 0.0) == p.burst as real
  {
  }

  lemma SpentIsEmpty(p: Policy)
    requires !EarnsInTime(p)
    ensures !Admits(p, AfterVolley(p, map[], 0.0, p.burst), "ip", RETRY_AFTER)
  {
    hide Clock;
    ClockSpan(p, 0.0, RETRY_AFTER);
    var b := BucketOf(p, AfterVolley(p, map[], 0.0, p.burst), "ip", RETRY_AFTER);
    if p.burst == 0 {
      assert b == NewBucket(p, RETRY_AFTER);
    } else {
      assert b == Bucket(0.0, 0.0);
      assert RETRY_AFTER - 0.0 == RETRY_AFTER;
    }
  }

  lemma {:induction false} VolleyEnds(p: Policy, m: Slots, at: real, k: nat)
    requires Level(p, BucketOf(p, m, "ip", at), at) == k as real && k <= p.burst
    ensures After(p, true, m, Volley("ip", at, k)) == AfterVolley(p, m, at, k)
    decreases k
  {
    hide Level, Admits, AfterVolley, AfterRequest, BucketOf;
    if k == 0 {
      NoVolley(p, m, at);
    } else {
      VolleyStep(p, m, at, k, []);
      assert Volley("ip", at, k) + [] == Volley("ip", at, k);
      assert Volley("ip", at, k - 1) + [] == Volley("ip", at, k - 1);
      VolleyEnds(p, AfterRequest(p, m, "ip", at), at, k - 1);
    }
  }

  /**
   * The advertised wait is honoured, on every run and whatever other clients and cleanups do, exactly by the limiters
   * that hold a token at all and earn one within 60 seconds.
   */
  lemma RetryTheorem(p: Policy)
    ensures RetryAfterHonoured(p) <==> EarnsInTime(p)
    ensures EarnsInTime(p) <==> p.burst >= 1 && p.rps * 60.0 >= 1.0
  {
    OneMinute(p);
    hide Clock, Admits, EarnsInTime, WaitsAndRetries;
    if EarnsInTime(p) {
      forall start: real, before: seq<Event>, pause: seq<Event>, ip: string, from: real, retry: real |
        WaitsAndRetries(start, before, pause, ip, from, retry)
        ensures Admits(p, After(p, true, map[], before + pause), ip, retry)
      {
        RetryAdmitted(p, start, before, pause, ip, from, retry);
      }
    } else {
      TooEarly(p);
    }
  }

  lemma CreditEarned(p: Policy, m: Slots, ip: string, from: real, until: real)
    requires Sane(p, m, from) && from + RETRY_AFTER <= until && p.rps * RETRY_AFTER >= 1.0 && p.burst >= 1
    ensures Credit(p, m, ip, until) >= 1.0
  {
    hide Clock;
    var b := BucketOf(p, m, ip, from);
    LevelIsNonNegative(p, b, from);
    LevelGrows(p, b, from, until);
    ClockAdvance(p, from, until, RETRY_AFTER);
  }

  lemma {:induction false} AfterSplit(p: Policy, m: Slots, a: seq<Event>, b: seq<Event>)
    ensures After(p, true, m, a + b) == After(p, true, After(p, true, m, a), b)
    decreases |a|
  {
    if a == [] {
      assert a + b == b;
    } else {
      assert (a + b)[1..] == a[1..] + b;
      AfterSplit(p, Next(p, true, m, a[0]), a[1..], b);
    }
  }
}
