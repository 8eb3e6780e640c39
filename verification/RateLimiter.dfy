/** The in-memory sliding-window rate limiter. */
module RateLimiter {

  type Key = string

  datatype RateLimitResult = RateLimitResult(allowed: bool, limit: int, remaining: int, resetSeconds: int)

  /** With a non-positive limit and nothing on record, reading the oldest hit raises. */
  datatype Outcome = Checked(result: RateLimitResult) | IndexError

  datatype Policy = Policy(maxRequests: int, windowSeconds: int)

  /** The hits later than the cutoff, in order. */
  function Recent(hits: seq<real>, cutoff: real): (r: seq<real>)
    ensures |r| <= |hits|
    ensures forall t | t in r :: t in hits && t > cutoff
  {
    if hits == [] then []
    else
      var last := hits[|hits| - 1];
      Recent(hits[..|hits| - 1], cutoff) + (if last > cutoff then [last] else [])
  }

  /** Python's int(): truncation toward zero. */
  function Truncate(x: real): int { if x >= 0.0 then x.Floor else -((-x).Floor) }

  function Decide(hits: seq<real>, p: Policy, now: real): Outcome {
    var recent := Recent(hits, now - p.windowSeconds as real);
    if |recent| >= p.maxRequests then
      if recent == [] then IndexError
      else
        var wait := Truncate(recent[0] + p.windowSeconds as real - now);
        Checked(RateLimitResult(false, p.maxRequests, 0, if wait >= 1 then wait else 1))
    else
      Checked(RateLimitResult(true, p.maxRequests, p.maxRequests - |recent| - 1, p.windowSeconds))
  }

  predicate Allows(hits: seq<real>, p: Policy, now: real) {
    var o := Decide(hits, p, now);
    o.Checked? && o.result.allowed
  }

  function HitsAfter(hits: seq<real>, p: Policy, now: real): seq<real> {
    Recent(hits, now - p.windowSeconds as real) + (if Allows(hits, p, now) then [now] else [])
  }

  function Lookup(m: map<Key, seq<real>>, key: Key): seq<real> { if key in m then m[key] else [] }

  class InMemoryRateLimitStore {
    var hits: map<Key, seq<real>>

    constructor ()
      ensures hits == map[]
    {
      hits := map[];
    }

    method Evict(timestamps: seq<real>, cutoff: real) returns (kept: seq<real>)
      ensures kept == Recent(timestamps, cutoff)
    {
      kept := [];
      for i := 0 to |timestamps|
        invariant kept == Recent(timestamps[..i], cutoff)
      {
        assert timestamps[..i + 1][..i] == timestamps[..i];
        if timestamps[i] > cutoff {
          kept := kept + [timestamps[i]];
        }
      }
      assert timestamps[..|timestamps|] == timestamps;
    }

    /** One request: the key's own list is evicted and, if admitted, extended; other keys keep theirs. */
    method CheckAndIncrement(key: Key, p: Policy, now: real) returns (outcome: Outcome)
      modifies this
      ensures outcome == Decide(Lookup(old(hits), key), p, now)
      ensures hits == old(hits)[key := HitsAfter(Lookup(old(hits), key), p, now)]
    {
      var cutoff := now - p.windowSeconds as real;
      var timestamps := Lookup(hits, key);
      var kept := Evict(timestamps, cutoff);
      hits := hits[key := kept];
      assert kept + [] == kept;
      if |kept| >= p.maxRequests {
        if kept == [] {
          return IndexError;
        }
        var oldest := kept[0];
        var resetSeconds := Truncate(oldest + p.windowSeconds as real - now);
        if resetSeconds < 1 {
          resetSeconds := 1;
        }
        return Checked(RateLimitResult(false, p.maxRequests, 0, resetSeconds));
      }
      hits := hits[key := kept + [now]];
      outcome := Checked(RateLimitResult(true, p.maxRequests, p.maxRequests - |hits[key]|, p.windowSeconds));
    }
  }

  // ----- Runs -----

  /** What the store remembers of one key, and everything it ever admitted for it. */
  datatype History = History(hits: seq<real>, admitted: seq<real>)

  function Run(p: Policy, times: seq<real>): History {
    if times == [] then History([], [])
    else
      var h, now := Run(p, times[..|times| - 1]), times[|times| - 1];
      History(HitsAfter(h.hits, p, now), h.admitted + (if Allows(h.hits, p, now) then [now] else []))
  }

  ghost predicate NonDecreasing(times: seq<real>) {
    forall i, j | 0 <= i < j < |times| :: times[i] <= times[j]
  }

  ghost predicate Good(p: Policy) { p.maxRequests >= 1 && p.windowSeconds >= 1 }

  function Window(p: Policy): real { p.windowSeconds as real }

  lemma {:induction false} RecentAppend(a: seq<real>, b: seq<real>, cutoff: real)
    ensures Recent(a + b, cutoff) == Recent(a, cutoff) + Recent(b, cutoff)
    decreases |b|
  {
    if b == [] {
      assert a + b == a;
    } else {
      assert (a + b)[..|a + b| - 1] == a + b[..|b| - 1];
      RecentAppend(a, b[..|b| - 1], cutoff);
    }
  }

  lemma {:induction false} RecentTwice(a: seq<real>, c: real, d: real)
    requires c <= d
    ensures Recent(Recent(a, c), d) == Recent(a, d)
    decreases |a|
  {
    if a != [] {
      var rest, last := a[..|a| - 1], a[|a| - 1];
      RecentTwice(rest, c, d);
      RecentAppend(Recent(rest, c), if last > c then [last] else [], d);
      assert [last][..0] == [];
    }
  }

  lemma {:induction false} RecentShrinks(a: seq<real>, c: real, d: real)
    requires c <= d
    ensures |Recent(a, d)| <= |Recent(a, c)|
    decreases |a|
  {
    if a != [] {
      RecentShrinks(a[..|a| - 1], c, d);
    }
  }

  lemma RecentSingle(t: real, c: real)
    ensures Recent([t], c) == if t > c then [t] else []
  {
    assert [t][..0] == [];
  }

  /** Pruning never loses anything that matters: what the store still holds of a key after its latest
      request is exactly the recent part of everything ever admitted. */
  lemma {:induction false} HitsAreRecentAdmissions(p: Policy, times: seq<real>)
    requires Good(p) && NonDecreasing(times) && times != []
    ensures Run(p, times).hits == Recent(Run(p, times).admitted, times[|times| - 1] - Window(p))
    decreases |times|, 0
  {
    hide Decide, Allows, Recent;
    var prefix, now := times[..|times| - 1], times[|times| - 1];
    var h := Run(p, prefix);
    PrunedSame(p, prefix, now);
    RecentSingle(now, now - Window(p));
    RecentAppend(h.admitted, if Allows(h.hits, p, now) then [now] else [], now - Window(p));
  }

  lemma {:induction false} PrunedSame(p: Policy, times: seq<real>, now: real)
    requires Good(p) && NonDecreasing(times) && forall t | t in times :: t <= now
    ensures Recent(Run(p, times).hits, now - Window(p)) == Recent(Run(p, times).admitted, now - Window(p))
    decreases |times|, 1
  {
    hide Recent, HitsAfter;
    if times != [] {
      HitsAreRecentAdmissions(p, times);
      assert times[|times| - 1] in times;
      RecentTwice(Run(p, times).admitted, times[|times| - 1] - Window(p), now - Window(p));
    }
  }

  /** A request is denied exactly when the full admission history has `maxRequests` entries in the
      window behind it: the pruned list and the full history always decide alike. */
  lemma DeniedIffWindowFull(p: Policy, times: seq<real>, now: real)
    requires Good(p) && NonDecreasing(times) && forall t | t in times :: t <= now
    ensures Allows(Run(p, times).hits, p, now)
            <==> |Recent(Run(p, times).admitted, now - Window(p))| < p.maxRequests
  {
    PrunedSame(p, times, now);
  }

  /** Every admission found fewer than `maxRequests` earlier ones in the window behind it. */
  ghost predicate Paced(p: Policy, admitted: seq<real>) {
    && NonDecreasing(admitted)
    && forall i | 0 <= i < |admitted| :: |Recent(admitted[..i], admitted[i] - Window(p))| < p.maxRequests
  }

  lemma {:induction false} AdmittedPaced(p: Policy, times: seq<real>)
    requires Good(p) && NonDecreasing(times)
    ensures Paced(p, Run(p, times).admitted)
    ensures forall t | t in Run(p, times).admitted :: t in times
    decreases |times|
  {
    hide Decide, Recent, HitsAfter, Allows;
    if times != [] {
      var prefix, now := times[..|times| - 1], times[|times| - 1];
      var h := Run(p, prefix);
      AdmittedPaced(p, prefix);
      DeniedIffWindowFull(p, prefix, now);
      var a := Run(p, times).admitted;
      forall i | 0 <= i < |h.admitted| ensures h.admitted[i] <= now {
        assert h.admitted[i] in prefix;
      }
      forall i | 0 <= i < |a| ensures |Recent(a[..i], a[i] - Window(p))| < p.maxRequests {
        if i < |h.admitted| {
          assert a[..i] == h.admitted[..i];
        } else {
          assert a[..i] == h.admitted;
        }
      }
    }
  }

  /** The number of entries in the half-open interval (lo, hi]. */
  function CountIn(a: seq<real>, lo: real, hi: real): nat {
    if a == [] then 0
    else CountIn(a[..|a| - 1], lo, hi) + if lo < a[|a| - 1] <= hi then 1 else 0
  }

  lemma {:induction false} CountAtMostRecent(a: seq<real>, lo: real, hi: real)
    ensures CountIn(a, lo, hi) <= |Recent(a, lo)|
    ensures (forall t | t in a :: t <= hi) ==> CountIn(a, lo, hi) == |Recent(a, lo)|
    decreases |a|
  {
    if a != [] {
      CountAtMostRecent(a[..|a| - 1], lo, hi);
      assert a[|a| - 1] in a;
      if forall t | t in a :: t <= hi {
        var rest := a[..|a| - 1];
        forall t | t in rest ensures t <= hi {
          assert t in a;
        }
      }
    }
  }

  lemma {:induction false} PacedBound(p: Policy, a: seq<real>, lo: real)
    requires Good(p) && Paced(p, a)
    ensures CountIn(a, lo, lo + Window(p)) <= p.maxRequests
    decreases |a|
  {
    hide Recent;
    if a != [] {
      var rest, last := a[..|a| - 1], a[|a| - 1];
      assert Paced(p, rest) by {
        forall i | 0 <= i < |rest| ensures |Recent(rest[..i], rest[i] - Window(p))| < p.maxRequests {
          assert rest[..i] == a[..i];
        }
      }
      PacedBound(p, rest, lo);
      if lo < last <= lo + Window(p) {
        CountAtMostRecent(rest, lo, lo + Window(p));
        RecentShrinks(rest, last - Window(p), lo);
        assert a[..|a| - 1] == rest;
      }
    }
  }

  /** The limit holds in every interval of one window length, wherever it starts. */
  lemma WindowBound(p: Policy, times: seq<real>, lo: real)
    requires Good(p) && NonDecreasing(times)
    ensures CountIn(Run(p, times).admitted, lo, lo + Window(p)) <= p.maxRequests
  {
    AdmittedPaced(p, times);
    PacedBound(p, Run(p, times).admitted, lo);
  }

  /** After a denial at `d`, and as long as nothing was admitted in between, a request is admitted from
      the very moment on at which the oldest hit of the denial leaves the window, and not before. */
  lemma RetryAdmittedIff(p: Policy, times: seq<real>, d: real, between: seq<real>, t: real)
    requires Good(p) && NonDecreasing(times + [d] + between + [t])
    requires var o := Decide(Run(p, times).hits, p, d); o.Checked? && !o.result.allowed
    requires Run(p, times + [d] + between).admitted == Run(p, times).admitted
    ensures var r := Recent(Run(p, times).hits, d - Window(p));
            r != [] && (Allows(Run(p, times + [d] + between).hits, p, t) <==> t >= r[0] + Window(p))
  {
    hide Decide, Allows, Run, Recent;
    InOrder(times, d, between, t);
    DeniedIffWindowFull(p, times + [d] + between, t);
    WindowEmptiesIff(p, times, d, t);
  }

  lemma InOrder(times: seq<real>, d: real, between: seq<real>, t: real)
    requires NonDecreasing(times + [d] + between + [t])
    ensures NonDecreasing(times) && NonDecreasing(times + [d] + between) && d <= t
    ensures (forall s | s in times :: s <= d) && forall s | s in times + [d] + between :: s <= t
  {
    var all := times + [d] + between;
    var whole := all + [t];
    assert whole[|times|] == d && whole[|all|] == t;
    assert times == whole[..|times|] && all == whole[..|all|];
    forall s | s in times ensures s <= d {
      var i :| 0 <= i < |times| && times[i] == s;
      assert whole[i] == s;
    }
    forall s | s in all ensures s <= t {
      var i :| 0 <= i < |all| && all[i] == s;
      assert whole[i] == s;
    }
  }

  /** Waiting as told, and one second more, works. */
  lemma RetryIsAdmitted(p: Policy, times: seq<real>, d: real, between: seq<real>, t: real)
    requires Good(p) && NonDecreasing(times + [d] + between + [t])
    requires var o := Decide(Run(p, times).hits, p, d);
             o.Checked? && !o.result.allowed && t >= d + o.result.resetSeconds as real + 1.0
    requires Run(p, times + [d] + between).admitted == Run(p, times).admitted
    ensures Allows(Run(p, times + [d] + between).hits, p, t)
  {
    RetryAdmittedIff(p, times, d, between, t);
    DenialWait(Run(p, times).hits, p, d);
  }

  /** Waiting exactly as told works if and only if the remaining time was at most one second or a whole
      number of seconds: `resetSeconds` is truncated. */
  lemma ResetSecondsSufficeIff(p: Policy, times: seq<real>, d: real, between: seq<real>)
    requires Good(p)
    requires var o := Decide(Run(p, times).hits, p, d);
             && o.Checked? && !o.result.allowed
             && NonDecreasing(times + [d] + between + [d + o.result.resetSeconds as real])
    requires Run(p, times + [d] + between).admitted == Run(p, times).admitted
    ensures var r, t := Recent(Run(p, times).hits, d - Window(p)),
            d + Decide(Run(p, times).hits, p, d).result.resetSeconds as real;
            r != [] && var left := r[0] + Window(p) - d;
            (Allows(Run(p, times + [d] + between).hits, p, t) <==> left <= 1.0 || left == left.Floor as real)
  {
    hide Run, Allows;
    RetryAdmittedIff(p, times, d, between, d + Decide(Run(p, times).hits, p, d).result.resetSeconds as real);
    DenialReset(Run(p, times).hits, p, d);
    hide Decide;
  }

  /** The wait a denial reports: the time left of the oldest recent hit, truncated, at least one. */
  lemma DenialReset(hits: seq<real>, p: Policy, d: real)
    requires var o := Decide(hits, p, d); o.Checked? && !o.result.allowed
    ensures var r := Recent(hits, d - Window(p));
            r != [] && var left, told := r[0] + Window(p) - d, Decide(hits, p, d).result.resetSeconds;
            left > 0.0 && told == if left.Floor >= 1 then left.Floor else 1
  {
    assert Recent(hits, d - Window(p))[0] in Recent(hits, d - Window(p));
  }

  lemma WindowEmptiesIff(p: Policy, times: seq<real>, d: real, t: real)
    requires Good(p) && NonDecreasing(times) && d <= t && forall s | s in times :: s <= d
    requires var o := Decide(Run(p, times).hits, p, d); o.Checked? && !o.result.allowed
    ensures var r := Recent(Run(p, times).hits, d - Window(p));
            r != [] && (|Recent(Run(p, times).admitted, t - Window(p))| < p.maxRequests <==> t >= r[0] + Window(p))
  {
    hide Decide, Recent, Run;
    var a := Run(p, times).admitted;
    var c := d - Window(p);
    PrunedSame(p, times, d);
    AdmittedPaced(p, times);
    forall s | s in a ensures s <= d {}
    CountAtMostRecent(a, c, d);
    WindowBound(p, times, c);
    DenialWait(Run(p, times).hits, p, d);
    var r := Recent(a, c);
    if r[0] <= t - Window(p) {
      OldestExpires(a, r, c, t - Window(p));
    } else {
      RecentOrdered(a, c);
      forall i | 0 <= i < |r| ensures r[i] > t - Window(p) {
        if i > 0 { assert r[0] <= r[i]; }
      }
      RecentAll(r, t - Window(p));
      RecentTwice(a, c, t - Window(p));
    }
  }

  lemma {:induction false} RecentOrdered(a: seq<real>, c: real)
    requires NonDecreasing(a)
    ensures NonDecreasing(Recent(a, c))
    decreases |a|
  {
    if a != [] {
      var rest := a[..|a| - 1];
      RecentOrdered(rest, c);
      var r := Recent(rest, c);
      forall i | 0 <= i < |r| ensures r[i] <= a[|a| - 1] {
        assert r[i] in rest;
      }
      hide Recent;
    }
  }

  lemma {:induction false} RecentAll(r: seq<real>, e: real)
    requires forall i | 0 <= i < |r| :: r[i] > e
    ensures Recent(r, e) == r
    decreases |r|
  {
    if r != [] {
      RecentAll(r[..|r| - 1], e);
      assert r == r[..|r| - 1] + [r[|r| - 1]];
    }
  }

  /** The reported wait reaches past the moment the oldest hit leaves the window. */
  lemma DenialWait(hits: seq<real>, p: Policy, d: real)
    requires var o := Decide(hits, p, d); o.Checked? && !o.result.allowed
    ensures var r := Recent(hits, d - Window(p));
            |r| >= p.maxRequests && Decide(hits, p, d).result.resetSeconds >= 1 && r != []
                && r[0] + Window(p) - d < Decide(hits, p, d).result.resetSeconds as real + 1.0
  {
  }

  lemma OldestExpires(a: seq<real>, r: seq<real>, c: real, e: real)
    requires r == Recent(a, c) && c <= e && r != [] && r[0] <= e
    ensures |Recent(a, e)| < |r|
  {
    RecentTwice(a, c, e);
    assert r == [r[0]] + r[1..];
    RecentAppend([r[0]], r[1..], e);
    RecentSingle(r[0], e);
  }

  /** The extra second is needed: `resetSeconds` is truncated, so a client that waits exactly that long
      can be refused again. */
  lemma ResetSecondsNotEnough()
    ensures var p, h := Policy(1, 10), Run(Policy(1, 10), [0.0]);
            && Decide(h.hits, p, 0.5) == Checked(RateLimitResult(false, 1, 0, 9))
            && !Allows(HitsAfter(h.hits, p, 0.5), p, 0.5 + 9.0)
  {
    FirstHit(Policy(1, 10));
    hide Run, Recent;
    RecentSingle(0.0, -9.5);
    RecentSingle(0.0, -0.5);
    assert HitsAfter([0.0], Policy(1, 10), 0.5) == [0.0];
  }

  lemma FirstHit(p: Policy)
    requires Good(p)
    ensures Run(p, [0.0]).hits == [0.0]
  {
    assert [0.0][..0] == [] && Run(p, [0.0][..0]) == History([], []);
    assert Recent([], -Window(p)) == [];
  }

  /** What a request is told: when admitted, how many more fit beside everything admitted in the window up
      to and including it; when denied, none. */
  lemma ResultIs(p: Policy, times: seq<real>, now: real)
    requires Good(p) && NonDecreasing(times) && forall t | t in times :: t <= now
    ensures var o, after := Decide(Run(p, times).hits, p, now), Run(p, times + [now]).admitted;
            && o.Checked? && o.result.limit == p.maxRequests
            && (o.result.allowed ==>
                  && o.result.remaining == p.maxRequests - CountIn(after, now - Window(p), now)
                  && o.result.resetSeconds == p.windowSeconds)
            && (!o.result.allowed ==>
                  o.result.remaining == 0 && CountIn(after, now - Window(p), now) == p.maxRequests)
  {
    hide Recent, Run, Decide;
    var h := Run(p, times);
    PrunedSame(p, times, now);
    AdmittedPaced(p, times);
    WindowBound(p, times, now - Window(p));
    CountAtMostRecent(h.admitted, now - Window(p), now);
    DecisionIs(h.hits, p, now);
    RunMore(p, times, now);
    assert now - Window(p) + Window(p) == now && h.admitted + [] == h.admitted;
    if Allows(h.hits, p, now) {
      CountMore(h.admitted, now, now - Window(p));
    }
  }

  lemma DecisionIs(hits: seq<real>, p: Policy, now: real)
    requires Good(p)
    ensures var o, n := Decide(hits, p, now), |Recent(hits, now - Window(p))|;
            && o.Checked? && o.result.limit == p.maxRequests && (o.result.allowed <==> n < p.maxRequests)
            && (o.result.allowed ==>
                  o.result.remaining == p.maxRequests - n - 1 && o.result.resetSeconds == p.windowSeconds)
            && (!o.result.allowed ==> o.result.remaining == 0)
  {
  }

  lemma RunMore(p: Policy, times: seq<real>, now: real)
    ensures var h := Run(p, times);
            Run(p, times + [now]).admitted == h.admitted + if Allows(h.hits, p, now) then [now] else []
  {
    assert (times + [now])[..|times + [now]| - 1] == times;
  }

  lemma CountMore(a: seq<real>, now: real, lo: real)
    requires lo < now
    ensures CountIn(a + [now], lo, now) == CountIn(a, lo, now) + 1
  {
    assert (a + [now])[..|a + [now]| - 1] == a;
  }

  // ----- Keys do not interfere -----

  type Call = (Key, real)

  function RunAll(policy: Key -> Policy, calls: seq<Call>): map<Key, seq<real>> {
    if calls == [] then map[]
    else
      var m, last := RunAll(policy, calls[..|calls| - 1]), calls[|calls| - 1];
      m[last.0 := HitsAfter(Lookup(m, last.0), policy(last.0), last.1)]
  }

  function TimesOf(calls: seq<Call>, key: Key): seq<real> {
    if calls == [] then []
    else
      var last := calls[|calls| - 1];
      TimesOf(calls[..|calls| - 1], key) + (if last.0 == key then [last.1] else [])
  }

  /** In any interleaving, each key under its own limits, what the store holds for a key is what it would
      hold if only that key's requests had been made; so all the results above apply key by key. */
  lemma {:induction false} KeysIndependent(policy: Key -> Policy, calls: seq<Call>, key: Key)
    ensures Lookup(RunAll(policy, calls), key) == Run(policy(key), TimesOf(calls, key)).hits
    decreases |calls|
  {
    hide HitsAfter;
    if calls != [] {
      var prefix, last := calls[..|calls| - 1], calls[|calls| - 1];
      KeysIndependent(policy, prefix, key);
      if last.0 == key {
        var ts := TimesOf(prefix, key);
        assert TimesOf(calls, key) == ts + [last.1];
        assert TimesOf(calls, key)[..|ts|] == ts;
      } else {
        assert TimesOf(calls, key) == TimesOf(prefix, key);
      }
    }
  }
}
