/** The per-address rate limiter of packages/server/src/index.ts. */
module RateLimiter {
  import opened Common

  // ----- one address, never cleaned up -----

  /** RATE_WINDOW_MS and RATE_MAX_REQUESTS, which come from the process environment and are never 0. */
  datatype Limits = Limits(window: nat, max: nat) {
    predicate Sane() { window > 0 && max > 0 }
  }

  datatype Window = Window(count: nat, resetAt: nat)

  /** The entry after one more request. */
  function Counted(l: Limits, w: Option<Window>, now: nat): Window {
    if w.None? || now > w.value.resetAt then Window(1, now + l.window) else w.value.(count := w.value.count + 1)
  }

  /** The entry after requests at the given times. */
  function After(l: Limits, times: seq<nat>): Option<Window> {
    if times == [] then None else Some(Counted(l, After(l, times[..|times| - 1]), times[|times| - 1]))
  }

  /** The last request is let through. */
  predicate Passes(l: Limits, times: seq<nat>)
    requires times != []
  {
    After(l, times).value.count <= l.max
  }

  /** How many requests made from lo to hi were let through. */
  function Passed(l: Limits, times: seq<nat>, lo: int, hi: int): nat {
    if times == [] then 0
    else Passed(l, times[..|times| - 1], lo, hi)
         + if lo <= times[|times| - 1] <= hi && Passes(l, times) then 1 else 0
  }

  predicate Ordered(times: seq<nat>) {
    forall i, j :: 0 <= i <= j < |times| ==> times[i] <= times[j]
  }

  function Opened(l: Limits, times: seq<nat>): int
    requires times != []
  {
    After(l, times).value.resetAt - l.window
  }

  /** What is known after the last request: it was made before the window w closes; since w opened as many
      passed as were counted, up to the maximum; and from a later x on one fewer, for the opening request itself
      passed. Here n is the number passed from x on. */
  predicate Facts(l: Limits, w: Window, last: nat, x: int, n: nat) {
    var start := w.resetAt - l.window;
    && 0 <= start <= last <= w.resetAt && w.count >= 1
    && (x == start ==> n == Min(w.count, l.max))
    && (x > start ==> n <= Min(w.count, l.max) - 1)
    && (x > w.resetAt ==> n == 0)
    && (x < start <= x + l.window ==> n <= l.max - 1 + Min(w.count, l.max))
  }

  lemma FactsNext(l: Limits, w: Window, last: nat, x: int, n: nat, now: nat)
    requires l.Sane() && Facts(l, w, last, x, n) && last <= now
    ensures var w' := Counted(l, Some(w), now);
            Facts(l, w', now, x, n + if x <= now && w'.count <= l.max then 1 else 0)
  {
  }

  lemma PassedNext(l: Limits, times: seq<nat>, now: nat, lo: int, hi: int)
    ensures After(l, times + [now]) == Some(Counted(l, After(l, times), now))
    ensures Passed(l, times + [now], lo, hi) == Passed(l, times, lo, hi) + if lo <= now <= hi
            && Passes(l, times + [now]) then 1 else 0
  {
    assert (times + [now])[..|times + [now]| - 1] == times;
  }

  lemma {:induction false} WindowFacts(l: Limits, times: seq<nat>, x: int, hi: int)
    requires l.Sane() && Ordered(times) && times != [] && hi >= times[|times| - 1]
    ensures After(l, times).Some? && Facts(l, After(l, times).value, times[|times| - 1], x, Passed(l, times, x, hi))
    decreases |times|
  {
    var before, now := times[..|times| - 1], times[|times| - 1];
    assert times == before + [now];
    if before != [] {
      assert before[|before| - 1] <= now;
      WindowFacts(l, before, x, hi);
      hide Passed, After, Facts, Counted;
      FactsNext(l, After(l, before).value, before[|before| - 1], x, Passed(l, before, x, hi), now);
      PassedNext(l, before, now, x, hi);
    }
  }

  /** No interval of the window's length sees more than 2 * max - 1 requests of one address let through. */
  lemma {:induction false} SlidingBound(l: Limits, times: seq<nat>, x: int)
    requires l.Sane() && Ordered(times)
    ensures Passed(l, times, x, x + l.window) <= 2 * l.max - 1
    decreases |times|
  {
    if times != [] {
      if times[|times| - 1] > x + l.window {
        SlidingBound(l, times[..|times| - 1], x);
      } else {
        WindowFacts(l, times, x, x + l.window);
      }
    }
  }

  /** Within the current window at most max requests pass. */
  lemma WindowBound(l: Limits, times: seq<nat>)
    requires l.Sane() && Ordered(times) && times != []
    ensures Passed(l, times, Opened(l, times), times[|times| - 1]) == Min(After(l, times).value.count, l.max) <= l.max
  {
    WindowFacts(l, times, Opened(l, times), times[|times| - 1]);
  }

  // ----- the bound is reached -----

  /** n more requests at time t. */
  function Again(times: seq<nat>, t: nat, n: nat): seq<nat> {
    if n == 0 then times else Again(times, t, n - 1) + [t]
  }

  /** One request at 0, max - 1 as its window closes, max as the next one opens. */
  function Crowd(l: Limits): seq<nat>
    requires l.Sane()
  {
    Again(Again([0], l.window, l.max - 1), l.window + 1, l.max)
  }

  lemma {:induction false} AgainCounts(l: Limits, times: seq<nat>, t: nat, n: nat, lo: int, hi: int)
    requires times != [] && t <= After(l, times).value.resetAt && lo <= t <= hi
    ensures var c := After(l, times).value.count;
            && Again(times, t, n) != []
            && After(l, Again(times, t, n)) == Some(Window(c + n, After(l, times).value.resetAt))
            && (c + n <= l.max ==> Passed(l, Again(times, t, n), lo, hi) == Passed(l, times, lo, hi) + n)
    decreases n
  {
    if n > 0 {
      AgainCounts(l, times, t, n - 1, lo, hi);
      assert Again(times, t, n)[..|Again(times, t, n)| - 1] == Again(times, t, n - 1);
    }
  }

  lemma AgainSplits(times: seq<nat>, t: nat, n: nat)
    requires n > 0
    ensures Again(times, t, n) == Again(times + [t], t, n - 1)
    decreases n
  {
    if n > 1 { AgainSplits(times, t, n - 1); }
  }

  lemma {:induction false} AgainOrdered(times: seq<nat>, t: nat, n: nat)
    requires Ordered(times) && times != [] && times[|times| - 1] <= t
    ensures var r := Again(times, t, n); Ordered(r) && r != [] && r[|r| - 1] <= t
    decreases n
  {
    if n > 0 {
      AgainOrdered(times, t, n - 1);
      OrderedNext(Again(times, t, n - 1), t);
    }
  }

  lemma OneRequest(l: Limits, t: nat, lo: int, hi: int)
    requires l.Sane()
    ensures After(l, [t]) == Some(Window(1, t + l.window)) && Passed(l, [t], lo, hi) == (if lo <= t <= hi then 1 else 0)
    ensures Ordered([t])
  {
    assert [] + [t] == [t];
    PassedNext(l, [], t, lo, hi);
  }

  lemma FirstBurst(l: Limits)
    requires l.Sane()
    ensures var first := Again([0], l.window, l.max - 1);
            && first != [] && Ordered(first) && first[|first| - 1] <= l.window
            && After(l, first) == Some(Window(l.max, l.window))
            && Passed(l, first, l.window, l.window + l.window) == l.max - 1
  {
    hide Again, Passed, After, Ordered;
    var w := l.window;
    OneRequest(l, 0, w, w + w);
    AgainCounts(l, [0], w, l.max - 1, w, w + w);
    AgainOrdered([0], w, l.max - 1);
  }

  /** The bound is the best possible, whatever the limits. */
  lemma BoundIsReached(l: Limits)
    requires l.Sane()
    ensures Ordered(Crowd(l)) && Passed(l, Crowd(l), l.window, l.window + l.window) == 2 * l.max - 1
  {
    hide Again, Ordered, Passed, After;
    var w := l.window;
    var first := Again([0], w, l.max - 1);
    FirstBurst(l);
    AgainOrdered(first, w + 1, l.max);
    AgainSplits(first, w + 1, l.max);
    var next := first + [w + 1];
    PassedNext(l, first, w + 1, w, w + w);
    AgainCounts(l, next, w + 1, l.max - 1, w, w + w);
  }

  // ----- the limiter -----

  class RateEntry {
    var count: nat
    var resetAt: nat

    constructor (count: nat, resetAt: nat)
      ensures Value() == Window(count, resetAt)
    {
      this.count, this.resetAt := count, resetAt;
    }

    ghost function Value(): Window
      reads this
    {
      Window(count, resetAt)
    }
  }

  /** A request as it was answered. */
  datatype Hit = Hit(ip: string, now: nat, passed: bool)

  function TimesOf(hits: seq<Hit>, ip: string): seq<nat> {
    if hits == [] then []
    else TimesOf(hits[..|hits| - 1], ip) + if hits[|hits| - 1].ip == ip then [hits[|hits| - 1].now] else []
  }

  function PassedHits(hits: seq<Hit>, ip: string, lo: int, hi: int): nat {
    if hits == [] then 0
    else
      var h := hits[|hits| - 1];
      PassedHits(hits[..|hits| - 1], ip, lo, hi) + if h.ip == ip && h.passed && lo <= h.now <= hi then 1 else 0
  }

  /** The requests came in clock order, and each was answered as if no entry had ever been cleaned up. */
  predicate Honest(l: Limits, hits: seq<Hit>) {
    hits != [] ==>
      && var before, h := hits[..|hits| - 1], hits[|hits| - 1];
      && Honest(l, before)
      && (before != [] ==> before[|before| - 1].now <= h.now)
      && h.passed == Passes(l, TimesOf(before, h.ip) + [h.now])
  }

  lemma TimesNext(hits: seq<Hit>, h: Hit, ip: string)
    ensures TimesOf(hits + [h], ip) == if h.ip == ip then TimesOf(hits, ip) + [h.now] else TimesOf(hits, ip)
  {
    assert (hits + [h])[..|hits + [h]| - 1] == hits;
    assert TimesOf(hits, ip) + [] == TimesOf(hits, ip);
  }

  lemma HonestNext(l: Limits, hits: seq<Hit>, h: Hit)
    requires Honest(l, hits) && (hits != [] ==> hits[|hits| - 1].now <= h.now)
    requires h.passed == Passes(l, TimesOf(hits, h.ip) + [h.now])
    ensures Honest(l, hits + [h])
  {
    assert (hits + [h])[..|hits + [h]| - 1] == hits;
  }

  lemma {:induction false} HonestCounts(l: Limits, hits: seq<Hit>, ip: string, lo: int, hi: int)
    requires Honest(l, hits)
    ensures PassedHits(hits, ip, lo, hi) == Passed(l, TimesOf(hits, ip), lo, hi)
  {
    if hits != [] {
      hide TimesOf, Passed, Passes, After;
      var before, h := hits[..|hits| - 1], hits[|hits| - 1];
      assert hits == before + [h];
      HonestCounts(l, before, ip, lo, hi);
      TimesNext(before, h, ip);
      PassedNext(l, TimesOf(before, ip), h.now, lo, hi);
    }
  }

  lemma {:induction false} HonestOrdered(l: Limits, hits: seq<Hit>, ip: string)
    requires Honest(l, hits)
    ensures Ordered(TimesOf(hits, ip))
    ensures TimesOf(hits, ip) != [] ==> hits != [] && TimesOf(hits, ip)[|TimesOf(hits, ip)| - 1] <= hits[|hits| - 1].now
  {
    if hits != [] {
      hide TimesOf, Passes;
      var before, h := hits[..|hits| - 1], hits[|hits| - 1];
      assert hits == before + [h];
      HonestOrdered(l, before, ip);
      TimesNext(before, h, ip);
      OrderedNext(TimesOf(before, ip), h.now);
    }
  }

  lemma OrderedNext(times: seq<nat>, now: nat)
    requires Ordered(times) && (times != [] ==> times[|times| - 1] <= now)
    ensures Ordered(times + [now])
  {
    forall i, j | 0 <= i <= j < |times| + 1 ensures (times + [now])[i] <= (times + [now])[j] {
      if j == |times| && i < j { assert times[i] <= times[|times| - 1]; }
    }
  }

  /** The entry e in the map stands for w, or w has expired and was dropped. */
  predicate Agrees(w: Option<Window>, e: Option<Window>, clock: nat) {
    if e.Some? then w == e else w.None? || w.value.resetAt < clock
  }

  lemma AgreesNext(l: Limits, w: Option<Window>, e: Option<Window>, clock: nat, now: nat)
    requires Agrees(w, e, clock) && clock <= now
    ensures Counted(l, w, now) == Counted(l, e, now) && Agrees(w, e, now)
    ensures Agrees(Some(Counted(l, w, now)), Some(Counted(l, e, now)), now)
  {
  }

  class Limiter {
    const limits: Limits
    var rateMap: map<string, RateEntry>
    ghost var hits: seq<Hit>
    /** The latest time seen. */
    ghost var clock: nat

    constructor (limits: Limits)
      requires limits.Sane()
      ensures Valid() && this.limits == limits && hits == []
    {
      this.limits := limits;
      rateMap, hits, clock := map[], [], 0;
    }

    ghost function Entry(ip: string): Option<Window>
      reads this`rateMap, rateMap.Values
    {
      if ip in rateMap then Some(rateMap[ip].Value()) else None
    }

    /** The entry kept for an address, or an expired one that was dropped, is what never cleaning would keep. */
    ghost predicate Keeps(ip: string)
      reads this`rateMap, this`hits, this`clock, rateMap.Values
    {
      Agrees(After(limits, TimesOf(hits, ip)), Entry(ip), clock)
    }

    ghost predicate Unshared()
      reads this`rateMap
    {
      forall a, b :: a in rateMap && b in rateMap && a != b ==> rateMap[a] != rateMap[b]
    }

    ghost predicate Valid()
      reads this, rateMap.Values
    {
      && limits.Sane() && Honest(limits, hits)
      && (hits != [] ==> hits[|hits| - 1].now <= clock)
      && Unshared()
      && (forall ip {:trigger Keeps(ip)} :: Keeps(ip))
    }

    /** checkRateLimit: true when the request is let through. The answer is that of a limiter which never cleans
        up. The clock does not go back. */
    method CheckRateLimit(ip: string, now: nat) returns (passed: bool)
      requires Valid() && clock <= now
      modifies this`rateMap, this`hits, this`clock, rateMap.Values
      ensures Valid() && fresh(rateMap.Values - old(rateMap.Values)) && clock == now
      ensures passed == Passes(limits, TimesOf(old(hits), ip) + [now])
      ensures hits == old(hits) + [Hit(ip, now, passed)]
    {
      hide TimesOf, After, Passed, Honest, Entry, Counted, Agrees;
      ghost var times := TimesOf(hits, ip);
      assert Keeps(ip);
      AgreesNext(limits, After(limits, times), Entry(ip), clock, now);
      passed := Count(ip, now);
      hits, clock := hits + [Hit(ip, now, passed)], now;
      PassedNext(limits, times, now, 0, 0);
      HonestNext(limits, old(hits), Hit(ip, now, passed));
      forall other ensures Keeps(other) {
        assert old(Keeps(other));
        AgreesNext(limits, After(limits, TimesOf(old(hits), other)), old(Entry(other)), old(clock), now);
        TimesNext(old(hits), Hit(ip, now, passed), other);
      }
    }

    /** Count the request in the address's entry. */
    method Count(ip: string, now: nat) returns (passed: bool)
      requires Unshared()
      modifies this`rateMap, rateMap.Values
      ensures Unshared() && fresh(rateMap.Values - old(rateMap.Values))
      ensures passed == (Counted(limits, old(Entry(ip)), now).count <= limits.max)
      ensures forall q {:trigger Entry(q)} ::
              Entry(q) == if q == ip then Some(Counted(limits, old(Entry(q)), now)) else old(Entry(q))
    {
      var entry := EntryFor(ip, now);
      entry.count := entry.count + 1;
      passed := entry.count <= limits.max;
    }

    /** The address's entry, a new one if it has none or the old one has expired. */
    method EntryFor(ip: string, now: nat) returns (entry: RateEntry)
      requires Unshared()
      modifies this`rateMap
      ensures Unshared() && rateMap == old(rateMap)[ip := entry]
      ensures if ip !in old(rateMap) || now > old(rateMap)[ip].resetAt
              then fresh(entry) && entry.Value() == Window(0, now + limits.window)
              else entry == old(rateMap)[ip]
    {
      if ip !in rateMap || now > rateMap[ip].resetAt {
        var made := new RateEntry(0, now + limits.window);
        rateMap := rateMap[ip := made];
      }
      entry := rateMap[ip];
    }

    /** The cleanup timer drops expired entries, one by one; no later answer changes. */
    method CleanUp(now: nat)
      requires Valid() && clock <= now
      modifies this`rateMap, this`clock
      ensures Valid() && rateMap.Values <= old(rateMap.Values) && clock == now
      ensures forall ip :: ip in rateMap <==> ip in old(rateMap) && old(rateMap)[ip].resetAt >= now
    {
      hide TimesOf, After, Honest;
      var todo := rateMap.Keys;
      clock := now;
      forall ip ensures Keeps(ip) {
        assert old(Keeps(ip));
      }
      while todo != {}
        invariant Valid() && todo <= rateMap.Keys && rateMap.Values <= old(rateMap.Values) && clock == now
        invariant forall ip :: ip in rateMap <==> ip in old(rateMap) && (ip in todo || old(rateMap)[ip].resetAt >= now)
        invariant forall ip :: ip in rateMap ==> rateMap[ip] == old(rateMap)[ip]
        decreases todo
      {
        var ip :| ip in todo;
        assert Keeps(ip);
        label before:
        if now > rateMap[ip].resetAt { rateMap := rateMap - {ip}; }
        todo := todo - {ip};
        forall other ensures Keeps(other) {
          assert old@before(Keeps(other));
        }
      }
    }
  }

  /** Whatever requests and cleanups a limiter has seen, in any interval of the window's length it has let
      through at most 2 * max - 1 requests of one address. */
  lemma LimiterBound(r: Limiter, ip: string, x: int)
    requires r.Valid()
    ensures PassedHits(r.hits, ip, x, x + r.limits.window) <= 2 * r.limits.max - 1
  {
    hide TimesOf, Passed, PassedHits, Honest, Ordered;
    HonestCounts(r.limits, r.hits, ip, x, x + r.limits.window);
    HonestOrdered(r.limits, r.hits, ip);
    SlidingBound(r.limits, TimesOf(r.hits, ip), x);
  }
}
