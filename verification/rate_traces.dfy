/** Whole request traces of one limiter: how many requests of an address get through, that addresses do not
    affect each other, and when eviction of old buckets cannot be noticed. */
module RateTraces {
  import opened RateLimiter

  /** A request reads the clock twice, at `seen` and at `now`. */
  datatype Event = Request(ip: Ip, seen: int, now: int) | Sweep(now: int) {
    function Begins(): int {
      if Request? then seen else now
    }
  }

  datatype Limits = Limits(rate: int, window: int)

  function After(t: Table, m: Limits, e: Event): Table {
    match e
    case Request(ip, seen, now) => AfterRequest(t, m.rate, m.window, ip, seen, now)
    case Sweep(now) => AfterSweep(t, now)
  }

  predicate Allows(t: Table, m: Limits, e: Event)
    requires e.Request?
  {
    Allowed(t, m.rate, m.window, e.ip, e.seen, e.now)
  }

  /** The clock never runs backwards. */
  predicate Ordered(evs: seq<Event>) {
    && (forall i :: 0 <= i < |evs| ==> evs[i].Begins() <= evs[i].now)
    && (forall i, j :: 0 <= i < j < |evs| ==> evs[i].now <= evs[j].Begins())
  }

  /** The answers to all requests, in order. */
  function Decisions(t: Table, m: Limits, evs: seq<Event>): seq<bool>
    decreases |evs|
  {
    if evs == [] then []
    else
      var rest := Decisions(After(t, m, evs[0]), m, evs[1..]);
      if evs[0].Request? then [Allows(t, m, evs[0])] + rest else rest
  }

  /** The answers one address gets. */
  function DecisionsFor(t: Table, m: Limits, evs: seq<Event>, ip: Ip): seq<bool>
    decreases |evs|
  {
    if evs == [] then []
    else
      var rest := DecisionsFor(After(t, m, evs[0]), m, evs[1..], ip);
      if evs[0].Request? && evs[0].ip == ip then [Allows(t, m, evs[0])] + rest else rest
  }

  /** One for a request of `ip` at a time in [lo, hi) that is allowed. */
  function Gain(t: Table, m: Limits, e: Event, ip: Ip, lo: int, hi: int): nat {
    if e.Request? && e.ip == ip && lo <= e.now < hi && Allows(t, m, e) then 1 else 0
  }

  /** How many requests of `ip` at times in [lo, hi) are allowed. */
  function Granted(t: Table, m: Limits, evs: seq<Event>, ip: Ip, lo: int, hi: int): nat
    decreases |evs|
  {
    if evs == [] then 0 else Gain(t, m, evs[0], ip, lo, hi) + Granted(After(t, m, evs[0]), m, evs[1..], ip, lo, hi)
  }

  function WithoutSweeps(evs: seq<Event>): (r: seq<Event>)
    ensures forall i :: 0 <= i < |r| ==> r[i].Request?
  {
    if evs == [] then []
    else if evs[0].Request? then [evs[0]] + WithoutSweeps(evs[1..])
    else WithoutSweeps(evs[1..])
  }

  /** The trace without the requests of other addresses. */
  function OnlyFrom(evs: seq<Event>, ip: Ip): seq<Event> {
    if evs == [] then []
    else if evs[0].Request? && evs[0].ip != ip then OnlyFrom(evs[1..], ip)
    else [evs[0]] + OnlyFrom(evs[1..], ip)
  }

  // ----- the rate bound -----

  function Tokens(t: Table, ip: Ip): nat {
    if ip in t && t[ip].tokens > 0 then t[ip].tokens else 0
  }

  function Cap(m: Limits): nat {
    if m.rate > 0 then m.rate else 0
  }

  /** Refills come at least `period` apart: the window always, and no sweep evicts a bucket sooner. */
  predicate Spaced(m: Limits, evs: seq<Event>, period: int) {
    0 < period <= m.window && (period <= HOUR + 1 || forall i :: 0 <= i < |evs| ==> evs[i].Request?)
  }

  /** No request of `ip` can be served by a fresh allowance before time `s`. */
  predicate NoRefillBefore(t: Table, evs: seq<Event>, ip: Ip, period: int, s: int) {
    (ip in t && s <= t[ip].lastRefill + period) || forall i :: 0 <= i < |evs| ==> s <= evs[i].Begins()
  }

  lemma {:induction false} NothingAfter(t: Table, m: Limits, evs: seq<Event>, ip: Ip, lo: int, hi: int)
    requires forall i :: 0 <= i < |evs| ==> hi <= evs[i].now
    ensures Granted(t, m, evs, ip, lo, hi) == 0
    decreases |evs|
  {
    if evs == [] {
    } else {
      assert forall i :: 0 <= i < |evs[1..]| ==> evs[1..][i] == evs[i + 1];
      NothingAfter(After(t, m, evs[0]), m, evs[1..], ip, lo, hi);
    }
  }

  /** The event is a request of `ip` that is served by a fresh allowance. */
  predicate Refills(t: Table, m: Limits, e: Event, ip: Ip) {
    e.Request? && e.ip == ip && (ip !in t || e.now - t[ip].lastRefill >= m.window)
  }

  lemma GainPaid(t: Table, m: Limits, e: Event, ip: Ip, lo: int, hi: int)
    ensures Tokens(After(t, m, e), ip) + Gain(t, m, e, ip, lo, hi) <= if Refills(t, m, e, ip) then Cap(m) else Tokens(t, ip)
  {
  }

  lemma StillNoRefill(t: Table, m: Limits, evs: seq<Event>, ip: Ip, period: int, s: int)
    requires evs != [] && Ordered(evs) && Spaced(m, evs, period) && NoRefillBefore(t, evs, ip, period, s)
    ensures Ordered(evs[1..]) && Spaced(m, evs[1..], period)
    ensures if Refills(t, m, evs[0], ip) then
              var t' := After(t, m, evs[0]);
              && ip in t' && s <= t'[ip].lastRefill <= evs[0].now
              && NoRefillBefore(t', evs[1..], ip, period, t'[ip].lastRefill + period)
            else
              NoRefillBefore(After(t, m, evs[0]), evs[1..], ip, period, s)
  {
    assert forall i :: 0 <= i < |evs[1..]| ==> evs[1..][i] == evs[i + 1];
  }

  /** What is left in the bucket, and one full allowance for each of the at most `k` refills before `hi`. */
  lemma {:induction false} Budget(t: Table, m: Limits, evs: seq<Event>, ip: Ip, period: int, lo: int, hi: int, s: int, k: nat)
    requires Ordered(evs) && Spaced(m, evs, period)
    requires NoRefillBefore(t, evs, ip, period, s) && hi <= s + k * period
    ensures Granted(t, m, evs, ip, lo, hi) <= Tokens(t, ip) + k * Cap(m)
    decreases |evs|
  {
    if evs == [] {
    } else {
      var e, rest := evs[0], evs[1..];
      var t' := After(t, m, e);
      GainPaid(t, m, e, ip, lo, hi);
      StillNoRefill(t, m, evs, ip, period, s);
      if e.now >= hi {
        NothingAfter(t, m, evs, ip, lo, hi);
      } else if Refills(t, m, e, ip) {
        assert k > 0;
        assert (k - 1) * period == k * period - period;
        Budget(t', m, rest, ip, period, lo, hi, t'[ip].lastRefill + period, k - 1);
        assert (k - 1) * Cap(m) == k * Cap(m) - Cap(m);
      } else {
        Budget(t', m, rest, ip, period, lo, hi, s, k);
      }
    }
  }

  /** No bucket holds more than a full allowance, less the request it has served. */
  predicate Used(t: Table, m: Limits) {
    forall ip :: ip in t ==> t[ip].tokens <= if m.rate > 0 then m.rate - 1 else 0
  }

  lemma RestSpaced(t: Table, m: Limits, evs: seq<Event>, ip: Ip, period: int, lo: int, hi: int)
    requires evs != [] && Ordered(evs) && Spaced(m, evs, period) && Used(t, m)
    ensures Ordered(evs[1..]) && Spaced(m, evs[1..], period) && Used(After(t, m, evs[0]), m)
    ensures evs[0].now < lo ==> Gain(t, m, evs[0], ip, lo, hi) == 0
    ensures lo <= evs[0].now ==>
              NoRefillBefore(After(t, m, evs[0]), evs[1..], ip, period, lo)
              && Tokens(After(t, m, evs[0]), ip) + Gain(t, m, evs[0], ip, lo, hi) <= Cap(m)
  {
    assert forall i :: 0 <= i < |evs[1..]| ==> evs[1..][i] == evs[i + 1];
    GainPaid(t, m, evs[0], ip, lo, hi);
  }

  lemma {:induction false} RateBoundFrom(t: Table, m: Limits, evs: seq<Event>, ip: Ip, period: int, lo: int, k: nat)
    requires Ordered(evs) && Spaced(m, evs, period) && Used(t, m)
    ensures Granted(t, m, evs, ip, lo, lo + k * period) <= (k + 1) * Cap(m)
    decreases |evs|
  {
    assert (k + 1) * Cap(m) == k * Cap(m) + Cap(m);
    if evs == [] {
    } else {
      var e, rest, hi := evs[0], evs[1..], lo + k * period;
      RestSpaced(t, m, evs, ip, period, lo, hi);
      if e.now < lo {
        RateBoundFrom(After(t, m, e), m, rest, ip, period, lo, k);
      } else {
        Budget(After(t, m, e), m, rest, ip, period, lo, hi, lo, k);
      }
    }
  }

  /** Over every trace, one address gets at most `(k + 1) * rate` requests through in any half-open interval of `k`
      periods.  The period is the window; only a sweeping limiter whose window exceeds an hour has the shorter period
      after which a bucket may be evicted. */
  lemma RateBound(m: Limits, evs: seq<Event>, ip: Ip, period: int, lo: int, k: nat)
    requires Ordered(evs) && Spaced(m, evs, period) && k >= 1
    ensures Granted(map[], m, evs, ip, lo, lo + k * period) <= (k + 1) * Cap(m)
  {
    RateBoundFrom(map[], m, evs, ip, period, lo, k);
  }

  /** `n` requests at one instant. */
  function Burst(ip: Ip, n: nat, now: int): seq<Event> {
    seq(n, i => Request(ip, now, now))
  }

  function Then(e: Event, rest: seq<Event>): (evs: seq<Event>)
    ensures |evs| > 0 && evs[0] == e && evs[1..] == rest
  {
    [e] + rest
  }

  /** `n` requests at one instant, the first of which may bring the refill; then the rest. */
  function Spend(ip: Ip, n: nat, now: int, tail: seq<Event>): (evs: seq<Event>)
    requires n > 0
    ensures |evs| > 0 && evs[0] == Request(ip, now, now) && evs[1..] == Burst(ip, n - 1, now) + tail
  {
    Then(Request(ip, now, now), Burst(ip, n - 1, now) + tail)
  }

  lemma {:induction false} BurstDrains(m: Limits, ip: Ip, n: nat, now: int, last: int, tail: seq<Event>, lo: int, hi: int)
    requires now - last < m.window && lo <= now < hi
    ensures Granted(map[ip := BucketView(n, last)], m, Burst(ip, n, now) + tail, ip, lo, hi)
            == n + Granted(map[ip := BucketView(0, last)], m, tail, ip, lo, hi)
    ensures Decisions(map[ip := BucketView(n, last)], m, Burst(ip, n, now) + tail)
            == seq(n, i => true) + Decisions(map[ip := BucketView(0, last)], m, tail)
  {
    var t := map[ip := BucketView(n, last)];
    if n == 0 {
      assert Burst(ip, n, now) + tail == tail;
    } else {
      var evs := Burst(ip, n, now) + tail;
      assert evs[1..] == Burst(ip, n - 1, now) + tail;
      assert After(t, m, evs[0]) == map[ip := BucketView(n - 1, last)];
      BurstDrains(m, ip, n - 1, now, last, tail, lo, hi);
    }
  }

  /** `n` times `step`. */
  function Span(step: int, n: nat): int {
    if n == 0 then 0 else step + Span(step, n - 1)
  }

  lemma {:induction false} SpanIs(step: int, n: nat)
    ensures Span(step, n) == n * step
  {
    if n == 0 {
    } else {
      SpanIs(step, n - 1);
    }
  }

  /** A full burst at each of `n` refills, the first of them at `from`. */
  function Bursts(m: Limits, ip: Ip, from: int, n: nat): seq<Event>
    requires m.rate > 0
    decreases n
  {
    if n == 0 then [] else Spend(ip, m.rate, from, Bursts(m, ip, from + m.window, n - 1))
  }

  lemma {:induction false} BurstsGranted(m: Limits, ip: Ip, from: int, n: nat, lo: int, hi: int)
    requires m.rate > 0 && m.window > 0 && lo <= from && from + Span(m.window, n) < hi + m.window
    ensures Granted(map[ip := BucketView(0, from - m.window)], m, Bursts(m, ip, from, n), ip, lo, hi) == Span(m.rate, n)
    decreases n
  {
    if n == 0 {
    } else {
      var t, evs := map[ip := BucketView(0, from - m.window)], Bursts(m, ip, from, n);
      var tail := Bursts(m, ip, from + m.window, n - 1);
      SpanNonNegative(m.window, n - 1);
      assert After(t, m, evs[0]) == map[ip := BucketView(m.rate - 1, from)];
      BurstDrains(m, ip, m.rate - 1, from, from, tail, lo, hi);
      BurstsGranted(m, ip, from + m.window, n - 1, lo, hi);
    }
  }

  lemma {:induction false} SpanNonNegative(step: int, n: nat)
    requires step > 0
    ensures Span(step, n) >= 0
  {
    if n == 0 {
    } else {
      SpanNonNegative(step, n - 1);
    }
  }

  /** Requests only, none before `from`, and the clock never runs backwards. */
  ghost predicate OrderedFrom(evs: seq<Event>, from: int)
    decreases |evs|
  {
    evs == [] ||
    (evs[0].Request? && from <= evs[0].seen <= evs[0].now && OrderedFrom(evs[1..], evs[0].now))
  }

  lemma {:induction false} OrderedFromIs(evs: seq<Event>, from: int)
    requires OrderedFrom(evs, from)
    ensures Ordered(evs) && forall i :: 0 <= i < |evs| ==> evs[i].Request? && from <= evs[i].Begins()
    decreases |evs|
  {
    if evs == [] {
    } else {
      OrderedFromIs(evs[1..], evs[0].now);
      assert forall i :: 1 <= i < |evs| ==> evs[i] == evs[1..][i - 1];
    }
  }

  lemma {:induction false} BurstOrdered(ip: Ip, n: nat, now: int, tail: seq<Event>)
    requires OrderedFrom(tail, now)
    ensures OrderedFrom(Burst(ip, n, now) + tail, now)
    decreases n
  {
    if n == 0 {
      assert Burst(ip, n, now) + tail == tail;
    } else {
      BurstOrdered(ip, n - 1, now, tail);
      assert (Burst(ip, n, now) + tail)[1..] == Burst(ip, n - 1, now) + tail;
    }
  }

  lemma {:induction false} BurstsOrdered(m: Limits, ip: Ip, from: int, n: nat)
    requires m.rate > 0 && m.window > 0
    ensures OrderedFrom(Bursts(m, ip, from, n), from)
    decreases n
  {
    if n == 0 {
    } else {
      var tail := Bursts(m, ip, from + m.window, n - 1);
      BurstsOrdered(m, ip, from + m.window, n - 1);
      assert OrderedFrom(tail, from);
      BurstOrdered(ip, m.rate - 1, from, tail);
    }
  }

  /** A first request whose bucket is created just before it is used, the rest of that allowance, and a burst at each
      refill. */
  function Greedy(m: Limits, ip: Ip, k: nat): (evs: seq<Event>)
    requires m.rate > 0
    ensures |evs| > 0 && evs[0] == Request(ip, 0, 1) && evs[1..] == Burst(ip, m.rate - 1, 1) + Bursts(m, ip, m.window, k)
  {
    Then(Request(ip, 0, 1), Burst(ip, m.rate - 1, 1) + Bursts(m, ip, m.window, k))
  }

  lemma GreedySpaced(m: Limits, ip: Ip, k: nat)
    requires m.rate > 0 && m.window > 1
    ensures Ordered(Greedy(m, ip, k)) && Spaced(m, Greedy(m, ip, k), m.window)
  {
    var tail := Bursts(m, ip, m.window, k);
    BurstsOrdered(m, ip, m.window, k);
    assert OrderedFrom(tail, 1);
    BurstOrdered(ip, m.rate - 1, 1, tail);
    OrderedFromIs(Greedy(m, ip, k), 0);
  }

  /** The bound is reached, for every number of periods. */
  lemma RateBoundTight(m: Limits, ip: Ip, k: nat)
    requires m.rate > 0 && m.window > 1 && k >= 1
    ensures Ordered(Greedy(m, ip, k)) && Spaced(m, Greedy(m, ip, k), m.window)
    ensures Granted(map[], m, Greedy(m, ip, k), ip, 1, 1 + k * m.window) == (k + 1) * m.rate
  {
    var tail, hi := Bursts(m, ip, m.window, k), 1 + Span(m.window, k);
    GreedySpaced(m, ip, k);
    SpanNonNegative(m.window, k);
    assert After(map[], m, Request(ip, 0, 1)) == map[ip := BucketView(m.rate - 1, 0)];
    assert 1 < hi by { SpanNonNegative(m.window, k - 1); }
    BurstDrains(m, ip, m.rate - 1, 1, 0, tail, 1, hi);
    BurstsGranted(m, ip, m.window, k, 1, hi);
    SpanIs(m.window, k);
    SpanIs(m.rate, k);
  }

  // ----- addresses are independent -----

  /** No other address's requests change what an address is answered. */
  lemma {:induction false} AddressesIndependent(t: Table, u: Table, m: Limits, evs: seq<Event>, ip: Ip)
    requires ip in t <==> ip in u
    requires ip in t ==> t[ip] == u[ip]
    ensures DecisionsFor(t, m, evs, ip) == DecisionsFor(u, m, OnlyFrom(evs, ip), ip)
    decreases |evs|
  {
    if evs == [] {
    } else {
      var e, rest := evs[0], OnlyFrom(evs[1..], ip);
      if e.Request? && e.ip != ip {
        AddressesIndependent(After(t, m, e), u, m, evs[1..], ip);
      } else {
        assert ([e] + rest)[1..] == rest;
        AddressesIndependent(After(t, m, e), After(u, m, e), m, evs[1..], ip);
      }
    }
  }

  // ----- eviction -----

  /** The evicting limiter's table `t` is simulated by the table `u` of one that never evicts: they agree
      wherever `t` has a bucket, and every bucket only `u` has is due for refill at all later events. */
  predicate Simulates(t: Table, u: Table, m: Limits, evs: seq<Event>) {
    && (forall ip :: ip in t ==> ip in u && t[ip] == u[ip])
    && (forall ip, i :: ip in u && ip !in t && 0 <= i < |evs| ==> evs[i].now - u[ip].lastRefill >= m.window)
  }

  /** The two readings of each request agree, or lie a whole window apart. */
  predicate Prompt(m: Limits, evs: seq<Event>) {
    forall i :: 0 <= i < |evs| && evs[i].Request? ==> evs[i].seen == evs[i].now || evs[i].now - evs[i].seen >= m.window
  }

  lemma {:induction false} SimulationDecides(t: Table, u: Table, m: Limits, evs: seq<Event>)
    requires Ordered(evs) && Prompt(m, evs) && Simulates(t, u, m, evs) && m.window <= HOUR + 1
    ensures Decisions(t, m, evs) == Decisions(u, m, WithoutSweeps(evs))
    decreases |evs|
  {
    if evs == [] {
    } else {
      var e, rest := evs[0], evs[1..];
      assert forall i :: 0 <= i < |rest| ==> rest[i] == evs[i + 1];
      if e.Request? {
        assert ([e] + WithoutSweeps(rest))[1..] == WithoutSweeps(rest);
        SimulationDecides(After(t, m, e), After(u, m, e), m, rest);
      } else {
        SimulationDecides(After(t, m, e), u, m, rest);
      }
    }
  }

  /** With no allowance at all, everything is refused. */
  lemma {:induction false} AllRefused(t: Table, m: Limits, evs: seq<Event>)
    requires Used(t, m) && m.rate <= 0
    ensures Decisions(t, m, evs) == seq(|WithoutSweeps(evs)|, i => false)
    decreases |evs|
  {
    if evs == [] {
    } else {
      AllRefused(After(t, m, evs[0]), m, evs[1..]);
    }
  }

  lemma {:induction false} SweepsIdempotent(evs: seq<Event>)
    ensures WithoutSweeps(WithoutSweeps(evs)) == WithoutSweeps(evs)
  {
    if evs == [] {
    } else {
      var rest := WithoutSweeps(evs[1..]);
      SweepsIdempotent(evs[1..]);
      if evs[0].Request? {
        assert ([evs[0]] + rest)[1..] == rest;
      }
    }
  }

  predicate Invisible(m: Limits, evs: seq<Event>) {
    Decisions(map[], m, evs) == Decisions(map[], m, WithoutSweeps(evs))
  }

  lemma {:induction false} BurstHasNoSweeps(ip: Ip, n: nat, now: int, tail: seq<Event>)
    ensures WithoutSweeps(Burst(ip, n, now) + tail) == Burst(ip, n, now) + WithoutSweeps(tail)
  {
    if n == 0 {
      assert Burst(ip, n, now) + tail == tail;
    } else {
      assert (Burst(ip, n, now) + tail)[1..] == Burst(ip, n - 1, now) + tail;
      BurstHasNoSweeps(ip, n - 1, now, tail);
      assert Burst(ip, n, now) == [Request(ip, now, now)] + Burst(ip, n - 1, now);
    }
  }

  lemma SpendHasNoSweeps(n: nat, now: int, tail: seq<Event>)
    requires n > 0
    ensures WithoutSweeps(Spend("", n, now, tail)) == Spend("", n, now, WithoutSweeps(tail))
  {
    BurstHasNoSweeps("", n - 1, now, tail);
  }

  lemma SpendDecides(m: Limits, now: int, tail: seq<Event>)
    requires m.window > 0 && m.rate > 0
    ensures Decisions(map[], m, Spend("", m.rate, now, tail))
            == [true] + seq(m.rate - 1, i => true) + Decisions(map["" := BucketView(0, now)], m, tail)
  {
    assert After(map[], m, Request("", now, now)) == map["" := BucketView(m.rate - 1, now)];
    BurstDrains(m, "", m.rate - 1, now, now, tail, now, now + 1);
  }

  // ----- windows of more than an hour -----

  /** A drained address that comes back after an hour, when it has been swept but is not due for refill. */
  function ReturnTooEarly(m: Limits): seq<Event>
    requires m.rate > 0
  {
    Spend("", m.rate, 0, [Sweep(HOUR + 1), Request("", HOUR + 1, HOUR + 1)])
  }

  /** What the address is answered in the end: it gets through only after the sweep. */
  lemma ReturnAnswers(m: Limits)
    requires m.window > HOUR + 1 && m.rate > 0
    ensures var late := Request("", HOUR + 1, HOUR + 1);
            var drained := map["" := BucketView(0, 0)];
            && Decisions(drained, m, [Sweep(HOUR + 1), late]) == [true]
            && Decisions(drained, m, [late]) == [false]
            && WithoutSweeps([Sweep(HOUR + 1), late]) == [late]
  {
    var late, drained := Request("", HOUR + 1, HOUR + 1), map["" := BucketView(0, 0)];
    assert After(drained, m, Sweep(HOUR + 1)) == map[];
    assert [Sweep(HOUR + 1), late][1..] == [late] && [late][1..] == [];
    assert Decisions(map[], m, [late]) == [true] + Decisions(After(map[], m, late), m, []);
    assert Decisions(drained, m, [late]) == [false] + Decisions(After(drained, m, late), m, []);
    assert WithoutSweeps([late]) == [late] + WithoutSweeps([]);
  }

  lemma EvictionShows(m: Limits)
    requires m.window > HOUR + 1 && m.rate > 0
    ensures !Invisible(m, ReturnTooEarly(m))
  {
    var n, late := m.rate - 1, Request("", HOUR + 1, HOUR + 1);
    var swept := [Sweep(HOUR + 1), late];
    ReturnAnswers(m);
    SpendHasNoSweeps(m.rate, 0, swept);
    SpendDecides(m, 0, swept);
    SpendDecides(m, 0, [late]);
    var answers := [true] + seq(n, i => true);
    assert (answers + [true])[n + 1] != (answers + [false])[n + 1];
  }

  lemma EarlyReturnIsPrompt(m: Limits)
    requires m.rate > 0
    ensures Ordered(ReturnTooEarly(m)) && Prompt(m, ReturnTooEarly(m))
  {
  }

  /** When the two readings of a request agree, the sweep of old buckets is never noticed exactly when the window is
      at most an hour and one tick of the clock, or nothing is allowed anyway. */
  lemma EvictionInvisibleIff(m: Limits)
    ensures (forall evs :: Ordered(evs) && Prompt(m, evs) ==> Invisible(m, evs)) <==>
              m.window <= 60 * 60 * 1_000_000_000 + 1 || m.rate <= 0
  {
    if m.window <= HOUR + 1 {
      forall evs | Ordered(evs) && Prompt(m, evs) ensures Invisible(m, evs) {
        SimulationDecides(map[], map[], m, evs);
      }
    } else if m.rate <= 0 {
      forall evs | Ordered(evs) && Prompt(m, evs) ensures Invisible(m, evs) {
        AllRefused(map[], m, evs);
        AllRefused(map[], m, WithoutSweeps(evs));
        SweepsIdempotent(evs);
      }
    } else {
      EarlyReturnIsPrompt(m);
      EvictionShows(m);
    }
  }

  // ----- two different readings -----

  /** A full burst just after the bucket's refill, and one request a window after that bucket was created. */
  function BackAgain(m: Limits): seq<Event>
    requires m.rate > 0
  {
    Burst("", m.rate - 1, HOUR + 2) + [Request("", HOUR + 1 + m.window, HOUR + 1 + m.window)]
  }

  /** An address that has been swept comes back.  Its new bucket is created a tick before it is used, so it is due for
      refill a tick before the bucket of a limiter that does not sweep. */
  function ReturnSlowly(m: Limits): seq<Event>
    requires m.rate > 0
  {
    Then(Request("", 0, 0), Then(Sweep(HOUR + 1), Return(m)))
  }

  function Return(m: Limits): seq<Event>
    requires m.rate > 0
  {
    Then(Request("", HOUR + 1, HOUR + 2), BackAgain(m))
  }

  lemma BackAgainAnswers(m: Limits, last: int)
    requires 2 <= m.window && m.rate > 0 && HOUR + 1 <= last <= HOUR + 2
    ensures Decisions(map["" := BucketView(m.rate - 1, last)], m, BackAgain(m))
            == seq(m.rate - 1, i => true) + [last == HOUR + 1]
  {
    var late, empty := Request("", HOUR + 1 + m.window, HOUR + 1 + m.window), map["" := BucketView(0, last)];
    BurstDrains(m, "", m.rate - 1, HOUR + 2, last, [late], HOUR + 2, HOUR + 3);
    assert [late][1..] == [];
    assert Decisions(empty, m, [late]) == [last == HOUR + 1] + Decisions(After(empty, m, late), m, []);
  }

  lemma ReturnDecides(m: Limits, t: Table)
    requires 2 <= m.window && m.rate > 0
    requires t == map[] || (m.window <= HOUR + 1 && exists n :: t == map["" := BucketView(n, 0)])
    ensures Decisions(t, m, Return(m)) == [true] + (seq(m.rate - 1, i => true) + [t == map[]])
  {
    var last := if t == map[] then HOUR + 1 else HOUR + 2;
    assert After(t, m, Return(m)[0]) == map["" := BucketView(m.rate - 1, last)];
    BackAgainAnswers(m, last);
  }

  lemma SlowReturnSwept(m: Limits)
    requires 2 <= m.window && m.rate > 0
    ensures Decisions(map[], m, ReturnSlowly(m)) == [true] + Decisions(map[], m, Return(m))
  {
    var used, evs := map["" := BucketView(m.rate - 1, 0)], ReturnSlowly(m);
    assert After(map[], m, evs[0]) == used;
    assert Decisions(used, m, evs[1..]) == Decisions(After(used, m, Sweep(HOUR + 1)), m, Return(m));
    assert After(used, m, Sweep(HOUR + 1)) == map[];
  }

  lemma SlowReturnKept(m: Limits)
    requires 2 <= m.window && m.rate > 0
    ensures Decisions(map[], m, WithoutSweeps(ReturnSlowly(m)))
            == [true] + Decisions(map["" := BucketView(m.rate - 1, 0)], m, Return(m))
  {
    SlowReturnWithoutSweeps(m);
    assert After(map[], m, Request("", 0, 0)) == map["" := BucketView(m.rate - 1, 0)];
  }

  lemma SlowReturnWithoutSweeps(m: Limits)
    requires m.rate > 0
    ensures WithoutSweeps(ReturnSlowly(m)) == Then(Request("", 0, 0), Return(m))
  {
    var late := [Request("", HOUR + 1 + m.window, HOUR + 1 + m.window)];
    BurstHasNoSweeps("", m.rate - 1, HOUR + 2, late);
    assert WithoutSweeps(late) == late;
    assert WithoutSweeps(ReturnSlowly(m)[1..]) == WithoutSweeps(Return(m));
  }

  lemma SlowReturnOrdered(m: Limits)
    requires 2 <= m.window && m.rate > 0
    ensures Ordered(ReturnSlowly(m))
  {
  }

  lemma SlowReturnShows(m: Limits)
    requires 2 <= m.window <= HOUR + 1 && m.rate > 0
    ensures !Invisible(m, ReturnSlowly(m))
  {
    var used := map["" := BucketView(m.rate - 1, 0)];
    SlowReturnSwept(m);
    SlowReturnKept(m);
    ReturnDecides(m, map[]);
    ReturnDecides(m, used);
    assert used != map[];
    var bursts := seq(m.rate - 1, i => true);
    assert ([true] + ([true] + (bursts + [true])))[m.rate + 1] != ([true] + ([true] + (bursts + [false])))[m.rate + 1];
  }

  /** The source reads the clock again between creating a bucket and using it.  With the two readings as far apart as
      they like, sweeps go unnoticed exactly when every request refills its bucket or nothing is allowed anyway. */
  lemma EvictionAlwaysInvisibleIff(m: Limits)
    ensures (forall evs :: Ordered(evs) ==> Invisible(m, evs)) <==> m.window <= 1 || m.rate <= 0
  {
    if m.window <= 1 || m.rate <= 0 {
      EvictionInvisibleIff(m);
      forall evs | Ordered(evs) ensures Invisible(m, evs) {
        if m.rate <= 0 {
          AllRefused(map[], m, evs);
          AllRefused(map[], m, WithoutSweeps(evs));
          SweepsIdempotent(evs);
        } else {
          assert Prompt(m, evs);
        }
      }
    } else if m.window > HOUR + 1 {
      EarlyReturnIsPrompt(m);
      EvictionShows(m);
    } else {
      SlowReturnOrdered(m);
      SlowReturnShows(m);
    }
  }
}
