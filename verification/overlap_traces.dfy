/** Request traces of a limiter in which the two sections of a request are apart: it finds its bucket in the table, or
    puts one there, and uses it later, when other requests and sweeps may have come in between. */
module OverlapTraces {
  import opened RateLimiter
  import opened RateTraces

  /** A request finds its bucket, or creates it; a request that has found a bucket uses it; old buckets are swept. */
  datatype Step = Find(ip: Ip, now: int) | Use(bucket: nat, now: int) | Clean(now: int)

  datatype Owned = Owned(ip: Ip, view: BucketView)

  /** All buckets ever created, the table, and what the requests under way have found. */
  datatype State = State(buckets: seq<Owned>, table: map<Ip, nat>, found: multiset<nat>)

  const Empty := State([], map[], multiset{})

  predicate Sound(s: State) {
    forall ip :: ip in s.table ==> s.table[ip] < |s.buckets| && s.buckets[s.table[ip]].ip == ip
  }

  predicate Listed(s: State, ip: Ip) {
    ip in s.table && s.table[ip] < |s.buckets|
  }

  function Contents(s: State): Table {
    map ip | ip in s.table && Listed(s, ip) :: s.buckets[s.table[ip]].view
  }

  function Served(s: State, m: Limits, b: nat, now: int): BucketView
    requires b < |s.buckets|
  {
    Refilled(s.buckets[b].view, m.rate, m.window, now)
  }

  predicate Possible(s: State, st: Step) {
    st.Use? ==> st.bucket in s.found && st.bucket < |s.buckets|
  }

  function Lookup(s: State, m: Limits, ip: Ip, now: int): State {
    if ip in s.table then s.(found := s.found + multiset{s.table[ip]})
    else
      var b := |s.buckets|;
      State(s.buckets + [Owned(ip, NewBucket(m.rate, now))], s.table[ip := b], s.found + multiset{b})
  }

  function Spent(s: State, m: Limits, b: nat, now: int): State
    requires b < |s.buckets|
  {
    s.(buckets := s.buckets[b := s.buckets[b].(view := Take(Served(s, m, b, now)))], found := s.found - multiset{b})
  }

  function Swept(s: State, now: int): State {
    s.(table := map ip | ip in s.table && Listed(s, ip) && now - s.buckets[s.table[ip]].view.lastRefill <= HOUR :: s.table[ip])
  }

  function Do(s: State, m: Limits, st: Step): State
    requires Possible(s, st)
  {
    match st
    case Find(ip, now) => Lookup(s, m, ip, now)
    case Use(b, now) => Spent(s, m, b, now)
    case Clean(now) => Swept(s, now)
  }

  lemma StaysSound(s: State, m: Limits, st: Step)
    requires Sound(s) && Possible(s, st)
    ensures Sound(Do(s, m, st))
  {
  }

  /** The steps can happen one after the other, and the clock does not run backwards. */
  predicate IsTrace(s: State, m: Limits, steps: seq<Step>, from: int)
    decreases |steps|
  {
    steps == [] ||
    (Possible(s, steps[0]) && from <= steps[0].now && IsTrace(Do(s, m, steps[0]), m, steps[1..], steps[0].now))
  }

  // ----- a request without overlap -----

  /** Finding and using with nothing in between is one request of the limiter. */
  lemma RequestIsFindThenUse(s: State, m: Limits, ip: Ip, seen: int, now: int)
    requires Sound(s)
    ensures var s' := Do(s, m, Find(ip, seen));
      && ip in s'.table && Possible(s', Use(s'.table[ip], now))
      && Contents(Do(s', m, Use(s'.table[ip], now))) == AfterRequest(Contents(s), m.rate, m.window, ip, seen, now)
      && (Served(s', m, s'.table[ip], now).tokens > 0 <==> Allowed(Contents(s), m.rate, m.window, ip, seen, now))
  {
    var s' := Do(s, m, Find(ip, seen));
    StaysSound(s, m, Find(ip, seen));
    FindIsLookup(s, m, ip, seen);
    UseIsServe(s', m, ip, now);
  }

  lemma FindIsLookup(s: State, m: Limits, ip: Ip, seen: int)
    requires Sound(s)
    ensures var s', t := Lookup(s, m, ip, seen), Contents(s);
      && Listed(s', ip) && s'.table[ip] in s'.found
      && Contents(s') == if ip in t then t else t[ip := NewBucket(m.rate, seen)]
  {
  }

  lemma UseIsServe(s: State, m: Limits, ip: Ip, now: int)
    requires Sound(s) && Listed(s, ip)
    ensures Contents(Spent(s, m, s.table[ip], now)) == Contents(s)[ip := Take(Served(s, m, s.table[ip], now))]
  {
  }

  lemma CleanIsSweep(s: State, m: Limits, now: int)
    requires Sound(s)
    ensures Contents(Do(s, m, Clean(now))) == AfterSweep(Contents(s), now)
  {
  }

  // ----- who is allowed -----

  /** A request of `ip` at a time in [lo, hi) is allowed. */
  predicate Grants(s: State, m: Limits, st: Step, ip: Ip, lo: int, hi: int) {
    && st.Use? && st.bucket < |s.buckets| && s.buckets[st.bucket].ip == ip
    && lo <= st.now < hi && Served(s, m, st.bucket, st.now).tokens > 0
  }

  /** The bucket has been swept out of the table of `ip` since the request found it. */
  predicate Stranded(s: State, st: Step, ip: Ip) {
    st.Use? && !(ip in s.table && s.table[ip] == st.bucket)
  }

  function One(b: bool): nat {
    if b then 1 else 0
  }

  /** How many requests of `ip` at times in [lo, hi) are allowed, */
  function Allowances(s: State, m: Limits, steps: seq<Step>, ip: Ip, lo: int, hi: int): nat
    decreases |steps|
  {
    if steps == [] || !Possible(s, steps[0]) then 0
    else One(Grants(s, m, steps[0], ip, lo, hi)) + Allowances(Do(s, m, steps[0]), m, steps[1..], ip, lo, hi)
  }

  /** and how many of them on a stranded bucket. */
  function StrandedAllowances(s: State, m: Limits, steps: seq<Step>, ip: Ip, lo: int, hi: int): nat
    decreases |steps|
  {
    if steps == [] || !Possible(s, steps[0]) then 0
    else One(Grants(s, m, steps[0], ip, lo, hi) && Stranded(s, steps[0], ip))
         + StrandedAllowances(Do(s, m, steps[0]), m, steps[1..], ip, lo, hi)
  }

  /** The others use the bucket in the table. */
  function CurrentAllowances(s: State, m: Limits, steps: seq<Step>, ip: Ip, lo: int, hi: int): nat
    decreases |steps|
  {
    if steps == [] || !Possible(s, steps[0]) then 0
    else One(Grants(s, m, steps[0], ip, lo, hi) && !Stranded(s, steps[0], ip))
         + CurrentAllowances(Do(s, m, steps[0]), m, steps[1..], ip, lo, hi)
  }

  lemma {:induction false} CurrentOrStranded(s: State, m: Limits, steps: seq<Step>, ip: Ip, lo: int, hi: int)
    ensures Allowances(s, m, steps, ip, lo, hi)
            == CurrentAllowances(s, m, steps, ip, lo, hi) + StrandedAllowances(s, m, steps, ip, lo, hi)
    decreases |steps|
  {
    if steps == [] || !Possible(s, steps[0]) {
    } else {
      CurrentOrStranded(Do(s, m, steps[0]), m, steps[1..], ip, lo, hi);
    }
  }

  // ----- the bound -----

  /** What is left in the bucket of `ip`. */
  function Left(s: State, ip: Ip): nat {
    if Listed(s, ip) && s.buckets[s.table[ip]].view.tokens > 0 then s.buckets[s.table[ip]].view.tokens else 0
  }

  predicate Sweepless(steps: seq<Step>)
    decreases |steps|
  {
    steps == [] || (!steps[0].Clean? && Sweepless(steps[1..]))
  }

  /** Refills of the bucket in the table come at least `period` apart. */
  predicate Apart(m: Limits, steps: seq<Step>, period: int) {
    0 < period <= m.window && (period <= HOUR + 1 || Sweepless(steps))
  }

  /** The address gets a fresh allowance. */
  predicate Fresh(s: State, m: Limits, st: Step, ip: Ip) {
    || (st.Find? && st.ip == ip && ip !in s.table)
    || (st.Use? && Listed(s, ip) && s.table[ip] == st.bucket
        && st.now - s.buckets[st.bucket].view.lastRefill >= m.window)
  }

  /** No fresh allowance can come before `t` if the next step comes at `from` or later. */
  predicate NoneBefore(s: State, ip: Ip, period: int, from: int, t: int) {
    t <= from || (Listed(s, ip) && t <= s.buckets[s.table[ip]].view.lastRefill + period)
  }

  lemma Paid(s: State, m: Limits, st: Step, ip: Ip, lo: int, hi: int)
    requires Sound(s) && Possible(s, st)
    ensures Left(Do(s, m, st), ip) + One(Grants(s, m, st, ip, lo, hi) && !Stranded(s, st, ip))
            <= if Fresh(s, m, st, ip) then Cap(m) else Left(s, ip)
  {
  }

  lemma StillNone(s: State, m: Limits, st: Step, ip: Ip, period: int, from: int, t: int)
    requires Sound(s) && Possible(s, st) && from <= st.now && 0 < period <= m.window
    requires (st.Clean? ==> period <= HOUR + 1) && NoneBefore(s, ip, period, from, t)
    ensures var s' := Do(s, m, st);
      if Fresh(s, m, st, ip) then t <= st.now && NoneBefore(s', ip, period, st.now, st.now + period)
      else NoneBefore(s', ip, period, st.now, t)
  {
  }

  lemma {:induction false} NoneAfter(s: State, m: Limits, steps: seq<Step>, ip: Ip, lo: int, hi: int, from: int)
    requires IsTrace(s, m, steps, from) && hi <= from
    ensures CurrentAllowances(s, m, steps, ip, lo, hi) == 0
    decreases |steps|
  {
    if steps == [] {
    } else {
      NoneAfter(Do(s, m, steps[0]), m, steps[1..], ip, lo, hi, steps[0].now);
    }
  }

  lemma {:induction false} BudgetHolds(s: State, m: Limits, steps: seq<Step>, ip: Ip, period: int, lo: int, hi: int,
                                       from: int, t: int, k: nat)
    requires Sound(s) && IsTrace(s, m, steps, from) && Apart(m, steps, period)
    requires NoneBefore(s, ip, period, from, t) && hi <= t + k * period
    ensures CurrentAllowances(s, m, steps, ip, lo, hi) <= Left(s, ip) + k * Cap(m)
    decreases |steps|
  {
    if steps == [] {
    } else {
      var st, rest := steps[0], steps[1..];
      var s' := Do(s, m, st);
      Paid(s, m, st, ip, lo, hi);
      StillNone(s, m, st, ip, period, from, t);
      StaysSound(s, m, st);
      if hi <= st.now {
        NoneAfter(s', m, rest, ip, lo, hi, st.now);
      } else if Fresh(s, m, st, ip) {
        assert k > 0;
        assert (k - 1) * period == k * period - period && (k - 1) * Cap(m) == k * Cap(m) - Cap(m);
        BudgetHolds(s', m, rest, ip, period, lo, hi, st.now, st.now + period, k - 1);
      } else {
        BudgetHolds(s', m, rest, ip, period, lo, hi, st.now, t, k);
      }
    }
  }

  lemma {:induction false} CurrentBound(s: State, m: Limits, steps: seq<Step>, ip: Ip, period: int, lo: int, k: nat, from: int)
    requires Sound(s) && IsTrace(s, m, steps, from) && Apart(m, steps, period) && Left(s, ip) <= Cap(m)
    ensures CurrentAllowances(s, m, steps, ip, lo, lo + k * period) <= (k + 1) * Cap(m)
    decreases |steps|
  {
    assert (k + 1) * Cap(m) == k * Cap(m) + Cap(m);
    if steps == [] {
    } else {
      var st, rest, hi := steps[0], steps[1..], lo + k * period;
      var s' := Do(s, m, st);
      Paid(s, m, st, ip, lo, hi);
      StaysSound(s, m, st);
      if st.now < lo {
        CurrentBound(s', m, rest, ip, period, lo, k, st.now);
      } else {
        BudgetHolds(s', m, rest, ip, period, lo, hi, st.now, lo, k);
      }
    }
  }

  /** However requests overlap with each other and with sweeps, one address gets at most `(k + 1) * rate` requests
      through in any half-open interval of `k` periods, besides those that use a bucket swept since they found it. */
  lemma OverlapBound(m: Limits, steps: seq<Step>, ip: Ip, period: int, lo: int, k: nat, from: int)
    requires IsTrace(Empty, m, steps, from) && Apart(m, steps, period)
    ensures Allowances(Empty, m, steps, ip, lo, lo + k * period)
            <= (k + 1) * Cap(m) + StrandedAllowances(Empty, m, steps, ip, lo, lo + k * period)
  {
    CurrentBound(Empty, m, steps, ip, period, lo, k, from);
    CurrentOrStranded(Empty, m, steps, ip, lo, lo + k * period);
  }

  // ----- a request that is stranded -----

  /** One request a window, and a window of two ticks. */
  const Tight := Limits(1, 2)

  const Late := HOUR + 1

  /** From `s` the steps are a trace with so many allowances in two ticks after `Late`, so many of them stranded. */
  ghost predicate Yields(s: State, steps: seq<Step>, from: int, allowed: nat, stranded: nat) {
    && IsTrace(s, Tight, steps, from)
    && Allowances(s, Tight, steps, "", Late + 1, Late + 3) == allowed
    && StrandedAllowances(s, Tight, steps, "", Late + 1, Late + 3) == stranded
  }

  /** One more step in front, from `s` to `next`. */
  lemma YieldsMore(s: State, st: Step, next: State, rest: seq<Step>, from: int, allowed: nat, stranded: nat)
    requires Possible(s, st) && from <= st.now && Do(s, Tight, st) == next
    requires Yields(next, rest, st.now, allowed, stranded)
    ensures var grants := Grants(s, Tight, st, "", Late + 1, Late + 3);
      Yields(s, [st] + rest, from, allowed + One(grants), stranded + One(grants && Stranded(s, st, "")))
  {
    assert ([st] + rest)[1..] == rest;
  }

  function OneBucket(tokens: int, table: map<Ip, nat>, found: multiset<nat>): State {
    State([Owned("", BucketView(tokens, 0))], table, found)
  }

  /** The second bucket has taken the place of the first. */
  function TwoBuckets(first: BucketView, second: BucketView, found: multiset<nat>): State {
    State([Owned("", first), Owned("", second)], map["" := 1], found)
  }

  // The steps of one such trace, from the last back to the first, in front of what comes after.

  /** A request at the new bucket's refill. */
  lemma AtRefill(rest: seq<Step>)
    requires Yields(TwoBuckets(BucketView(0, Late + 1), BucketView(0, Late + 2), multiset{}), rest, Late + 2, 0, 0)
    ensures Yields(TwoBuckets(BucketView(0, Late + 1), BucketView(0, Late), multiset{}),
                   [Find("", Late + 2)] + ([Use(1, Late + 2)] + rest), Late + 1, 1, 0)
  {
    var s := TwoBuckets(BucketView(0, Late + 1), BucketView(0, Late), multiset{});
    var s1 := TwoBuckets(BucketView(0, Late + 1), BucketView(0, Late), multiset{1});
    var s2 := TwoBuckets(BucketView(0, Late + 1), BucketView(0, Late + 2), multiset{});
    YieldsMore(s1, Use(1, Late + 2), s2, rest, Late + 2, 0, 0);
    YieldsMore(s, Find("", Late + 2), s1, [Use(1, Late + 2)] + rest, Late + 1, 1, 0);
  }

  /** The request on the new bucket and then the stranded one. */
  lemma NewAndOld(rest: seq<Step>)
    requires Yields(TwoBuckets(BucketView(0, Late + 1), BucketView(0, Late), multiset{}), rest, Late + 1, 1, 0)
    ensures Yields(TwoBuckets(BucketView(0, 0), BucketView(1, Late), multiset{0, 1}),
                   [Use(1, Late + 1)] + ([Use(0, Late + 1)] + rest), Late, 3, 1)
  {
    var s := TwoBuckets(BucketView(0, 0), BucketView(1, Late), multiset{0, 1});
    var s1 := TwoBuckets(BucketView(0, 0), BucketView(0, Late), multiset{0});
    var s2 := TwoBuckets(BucketView(0, Late + 1), BucketView(0, Late), multiset{});
    YieldsMore(s1, Use(0, Late + 1), s2, rest, Late + 1, 1, 0);
    YieldsMore(s, Use(1, Late + 1), s1, [Use(0, Late + 1)] + rest, Late, 2, 1);
  }

  /** A sweep takes the bucket that a request has found, and the next request gets a new one. */
  lemma SweptAway(rest: seq<Step>)
    requires Yields(TwoBuckets(BucketView(0, 0), BucketView(1, Late), multiset{0, 1}), rest, Late, 3, 1)
    ensures Yields(OneBucket(0, map["" := 0], multiset{0}), [Clean(Late)] + ([Find("", Late)] + rest), Late, 3, 1)
  {
    var s, s1 := OneBucket(0, map["" := 0], multiset{0}), OneBucket(0, map[], multiset{0});
    var s2 := TwoBuckets(BucketView(0, 0), BucketView(1, Late), multiset{0, 1});
    YieldsMore(s1, Find("", Late), s2, rest, Late, 3, 1);
    YieldsMore(s, Clean(Late), s1, [Find("", Late)] + rest, Late, 3, 1);
  }

  /** A first request long ago. */
  lemma LongAgo(rest: seq<Step>)
    requires Yields(OneBucket(0, map["" := 0], multiset{}), rest, 0, 3, 1)
    ensures Yields(Empty, [Find("", 0)] + ([Use(0, 0)] + rest), 0, 3, 1)
  {
    var s1, s2 := OneBucket(1, map["" := 0], multiset{0}), OneBucket(0, map["" := 0], multiset{});
    YieldsMore(s1, Use(0, 0), s2, rest, 0, 3, 1);
    YieldsMore(Empty, Find("", 0), s1, [Use(0, 0)] + rest, 0, 3, 1);
  }

  /** Another request finds the bucket just before the sweep. */
  lemma JustBefore(rest: seq<Step>)
    requires Yields(OneBucket(0, map["" := 0], multiset{0}), rest, Late, 3, 1)
    ensures Yields(OneBucket(0, map["" := 0], multiset{}), [Find("", Late)] + rest, 0, 3, 1)
  {
    YieldsMore(OneBucket(0, map["" := 0], multiset{}), Find("", Late), OneBucket(0, map["" := 0], multiset{0}), rest, 0, 3, 1);
  }

  /** The bound of requests one after the other is two within one window.  Here the code allows three. */
  lemma OverlapExceeds() returns (steps: seq<Step>)
    ensures IsTrace(Empty, Tight, steps, 0) && Apart(Tight, steps, Tight.window)
    ensures Allowances(Empty, Tight, steps, "", Late + 1, Late + 1 + 1 * Tight.window) == (1 + 1) * Cap(Tight) + 1
    ensures StrandedAllowances(Empty, Tight, steps, "", Late + 1, Late + 1 + 1 * Tight.window) == 1
  {
    var last: seq<Step> := [];
    AtRefill(last);
    steps := [Find("", Late + 2)] + ([Use(1, Late + 2)] + last);
    NewAndOld(steps);
    steps := [Use(1, Late + 1)] + ([Use(0, Late + 1)] + steps);
    SweptAway(steps);
    steps := [Clean(Late)] + ([Find("", Late)] + steps);
    JustBefore(steps);
    steps := [Find("", Late)] + steps;
    LongAgo(steps);
    steps := [Find("", 0)] + ([Use(0, 0)] + steps);
  }
}
