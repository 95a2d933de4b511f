/** The token-bucket limiter, one bucket per IP address.  Times are readings of one clock in nanoseconds. */
module RateLimiter {

  type Ip = string

  const HOUR: int := 3_600_000_000_000

  datatype BucketView = BucketView(tokens: int, lastRefill: int)

  type Table = map<Ip, BucketView>

  // ----- one request and one sweep, as functions -----

  function NewBucket(rate: int, now: int): BucketView {
    BucketView(rate, now)
  }

  function Refilled(b: BucketView, rate: int, window: int, now: int): BucketView {
    if now - b.lastRefill >= window then NewBucket(rate, now) else b
  }

  function Take(b: BucketView): BucketView {
    if b.tokens > 0 then b.(tokens := b.tokens - 1) else b
  }

  /** The bucket that serves a request.  The clock is read twice: at `seen` for a bucket that has to be created, and
      at `now` when the bucket is used. */
  function Serving(t: Table, rate: int, window: int, ip: Ip, seen: int, now: int): BucketView {
    Refilled(if ip in t then t[ip] else NewBucket(rate, seen), rate, window, now)
  }

  function Allowed(t: Table, rate: int, window: int, ip: Ip, seen: int, now: int): bool {
    Serving(t, rate, window, ip, seen, now).tokens > 0
  }

  function AfterRequest(t: Table, rate: int, window: int, ip: Ip, seen: int, now: int): Table {
    t[ip := Take(Serving(t, rate, window, ip, seen, now))]
  }

  function AfterSweep(t: Table, now: int): Table {
    map ip | ip in t && now - t[ip].lastRefill <= HOUR :: t[ip]
  }

  // ----- the objects -----

  class Bucket {
    var tokens: int
    var lastRefill: int

    constructor (tokens: int, lastRefill: int)
      ensures View() == BucketView(tokens, lastRefill)
    {
      this.tokens, this.lastRefill := tokens, lastRefill;
    }

    ghost function View(): (v: BucketView)
      reads this
    {
      BucketView(tokens, lastRefill)
    }

    /** Refills when the window has passed, then takes a token if there is one. */
    method Serve(rate: int, window: int, now: int) returns (ok: bool)
      modifies this
      ensures ok == (Refilled(old(View()), rate, window, now).tokens > 0)
      ensures View() == Take(Refilled(old(View()), rate, window, now))
    {
      var elapsed := now - lastRefill;
      if elapsed >= window {
        tokens := rate;
        lastRefill := now;
      }
      ok := tokens > 0;
      if ok {
        tokens := tokens - 1;
      }
    }
  }

  class Limiter {
    var buckets: map<Ip, Bucket>
    const rate: int
    const window: int

    /** No two addresses share a bucket. */
    ghost predicate Valid()
      reads this
    {
      forall a, b :: a in buckets && b in buckets && a != b ==> buckets[a] != buckets[b]
    }

    ghost function Contents(): (t: Table)
      reads this, buckets.Values
    {
      map ip | ip in buckets :: buckets[ip].View()
    }

    constructor (rate: int, window: int)
      ensures Valid() && Contents() == map[] && this.rate == rate && this.window == window
    {
      buckets, this.rate, this.window := map[], rate, window;
    }

    /** The bucket of an address, created full on its first request. */
    method BucketOf(ip: Ip, now: int) returns (b: Bucket)
      requires Valid()
      modifies this
      ensures Valid() && fresh(buckets.Values - old(buckets.Values))
      ensures ip in buckets && b == buckets[ip]
      ensures Contents() == if ip in old(Contents()) then old(Contents()) else old(Contents())[ip := NewBucket(rate, now)]
    {
      if ip !in buckets {
        b := new Bucket(rate, now);
        buckets := buckets[ip := b];
      } else {
        b := buckets[ip];
      }
    }

    /** `seen` and `now` are the two readings of the clock. */
    method Allow(ip: Ip, seen: int, now: int) returns (ok: bool)
      requires Valid()
      modifies this, buckets.Values
      ensures Valid() && fresh(buckets.Values - old(buckets.Values))
      ensures ok == Allowed(old(Contents()), rate, window, ip, seen, now)
      ensures Contents() == AfterRequest(old(Contents()), rate, window, ip, seen, now)
    {
      var b := BucketOf(ip, seen);
      ghost var before := Contents();
      assert b.View() == before[ip];
      ok := b.Serve(rate, window, now);
      assert Contents() == before[ip := b.View()] == old(Contents())[ip := b.View()];
    }

    /** One firing of the cleanup ticker. */
    method Sweep(now: int)
      requires Valid()
      modifies this
      ensures Valid() && buckets.Values <= old(buckets.Values)
      ensures Contents() == AfterSweep(old(Contents()), now)
    {
      var todo := buckets.Keys;
      while todo != {}
        invariant todo <= old(buckets.Keys) && buckets.Keys <= old(buckets.Keys)
        invariant forall ip :: ip in buckets ==> buckets[ip] == old(buckets)[ip]
        invariant forall ip :: ip in old(buckets) ==>
          (ip in buckets <==> ip in todo || now - old(buckets)[ip].lastRefill <= HOUR)
      {
        var ip :| ip in todo;
        todo := todo - {ip};
        if now - buckets[ip].lastRefill > HOUR {
          buckets := buckets - {ip};
        }
      }
    }
  }
}
