/** The middleware object of middleware/ratelimit/ratelimit.go: buckets on the heap, updated in place. */
module Limiter {
  import opened Common
  import Decimal
  import Itoa
  import RateLimit

  class Bucket {
    var tokens: real
    var lastSeen: real

    constructor (tokens: real, lastSeen: real)
      ensures this.tokens == tokens && this.lastSeen == lastSeen
    {
      this.tokens := tokens;
      this.lastSeen := lastSeen;
    }

    ghost function Level(): RateLimit.Level
      reads this
    {
      RateLimit.Level(tokens, lastSeen)
    }

    method Decide(opts: RateLimit.Options, now: real) returns (admitted: bool)
      modifies this
      ensures (Level(), admitted) == RateLimit.Decide(opts, old(Level()), now)
    {
      var elapsed := now - lastSeen;
      tokens := tokens + elapsed * opts.refillRate;
      if tokens > opts.capacity {
        tokens := opts.capacity;
      }
      lastSeen := now;
      if tokens < 1.0 {
        return false;
      }
      tokens := tokens - 1.0;
      return true;
    }
  }

  class Middleware {
    const opts: RateLimit.Options
    var m: map<string, Bucket>

    /** No two keys share a bucket. */
    ghost predicate Valid()
      reads this
    {
      && RateLimit.Valid(opts)
      && Decimal.MIN_INT <= opts.retryAfter <= Decimal.MAX_INT
      && forall k, k' | k in m && k' in m && k != k' :: m[k] != m[k']
    }

    ghost function Table(): RateLimit.Table
      reads this, m.Values
    {
      map k | k in m :: m[k].Level()
    }

    constructor (opts: RateLimit.Options)
      requires Decimal.MIN_INT <= opts.retryAfter <= Decimal.MAX_INT
      ensures Valid() && this.opts == RateLimit.Normalize(opts)
      ensures Table() == map[]
    {
      this.opts := RateLimit.Normalize(opts);
      m := map[];
    }

    /** The bucket of a key, a full one for a key not seen before. */
    method BucketFor(key: string, now: real) returns (b: Bucket)
      requires Valid()
      modifies this
      ensures Valid() && fresh(m.Values - old(m.Values))
      ensures key in m && m[key] == b && (fresh(b) || b in old(m.Values))
      ensures Table() == if key in old(m) then old(Table())
                         else old(Table())[key := RateLimit.Level(opts.capacity, now)]
    {
      if key !in m {
        b := new Bucket(opts.capacity, now);
        assert forall k | k in m :: m[k] in m.Values && m[k] != b;
        m := m[key := b];
      }
      b := m[key];
      assert b in m.Values;
    }

    /** The section under the mutex: refill, cap, decide. */
    method Take(key: string, now: real) returns (admitted: bool)
      requires Valid()
      modifies this, m.Values
      ensures Valid() && fresh(m.Values - old(m.Values))
      ensures (Table(), admitted) == RateLimit.Handle(opts, old(Table()), RateLimit.Request(key, now))
    {
      ghost var before := Table();
      ghost var level := RateLimit.BucketOf(opts, Table(), RateLimit.Request(key, now));
      var b := BucketFor(key, now);
      ghost var full := Table();
      assert b.Level() == full[key] == level;
      admitted := b.Decide(opts, now);
      assert Table() == full[key := b.Level()] == before[key := b.Level()];
    }

    /** One request; a refusal carries the text of the Retry-After header. */
    method Handle(key: string, now: real) returns (admitted: bool, retryAfter: Option<string>)
      requires Valid()
      modifies this, m.Values
      ensures Valid() && fresh(m.Values - old(m.Values))
      ensures (Table(), admitted) == RateLimit.Handle(opts, old(Table()), RateLimit.Request(key, now))
      ensures retryAfter == if admitted then None else Some(Decimal.Text(RateLimit.RetrySeconds(opts)))
    {
      admitted := Take(key, now);
      ghost var after := Table();
      retryAfter := None;
      if !admitted {
        retryAfter := Itoa.Print(RateLimit.RetrySeconds(opts));
        assert Table() == after;
      }
    }
  }
}
