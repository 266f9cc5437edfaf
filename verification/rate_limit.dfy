/** The in-memory limiter as the class it is, and the upsert of the database one. */
module RateLimit {
  import opened RateLimitModel

  class FixedWindowRateLimiter {
    var buckets: Buckets

    constructor ()
      ensures buckets == map[]
    {
      buckets := map[];
    }

    method Take(key: string, limit: int, windowSeconds: int, now: int) returns (allowed: bool)
      modifies this
      ensures (buckets, allowed) == RateLimitModel.Take(Anchored, old(buckets), key, limit, windowSeconds, now)
    {
      if limit < 1 {
        return false;
      }
      var window := windowSeconds * 1000;
      if key !in buckets || now - buckets[key].startedAt >= window {
        buckets := buckets[key := Bucket(now, 1)];
        return true;
      }
      if buckets[key].count >= limit {
        return false;
      }
      buckets := buckets[key := buckets[key].(count := buckets[key].count + 1)];
      return true;
    }
  }

  /** The table `rate_limit_buckets`; the upsert and its `RETURNING count` are one statement. */
  class D1FixedWindowRateLimiter {
    var rows: Buckets

    constructor ()
      ensures rows == map[]
    {
      rows := map[];
    }

    method Take(key: string, limit: int, windowSeconds: int, now: int) returns (allowed: bool)
      requires windowSeconds != 0
      modifies this
      ensures (rows, allowed) == RateLimitModel.Take(Aligned, old(rows), key, limit, windowSeconds, now)
    {
      if limit < 1 {
        return false;
      }
      var window := windowSeconds * 1000;
      var windowStartedAt := FloorTo(now, window);
      if key !in rows {
        rows := rows[key := Bucket(windowStartedAt, 1)];
      } else if rows[key].startedAt == windowStartedAt {
        rows := rows[key := rows[key].(count := rows[key].count + 1)];
      } else {
        rows := rows[key := Bucket(windowStartedAt, 1)];
      }
      return rows[key].count <= limit;
    }
  }
}
