/**
 * The token bucket `RateLimitFilter.createBucket` configures: capacity `n` tokens and a
 * greedy refill of `n` tokens per minute, which adds tokens continuously, in proportion to
 * the time elapsed, up to the capacity.
 *
 * Fractions of a token are kept exactly by counting in units of 1 / 60 000 000 000 token:
 * a bucket of capacity `n` gains `n` units per elapsed nanosecond.
 */
module TokenBuckets {
  import opened JavaLang

  const NanosPerMinute: nat := 60_000_000_000

  /** `units` is the content in 1/NanosPerMinute tokens; `lastRefill` the last time refilled. */
  datatype TokenBucket = TokenBucket(capacity: nat, units: nat, lastRefill: Instant)

  /** A usable bucket: a positive capacity, and never more than `capacity` tokens. */
  predicate Valid(b: TokenBucket) {
    b.capacity > 0 && b.units <= b.capacity * NanosPerMinute
  }

  /** The whole tokens available. */
  function Tokens(b: TokenBucket): nat {
    b.units / NanosPerMinute
  }

  /** However long a bucket sits, it holds at most its capacity. */
  lemma TokensAtMostCapacity(b: TokenBucket)
    requires Valid(b)
    ensures Tokens(b) <= b.capacity
  {
  }

  /** Bucket4j builds a bucket full. */
  function NewBucket(capacity: nat, now: Instant): (b: TokenBucket)
    requires capacity > 0
    ensures Valid(b) && Tokens(b) == capacity && b.capacity == capacity && b.lastRefill == now
  {
    TokenBucket(capacity, capacity * NanosPerMinute, now)
  }

  function Min(a: int, b: int): int {
    if a <= b then a else b
  }

  function Max(a: int, b: int): int {
    if a <= b then b else a
  }

  /** Greedy refill at `now`: `capacity` tokens per minute elapsed since the last refill,
      capped at the capacity. A clock reading before the last refill adds nothing. */
  function Refill(b: TokenBucket, now: Instant): (r: TokenBucket)
    requires Valid(b)
    ensures Valid(r) && r.capacity == b.capacity
    ensures b.units <= r.units && r.lastRefill == Max(b.lastRefill, now)
  {
    var elapsed: nat := if now > b.lastRefill then now - b.lastRefill else 0;
    TokenBucket(b.capacity, Min(b.units + elapsed * b.capacity, b.capacity * NanosPerMinute), Max(b.lastRefill, now))
  }

  lemma MulMonotone(a: nat, b: nat, c: nat)
    requires a <= b
    ensures a * c <= b * c
  {
  }

  /** A minute after the last refill the bucket is full, whatever it held. */
  lemma FullAfterAMinute(b: TokenBucket, now: Instant)
    requires Valid(b) && now >= b.lastRefill + NanosPerMinute
    ensures Tokens(Refill(b, now)) == b.capacity
  {
    MulMonotone(NanosPerMinute, now - b.lastRefill, b.capacity);
    assert Refill(b, now).units == b.capacity * NanosPerMinute;
  }

  /** Waiting longer never leaves fewer tokens. */
  lemma RefillMonotone(b: TokenBucket, t1: Instant, t2: Instant)
    requires Valid(b) && t1 <= t2
    ensures Refill(b, t1).units <= Refill(b, t2).units
  {
    var e1: nat := if t1 > b.lastRefill then t1 - b.lastRefill else 0;
    var e2: nat := if t2 > b.lastRefill then t2 - b.lastRefill else 0;
    MulMonotone(e1, e2, b.capacity);
  }

  /** Refilling at `t1` and then at `t2` gives what one refill at `t2` gives: the content
      depends only on the time elapsed, not on how often the bucket was looked at. */
  lemma RefillComposes(b: TokenBucket, t1: Instant, t2: Instant)
    requires Valid(b) && b.lastRefill <= t1 <= t2
    ensures Refill(Refill(b, t1), t2) == Refill(b, t2)
  {
    var c := b.capacity;
    assert (t2 - b.lastRefill) * c == (t1 - b.lastRefill) * c + (t2 - t1) * c;
  }

  lemma DivBelow(u: nat, c: nat)
    requires u <= c * NanosPerMinute
    ensures u / NanosPerMinute <= c
  {
  }

  lemma DivAbove(u: nat, c: nat)
    requires u >= c * NanosPerMinute
    ensures u / NanosPerMinute >= c
  {
  }

  /** The greedy rate: after `elapsed` nanoseconds the bucket holds the whole tokens of its
      content plus `capacity` tokens per minute elapsed, but never more than `capacity`. */
  lemma RefillTokens(b: TokenBucket, now: Instant)
    requires Valid(b) && b.lastRefill <= now
    ensures Tokens(Refill(b, now)) ==
      Min(b.capacity, (b.units + (now - b.lastRefill) * b.capacity) / NanosPerMinute)
  {
    var u := b.units + (now - b.lastRefill) * b.capacity;
    if u <= b.capacity * NanosPerMinute {
      DivBelow(u, b.capacity);
    } else {
      DivAbove(u, b.capacity);
      assert (b.capacity * NanosPerMinute) / NanosPerMinute == b.capacity;
    }
  }

  /** The answer of `tryConsume(1)`, with the bucket as it is afterwards. */
  datatype ConsumeResult = ConsumeResult(admitted: bool, bucket: TokenBucket)

  /** `tryConsume(1)`: refill, then take one token if a whole one is there. */
  function TryConsume(b: TokenBucket, now: Instant): (r: ConsumeResult)
    requires Valid(b)
    ensures Valid(r.bucket) && r.bucket.capacity == b.capacity
    ensures r.admitted <==> Tokens(Refill(b, now)) >= 1
    ensures r.admitted ==> Tokens(r.bucket) == Tokens(Refill(b, now)) - 1
    ensures r.admitted ==> r.bucket.units == Refill(b, now).units - NanosPerMinute
    ensures r.bucket.lastRefill == Refill(b, now).lastRefill
    ensures !r.admitted ==> r.bucket == Refill(b, now)
  {
    var f := Refill(b, now);
    if f.units >= NanosPerMinute then ConsumeResult(true, f.(units := f.units - NanosPerMinute))
    else ConsumeResult(false, f)
  }

  /** A request is admitted exactly once the content plus the refill since the last refill
      make up one whole token. */
  lemma AdmittedIffWholeToken(b: TokenBucket, now: Instant)
    requires Valid(b) && b.lastRefill <= now
    ensures TryConsume(b, now).admitted <==> b.units + (now - b.lastRefill) * b.capacity >= NanosPerMinute
  {
    RefillTokens(b, now);
    var u := b.units + (now - b.lastRefill) * b.capacity;
    if u >= NanosPerMinute {
      DivAbove(u, 1);
    } else {
      assert u / NanosPerMinute == 0;
    }
  }

  /** A drained bucket of 100 tokens per minute gives its next token back 600 ms after its last
      refill, and not a nanosecond earlier. */
  lemma DrainedBucketRecovers(t: Instant)
    ensures TryConsume(TokenBucket(100, 0, t), t + 600_000_000).admitted
    ensures !TryConsume(TokenBucket(100, 0, t), t + 599_999_999).admitted
  {
    AdmittedIffWholeToken(TokenBucket(100, 0, t), t + 600_000_000);
    AdmittedIffWholeToken(TokenBucket(100, 0, t), t + 599_999_999);
  }

  /** `n` calls of `tryConsume(1)` at the same instant: how many were admitted, and the bucket after. */
  function Burst(b: TokenBucket, n: nat, now: Instant): (r: (nat, TokenBucket))
    requires Valid(b)
    ensures Valid(r.1) && r.1.capacity == b.capacity
    decreases n
  {
    if n == 0 then (0, b)
    else
      var c := TryConsume(b, now);
      var rest := Burst(c.bucket, n - 1, now);
      ((if c.admitted then 1 else 0) + rest.0, rest.1)
  }

  /** A burst at an instant no later than the last refill admits exactly as many requests as
      there are whole tokens, and rejects the rest. */
  lemma {:induction false} BurstAtLastRefill(b: TokenBucket, n: nat, now: Instant)
    requires Valid(b) && now <= b.lastRefill
    ensures Burst(b, n, now).0 == Min(n, Tokens(b))
    ensures Tokens(Burst(b, n, now).1) == Tokens(b) - Min(n, Tokens(b))
    decreases n
  {
    if n > 0 {
      var c := TryConsume(b, now);
      assert Refill(b, now) == b;
      BurstAtLastRefill(c.bucket, n - 1, now);
    }
  }

  /** Any burst, also one that comes after a pause: it admits as many requests as there are
      whole tokens once the bucket is refilled for the time elapsed, and takes that many. */
  lemma BurstAdmitsTokens(b: TokenBucket, n: nat, now: Instant)
    requires Valid(b)
    ensures Burst(b, n, now).0 == Min(n, Tokens(Refill(b, now)))
    ensures n > 0 ==> Tokens(Burst(b, n, now).1) == Tokens(Refill(b, now)) - Min(n, Tokens(Refill(b, now)))
  {
    if n > 0 {
      var f := Refill(b, now);
      assert Refill(f, now) == f;
      assert TryConsume(b, now) == TryConsume(f, now);
      assert Burst(b, n, now) == Burst(f, n, now);
      BurstAtLastRefill(f, n, now);
    }
  }

  /** A new bucket of capacity 5 admits five requests at once, and the sixth is rejected. */
  lemma FiveThenRejected(now: Instant)
    ensures Burst(NewBucket(5, now), 5, now).0 == 5
    ensures !TryConsume(Burst(NewBucket(5, now), 5, now).1, now).admitted
  {
    BurstAtLastRefill(NewBucket(5, now), 5, now);
    var after := Burst(NewBucket(5, now), 5, now).1;
    BurstLastRefill(NewBucket(5, now), 5, now);
    assert Refill(after, now) == after;
  }

  /** A burst at the last refill instant leaves that instant as the last refill. */
  lemma {:induction false} BurstLastRefill(b: TokenBucket, n: nat, now: Instant)
    requires Valid(b) && now <= b.lastRefill
    ensures Burst(b, n, now).1.lastRefill == b.lastRefill
    decreases n
  {
    if n > 0 {
      BurstLastRefill(TryConsume(b, now).bucket, n - 1, now);
    }
  }
}
