/** The token bucket of one IP, over real time. */
module TokenBucket {

  datatype Settings = Settings(rate: real, burst: int, maxAge: real)

  datatype Bucket = Bucket(tokens: real, last: real)

  /** Tokens that flow in over a stretch of time; a rate of zero or less brings none. */
  function Refill(s: Settings, dt: real): (r: real)
    ensures r >= 0.0
  {
    if s.rate <= 0.0 || dt <= 0.0 then 0.0 else s.rate * dt
  }

  function Min(x: real, y: real): real {
    if x <= y then x else y
  }

  /** The tokens on hand at time `t`: the stored ones and the refill, never more than the burst. */
  function Level(s: Settings, b: Bucket, t: real): real {
    Min(s.burst as real, b.tokens + Refill(s, t - b.last))
  }

  /** A bucket as `rate.NewLimiter` makes it: full at every time. */
  function FullBucket(s: Settings, t: real): Bucket {
    Bucket(s.burst as real, t)
  }

  /** One request: it takes a whole token or leaves the bucket alone. */
  function Take(s: Settings, b: Bucket, t: real): (bool, Bucket) {
    var level := Level(s, b, t);
    if level >= 1.0 && s.burst >= 1 then (true, Bucket(level - 1.0, t)) else (false, b)
  }

  lemma {:induction false} RefillAdds(s: Settings, a: real, b: real)
    requires a >= 0.0 && b >= 0.0
    ensures Refill(s, a + b) == Refill(s, a) + Refill(s, b)
  {
    if s.rate > 0.0 {
      assert s.rate * (a + b) == s.rate * a + s.rate * b;
    }
  }

  lemma {:induction false} RefillGrows(s: Settings, a: real, b: real)
    requires a <= b
    ensures Refill(s, a) <= Refill(s, b)
  {
    if s.rate > 0.0 && a > 0.0 {
      RefillAdds(s, a, b - a);
    }
  }

  /** The level at a later time depends on the past only through the level now. */
  lemma {:induction false} LevelMovesOn(s: Settings, b: Bucket, now: real, t: real)
    requires b.last <= now <= t
    ensures Level(s, b, t) == Min(s.burst as real, Level(s, b, now) + Refill(s, t - now))
  {
    RefillAdds(s, now - b.last, t - now);
    assert (now - b.last) + (t - now) == t - b.last;
  }

  lemma {:induction false} TakeLowersLevel(s: Settings, b: Bucket, t: real)
    ensures
      var (ok, b') := Take(s, b, t);
      Level(s, b', t) == if ok then Level(s, b, t) - 1.0 else Level(s, b, t)
  {
  }
}
