/**
 What the per-IP limiter with eviction allows, over whole traces of requests and sweeps. A request reads
 the clock twice: for the entry's `lastUsed` and, a moment later, inside the token bucket.
 */
module RateLimits {
  import opened TokenBucket

  datatype Held = Held(bucket: Bucket, lastUsed: real)

  type Limiters = map<string, Held>

  function AllowStep(s: Settings, m: Limiters, ip: string, used: real, at: real): (bool, Limiters) {
    var bucket := if ip in m then m[ip].bucket else FullBucket(s, used);
    var (ok, bucket') := Take(s, bucket, at);
    (ok, m[ip := Held(bucket', used)])
  }

  predicate IsStale(s: Settings, h: Held, now: real) {
    now - h.lastUsed > s.maxAge
  }

  function Swept(s: Settings, m: Limiters, now: real): Limiters {
    map ip | ip in m && !IsStale(s, m[ip], now) :: m[ip]
  }

  /** Noting the use first and drawing on the bucket afterwards is one request. */
  lemma {:induction false} AllowInTwoSteps(s: Settings, m: Limiters, noted: Limiters, ip: string, used: real, at: real)
    requires noted == m[ip := Held(if ip in m then m[ip].bucket else FullBucket(s, used), used)]
    ensures
      var (ok, bucket) := Take(s, noted[ip].bucket, at);
      AllowStep(s, m, ip, used, at) == (ok, noted[ip := Held(bucket, noted[ip].lastUsed)])
  {
    var bucket := Take(s, noted[ip].bucket, at).1;
    assert noted[ip := Held(bucket, used)] == m[ip := Held(bucket, used)];
  }

  /** What is left after looking at the first `n` keys and deleting those last used before the cutoff. */
  function PurgedKeys(m: Limiters, cutoff: real, keys: seq<string>, n: nat): Limiters
    requires n <= |keys|
  {
    if n == 0 then m
    else
      var p := PurgedKeys(m, cutoff, keys, n - 1);
      if keys[n - 1] in p && p[keys[n - 1]].lastUsed < cutoff then p - {keys[n - 1]} else p
  }

  lemma {:induction false} PurgedKeysContent(m: Limiters, cutoff: real, keys: seq<string>, n: nat)
    requires n <= |keys|
    ensures PurgedKeys(m, cutoff, keys, n) == map ip | ip in m && !(ip in keys[..n] && m[ip].lastUsed < cutoff) :: m[ip]
  {
    if n > 0 {
      PurgedKeysContent(m, cutoff, keys, n - 1);
      assert keys[..n] == keys[..n - 1] + [keys[n - 1]];
    }
  }

  /** Purging key by key, over all keys in any order, leaves what one sweep leaves. */
  lemma {:induction false} PurgedKeysAreSwept(s: Settings, m: Limiters, now: real, keys: seq<string>)
    requires forall ip :: ip in m ==> ip in keys
    ensures PurgedKeys(m, now - s.maxAge, keys, |keys|) == Swept(s, m, now)
  {
    PurgedKeysContent(m, now - s.maxAge, keys, |keys|);
    assert keys[..|keys|] == keys;
  }

  datatype Event = Request(ip: string, used: real, at: real) | Sweep(now: real)

  function Start(e: Event): real {
    if e.Request? then e.used else e.now
  }

  function Finish(e: Event): real {
    if e.Request? then e.at else e.now
  }

  /** Events one after the other from time `from`; the two clock readings of a request differ by at most `lag`. */
  predicate InOrder(lag: real, trace: seq<Event>, from: real)
    decreases |trace|
  {
    trace == [] ||
    (from <= Start(trace[0]) <= Finish(trace[0]) <= Start(trace[0]) + lag && InOrder(lag, trace[1..], Finish(trace[0])))
  }

  function After(s: Settings, evicts: bool, m: Limiters, e: Event): Limiters {
    match e
    case Request(ip, used, at) => AllowStep(s, m, ip, used, at).1
    case Sweep(now) => if evicts then Swept(s, m, now) else m
  }

  /** The answers to the requests of a trace, by a limiter that evicts stale entries or by one that never does. */
  function Answers(s: Settings, evicts: bool, m: Limiters, trace: seq<Event>): seq<bool>
    decreases |trace|
  {
    if trace == [] then []
    else
      var rest := Answers(s, evicts, After(s, evicts, m, trace[0]), trace[1..]);
      if trace[0].Request? then [AllowStep(s, m, trace[0].ip, trace[0].used, trace[0].at).0] + rest else rest
  }

  /** 1 when the event is a request of the IP that gets through. */
  function Passes(s: Settings, m: Limiters, ip: string, e: Event): nat {
    if e.Request? && e.ip == ip && AllowStep(s, m, ip, e.used, e.at).0 then 1 else 0
  }

  /** How many requests of one IP a trace gets through, with eviction. */
  function Allowed(s: Settings, m: Limiters, ip: string, trace: seq<Event>): nat
    decreases |trace|
  {
    if trace == [] then 0
    else Passes(s, m, ip, trace[0]) + Allowed(s, After(s, true, m, trace[0]), ip, trace[1..])
  }

  /**
   The least that a request can leave in a bucket when its second clock reading is `d` after the first: it
   takes one token, from what came in meanwhile or from the one that it needs to get through.
   */
  function Low(s: Settings, d: real): (r: real)
    ensures r >= 0.0 && (s.burst >= 1 ==> r <= s.burst as real - 1.0)
  {
    var level := Min(s.burst as real, Refill(s, d));
    if level > 1.0 then level - 1.0 else 0.0
  }

  lemma {:induction false} LowGrows(s: Settings, d: real, d': real)
    requires d <= d'
    ensures Low(s, d) <= Low(s, d') <= Low(s, d) + Refill(s, d' - d)
  {
    RefillGrows(s, d, d');
    if d >= 0.0 {
      RefillAdds(s, d, d' - d);
    } else {
      RefillGrows(s, d', d' - d);
    }
  }

  /** The stamps of an entry lie in the past, and its bucket holds what its last request left at least. */
  predicate Sound(s: Settings, lag: real, h: Held, now: real) {
    && h.lastUsed <= now && h.bucket.last <= now && h.bucket.last <= h.lastUsed + lag
    && h.bucket.tokens <= s.burst as real
    && h.bucket.tokens >= if s.burst >= 1 then Low(s, h.bucket.last - h.lastUsed) else s.burst as real
  }

  /** What every reachable limiter map satisfies at time `now`. */
  predicate WellKept(s: Settings, lag: real, m: Limiters, now: real) {
    forall ip :: ip in m ==> Sound(s, lag, m[ip], now)
  }

  lemma {:induction false} TakeKeepsSound(s: Settings, lag: real, h: Held, now: real, used: real, at: real)
    requires Sound(s, lag, h, now) && now <= used <= at <= used + lag
    ensures Sound(s, lag, Held(Take(s, h.bucket, at).1, used), at)
  {
    RefillGrows(s, at - used, at - h.bucket.last);
  }

  lemma {:induction false} AfterWellKept(s: Settings, lag: real, evicts: bool, m: Limiters, e: Event, now: real)
    requires WellKept(s, lag, m, now) && now <= Start(e) <= Finish(e) <= Start(e) + lag
    ensures WellKept(s, lag, After(s, evicts, m, e), Finish(e))
  {
    if e.Request? {
      if e.ip in m {
        TakeKeepsSound(s, lag, m[e.ip], now, e.used, e.at);
      } else {
        TakeKeepsSound(s, lag, Held(FullBucket(s, e.used), e.used), e.used, e.used, e.at);
      }
    }
  }

  /** The level an IP can draw on; an absent entry stands for a full bucket. */
  function LevelOf(s: Settings, m: Limiters, ip: string, t: real): real {
    if ip in m then Level(s, m[ip].bucket, t) else s.burst as real
  }

  lemma {:induction false} LevelOfMovesOn(s: Settings, lag: real, m: Limiters, ip: string, now: real, t: real)
    requires WellKept(s, lag, m, now) && now <= t
    ensures LevelOf(s, m, ip, t) == Min(s.burst as real, LevelOf(s, m, ip, now) + Refill(s, t - now))
  {
    if ip in m {
      LevelMovesOn(s, m[ip].bucket, now, t);
    }
  }

  /** The settings refill whatever a request leaves to a whole bucket before the entry can become stale. */
  predicate RefillsBeforeEviction(s: Settings, lag: real) {
    Low(s, lag) + Refill(s, s.maxAge - lag) >= s.burst as real
  }

  lemma {:induction false} StaleLevel(s: Settings, lag: real, h: Held, now: real)
    requires s.burst >= 1 && RefillsBeforeEviction(s, lag) && Sound(s, lag, h, now) && IsStale(s, h, now)
    ensures Level(s, h.bucket, now) == s.burst as real
  {
    var d := h.bucket.last - h.lastUsed;
    LowGrows(s, d, lag);
    assert s.maxAge > lag;
    RefillAdds(s, s.maxAge - lag, lag - d);
    assert (s.maxAge - lag) + (lag - d) == s.maxAge - d;
    RefillGrows(s, s.maxAge - d, now - h.bucket.last);
  }

  ghost predicate SameLevels(s: Settings, m: Limiters, m': Limiters, t: real) {
    forall ip :: LevelOf(s, m, ip, t) == LevelOf(s, m', ip, t)
  }

  lemma {:induction false} SameLevelsLater(s: Settings, lag: real, m: Limiters, m': Limiters, now: real, t: real)
    requires WellKept(s, lag, m, now) && WellKept(s, lag, m', now) && now <= t && SameLevels(s, m, m', now)
    ensures SameLevels(s, m, m', t)
  {
    forall ip
      ensures LevelOf(s, m, ip, t) == LevelOf(s, m', ip, t)
    {
      LevelOfMovesOn(s, lag, m, ip, now, t);
      LevelOfMovesOn(s, lag, m', ip, now, t);
    }
  }

  lemma {:induction false} AllowByLevel(s: Settings, m: Limiters, ip: string, used: real, at: real)
    ensures
      var (ok, m') := AllowStep(s, m, ip, used, at);
      && ok == (LevelOf(s, m, ip, at) >= 1.0 && s.burst >= 1)
      && (forall x ::
            LevelOf(s, m', x, at) == if x == ip && ok then LevelOf(s, m, x, at) - 1.0 else LevelOf(s, m, x, at))
  {
    var bucket := if ip in m then m[ip].bucket else FullBucket(s, used);
    TakeLowersLevel(s, bucket, at);
  }

  lemma {:induction false} SweepKeepsLevels(s: Settings, lag: real, m: Limiters, now: real)
    requires RefillsBeforeEviction(s, lag) && WellKept(s, lag, m, now)
    ensures SameLevels(s, m, Swept(s, m, now), now)
  {
    forall ip
      ensures LevelOf(s, m, ip, now) == LevelOf(s, Swept(s, m, now), ip, now)
    {
      if ip in m && IsStale(s, m[ip], now) {
        if s.burst >= 1 {
          StaleLevel(s, lag, m[ip], now);
        }
      }
    }
  }

  lemma {:induction false} SameLevelsSameAnswers(
      s: Settings, lag: real, m: Limiters, m': Limiters, trace: seq<Event>, now: real)
    requires RefillsBeforeEviction(s, lag) && InOrder(lag, trace, now)
    requires WellKept(s, lag, m, now) && WellKept(s, lag, m', now) && SameLevels(s, m, m', now)
    ensures Answers(s, true, m, trace) == Answers(s, false, m', trace)
    decreases |trace|
  {
    if trace != [] {
      var e := trace[0];
      var t := Finish(e);
      SameLevelsLater(s, lag, m, m', now, t);
      AfterWellKept(s, lag, true, m, e, now);
      AfterWellKept(s, lag, false, m', e, now);
      match e {
        case Request(ip, used, at) =>
          AllowByLevel(s, m, ip, used, at);
          AllowByLevel(s, m', ip, used, at);
        case Sweep(_) =>
          AfterWellKept(s, lag, false, m, e, now);
          SweepKeepsLevels(s, lag, m, t);
      }
      SameLevelsSameAnswers(s, lag, After(s, true, m, e), After(s, false, m', e), trace[1..], t);
    }
  }

  /**
   If a bucket refills within the maximum age (less the lag between the two clock readings), no trace of
   requests and sweeps can tell the limiter with eviction from one that never evicts.
   */
  lemma {:induction false} EvictionIsUnobservable(s: Settings, lag: real, trace: seq<Event>, from: real)
    requires RefillsBeforeEviction(s, lag) && InOrder(lag, trace, from)
    ensures Answers(s, true, map[], trace) == Answers(s, false, map[], trace)
  {
    SameLevelsSameAnswers(s, lag, map[], map[], trace, from);
  }

  // The converse: with slower settings, some trace tells the two apart.

  function AfterAll(s: Settings, evicts: bool, m: Limiters, trace: seq<Event>): Limiters
    decreases |trace|
  {
    if trace == [] then m else AfterAll(s, evicts, After(s, evicts, m, trace[0]), trace[1..])
  }

  lemma {:induction false} AnswersAppend(s: Settings, evicts: bool, m: Limiters, a: seq<Event>, b: seq<Event>)
    ensures Answers(s, evicts, m, a + b) == Answers(s, evicts, m, a) + Answers(s, evicts, AfterAll(s, evicts, m, a), b)
    ensures AfterAll(s, evicts, m, a + b) == AfterAll(s, evicts, AfterAll(s, evicts, m, a), b)
    decreases |a|
  {
    if a == [] {
      assert a + b == b;
    } else {
      assert (a + b)[1..] == a[1..] + b;
      AnswersAppend(s, evicts, After(s, evicts, m, a[0]), a[1..], b);
    }
  }

  /** `n` requests of one IP at one instant. */
  function Salvo(ip: string, t: real, n: nat): seq<Event> {
    seq(n, i requires 0 <= i < n => Request(ip, t, t))
  }

  lemma {:induction false} SalvoOnFullBucket(
      s: Settings, evicts: bool, m: Limiters, ip: string, t: real, n: nat, level: int)
    requires n <= level && s.burst >= 1 && LevelOf(s, m, ip, t) == level as real
    ensures
      var m' := AfterAll(s, evicts, m, Salvo(ip, t, n));
      LevelOf(s, m', ip, t) == (level - n) as real && (n > 0 ==> ip in m' && m'[ip].lastUsed == t)
    decreases n
  {
    if n > 0 {
      AllowByLevel(s, m, ip, t, t);
      assert Salvo(ip, t, n)[1..] == Salvo(ip, t, n - 1);
      SalvoOnFullBucket(s, evicts, After(s, evicts, m, Request(ip, t, t)), ip, t, n - 1, level - 1);
    }
  }

  lemma {:induction false} SalvoOnLowBucket(
      s: Settings, evicts: bool, m: Limiters, ip: string, t: real, n: nat, bound: int)
    requires n < bound && s.burst >= 1 && LevelOf(s, m, ip, t) < bound as real
    ensures LevelOf(s, AfterAll(s, evicts, m, Salvo(ip, t, n)), ip, t) < (bound - n) as real
    decreases n
  {
    if n > 0 {
      AllowByLevel(s, m, ip, t, t);
      assert Salvo(ip, t, n)[1..] == Salvo(ip, t, n - 1);
      SalvoOnLowBucket(s, evicts, After(s, evicts, m, Request(ip, t, t)), ip, t, n - 1, bound - 1);
    }
  }

  /** A wait that is longer than `w` and too short to fill the bucket from `low`. */
  lemma {:induction false} WaitTooShort(s: Settings, low: real, w: real)
    requires low < s.burst as real && low + Refill(s, w) < s.burst as real
    ensures exists x: real :: x > 0.0 && x > w && low + Refill(s, x) < s.burst as real
  {
    var b, from := s.burst as real - low, if w > 0.0 then w else 0.0;
    if s.rate <= 0.0 {
      assert from + 1.0 > w && low + Refill(s, from + 1.0) < s.burst as real;
    } else {
      var full := b / s.rate;
      assert s.rate * full == b;
      Below(s.rate, from, full);
      var x := (from + full) / 2.0;
      Below(s.rate, x, full);
      assert x > w && low + Refill(s, x) < s.burst as real;
    }
  }

  lemma {:induction false} Below(rate: real, x: real, y: real)
    requires rate > 0.0
    ensures rate * x < rate * y <==> x < y
  {
    assert rate * (y - x) == rate * y - rate * x;
  }

  lemma {:induction false} SalvoInOrder(lag: real, ip: string, t: real, n: nat, from: real, rest: seq<Event>)
    requires lag >= 0.0 && from <= t && InOrder(lag, rest, t)
    ensures InOrder(lag, Salvo(ip, t, n) + rest, from)
    decreases n
  {
    if n == 0 {
      assert Salvo(ip, t, 0) + rest == rest;
      if rest != [] {
        assert from <= Start(rest[0]);
      }
    } else {
      assert (Salvo(ip, t, n) + rest)[1..] == Salvo(ip, t, n - 1) + rest;
      SalvoInOrder(lag, ip, t, n - 1, t, rest);
    }
  }

  /** After emptying the bucket at 0, when to ask once more so that the least is left `lag` later. */
  function LowAt(s: Settings, lag: real): (u: real)
    requires lag >= 0.0
    ensures u >= 0.0
  {
    if s.rate > 0.0 && Refill(s, lag) < 1.0 then
      Below(s.rate, lag, 1.0 / s.rate);
      1.0 / s.rate - lag
    else 0.0
  }

  /** Empty the bucket, and ask once more. */
  function Drain(ip: string, u: real, lag: real, n: nat): seq<Event> {
    Salvo(ip, 0.0, n) + [Request(ip, u, u + lag)]
  }

  /** Drain the bucket, wait until the entry is swept, and ask for a whole burst again. */
  function Probe(ip: string, u: real, lag: real, t: real, n: nat): seq<Event>
    requires n > 0
  {
    Drain(ip, u, lag, n) + ([Sweep(t)] + (Salvo(ip, t, n - 1) + [Request(ip, t, t)]))
  }

  lemma {:induction false} ProbeInOrder(ip: string, u: real, lag: real, t: real, n: nat)
    requires n > 0 && lag >= 0.0 && u >= 0.0 && u + lag <= t
    ensures InOrder(lag, Probe(ip, u, lag, t, n), 0.0)
  {
    var last := [Request(ip, t, t)];
    assert last[1..] == [];
    SalvoInOrder(lag, ip, t, n - 1, t, last);
    var tail := [Sweep(t)] + (Salvo(ip, t, n - 1) + last);
    assert tail[1..] == Salvo(ip, t, n - 1) + last;
    var more := [Request(ip, u, u + lag)] + tail;
    assert more[1..] == tail;
    SalvoInOrder(lag, ip, 0.0, n, 0.0, more);
    assert Probe(ip, u, lag, t, n) == Salvo(ip, 0.0, n) + more;
  }

  /** The last answer of the probe, from the limiter map that the drain and the sweep leave. */
  lemma {:induction false} ProbeAnswers(s: Settings, evicts: bool, ip: string, u: real, lag: real, t: real, n: nat)
    requires n > 0
    ensures
      var swept := After(s, evicts, AfterAll(s, evicts, map[], Drain(ip, u, lag, n)), Sweep(t));
      var a := Answers(s, evicts, map[], Probe(ip, u, lag, t, n));
      && a != []
      && a[|a| - 1] == AllowStep(s, AfterAll(s, evicts, swept, Salvo(ip, t, n - 1)), ip, t, t).0
  {
    var last := [Request(ip, t, t)];
    var second := Salvo(ip, t, n - 1) + last;
    var drained := AfterAll(s, evicts, map[], Drain(ip, u, lag, n));
    AnswersAppend(s, evicts, map[], Drain(ip, u, lag, n), [Sweep(t)] + second);
    assert ([Sweep(t)] + second)[1..] == second;
    AnswersAppend(s, evicts, After(s, evicts, drained, Sweep(t)), Salvo(ip, t, n - 1), last);
  }

  lemma {:induction false} SalvoWellKept(
      s: Settings, lag: real, evicts: bool, m: Limiters, ip: string, t: real, n: nat)
    requires lag >= 0.0 && WellKept(s, lag, m, t)
    ensures WellKept(s, lag, AfterAll(s, evicts, m, Salvo(ip, t, n)), t)
    decreases n
  {
    if n > 0 {
      assert Salvo(ip, t, n)[1..] == Salvo(ip, t, n - 1);
      AfterWellKept(s, lag, evicts, m, Request(ip, t, t), t);
      SalvoWellKept(s, lag, evicts, After(s, evicts, m, Request(ip, t, t)), ip, t, n - 1);
    }
  }

  lemma {:induction false} LowAtRefill(s: Settings, lag: real)
    requires lag >= 0.0
    ensures
      var r := Refill(s, lag);
      Refill(s, LowAt(s, lag) + lag) == if s.rate > 0.0 && r < 1.0 then 1.0 else r
  {
    if s.rate > 0.0 && Refill(s, lag) < 1.0 {
      assert LowAt(s, lag) + lag == 1.0 / s.rate;
      assert s.rate * (1.0 / s.rate) == 1.0;
    }
  }

  /** From an empty bucket at 0, one more request leaves the least that a request can leave. */
  lemma {:induction false} OneMoreLeavesLow(s: Settings, lag: real, m: Limiters, ip: string)
    requires s.burst >= 1 && lag >= 0.0 && WellKept(s, lag, m, 0.0) && ip in m && LevelOf(s, m, ip, 0.0) == 0.0
    ensures
      var u := LowAt(s, lag);
      LevelOf(s, AllowStep(s, m, ip, u, u + lag).1, ip, u + lag) == Low(s, lag)
  {
    var u, b, r := LowAt(s, lag), s.burst as real, Refill(s, lag);
    LowAtRefill(s, lag);
    LevelOfMovesOn(s, lag, m, ip, 0.0, u + lag);
    assert LevelOf(s, m, ip, u + lag) == Min(b, if s.rate > 0.0 && r < 1.0 then 1.0 else r);
    AllowByLevel(s, m, ip, u, u + lag);
  }

  lemma {:induction false} Drained(s: Settings, lag: real, evicts: bool, ip: string)
    requires s.burst >= 1 && lag >= 0.0
    ensures
      var u := LowAt(s, lag);
      var m := AfterAll(s, evicts, map[], Drain(ip, u, lag, s.burst));
      && ip in m && m[ip].lastUsed == u && WellKept(s, lag, m, u + lag)
      && LevelOf(s, m, ip, u + lag) == Low(s, lag)
  {
    var u, n := LowAt(s, lag), s.burst;
    var empty := AfterAll(s, evicts, map[], Salvo(ip, 0.0, n));
    var last := [Request(ip, u, u + lag)];
    SalvoOnFullBucket(s, evicts, map[], ip, 0.0, n, n);
    SalvoWellKept(s, lag, evicts, map[], ip, 0.0, n);
    AnswersAppend(s, evicts, map[], Salvo(ip, 0.0, n), last);
    assert last[1..] == [];
    OneMoreLeavesLow(s, lag, empty, ip);
    AfterWellKept(s, lag, evicts, empty, last[0], 0.0);
  }

  /** With eviction, a swept IP gets a whole burst at once. */
  lemma {:induction false} EvictingAnswersYes(s: Settings, lag: real, ip: string, t: real)
    requires s.burst >= 1 && lag >= 0.0 && t - LowAt(s, lag) > s.maxAge
    ensures
      var a := Answers(s, true, map[], Probe(ip, LowAt(s, lag), lag, t, s.burst));
      a != [] && a[|a| - 1]
  {
    var u, n := LowAt(s, lag), s.burst;
    Drained(s, lag, true, ip);
    var swept := Swept(s, AfterAll(s, true, map[], Drain(ip, u, lag, n)), t);
    SalvoOnFullBucket(s, true, swept, ip, t, n - 1, n);
    AllowByLevel(s, AfterAll(s, true, swept, Salvo(ip, t, n - 1)), ip, t, t);
    ProbeAnswers(s, true, ip, u, lag, t, n);
  }

  /** Without eviction, a bucket that is not full does not give a whole burst. */
  lemma {:induction false} KeepingAnswersNo(s: Settings, lag: real, ip: string, t: real)
    requires s.burst >= 1 && lag >= 0.0 && t >= LowAt(s, lag) + lag
    requires Low(s, lag) + Refill(s, t - (LowAt(s, lag) + lag)) < s.burst as real
    ensures
      var a := Answers(s, false, map[], Probe(ip, LowAt(s, lag), lag, t, s.burst));
      a != [] && !a[|a| - 1]
  {
    var u, n := LowAt(s, lag), s.burst;
    var kept := AfterAll(s, false, map[], Drain(ip, u, lag, n));
    Drained(s, lag, false, ip);
    LevelOfMovesOn(s, lag, kept, ip, u + lag, t);
    SalvoOnLowBucket(s, false, kept, ip, t, n - 1, n);
    AllowByLevel(s, AfterAll(s, false, kept, Salvo(ip, t, n - 1)), ip, t, t);
    ProbeAnswers(s, false, ip, u, lag, t, n);
  }

  lemma {:induction false} SlowRefillIsObservable(s: Settings, lag: real)
    requires lag >= 0.0 && !RefillsBeforeEviction(s, lag)
    ensures exists trace :: Plays(lag, trace, 0.0) && !SameAnswers(s, trace)
  {
    var u := LowAt(s, lag);
    WaitTooShort(s, Low(s, lag), s.maxAge - lag);
    var x: real :| x > 0.0 && x > s.maxAge - lag && Low(s, lag) + Refill(s, x) < s.burst as real;
    var trace := Probe("", u, lag, u + lag + x, s.burst);
    ProbeInOrder("", u, lag, u + lag + x, s.burst);
    EvictingAnswersYes(s, lag, "", u + lag + x);
    KeepingAnswersNo(s, lag, "", u + lag + x);
    assert Plays(lag, trace, 0.0) && !SameAnswers(s, trace);
  }

  predicate Plays(lag: real, trace: seq<Event>, from: real) {
    InOrder(lag, trace, from)
  }

  predicate SameAnswers(s: Settings, trace: seq<Event>) {
    Answers(s, true, map[], trace) == Answers(s, false, map[], trace)
  }

  /**
   Eviction is unobservable exactly for the settings that refill what a request leaves to a whole burst
   within the maximum age. For `lag` 0 this says that the maximum age refills a burst (`PlainArithmetic`).
   */
  lemma {:induction false} EvictionUnobservableIff(s: Settings, lag: real)
    requires lag >= 0.0
    ensures RefillsBeforeEviction(s, lag)
       <==> forall trace, from :: Plays(lag, trace, from) ==> SameAnswers(s, trace)
  {
    if RefillsBeforeEviction(s, lag) {
      forall trace, from | Plays(lag, trace, from)
        ensures SameAnswers(s, trace)
      {
        EvictionIsUnobservable(s, lag, trace, from);
      }
    } else {
      SlowRefillIsObservable(s, lag);
    }
  }

  // Bounds on what one IP gets through.

  function Cap(s: Settings): real {
    if s.burst > 0 then s.burst as real else 0.0
  }

  lemma {:induction false} NoBurstNothingAllowed(s: Settings, m: Limiters, ip: string, trace: seq<Event>)
    requires s.burst < 1
    ensures Allowed(s, m, ip, trace) == 0
    decreases |trace|
  {
    if trace != [] {
      NoBurstNothingAllowed(s, After(s, true, m, trace[0]), ip, trace[1..]);
    }
  }

  /** The entry of `ip` has been used since the window opened at `t0`. */
  predicate UsedSince(m: Limiters, ip: string, t0: real) {
    ip in m && m[ip].lastUsed >= t0
  }

  /** 1 when the event evicts the IP's entry after its use in the window. */
  function Evicts(s: Settings, m: Limiters, ip: string, e: Event, t0: real): nat {
    if e.Sweep? && UsedSince(m, ip, t0) && IsStale(s, m[ip], e.now) then 1 else 0
  }

  function Evictions(s: Settings, m: Limiters, ip: string, trace: seq<Event>, t0: real): nat
    decreases |trace|
  {
    if trace == [] then 0
    else Evicts(s, m, ip, trace[0], t0) + Evictions(s, After(s, true, m, trace[0]), ip, trace[1..], t0)
  }

  function Times(n: nat, x: real): real {
    if n == 0 then 0.0 else Times(n - 1, x) + x
  }

  lemma {:induction false} TimesAdd(n: nat, k: nat, x: real)
    ensures Times(n + k, x) == Times(n, x) + Times(k, x)
  {
    if k > 0 {
      TimesAdd(n, k - 1, x);
    }
  }

  /** What the IP can still draw without waiting; before its first use in the window, a full burst at most. */
  function Potential(s: Settings, m: Limiters, ip: string, now: real, t0: real): real {
    if UsedSince(m, ip, t0) then LevelOf(s, m, ip, now) else s.burst as real
  }

  lemma {:induction false} EventIsPaidFor(
      s: Settings, lag: real, m: Limiters, ip: string, e: Event, now: real, t0: real)
    requires s.burst >= 1 && WellKept(s, lag, m, now) && t0 <= now <= Start(e) <= Finish(e) <= Start(e) + lag
    ensures Passes(s, m, ip, e) as real + Potential(s, After(s, true, m, e), ip, Finish(e), t0)
         <= Potential(s, m, ip, now, t0) + Refill(s, Finish(e) - now) + Times(Evicts(s, m, ip, e, t0), s.burst as real)
  {
    LevelOfMovesOn(s, lag, m, ip, now, Finish(e));
    if e.Request? {
      AllowByLevel(s, m, e.ip, e.used, e.at);
    }
  }

  /** Requests let through are paid for by the potential, the refill and one burst per eviction. */
  lemma {:induction false} AllowedIsPaidFor(
      s: Settings, lag: real, m: Limiters, ip: string, trace: seq<Event>, now: real, end: real, t0: real)
    requires s.burst >= 1 && WellKept(s, lag, m, now) && InOrder(lag, trace, now) && t0 <= now <= end
    requires trace == [] || Finish(trace[|trace| - 1]) <= end
    ensures Allowed(s, m, ip, trace) as real
         <= Potential(s, m, ip, now, t0) + Refill(s, end - now)
            + Times(Evictions(s, m, ip, trace, t0), s.burst as real)
    decreases |trace|
  {
    if trace == [] {
    } else {
      var e, rest := trace[0], trace[1..];
      var t, m' := Finish(e), After(s, true, m, e);
      LastFinish(lag, trace, now);
      AfterWellKept(s, lag, true, m, e, now);
      AllowedIsPaidFor(s, lag, m', ip, rest, t, end, t0);
      EventIsPaidFor(s, lag, m, ip, e, now, t0);
      RefillAdds(s, t - now, end - t);
      assert (t - now) + (end - t) == end - now;
      TimesAdd(Evicts(s, m, ip, e, t0), Evictions(s, m', ip, rest, t0), s.burst as real);
    }
  }

  lemma {:induction false} LastFinish(lag: real, trace: seq<Event>, from: real)
    requires trace != [] && InOrder(lag, trace, from)
    ensures Finish(trace[0]) <= Finish(trace[|trace| - 1])
    ensures |trace| > 1 ==> trace[1..][|trace[1..]| - 1] == trace[|trace| - 1]
    decreases |trace|
  {
    if |trace| > 1 {
      assert trace[1..][|trace| - 2] == trace[|trace| - 1];
      LastFinish(lag, trace[1..], Finish(trace[0]));
    }
  }

  /** Each counted eviction takes a whole maximum age of the window. */
  lemma {:induction false} EvictionsTakeTime(
      s: Settings, lag: real, m: Limiters, ip: string, trace: seq<Event>, now: real, end: real, t0: real)
    requires s.maxAge > 0.0 && WellKept(s, lag, m, now) && InOrder(lag, trace, now) && t0 <= now <= end
    requires trace == [] || Finish(trace[|trace| - 1]) <= end
    ensures Times(Evictions(s, m, ip, trace, t0), s.maxAge)
         <= end - (if UsedSince(m, ip, t0) then m[ip].lastUsed else now)
    decreases |trace|
  {
    if trace != [] {
      var e, t := trace[0], Finish(trace[0]);
      var m' := After(s, true, m, e);
      LastFinish(lag, trace, now);
      AfterWellKept(s, lag, true, m, e, now);
      EvictionsTakeTime(s, lag, m', ip, trace[1..], t, end, t0);
    }
  }

  lemma {:induction false} TimesIsProduct(n: nat, x: real)
    ensures Times(n, x) == n as real * x
  {
    if n > 0 {
      TimesIsProduct(n - 1, x);
      assert n as real * x == (n - 1) as real * x + x;
    }
  }

  lemma {:induction false} WholeTimesIn(n: nat, w: real, a: real)
    requires a > 0.0 && Times(n, a) <= w
    ensures n <= (w / a).Floor
  {
    TimesIsProduct(n, a);
    assert n as real <= w / a by {
      assert (n as real * a) / a == n as real;
    }
  }

  lemma {:induction false} PaidByBursts(allowed: real, refill: real, n: nat, b: real, k: nat)
    requires allowed <= b + refill + Times(n, b) && 0.0 <= b && n + 1 <= k
    ensures allowed <= Times(k, b) + refill
  {
    TimesAdd(n + 1, k - n - 1, b);
    TimesGrows(k - n - 1, b);
  }

  lemma {:induction false} TimesGrows(n: nat, x: real)
    requires x >= 0.0
    ensures Times(n, x) >= 0.0
  {
    if n > 0 {
      TimesGrows(n - 1, x);
    }
  }

  /** How many maximum ages a window of length `w` starts. */
  function StartedAges(s: Settings, w: real): (n: nat)
    requires s.maxAge > 0.0 && w >= 0.0
  {
    assert w / s.maxAge >= 0.0;
    (w / s.maxAge).Floor + 1
  }

  lemma {:induction false} WindowEvictions(
      s: Settings, lag: real, m: Limiters, ip: string, trace: seq<Event>, t0: real, end: real)
    requires s.maxAge > 0.0 && WellKept(s, lag, m, t0) && InOrder(lag, trace, t0) && t0 <= end
    requires trace == [] || Finish(trace[|trace| - 1]) <= end
    ensures Evictions(s, m, ip, trace, t0) + 1 <= StartedAges(s, end - t0)
  {
    EvictionsTakeTime(s, lag, m, ip, trace, t0, end, t0);
    WholeTimesIn(Evictions(s, m, ip, trace, t0), end - t0, s.maxAge);
  }

  /** The bound for a window that opens on a well-kept map. */
  lemma {:induction false} BoundFrom(
      s: Settings, lag: real, m: Limiters, ip: string, trace: seq<Event>, t0: real, end: real)
    requires s.maxAge > 0.0 && WellKept(s, lag, m, t0) && InOrder(lag, trace, t0) && t0 <= end
    requires trace == [] || Finish(trace[|trace| - 1]) <= end
    ensures Allowed(s, m, ip, trace) as real <= Times(StartedAges(s, end - t0), Cap(s)) + Refill(s, end - t0)
  {
    if s.burst < 1 {
      NoBurstNothingAllowed(s, m, ip, trace);
      TimesGrows(StartedAges(s, end - t0), Cap(s));
    } else {
      WindowEvictions(s, lag, m, ip, trace, t0, end);
      AllowedFromFull(s, lag, m, ip, trace, t0, end);
      PaidByBursts(Allowed(s, m, ip, trace) as real, Refill(s, end - t0), Evictions(s, m, ip, trace, t0), Cap(s),
                   StartedAges(s, end - t0));
    }
  }

  lemma {:induction false} AllowedFromFull(
      s: Settings, lag: real, m: Limiters, ip: string, trace: seq<Event>, t0: real, end: real)
    requires s.burst >= 1 && WellKept(s, lag, m, t0) && InOrder(lag, trace, t0) && t0 <= end
    requires trace == [] || Finish(trace[|trace| - 1]) <= end
    ensures Allowed(s, m, ip, trace) as real
         <= Cap(s) + Refill(s, end - t0) + Times(Evictions(s, m, ip, trace, t0), Cap(s))
  {
    AllowedIsPaidFor(s, lag, m, ip, trace, t0, end, t0);
  }

  lemma {:induction false} AllowedWithinLevel(
      s: Settings, lag: real, m: Limiters, ip: string, trace: seq<Event>, now: real, end: real)
    requires s.burst >= 1 && RefillsBeforeEviction(s, lag)
    requires WellKept(s, lag, m, now) && InOrder(lag, trace, now) && now <= end
    requires trace == [] || Finish(trace[|trace| - 1]) <= end
    ensures Allowed(s, m, ip, trace) as real <= LevelOf(s, m, ip, now) + Refill(s, end - now)
    decreases |trace|
  {
    if trace == [] {
    } else {
      var e, t := trace[0], Finish(trace[0]);
      LastFinish(lag, trace, now);
      AfterWellKept(s, lag, true, m, e, now);
      AllowedWithinLevel(s, lag, After(s, true, m, e), ip, trace[1..], t, end);
      RefillAdds(s, t - now, end - t);
      assert (t - now) + (end - t) == end - now;
      LevelOfMovesOn(s, lag, m, ip, now, t);
      if e.Request? {
        AllowByLevel(s, m, e.ip, e.used, e.at);
      } else {
        AfterWellKept(s, lag, false, m, e, now);
        SweepKeepsLevels(s, lag, m, t);
      }
    }
  }

  lemma {:induction false} TightBoundFrom(
      s: Settings, lag: real, m: Limiters, ip: string, trace: seq<Event>, t0: real, end: real)
    requires RefillsBeforeEviction(s, lag) && WellKept(s, lag, m, t0) && InOrder(lag, trace, t0) && t0 <= end
    requires trace == [] || Finish(trace[|trace| - 1]) <= end
    ensures Allowed(s, m, ip, trace) as real <= Cap(s) + Refill(s, end - t0)
  {
    if s.burst < 1 {
      NoBurstNothingAllowed(s, m, ip, trace);
    } else {
      AllowedWithinLevel(s, lag, m, ip, trace, t0, end);
    }
  }

  /**
   A trace from time `from` on, cut in two: `window` holds events that begin at `t0` or later and end by
   `end`, and `before` is over by `t0`.
   */
  predicate CutsTrace(lag: real, from: real, before: seq<Event>, window: seq<Event>, t0: real, end: real) {
    && InOrder(lag, before + window, from) && t0 <= end
    && (if before == [] then from <= t0 else Finish(before[|before| - 1]) <= t0)
    && (window != [] ==> t0 <= Start(window[0]) && Finish(window[|window| - 1]) <= end)
  }

  lemma {:induction false} PartsInOrder(lag: real, from: real, before: seq<Event>, window: seq<Event>, t0: real)
    requires InOrder(lag, before + window, from)
    requires window != [] ==> t0 <= Start(window[0])
    ensures InOrder(lag, before, from) && InOrder(lag, window, t0)
    decreases |before|
  {
    if before == [] {
      assert before + window == window;
    } else {
      assert (before + window)[1..] == before[1..] + window;
      PartsInOrder(lag, Finish(before[0]), before[1..], window, t0);
    }
  }

  /** Whatever happened before, the limiter map is well kept. */
  lemma {:induction false} AfterAllWellKept(s: Settings, lag: real, m: Limiters, trace: seq<Event>, from: real, t: real)
    requires WellKept(s, lag, m, from) && InOrder(lag, trace, from)
    requires if trace == [] then from <= t else Finish(trace[|trace| - 1]) <= t
    ensures WellKept(s, lag, AfterAll(s, true, m, trace), t)
    decreases |trace|
  {
    if trace != [] {
      LastFinish(lag, trace, from);
      AfterWellKept(s, lag, true, m, trace[0], from);
      AfterAllWellKept(s, lag, After(s, true, m, trace[0]), trace[1..], Finish(trace[0]), t);
    }
  }

  lemma {:induction false} WindowOpensWellKept(
      s: Settings, lag: real, from: real, before: seq<Event>, window: seq<Event>, t0: real, end: real)
    requires CutsTrace(lag, from, before, window, t0, end)
    ensures WellKept(s, lag, AfterAll(s, true, map[], before), t0) && InOrder(lag, window, t0)
  {
    PartsInOrder(lag, from, before, window, t0);
    AfterAllWellKept(s, lag, map[], before, from, t0);
  }

  lemma {:induction false} WindowPaid(
      s: Settings, lag: real, from: real, before: seq<Event>, window: seq<Event>, t0: real, end: real, ip: string)
    requires s.maxAge > 0.0 && CutsTrace(lag, from, before, window, t0, end)
    ensures Allowed(s, AfterAll(s, true, map[], before), ip, window) as real
         <= Times(StartedAges(s, end - t0), Cap(s)) + Refill(s, end - t0)
  {
    WindowOpensWellKept(s, lag, from, before, window, t0, end);
    BoundFrom(s, lag, AfterAll(s, true, map[], before), ip, window, t0, end);
  }

  /** One burst for every maximum age that a window of length `w` starts. */
  function Bursts(s: Settings, w: real): (r: real)
    requires s.maxAge > 0.0 && w >= 0.0
    ensures r == Times(StartedAges(s, w), Cap(s))
  {
    TimesIsProduct(StartedAges(s, w), Cap(s));
    Cap(s) * StartedAges(s, w) as real
  }

  /**
   Whatever the settings, in every window of every trace, of length `end - t0`, one IP gets at most one burst
   for every started maximum age, plus the refill of the window.
   */
  lemma {:induction false} WindowBound(
      s: Settings, lag: real, from: real, before: seq<Event>, window: seq<Event>, t0: real, end: real, ip: string)
    requires s.maxAge > 0.0 && CutsTrace(lag, from, before, window, t0, end)
    ensures Allowed(s, AfterAll(s, true, map[], before), ip, window) as real
         <= Bursts(s, end - t0) + Refill(s, end - t0)
  {
    WindowPaid(s, lag, from, before, window, t0, end, ip);
  }

  /** For settings that are not negative, the terms of the bounds and conditions in plain arithmetic. */
  lemma {:induction false} PlainArithmetic(s: Settings, w: real)
    requires s.rate >= 0.0 && s.burst >= 0 && s.maxAge > 0.0 && w >= 0.0
    ensures Refill(s, w) == s.rate * w
    ensures Bursts(s, w) == s.burst as real * ((w / s.maxAge).Floor + 1) as real
    ensures RefillsBeforeEviction(s, 0.0) <==> s.rate * s.maxAge >= s.burst as real
  {
    assert Low(s, 0.0) == 0.0 && s.maxAge - 0.0 == s.maxAge;
    assert s.rate == 0.0 ==> s.rate * w == 0.0 && s.rate * s.maxAge == 0.0;
    assert Cap(s) == s.burst as real;
  }

  /** When eviction is harmless, a window gets one burst and its refill, as from a limiter that never evicts. */
  lemma {:induction false} TightWindowBound(
      s: Settings, lag: real, from: real, before: seq<Event>, window: seq<Event>, t0: real, end: real, ip: string)
    requires RefillsBeforeEviction(s, lag) && CutsTrace(lag, from, before, window, t0, end)
    ensures Allowed(s, AfterAll(s, true, map[], before), ip, window) as real <= Cap(s) + Refill(s, end - t0)
  {
    WindowOpensWellKept(s, lag, from, before, window, t0, end);
    TightBoundFrom(s, lag, AfterAll(s, true, map[], before), ip, window, t0, end);
  }
}
