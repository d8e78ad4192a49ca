/** The limiter as the server runs it: one mutable entry per IP, kept in a shared cache. */
module RateLimiter {
  import opened Caches
  import opened TokenBucket
  import opened RateLimits

  /** A token bucket that each request may draw on. */
  class Limiter {
    const settings: Settings
    var tokens: real
    var last: real

    constructor (settings: Settings, now: real)
      ensures this.settings == settings && Value() == FullBucket(settings, now)
    {
      this.settings := settings;
      tokens, last := settings.burst as real, now;
    }

    function Value(): Bucket
      reads this
    {
      Bucket(tokens, last)
    }

    method Allow(now: real) returns (ok: bool)
      modifies this
      ensures (ok, Value()) == Take(settings, old(Value()), now)
    {
      var level := Level(settings, Value(), now);
      ok := level >= 1.0 && settings.burst >= 1;
      if ok {
        tokens, last := level - 1.0, now;
      }
    }
  }

  class LimiterEntry {
    const limiter: Limiter
    var lastUsed: real

    constructor (limiter: Limiter, lastUsed: real)
      ensures this.limiter == limiter && this.lastUsed == lastUsed
    {
      this.limiter, this.lastUsed := limiter, lastUsed;
    }

    function Value(): Held
      reads this, limiter
    {
      Held(limiter.Value(), lastUsed)
    }
  }

  class RateLimiter {
    const settings: Settings
    const limiters: Cache<string, LimiterEntry>

    ghost function Parts(): set<object>
      reads limiters
    {
      (set ip | ip in limiters.entries :: limiters.entries[ip])
      + (set ip | ip in limiters.entries :: limiters.entries[ip].limiter)
    }

    /** Every IP has an entry and a bucket of its own, with the limiter's settings. */
    ghost predicate Valid()
      reads limiters
    {
      && (forall ip :: ip in limiters.entries ==> limiters.entries[ip].limiter.settings == settings)
      && (forall ip, ip' :: ip in limiters.entries && ip' in limiters.entries && ip != ip' ==>
            && limiters.entries[ip] != limiters.entries[ip']
            && limiters.entries[ip].limiter != limiters.entries[ip'].limiter)
    }

    ghost function View(): Limiters
      reads limiters, Parts()
    {
      map ip | ip in limiters.entries :: limiters.entries[ip].Value()
    }

    constructor (settings: Settings)
      ensures this.settings == settings && Valid() && View() == map[] && fresh(limiters)
    {
      this.settings := settings;
      limiters := new Cache<string, LimiterEntry>();
    }

    method NoteUse(ip: string, entry: LimiterEntry, now: real)
      requires Valid() && ip in limiters.entries && limiters.entries[ip] == entry
      modifies entry`lastUsed
      ensures View() == old(View())[ip := Held(old(View())[ip].bucket, now)]
    {
      entry.lastUsed := now;
      forall x | x in limiters.entries && x != ip
        ensures limiters.entries[x].Value() == old(limiters.entries[x].Value())
      {
        assert limiters.entries[x] != entry;
      }
    }

    method AddEntry(ip: string, now: real) returns (l: Limiter)
      requires Valid() && ip !in limiters.entries
      modifies limiters
      ensures Valid() && fresh(Parts() - old(Parts()))
      ensures ip in limiters.entries && l == limiters.entries[ip].limiter
      ensures View() == old(View())[ip := Held(FullBucket(settings, now), now)]
    {
      l := new Limiter(settings, now);
      var e := new LimiterEntry(l, now);
      limiters.Set(ip, e);
    }

    /** Finds the IP's bucket and notes the use, or gives a new IP a full bucket. */
    method GetLimiter(ip: string, now: real) returns (l: Limiter)
      requires Valid()
      modifies limiters, Parts()
      ensures Valid() && fresh(Parts() - old(Parts()))
      ensures ip in limiters.entries && l == limiters.entries[ip].limiter
      ensures
        var m := old(View());
        View() == m[ip := Held(if ip in m then m[ip].bucket else FullBucket(settings, now), now)]
    {
      var found := limiters.Get(ip);
      if found.Some? {
        NoteUse(ip, found.value, now);
        return found.value.limiter;
      }
      l := AddEntry(ip, now);
    }

    method Draw(l: Limiter, ip: string, at: real) returns (ok: bool)
      requires Valid() && ip in limiters.entries && l == limiters.entries[ip].limiter
      modifies l
      ensures ip in old(View())
      ensures
        var h := old(View())[ip];
        && ok == Take(settings, h.bucket, at).0
        && View() == old(View())[ip := Held(Take(settings, h.bucket, at).1, h.lastUsed)]
    {
      ok := l.Allow(at);
      forall x | x in limiters.entries && x != ip
        ensures limiters.entries[x].Value() == old(limiters.entries[x].Value())
      {
        assert limiters.entries[x].limiter != l;
      }
    }

    /** The limiter's answer and its new state, for the two clock readings of one request. */
    method Allow(ip: string, used: real, at: real) returns (ok: bool)
      requires Valid()
      modifies limiters, Parts()
      ensures Valid() && fresh(Parts() - old(Parts()))
      ensures (ok, View()) == AllowStep(settings, old(View()), ip, used, at)
    {
      var l := GetLimiter(ip, used);
      ghost var noted := View();
      ok := Draw(l, ip, at);
      AllowInTwoSteps(settings, old(View()), noted, ip, used, at);
    }

    predicate IsStaleEntry(now: real, entry: LimiterEntry)
      reads entry
    {
      now - entry.lastUsed > settings.maxAge
    }

    /** A tick of the cache's own cleanup with the limiter's staleness test. */
    method CleanupTick(now: real)
      requires Valid()
      modifies limiters
      ensures Valid() && View() == Swept(settings, old(View()), now)
    {
      limiters.SweepLocked((ip, entry: LimiterEntry) reads entry => IsStaleEntry(now, entry));
    }

    /** The same through the collect-then-delete sweep. */
    method CleanupCollected(now: real)
      requires Valid()
      modifies limiters
      ensures Valid() && View() == Swept(settings, old(View()), now)
    {
      limiters.SweepCollected((ip, entry: LimiterEntry) reads entry => IsStaleEntry(now, entry));
    }

    /** One step of the purge: look the entry up and delete it if it was last used before the cutoff. */
    method PurgeEntry(ip: string, cutoff: real)
      requires Valid()
      modifies limiters
      ensures Valid()
      ensures
        var m := old(View());
        View() == if ip in m && m[ip].lastUsed < cutoff then m - {ip} else m
    {
      var entry := limiters.Get(ip);
      if entry.Some? && entry.value.lastUsed < cutoff {
        limiters.Delete(ip);
      }
    }

    method PurgeKeys(keys: seq<string>, cutoff: real)
      requires Valid()
      modifies limiters
      ensures Valid() && View() == PurgedKeys(old(View()), cutoff, keys, |keys|)
    {
      ghost var before := View();
      for i := 0 to |keys|
        invariant Valid() && View() == PurgedKeys(before, cutoff, keys, i)
      {
        PurgeEntry(keys[i], cutoff);
      }
    }

    /** The limiter's own purge, key by key. */
    method PurgeStale(now: real)
      requires Valid()
      modifies limiters
      ensures Valid() && View() == Swept(settings, old(View()), now)
    {
      var cutoff := now - settings.maxAge;
      var keys := limiters.Keys();
      ghost var before := View();
      PurgeKeys(keys, cutoff);
      PurgedKeysAreSwept(settings, before, now, keys);
    }
  }
}
