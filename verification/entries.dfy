/**
 What a table says about each URI, its feed and cid. The `indexed_at` stamp is left aside because every
 insert call takes a new one.
 */
module Entries {
  import opened Results
  import opened PostStore

  datatype Entry = Entry(feed: string, cid: string)

  function EntryAt(t: Table, u: string): Option<Entry> {
    if u in t then Some(Entry(t[u].feed, t[u].cid)) else None
  }

  /** The two tables hold the same URIs with the same feeds and cids. */
  ghost predicate SameEntries(t: Table, t': Table) {
    forall u :: EntryAt(t, u) == EntryAt(t', u)
  }

  function StepEntry(v: Option<Entry>, u: string, call: Call): Option<Entry> {
    if call.uri != u then v
    else if call.Delete? then None
    else if v.Some? then v
    else Some(Entry(call.feed, call.cid))
  }

  /** How a sequence of calls changes the entry at one URI. */
  function Evolve(v: Option<Entry>, u: string, calls: seq<Call>): Option<Entry>
    decreases |calls|
  {
    if calls == [] then v else Evolve(StepEntry(v, u, calls[0]), u, calls[1..])
  }

  ghost predicate NoFailures(env: Environment) {
    forall k :: !env.fails(k)
  }

  lemma {:induction false} RunEvolves(env: Environment, n: nat, t: Table, calls: seq<Call>, u: string)
    requires NoFailures(env)
    ensures EntryAt(Run(env, n, t, calls), u) == Evolve(EntryAt(t, u), u, calls)
    decreases |calls|
  {
    if calls != [] {
      RunEvolves(env, n + 1, Apply(t, calls[0], env.clock(n)), calls[1..], u);
    }
  }

  lemma {:induction false} EvolveAppend(v: Option<Entry>, u: string, a: seq<Call>, b: seq<Call>)
    ensures Evolve(v, u, a + b) == Evolve(Evolve(v, u, a), u, b)
    decreases |a|
  {
    if a == [] {
      assert a + b == b;
    } else {
      assert (a + b)[1..] == a[1..] + b;
      EvolveAppend(StepEntry(v, u, a[0]), u, a[1..], b);
    }
  }

  lemma {:induction false} DeleteForgets(v: Option<Entry>, w: Option<Entry>, u: string, calls: seq<Call>)
    requires Delete(u) in calls
    ensures Evolve(v, u, calls) == Evolve(w, u, calls)
    decreases |calls|
  {
    if calls[0] != Delete(u) {
      assert Delete(u) in calls[1..];
      DeleteForgets(StepEntry(v, u, calls[0]), StepEntry(w, u, calls[0]), u, calls[1..]);
    }
  }

  lemma {:induction false} EntryKeptWithoutDelete(v: Option<Entry>, u: string, calls: seq<Call>)
    requires v.Some? && Delete(u) !in calls
    ensures Evolve(v, u, calls) == v
    decreases |calls|
  {
    if calls != [] {
      assert StepEntry(v, u, calls[0]) == v by {
        assert calls[0] in calls;
      }
      EntryKeptWithoutDelete(v, u, calls[1..]);
    }
  }

  /** Replaying a whole stretch of calls right after it ran changes no entry. */
  lemma {:induction false} ReplayAbsorbed(v: Option<Entry>, u: string, calls: seq<Call>)
    ensures Evolve(Evolve(v, u, calls), u, calls) == Evolve(v, u, calls)
  {
    var w := Evolve(v, u, calls);
    if Delete(u) in calls {
      DeleteForgets(v, w, u, calls);
    } else if w.Some? {
      EntryKeptWithoutDelete(w, u, calls);
    } else if v.Some? {
      EntryKeptWithoutDelete(v, u, calls);
    }
  }

  /** Calls on other URIs do not matter. */
  function OnUri(calls: seq<Call>, u: string): seq<Call>
    decreases |calls|
  {
    if calls == [] then []
    else (if calls[0].uri == u then [calls[0]] else []) + OnUri(calls[1..], u)
  }

  lemma {:induction false} OnlyOwnCallsMatter(v: Option<Entry>, u: string, calls: seq<Call>)
    ensures Evolve(v, u, calls) == Evolve(v, u, OnUri(calls, u))
    decreases |calls|
  {
    if calls != [] {
      OnlyOwnCallsMatter(StepEntry(v, u, calls[0]), u, calls[1..]);
      var rest := OnUri(calls[1..], u);
      if calls[0].uri == u {
        assert ([calls[0]] + rest)[1..] == rest;
      } else {
        assert [] + rest == rest;
      }
    }
  }

  /** `t` says at every URI what the first `n` batches of calls make of `t0`. */
  ghost predicate Reflects(t: Table, t0: Table, batches: seq<seq<Call>>, n: nat)
    requires n <= |batches|
  {
    forall u :: EntryAt(t, u) == Evolve(EntryAt(t0, u), u, Flat(batches, n))
  }

  lemma {:induction false} NextBatchReflected(
      env: Environment, k: nat, t: Table, t0: Table, batches: seq<seq<Call>>, n: nat)
    requires n < |batches| && NoFailures(env) && Reflects(t, t0, batches, n)
    ensures Reflects(Run(env, k, t, batches[n]), t0, batches, n + 1)
  {
    forall u
      ensures EntryAt(Run(env, k, t, batches[n]), u) == Evolve(EntryAt(t0, u), u, Flat(batches, n + 1))
    {
      RunEvolves(env, k, t, batches[n], u);
      EvolveAppend(EntryAt(t0, u), u, Flat(batches, n), batches[n]);
    }
  }

  lemma {:induction false} ReflectsIsCrashFree(
      env: Environment, k: nat, t: Table, t0: Table, batches: seq<seq<Call>>, n: nat)
    requires n <= |batches| && NoFailures(env)
    ensures Reflects(t, t0, batches, n) <==> SameEntries(t, Run(env, k, t0, Flat(batches, n)))
  {
    forall u
      ensures EntryAt(Run(env, k, t0, Flat(batches, n)), u) == Evolve(EntryAt(t0, u), u, Flat(batches, n))
    {
      RunEvolves(env, k, t0, Flat(batches, n), u);
    }
  }
}
