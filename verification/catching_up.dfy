/** The entry at one URI while a sequence of calls is run, taken back and run again. */
module CatchingUp {
  import opened Results
  import opened PostStore
  import opened Entries

  /** Running calls `r` up to `q` from entry `v` ends where running the first `q` calls from `v0` ends. */
  ghost predicate CatchesUp(f: seq<Call>, v0: Option<Entry>, v: Option<Entry>, u: string, r: nat, q: nat) {
    r <= q <= |f| && Evolve(v, u, f[r..q]) == Evolve(v0, u, f[..q])
  }

  /** If running `a c b` and running `c b` agree, performing `c` first changes neither. */
  lemma {:induction false} StepInside(v: Option<Entry>, u: string, a: seq<Call>, c: Call, b: seq<Call>)
    requires Evolve(v, u, a + ([c] + b)) == Evolve(v, u, [c] + b)
    ensures Evolve(StepEntry(v, u, c), u, a + ([c] + b)) == Evolve(v, u, [c] + b)
  {
    var g, w := a + ([c] + b), StepEntry(v, u, c);
    assert ([c] + b)[0] == c && ([c] + b)[1..] == b;
    if Delete(u) in g {
      DeleteForgets(v, w, u, g);
    } else if w != v {
      // The call inserted into an absent entry.
      assert c in g && forall x :: x in b ==> x in g;
      EntryKeptWithoutDelete(w, u, b);
      EntryKeptWithoutDelete(w, u, g);
    }
  }

  lemma {:induction false} AgainCatchesUp(
      f: seq<Call>, v0: Option<Entry>, v: Option<Entry>, u: string, p: nat, q: nat, r: nat)
    requires p < q <= |f| && r <= p + 1
    requires CatchesUp(f, v0, v, u, p, q) && (r <= p ==> CatchesUp(f, v0, v, u, r, q))
    ensures CatchesUp(f, v0, StepEntry(v, u, f[p]), u, r, q)
  {
    var c, b := f[p], f[p + 1..q];
    assert f[p..q] == [c] + b;
    assert ([c] + b)[0] == c && ([c] + b)[1..] == b;
    if r <= p {
      assert f[r..q] == f[r..p] + ([c] + b);
      StepInside(v, u, f[r..p], c, b);
    }
  }

  /** The entry that the first `q` calls leave catches up from everywhere. */
  lemma {:induction false} CleanCatchesUp(
      f: seq<Call>, v0: Option<Entry>, v: Option<Entry>, u: string, r: nat, q: nat)
    requires r <= q <= |f| && v == Evolve(v0, u, f[..q])
    ensures CatchesUp(f, v0, v, u, r, q)
  {
    assert f[..q] == f[..r] + f[r..q];
    EvolveAppend(v0, u, f[..r], f[r..q]);
    ReplayAbsorbed(Evolve(v0, u, f[..r]), u, f[r..q]);
  }

  /** Having run to `p` and been as far as `q`, the entry catches up from every point up to `p`. */
  ghost predicate CaughtUp(f: seq<Call>, v0: Option<Entry>, v: Option<Entry>, u: string, p: nat, q: nat) {
    p <= q && forall r :: 0 <= r <= p ==> CatchesUp(f, v0, v, u, r, q)
  }

  lemma {:induction false} PerformCatchesUp(
      f: seq<Call>, v0: Option<Entry>, v: Option<Entry>, u: string, p: nat, q: nat)
    requires p < |f| && CaughtUp(f, v0, v, u, p, q)
    ensures CaughtUp(f, v0, StepEntry(v, u, f[p]), u, p + 1, if q > p then q else p + 1)
  {
    assert CatchesUp(f, v0, v, u, p, q);
    var w, reach := StepEntry(v, u, f[p]), if q > p then q else p + 1;
    forall r | 0 <= r <= p + 1
      ensures CatchesUp(f, v0, w, u, r, reach)
    {
      if p < q {
        AgainCatchesUp(f, v0, v, u, p, q, r);
      } else {
        assert f[p..q] == [] && f[..p + 1] == f[..p] + [f[p]];
        EvolveAppend(v0, u, f[..p], [f[p]]);
        CleanCatchesUp(f, v0, w, u, r, p + 1);
      }
    }
  }

  /** At the furthest point the entry is that of a run that was never taken back. */
  lemma {:induction false} CaughtUpAtReach(
      f: seq<Call>, v0: Option<Entry>, v: Option<Entry>, u: string, p: nat, q: nat)
    requires CaughtUp(f, v0, v, u, p, q) && q <= p
    ensures p == q <= |f| && v == Evolve(v0, u, f[..p])
  {
    assert CatchesUp(f, v0, v, u, p, q);
    assert f[p..q] == [];
  }
}
