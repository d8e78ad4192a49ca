/**
 When a log of commits is run with commits skipped or cut off in the middle, something may be left at a URI that
 should not be there. A commit hides that if it leads to the same entry whatever was left.
 */
module Hiding {
  import opened Results
  import opened PostStore
  import opened Entries

  // What may be left at a URI.

  /**
   Entry `x` is at `u` when commit `k` begins, if each commit before it was carried out up to some call,
   possibly not at all.
   */
  ghost predicate CanLeave(log: seq<seq<Call>>, v: Option<Entry>, u: string, k: nat, x: Option<Entry>)
    requires k <= |log|
    decreases k, 1
  {
    if k == 0 then x == v else exists y, i: nat :: CutAt(log, v, u, k, y, i, x)
  }

  /** The last of `k` commits finds `y`, makes `i` calls and leaves `x`. */
  ghost predicate CutAt(
      log: seq<seq<Call>>, v: Option<Entry>, u: string, k: nat, y: Option<Entry>, i: nat, x: Option<Entry>)
    requires 0 < k <= |log|
    decreases k, 0
  {
    CanLeave(log, v, u, k - 1, y) && i <= |log[k - 1]| && x == Evolve(y, u, log[k - 1][..i])
  }

  /** Call `i` of commit `j` inserts at `u`, and the entry can be absent when it is made. */
  ghost predicate TakesEffect(log: seq<seq<Call>>, v: Option<Entry>, u: string, j: nat, i: nat) {
    && j < |log| && i < |log[j]|
    && log[j][i].Insert? && log[j][i].uri == u
    && Evolve(None, u, log[j][..i]) == None
    && (v.None? || Delete(u) in Flat(log, j) || Delete(u) in log[j][..i])
  }

  function Inserted(log: seq<seq<Call>>, j: nat, i: nat): Option<Entry>
    requires j < |log| && i < |log[j]| && log[j][i].Insert?
  {
    Some(Entry(log[j][i].feed, log[j][i].cid))
  }

  /** The entry of a call of the first `k` commits that can take effect. */
  ghost predicate CanPut(log: seq<seq<Call>>, v: Option<Entry>, u: string, k: nat, x: Option<Entry>) {
    exists j: nat, i: nat :: j < k && TakesEffect(log, v, u, j, i) && x == Inserted(log, j, i)
  }

  /** What a stretch of calls can make of an entry: leave it, delete it, or put an insert's entry in its place. */
  lemma {:induction false} EvolveCases(y: Option<Entry>, u: string, calls: seq<Call>) returns (i: nat)
    ensures
      var x := Evolve(y, u, calls);
      || x == y
      || (x.None? && Delete(u) in calls)
      || (&& i < |calls| && calls[i].Insert? && calls[i].uri == u && x == Some(Entry(calls[i].feed, calls[i].cid))
          && Evolve(None, u, calls[..i]) == None && (y.None? || Delete(u) in calls[..i]))
    decreases |calls|
  {
    i := 0;
    if calls != [] {
      var n := |calls| - 1;
      var before, last := calls[..n], calls[n];
      assert calls == before + [last];
      EvolveAppend(y, u, before, [last]);
      i := EvolveCases(y, u, before);
      if i < n {
        assert before[..i] == calls[..i];
      }
      var x := Evolve(y, u, before);
      if last.Insert? && last.uri == u && x.None? {
        if y.Some? {
          if Delete(u) !in before {
            EntryKeptWithoutDelete(y, u, before);
          }
          DeleteForgets(y, None, u, before);
        }
        i := n;
      }
    }
  }

  lemma {:induction false} LeftIsCause(log: seq<seq<Call>>, v: Option<Entry>, u: string, k: nat, x: Option<Entry>)
    requires k <= |log| && CanLeave(log, v, u, k, x)
    ensures x == v || (x.None? && Delete(u) in Flat(log, k)) || CanPut(log, v, u, k, x)
  {
    if k > 0 {
      var y, i: nat :| CutAt(log, v, u, k, y, i, x);
      var cut := log[k - 1][..i];
      LeftIsCause(log, v, u, k - 1, y);
      var m := EvolveCases(y, u, cut);
      if x != y && x.Some? {
        assert cut[..m] == log[k - 1][..m];
        assert TakesEffect(log, v, u, k - 1, m) && x == Inserted(log, k - 1, m);
      }
    }
  }

  lemma {:induction false} SkipsTo(log: seq<seq<Call>>, v: Option<Entry>, u: string, j: nat, k: nat, x: Option<Entry>)
    requires j <= k <= |log| && CanLeave(log, v, u, j, x)
    ensures CanLeave(log, v, u, k, x)
    decreases k - j
  {
    if j < k {
      SkipsTo(log, v, u, j, k - 1, x);
      assert log[k - 1][..0] == [];
      assert CutAt(log, v, u, k, x, 0, x);
    }
  }

  lemma {:induction false} CutsAfter(
      log: seq<seq<Call>>, v: Option<Entry>, u: string, j: nat, k: nat, y: Option<Entry>, i: nat, x: Option<Entry>)
    requires j < k <= |log| && CutAt(log, v, u, j + 1, y, i, x)
    ensures CanLeave(log, v, u, k, x)
  {
    assert CanLeave(log, v, u, j + 1, x);
    SkipsTo(log, v, u, j + 1, k, x);
  }

  lemma {:induction false} EvolveNext(y: Option<Entry>, u: string, calls: seq<Call>, i: nat)
    requires i < |calls|
    ensures Evolve(y, u, calls[..i + 1]) == StepEntry(Evolve(y, u, calls[..i]), u, calls[i])
  {
    assert calls[..i + 1] == calls[..i] + [calls[i]];
    EvolveAppend(y, u, calls[..i], [calls[i]]);
  }

  lemma {:induction false} DeletedCanBeLeft(log: seq<seq<Call>>, v: Option<Entry>, u: string, k: nat)
    requires k <= |log| && Delete(u) in Flat(log, k)
    ensures CanLeave(log, v, u, k, None)
  {
    if Delete(u) in log[k - 1] {
      var i :| 0 <= i < |log[k - 1]| && log[k - 1][i] == Delete(u);
      SkipsTo(log, v, u, 0, k - 1, v);
      EvolveNext(v, u, log[k - 1], i);
      assert CutAt(log, v, u, k, v, i + 1, None);
    } else {
      DeletedCanBeLeft(log, v, u, k - 1);
      SkipsTo(log, v, u, k - 1, k, None);
    }
  }

  lemma {:induction false} PutCanBeLeft(log: seq<seq<Call>>, v: Option<Entry>, u: string, k: nat, j: nat, i: nat)
    requires j < k <= |log| && TakesEffect(log, v, u, j, i)
    ensures CanLeave(log, v, u, k, Inserted(log, j, i))
  {
    var calls := log[j];
    var y := if Delete(u) in calls[..i] then v else None;
    if Delete(u) in calls[..i] {
      DeleteForgets(v, None, u, calls[..i]);
      SkipsTo(log, v, u, 0, j, v);
    } else if v.None? {
      SkipsTo(log, v, u, 0, j, v);
    } else {
      DeletedCanBeLeft(log, v, u, j);
    }
    EvolveNext(y, u, calls, i);
    CutsAfter(log, v, u, j, k, y, i + 1, Inserted(log, j, i));
  }

  // Commits that hide what was left.

  /** No call of `past` on `u` changes entry `v`: an absent one is only deleted, one that is there only inserted. */
  predicate LeavesAlone(past: seq<Call>, v: Option<Entry>, u: string) {
    forall c :: c in past && c.uri == u ==> (c.Insert? <==> v.Some?)
  }

  /** The calls put back the only entry that was there or could be put there. */
  ghost predicate PutsBack(log: seq<seq<Call>>, v: Option<Entry>, u: string, k: nat)
    requires k < |log|
  {
    var x := Evolve(None, u, log[k]);
    && x.Some? && (v.Some? ==> v == x)
    && forall j: nat, i: nat :: j < k && TakesEffect(log, v, u, j, i) ==> Inserted(log, j, i) == x
  }

  /** Commit `k` deletes the URI, or nothing before it could change the entry, or it puts back the same entry. */
  ghost predicate Hides(log: seq<seq<Call>>, v: Option<Entry>, u: string, k: nat)
    requires k < |log|
  {
    Delete(u) in log[k] || LeavesAlone(Flat(log, k), v, u) || PutsBack(log, v, u, k)
  }

  /** After commit `k` it does not matter what was left before it. */
  ghost predicate Settles(log: seq<seq<Call>>, v: Option<Entry>, u: string, k: nat)
    requires k < |log|
  {
    forall x :: CanLeave(log, v, u, k, x) ==> Evolve(x, u, log[k]) == Evolve(v, u, log[k])
  }

  lemma {:induction false} InFlat(log: seq<seq<Call>>, k: nat, j: nat, c: Call)
    requires j < k <= |log| && c in log[j]
    ensures c in Flat(log, k)
  {
    var rest := Flat(log, k - 1);
    if j < k - 1 {
      InFlat(log, k - 1, j, c);
      assert c in rest;
    }
    assert Flat(log, k) == rest + log[k - 1];
  }

  lemma {:induction false} NothingElseLeft(log: seq<seq<Call>>, v: Option<Entry>, u: string, k: nat, x: Option<Entry>)
    requires k <= |log| && LeavesAlone(Flat(log, k), v, u) && CanLeave(log, v, u, k, x)
    ensures x == v
  {
    LeftIsCause(log, v, u, k, x);
    if CanPut(log, v, u, k, x) {
      var j: nat, i: nat :| j < k && TakesEffect(log, v, u, j, i) && x == Inserted(log, j, i);
      InFlat(log, k, j, log[j][i]);
      if Delete(u) in Flat(log, j) {
        FlatMember(log, j, Delete(u));
        var l: nat :| l < j && Delete(u) in log[l];
        InFlat(log, k, l, Delete(u));
      } else if Delete(u) in log[j][..i] {
        InFlat(log, k, j, Delete(u));
      }
    }
  }

  lemma {:induction false} HidingSettles(log: seq<seq<Call>>, v: Option<Entry>, u: string, k: nat)
    requires k < |log| && Hides(log, v, u, k)
    ensures Settles(log, v, u, k)
  {
    var calls := log[k];
    forall x | CanLeave(log, v, u, k, x)
      ensures Evolve(x, u, calls) == Evolve(v, u, calls)
    {
      if Delete(u) in calls {
        DeleteForgets(x, v, u, calls);
      } else if LeavesAlone(Flat(log, k), v, u) {
        NothingElseLeft(log, v, u, k, x);
      } else {
        LeftIsCause(log, v, u, k, x);
        KeepsOrPuts(x, u, calls);
        KeepsOrPuts(v, u, calls);
      }
    }
  }

  /** Without a delete, calls keep an entry that is there. */
  lemma {:induction false} KeepsOrPuts(x: Option<Entry>, u: string, calls: seq<Call>)
    requires Delete(u) !in calls
    ensures Evolve(x, u, calls) == if x.Some? then x else Evolve(None, u, calls)
  {
    if x.Some? {
      EntryKeptWithoutDelete(x, u, calls);
    }
  }

  /** Among calls with an insert at `u`, the first one finds the entry absent if it was. */
  lemma {:induction false} FirstInsertAt(u: string, calls: seq<Call>, c: Call)
    requires c in calls && c.Insert? && c.uri == u
    ensures exists i ::
      0 <= i < |calls| && calls[i].Insert? && calls[i].uri == u && Evolve(None, u, calls[..i]) == None
  {
    var i := 0;
    while !(calls[i].Insert? && calls[i].uri == u)
      invariant i < |calls| && c in calls[i..] && Evolve(None, u, calls[..i]) == None
      decreases |calls| - i
    {
      EvolveNext(None, u, calls, i);
      assert calls[i..] == [calls[i]] + calls[i + 1..];
      i := i + 1;
    }
  }

  lemma {:induction false} SettlingHides(log: seq<seq<Call>>, v: Option<Entry>, u: string, k: nat)
    requires k < |log| && Settles(log, v, u, k)
    ensures Hides(log, v, u, k)
  {
    var calls, past := log[k], Flat(log, k);
    if Delete(u) !in calls && !LeavesAlone(past, v, u) {
      KeepsOrPuts(v, u, calls);
      var c :| c in past && c.uri == u && (c.Insert? <==> v.None?);
      var x := v;
      if v.Some? {
        assert c == Delete(u);
        DeletedCanBeLeft(log, v, u, k);
        x := None;
      } else {
        FlatMember(log, k, c);
        var j: nat :| j < k && c in log[j];
        FirstInsertAt(u, log[j], c);
        var i: nat :| i < |log[j]| && log[j][i].Insert? && log[j][i].uri == u && Evolve(None, u, log[j][..i]) == None;
        assert TakesEffect(log, v, u, j, i);
        PutCanBeLeft(log, v, u, k, j, i);
        x := Inserted(log, j, i);
      }
      KeepsOrPuts(x, u, calls);
      forall j: nat, i: nat | j < k && TakesEffect(log, v, u, j, i)
        ensures Inserted(log, j, i) == Evolve(None, u, calls)
      {
        PutCanBeLeft(log, v, u, k, j, i);
        KeepsOrPuts(Inserted(log, j, i), u, calls);
      }
    }
  }

  lemma {:induction false} WholeCanBeLeft(log: seq<seq<Call>>, v: Option<Entry>, u: string, k: nat)
    requires k <= |log|
    ensures CanLeave(log, v, u, k, Evolve(v, u, Flat(log, k)))
  {
    if k > 0 {
      var calls := log[k - 1];
      WholeCanBeLeft(log, v, u, k - 1);
      EvolveAppend(v, u, Flat(log, k - 1), calls);
      assert calls[..|calls|] == calls;
      assert CutAt(log, v, u, k, Evolve(v, u, Flat(log, k - 1)), |calls|, Evolve(v, u, Flat(log, k)));
    }
  }
}
