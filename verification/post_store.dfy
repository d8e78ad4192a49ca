/** The `post` table and the `sub_state` cursor table, and the store calls that change them. */
module PostStore {
  import opened Results

  /** A row of `post`; its primary key `uri` is the table's key. */
  datatype Row = Row(feed: string, cid: string, indexedAt: string)

  type Table = map<string, Row>

  datatype Call = Insert(feed: string, uri: string, cid: string) | Delete(uri: string)

  /** `INSERT … ON CONFLICT DO NOTHING` and `DELETE … WHERE uri = …`. */
  function Apply(t: Table, call: Call, stamp: string): Table {
    match call
    case Insert(feed, uri, cid) => if uri in t then t else t[uri := Row(feed, cid, stamp)]
    case Delete(uri) => t - {uri}
  }

  /** What the store cannot choose: which of its calls fail, and what the clock shows at each. */
  datatype Environment = Environment(fails: nat -> bool, clock: nat -> string)

  /** The table after a sequence of calls of which the first is the store's `n`-th. */
  function Run(env: Environment, n: nat, t: Table, calls: seq<Call>): Table
    decreases |calls|
  {
    if calls == [] then t
    else Run(env, n + 1, if env.fails(n) then t else Apply(t, calls[0], env.clock(n)), calls[1..])
  }

  lemma {:induction false} RunAppend(env: Environment, n: nat, t: Table, a: seq<Call>, b: seq<Call>)
    ensures Run(env, n, t, a + b) == Run(env, n + |a|, Run(env, n, t, a), b)
    decreases |a|
  {
    if a == [] {
      assert a + b == b;
    } else {
      var t' := if env.fails(n) then t else Apply(t, a[0], env.clock(n));
      assert (a + b)[1..] == a[1..] + b;
      RunAppend(env, n + 1, t', a[1..], b);
    }
  }

  /** The first `n` batches of calls, one after the other. */
  function Flat(batches: seq<seq<Call>>, n: nat): seq<Call>
    requires n <= |batches|
  {
    if n == 0 then [] else Flat(batches, n - 1) + batches[n - 1]
  }

  lemma {:induction false} FlatPrefix(batches: seq<seq<Call>>, i: nat, j: nat)
    requires i <= j <= |batches|
    ensures Flat(batches, i) <= Flat(batches, j)
    decreases j - i
  {
    if i < j {
      FlatPrefix(batches, i, j - 1);
    }
  }

  lemma {:induction false} FlatMember(batches: seq<seq<Call>>, n: nat, call: Call)
    requires n <= |batches| && call in Flat(batches, n)
    ensures exists i :: 0 <= i < n && call in batches[i]
  {
    if n > 0 && call !in batches[n - 1] {
      FlatMember(batches, n - 1, call);
    }
  }

  /** `t'` is the table and `n'` the call count after running `calls` from `t` and `n`. */
  predicate Performed(env: Environment, n: nat, t: Table, calls: seq<Call>, n': nat, t': Table) {
    n' == n + |calls| && t' == Run(env, n, t, calls)
  }

  lemma {:induction false} PerformedInTurn(env: Environment, n: nat, t: Table, a: seq<Call>, n1: nat, t1: Table,
                                           b: seq<Call>, n2: nat, t2: Table)
    requires Performed(env, n, t, a, n1, t1) && Performed(env, n1, t1, b, n2, t2)
    ensures Performed(env, n, t, a + b, n2, t2)
  {
    RunAppend(env, n, t, a, b);
  }

  function Deletes(uris: seq<string>): seq<Call> {
    seq(|uris|, i requires 0 <= i < |uris| => Delete(uris[i]))
  }

  class Store {
    const env: Environment
    var posts: Table
    var cursors: map<string, int>
    var calls: nat

    constructor (env: Environment)
      ensures this.env == env && posts == map[] && cursors == map[] && calls == 0
    {
      this.env := env;
      posts, cursors, calls := map[], map[], 0;
    }

    method InsertPost(feed: string, uri: string, cid: string) returns (ok: bool)
      modifies this
      ensures ok == !env.fails(old(calls)) && calls == old(calls) + 1 && cursors == old(cursors)
      ensures posts == Run(env, old(calls), old(posts), [Insert(feed, uri, cid)])
      ensures posts == if !ok || uri in old(posts) then old(posts)
                       else old(posts)[uri := Row(feed, cid, env.clock(old(calls)))]
    {
      ok := !env.fails(calls);
      if ok && uri !in posts {
        posts := posts[uri := Row(feed, cid, env.clock(calls))];
      }
      calls := calls + 1;
    }

    method DeletePost(uri: string) returns (ok: bool)
      modifies this
      ensures ok == !env.fails(old(calls)) && calls == old(calls) + 1 && cursors == old(cursors)
      ensures posts == Run(env, old(calls), old(posts), [Delete(uri)])
      ensures posts == if ok then old(posts) - {uri} else old(posts)
    {
      ok := !env.fails(calls);
      if ok {
        posts := posts - {uri};
      }
      calls := calls + 1;
    }

    /** Deletes one by one and gives up at the first failing call. */
    method DeletePosts(uris: seq<string>) returns (ok: bool)
      modifies this
      ensures old(calls) <= calls <= old(calls) + |uris| && cursors == old(cursors)
      ensures posts == Run(env, old(calls), old(posts), Deletes(uris[..calls - old(calls)]))
      ensures ok ==> calls == old(calls) + |uris| && forall k :: old(calls) <= k < calls ==> !env.fails(k)
      ensures !ok ==>
        old(calls) < calls && env.fails(calls - 1) && forall k :: old(calls) <= k < calls - 1 ==> !env.fails(k)
    {
      var i := 0;
      while i < |uris|
        invariant 0 <= i <= |uris| && calls == old(calls) + i && cursors == old(cursors)
        invariant posts == Run(env, old(calls), old(posts), Deletes(uris[..i]))
        invariant forall k :: old(calls) <= k < calls ==> !env.fails(k)
      {
        RunAppend(env, old(calls), old(posts), Deletes(uris[..i]), [Delete(uris[i])]);
        assert Deletes(uris[..i + 1]) == Deletes(uris[..i]) + [Delete(uris[i])];
        var deleted := DeletePost(uris[i]);
        if !deleted {
          return false;
        }
        i := i + 1;
      }
      assert uris[..i] == uris;
      return true;
    }

    /** The stored cursor; a service without a row reads as 0. */
    method GetCursor(service: string) returns (r: Result<int, ()>)
      modifies this`calls
      ensures calls == old(calls) + 1
      ensures r == if env.fails(old(calls)) then Err(()) else Ok(if service in cursors then cursors[service] else 0)
    {
      if env.fails(calls) {
        r := Err(());
      } else if service !in cursors {
        r := Ok(0);
      } else {
        r := Ok(cursors[service]);
      }
      calls := calls + 1;
    }

    method UpsertCursor(service: string, cursor: int) returns (ok: bool)
      modifies this
      ensures ok == !env.fails(old(calls)) && calls == old(calls) + 1 && posts == old(posts)
      ensures cursors == if ok then old(cursors)[service := cursor] else old(cursors)
    {
      ok := !env.fails(calls);
      if ok {
        cursors := cursors[service := cursor];
      }
      calls := calls + 1;
    }
  }
}
