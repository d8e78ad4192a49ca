/**
 Post URIs: `url.URL{Scheme: "at", Host: repo, Path: path}.String()`. Characters stand for bytes, and
 a byte that is not allowed in its component is written as `%` and two hexadecimal digits.
 */
module AtUri {

  type ByteString = s: string | forall i :: 0 <= i < |s| ==> s[i] as int < 256

  predicate IsAlphanumeric(c: char) {
    'a' <= c <= 'z' || 'A' <= c <= 'Z' || '0' <= c <= '9'
  }

  predicate HostSafe(c: char) {
    IsAlphanumeric(c) || c in "-_.~!$&'()*+,;=:[]<>\""
  }

  predicate PathSafe(c: char) {
    IsAlphanumeric(c) || c in "-_.~$&+,/:;=@"
  }

  function HexDigit(n: nat): char
    requires n < 16
  {
    if n < 10 then '0' + n as char else 'A' + (n - 10) as char
  }

  function HexValue(c: char): nat {
    if '0' <= c <= '9' then (c - '0') as nat else if 'A' <= c <= 'F' then (c - 'A') as nat + 10 else 0
  }

  function EscapeByte(c: char, safe: char -> bool): (e: string)
    requires c as int < 256
    ensures e != ""
  {
    if safe(c) then [c] else ['%', HexDigit(c as int / 16), HexDigit(c as int % 16)]
  }

  function Escape(s: ByteString, safe: char -> bool): string {
    if s == "" then "" else EscapeByte(s[0], safe) + Escape(s[1..], safe)
  }

  function Unescape(s: string): string {
    if s == "" then ""
    else if s[0] == '%' && |s| >= 3 && HexValue(s[1]) < 16 && HexValue(s[2]) < 16
    then [(HexValue(s[1]) * 16 + HexValue(s[2])) as char] + Unescape(s[3..])
    else [s[0]] + Unescape(s[1..])
  }

  lemma {:induction false} UnescapeEscape(s: ByteString, safe: char -> bool)
    requires !safe('%')
    ensures Unescape(Escape(s, safe)) == s
  {
    if s != "" {
      UnescapeEscape(s[1..], safe);
      var c, rest := s[0], Escape(s[1..], safe);
      if safe(c) {
        assert ([c] + rest)[1..] == rest;
      } else {
        var e := ['%', HexDigit(c as int / 16), HexDigit(c as int % 16)];
        assert (e + rest)[3..] == rest;
        assert HexValue(e[1]) * 16 + HexValue(e[2]) == c as int;
      }
    }
  }

  lemma {:induction false} EscapeInjective(s: ByteString, t: ByteString, safe: char -> bool)
    requires !safe('%') && Escape(s, safe) == Escape(t, safe)
    ensures s == t
  {
    UnescapeEscape(s, safe);
    UnescapeEscape(t, safe);
  }

  lemma {:induction false} EscapedHostHasNoSlash(s: ByteString)
    ensures '/' !in Escape(s, HostSafe)
  {
    if s != "" {
      EscapedHostHasNoSlash(s[1..]);
    }
  }

  function BuildUri(repo: ByteString, path: ByteString): string {
    var p := if path == "*" then "*" else Escape(path, PathSafe);
    "at:" + (if repo != "" || path != "" then "//" else "")
    + Escape(repo, HostSafe)
    + (if p != "" && p[0] != '/' && repo != "" then "/" else "")
    + p
  }

  const POST_COLLECTION: ByteString := "app.bsky.feed.post"

  predicate IsPostPath(path: string) {
    POST_COLLECTION + "/" <= path
  }

  lemma {:induction false} PostUriShape(repo: ByteString, path: ByteString)
    requires IsPostPath(path)
    ensures BuildUri(repo, path)
         == "at://" + ((if repo == "" then "" else Escape(repo, HostSafe) + "/") + Escape(path, PathSafe))
  {
    assert path[0] == 'a';
    assert Escape(path, PathSafe)[0] == 'a';
  }

  /** The part before the first slash and the part after it determine a joined text. */
  lemma {:induction false} SplitAtSlash(a: string, x: string, b: string, y: string)
    requires '/' !in a && '/' !in b && a + "/" + x == b + "/" + y
    ensures a == b && x == y
  {
    var s := a + "/" + x;
    assert s[|a|] == '/' && s[|b|] == '/';
    assert forall i :: 0 <= i < |a| ==> s[i] == a[i];
    assert forall i :: 0 <= i < |b| ==> s[i] == b[i];
    assert |a| == |b|;
    assert a == s[..|a|] && b == s[..|b|];
    assert x == s[|a| + 1..] && y == s[|b| + 1..];
  }

  /** Different repositories never share a post URI, whatever bytes their names hold. */
  lemma {:induction false} PostUriInjective(repo: ByteString, path: ByteString, repo': ByteString, path': ByteString)
    requires repo != "" && repo' != "" && IsPostPath(path) && IsPostPath(path')
    requires BuildUri(repo, path) == BuildUri(repo', path')
    ensures repo == repo' && path == path'
  {
    PostUriShape(repo, path);
    PostUriShape(repo', path');
    var h, p := Escape(repo, HostSafe), Escape(path, PathSafe);
    var h', p' := Escape(repo', HostSafe), Escape(path', PathSafe);
    var u := BuildUri(repo, path);
    assert u[5..] == h + "/" + p && u[5..] == h' + "/" + p';
    EscapedHostHasNoSlash(repo);
    EscapedHostHasNoSlash(repo');
    SplitAtSlash(h, p, h', p');
    EscapeInjective(repo, repo', HostSafe);
    EscapeInjective(path, path', PathSafe);
  }

  lemma {:induction false} Associative(x: string, y: string, z: string)
    ensures (x + y) + z == x + (y + z)
  {
  }

  lemma {:induction false} EscapeAppend(a: ByteString, b: ByteString, safe: char -> bool)
    ensures Escape(a + b, safe) == Escape(a, safe) + Escape(b, safe)
  {
    if a == "" {
      assert a + b == b;
    } else {
      EscapeAppend(a[1..], b, safe);
      assert (a + b)[1..] == a[1..] + b;
      Associative(EscapeByte(a[0], safe), Escape(a[1..], safe), Escape(b, safe));
    }
  }

  lemma {:induction false} SafeTextIsKept(a: ByteString, safe: char -> bool)
    requires forall i :: 0 <= i < |a| ==> safe(a[i])
    ensures Escape(a, safe) == a
  {
    if a != "" {
      SafeTextIsKept(a[1..], safe);
      assert a == [a[0]] + a[1..];
    }
  }

  /** Letters, digits and the signs of DIDs and record keys stand in a URI as they are. */
  predicate IsPlainRepo(repo: string) {
    repo != "" && forall i :: 0 <= i < |repo| ==> IsAlphanumeric(repo[i]) || repo[i] in ":._-"
  }

  predicate IsPlainPath(path: string) {
    forall i :: 0 <= i < |path| ==> IsAlphanumeric(path[i]) || path[i] in ":._-~/"
  }

  lemma {:induction false} PlainPostPath(path: string, rkey: string)
    requires IsPlainPath(rkey) && path == "app.bsky.feed.post/" + rkey
    ensures IsPlainPath(path) && IsPostPath(path)
  {
    var c := "app.bsky.feed.post/";
    assert IsPlainPath(c);
    assert forall i :: 0 <= i < |path| ==> path[i] == if i < |c| then c[i] else rkey[i - |c|];
  }

  /** The URI of an ordinary post is `at://<repository>/app.bsky.feed.post/<key>`, nothing escaped. */
  lemma {:induction false} PlainUriIsKept(repo: ByteString, path: ByteString, rkey: string)
    requires IsPlainRepo(repo) && IsPlainPath(rkey) && path == "app.bsky.feed.post/" + rkey
    ensures IsPostPath(path) && BuildUri(repo, path) == "at://" + repo + "/" + path
  {
    PlainPostPath(path, rkey);
    PostUriShape(repo, path);
    SafeTextIsKept(repo, HostSafe);
    SafeTextIsKept(path, PathSafe);
  }

  lemma {:induction false} CancelPrefix(a: string, x: string, y: string)
    ensures a + x == a + y <==> x == y
  {
    assert (a + x)[|a|..] == x && (a + y)[|a|..] == y;
  }

  /** Text that neither component escapes and that holds no slash. */
  predicate IsPlain(c: ByteString) {
    forall i :: 0 <= i < |c| ==> HostSafe(c[i]) && PathSafe(c[i]) && c[i] != '/'
  }

  lemma {:induction false} EscapeBelow(c: ByteString, rest: ByteString)
    requires IsPlain(c)
    ensures Escape(c + "/" + rest, PathSafe) == c + "/" + Escape(rest, PathSafe)
  {
    EscapeAppend(c + "/", rest, PathSafe);
    SafeTextIsKept(c + "/", PathSafe);
  }

  lemma {:induction false} SplitMatchesOnly(c: ByteString, rest: ByteString, repo': ByteString, path': ByteString)
    requires '/' !in c && Escape(c, HostSafe) == c
    requires c + "/" + Escape(rest, PathSafe) == Escape(repo', HostSafe) + "/" + Escape(path', PathSafe)
    ensures repo' == c && rest == path'
  {
    EscapedHostHasNoSlash(repo');
    SplitAtSlash(c, Escape(rest, PathSafe), Escape(repo', HostSafe), Escape(path', PathSafe));
    EscapeInjective(c, repo', HostSafe);
    EscapeInjective(rest, path', PathSafe);
  }

  lemma {:induction false} SplitMatches(c: ByteString, rest: ByteString, repo': ByteString, path': ByteString)
    requires '/' !in c && Escape(c, HostSafe) == c
    ensures c + "/" + Escape(rest, PathSafe) == Escape(repo', HostSafe) + "/" + Escape(path', PathSafe)
       <==> repo' == c && rest == path'
  {
    if c + "/" + Escape(rest, PathSafe) == Escape(repo', HostSafe) + "/" + Escape(path', PathSafe) {
      SplitMatchesOnly(c, rest, repo', path');
    }
  }

  lemma {:induction false} EmptyRepoShapes(path: ByteString, repo': ByteString, path': ByteString)
    requires repo' != "" && IsPostPath(path) && IsPostPath(path')
    ensures BuildUri("", path) == BuildUri(repo', path')
       <==> Escape(path, PathSafe) == Escape(repo', HostSafe) + "/" + Escape(path', PathSafe)
  {
    PostUriShape("", path);
    PostUriShape(repo', path');
    var x, y := Escape(path, PathSafe), Escape(repo', HostSafe) + "/" + Escape(path', PathSafe);
    assert "" + x == x;
    CancelPrefix("at://", x, y);
  }

  /** An empty repository name collides with the repository named like the post collection, and no other. */
  lemma {:induction false} EmptyRepoUri(c: ByteString, path: ByteString, repo': ByteString, path': ByteString)
    requires c == POST_COLLECTION
    requires repo' != "" && IsPostPath(path) && IsPostPath(path')
    ensures BuildUri("", path) == BuildUri(repo', path') <==> repo' == c && path == c + "/" + path'
  {
    EmptyRepoShapes(path, repo', path');
    PlainSplit(c, path, repo', path');
  }

  lemma {:induction false} PlainSplit(c: ByteString, path: ByteString, repo': ByteString, path': ByteString)
    requires IsPlain(c) && c + "/" <= path
    ensures Escape(path, PathSafe) == Escape(repo', HostSafe) + "/" + Escape(path', PathSafe)
       <==> repo' == c && path == c + "/" + path'
  {
    var rest := path[|c| + 1..];
    assert path == c + "/" + rest;
    EscapeBelow(c, rest);
    SafeTextIsKept(c, HostSafe);
    SplitMatches(c, rest, repo', path');
    CancelPrefix(c + "/", rest, path');
  }

  /** The only shared post URIs, over all repository names and post paths. */
  lemma {:induction false} PostUriCollisions(repo: ByteString, path: ByteString, repo': ByteString, path': ByteString)
    requires IsPostPath(path) && IsPostPath(path')
    ensures BuildUri(repo, path) == BuildUri(repo', path')
       <==> || (repo == repo' && path == path')
            || (repo == "" && repo' == POST_COLLECTION && path == POST_COLLECTION + "/" + path')
            || (repo' == "" && repo == POST_COLLECTION && path' == POST_COLLECTION + "/" + path)
  {
    if repo == "" && repo' == "" {
      PostUriShape("", path);
      PostUriShape("", path');
      if BuildUri("", path) == BuildUri("", path') {
        assert BuildUri("", path)[5..] == Escape(path, PathSafe);
        assert BuildUri("", path')[5..] == Escape(path', PathSafe);
        EscapeInjective(path, path', PathSafe);
      }
    } else if repo == "" {
      EmptyRepoUri(POST_COLLECTION, path, repo', path');
    } else if repo' == "" {
      EmptyRepoUri(POST_COLLECTION, path', repo, path);
    } else if BuildUri(repo, path) == BuildUri(repo', path') {
      PostUriInjective(repo, path, repo', path');
    }
  }
}
