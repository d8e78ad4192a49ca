/** The part of Go's regular expressions that the keyword patterns use. */
module Regexp {
  import opened Results

  datatype Regex =
    | Empty
    | Begin
    | End
    | Literal(c: char)
    | NotIn(ranges: seq<(char, char)>)
    | Concat(first: Regex, second: Regex)
    | Alternate(left: Regex, right: Regex)

  predicate InRanges(c: char, ranges: seq<(char, char)>) {
    exists i | 0 <= i < |ranges| :: ranges[i].0 <= c <= ranges[i].1
  }

  /** Does `re` match exactly the characters of `s` from `i` up to `j`? */
  predicate MatchesAt(re: Regex, s: string, i: nat, j: nat)
    requires i <= j <= |s|
  {
    match re
    case Empty => i == j
    case Begin => i == j == 0
    case End => i == j == |s|
    case Literal(c) => j == i + 1 && s[i] == c
    case NotIn(ranges) => j == i + 1 && !InRanges(s[i], ranges)
    case Concat(a, b) => exists k | i <= k <= j :: MatchesAt(a, s, i, k) && MatchesAt(b, s, k, j)
    case Alternate(a, b) => MatchesAt(a, s, i, j) || MatchesAt(b, s, i, j)
  }

  predicate MatchesBetween(re: Regex, s: string, i: nat, j: nat) {
    i <= j <= |s| && MatchesAt(re, s, i, j)
  }

  /** Unanchored search, as `Regexp.MatchString` does it. */
  predicate MatchString(re: Regex, s: string) {
    exists i, j | 0 <= i <= |s| && 0 <= j <= |s| :: MatchesBetween(re, s, i, j)
  }

  predicate IsMeta(c: char) {
    c in "\\.+*?()|[]{}^$"
  }

  function QuotedChar(c: char): string {
    if IsMeta(c) then ['\\', c] else [c]
  }

  /** `regexp.QuoteMeta`: a backslash before every metacharacter. */
  function QuoteMeta(s: string): string {
    if s == "" then "" else QuotedChar(s[0]) + QuoteMeta(s[1..])
  }

  // A recursive-descent reader of the pattern syntax: groups `(?:…)`, alternatives, negated
  // classes, anchors, escaped metacharacters and plain characters. `None` is a syntax error.

  function Compile(pattern: string): Option<Regex> {
    var r := ReadAlternatives(pattern);
    if r.Some? && r.value.1 == "" then Some(r.value.0) else None
  }

  function ReadAlternatives(s: string): (r: Option<(Regex, string)>)
    ensures r.Some? ==> |r.value.1| <= |s|
    decreases |s|, 2
  {
    var head := ReadSequence(s);
    if head.None? then None
    else
      var rest := head.value.1;
      if rest != "" && rest[0] == '|' then
        var tail := ReadAlternatives(rest[1..]);
        if tail.None? then None else Some((Alternate(head.value.0, tail.value.0), tail.value.1))
      else head
  }

  function ReadSequence(s: string): (r: Option<(Regex, string)>)
    ensures r.Some? ==> |r.value.1| <= |s|
    decreases |s|, 1
  {
    if s == "" || s[0] == '|' || s[0] == ')' then Some((Empty, s))
    else
      var atom := ReadAtom(s);
      if atom.None? then None
      else
        var rest := ReadSequence(atom.value.1);
        if rest.None? then None else Some((Concat(atom.value.0, rest.value.0), rest.value.1))
  }

  function ReadAtom(s: string): (r: Option<(Regex, string)>)
    requires s != ""
    ensures r.Some? ==> |r.value.1| < |s|
    decreases |s|, 0
  {
    if s[0] == '(' then
      if |s| >= 3 && s[1] == '?' && s[2] == ':' then
        var inner := ReadAlternatives(s[3..]);
        if inner.Some? && inner.value.1 != "" && inner.value.1[0] == ')'
        then Some((inner.value.0, inner.value.1[1..]))
        else None
      else None
    else if s[0] == '[' then
      if |s| >= 2 && s[1] == '^' then
        var ranges := ReadRanges(s[2..]);
        if ranges.None? then None else Some((NotIn(ranges.value.0), ranges.value.1))
      else None
    else if s[0] == '^' then Some((Begin, s[1..]))
    else if s[0] == '$' then Some((End, s[1..]))
    else if s[0] == '\\' then
      if |s| >= 2 && IsMeta(s[1]) then Some((Literal(s[1]), s[2..])) else None
    else if s[0] in ".+*?{" then None
    else Some((Literal(s[0]), s[1..]))
  }

  /** The members of a class up to its closing bracket; a hyphen before the bracket stands for itself. */
  function ReadRanges(s: string): (r: Option<(seq<(char, char)>, string)>)
    ensures r.Some? ==> |r.value.1| < |s|
    decreases |s|
  {
    if s == "" then None
    else if s[0] == ']' then Some(([], s[1..]))
    else if |s| >= 3 && s[1] == '-' && s[2] != ']' then
      var rest := ReadRanges(s[3..]);
      if rest.None? then None else Some(([(s[0], s[2])] + rest.value.0, rest.value.1))
    else
      var rest := ReadRanges(s[1..]);
      if rest.None? then None else Some(([(s[0], s[0])] + rest.value.0, rest.value.1))
  }
}
