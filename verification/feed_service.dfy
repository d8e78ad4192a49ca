/** `GetFeedPage`: routing, limit and cursor handling around the page query. */
module FeedService {
  import opened Results
  import opened Timestamps
  import opened PageCursor
  import opened PostStore
  import opened PageQuery

  // Text helpers of the request path.

  /** `strings.Split` at a single character. */
  function Split(s: string, sep: char): (parts: seq<string>)
    ensures parts != []
  {
    if s == "" then [""]
    else
      var rest := Split(s[1..], sep);
      if s[0] == sep then [""] + rest else [[s[0]] + rest[0]] + rest[1..]
  }

  function Join(parts: seq<string>, sep: char): string {
    if parts == [] then "" else if |parts| == 1 then parts[0] else parts[0] + [sep] + Join(parts[1..], sep)
  }

  lemma {:induction false} JoinSplit(s: string, sep: char)
    ensures Join(Split(s, sep), sep) == s
    ensures forall i :: 0 <= i < |Split(s, sep)| ==> sep !in Split(s, sep)[i]
  {
    if s != "" {
      JoinSplit(s[1..], sep);
      var rest := Split(s[1..], sep);
      if s[0] == sep {
        assert ([""] + rest)[1..] == rest;
      } else {
        assert ([[s[0]] + rest[0]] + rest[1..])[1..] == rest[1..];
      }
    }
  }

  lemma {:induction false} SplitPlain(a: string, sep: char)
    requires sep !in a
    ensures Split(a, sep) == [a]
  {
    if a != "" {
      SplitPlain(a[1..], sep);
      assert a == [a[0]] + a[1..];
    }
  }

  lemma {:induction false} SplitFirst(a: string, rest: string, sep: char)
    requires sep !in a
    ensures Split(a + [sep] + rest, sep) == [a] + Split(rest, sep)
    decreases |a|
  {
    var s := a + [sep] + rest;
    if a == "" {
      assert s[1..] == rest;
    } else {
      SplitFirst(a[1..], rest, sep);
      assert s[1..] == a[1..] + [sep] + rest;
      var tail := Split(s[1..], sep);
      assert tail == [a[1..]] + Split(rest, sep);
      assert [a[0]] + a[1..] == a;
      assert tail[1..] == Split(rest, sep);
    }
  }

  const SCHEME := "at://"

  function TrimScheme(s: string): string {
    if SCHEME <= s then s[|SCHEME|..] else s
  }

  const MAX_INT64 := 0x7FFF_FFFF_FFFF_FFFF

  function DecimalValue(digits: string): nat
    requires AllDigits(digits)
  {
    if digits == "" then 0
    else DecimalValue(digits[..|digits| - 1]) * 10 + (digits[|digits| - 1] - '0') as nat
  }

  /** `strconv.Atoi`: an optional sign, decimal digits, and a value that fits in 64 bits. */
  function Atoi(s: string): Option<int> {
    var signed := s != "" && (s[0] == '-' || s[0] == '+');
    var digits := if signed then s[1..] else s;
    if digits == "" || !AllDigits(digits) then None
    else
      var v: int := DecimalValue(digits);
      var n := if signed && s[0] == '-' then -v else v;
      if -MAX_INT64 - 1 <= n <= MAX_INT64 then Some(n) else None
  }

  // The service.

  datatype FeedEntry = FeedEntry(collectionName: string)

  datatype FeedResponse = FeedResponse(feed: seq<string>, cursor: Option<string>)

  datatype FeedError = UnknownFeed | InvalidCursor | QueryFailed

  /** Anything but a positive number asks for 50 rows; nothing asks for more than 100. */
  function PageLimit(limitStr: string): (limit: nat)
    ensures 1 <= limit <= 100
  {
    var n := Atoi(limitStr);
    if n.Some? && n.value > 0 then (if n.value < 100 then n.value else 100) else 50
  }

  lemma {:induction false} DecimalOfPadded(n: nat, w: nat)
    requires n < Power10(w)
    ensures AllDigits(Pad(n, w)) && DecimalValue(Pad(n, w)) == n
  {
    PadIsDigits(n, w);
    if w > 0 {
      DecimalOfPadded(n / 10, w - 1);
      assert Pad(n, w)[..w - 1] == Pad(n / 10, w - 1);
    }
  }

  lemma {:induction false} PaddedOfDecimal(digits: string)
    requires AllDigits(digits)
    ensures DecimalValue(digits) < Power10(|digits|) && Pad(DecimalValue(digits), |digits|) == digits
  {
    if digits != "" {
      var init, last := digits[..|digits| - 1], digits[|digits| - 1];
      PaddedOfDecimal(init);
      var v := DecimalValue(init) * 10 + (last - '0') as nat;
      assert v / 10 == DecimalValue(init) && v % 10 == (last - '0') as nat;
      assert digits == init + [last];
    }
  }

  /** The text is `n` in decimal, with any number of leading zeros and possibly a plus sign. */
  predicate Spells(s: string, n: nat, w: nat) {
    w > 0 && n < Power10(w) && (s == Pad(n, w) || s == "+" + Pad(n, w))
  }

  lemma {:induction false} AtoiOfDecimal(s: string, n: nat, w: nat)
    requires Spells(s, n, w)
    ensures Atoi(s) == if n <= MAX_INT64 then Some(n) else None
  {
    DecimalOfPadded(n, w);
    assert '0' <= Pad(n, w)[0] <= '9';
    assert ("+" + Pad(n, w))[1..] == Pad(n, w);
  }

  lemma {:induction false} PositiveAtoiSpells(s: string)
    requires Atoi(s).Some? && Atoi(s).value > 0
    ensures exists w: nat :: Spells(s, Atoi(s).value, w)
  {
    var digits := if s != "" && (s[0] == '-' || s[0] == '+') then s[1..] else s;
    PaddedOfDecimal(digits);
    if s[0] == '+' {
      assert s == "+" + digits;
    }
    assert Spells(s, Atoi(s).value, |digits|);
  }

  /**
   A limit that spells a positive 64-bit number in decimal, leading zeros and a plus sign allowed, is honoured
   up to 100; any other text, negative, out of range or malformed, means 50.
   */
  lemma {:induction false} PageLimitOfText(s: string)
    ensures forall n: nat, w: nat :: Spells(s, n, w) && 0 < n <= MAX_INT64 ==>
      PageLimit(s) == if n < 100 then n else 100
    ensures (forall n: nat, w: nat :: Spells(s, n, w) ==> n == 0 || n > MAX_INT64) ==> PageLimit(s) == 50
  {
    forall n: nat, w: nat | Spells(s, n, w)
      ensures Atoi(s) == if n <= MAX_INT64 then Some(n) else None
    {
      AtoiOfDecimal(s, n, w);
    }
    if Atoi(s).Some? && Atoi(s).value > 0 {
      PositiveAtoiSpells(s);
    }
  }

  function UrisOf(page: seq<FeedRow>): seq<string> {
    seq(|page|, i requires 0 <= i < |page| => page[i].uri)
  }

  function ResponseFor(page: seq<FeedRow>, limit: nat): FeedResponse {
    FeedResponse(UrisOf(page),
      if |page| < limit || page == [] then None else Some(BuildCursor(KeyOf(page[|page| - 1]))))
  }

  /** The key a cursor text stands for; the empty text asks for the first page. */
  function RequestKey(cursorStr: string): Result<Option<Key>, ()> {
    if cursorStr == "" then Ok(None)
    else
      var k := ParseCursor(cursorStr);
      if k.Some? then Ok(k) else Err(())
  }

  /** The text of a key: its two parts joined by the first `::`, neither of them empty. */
  predicate SpellsKey(s: string, k: Key) {
    s == k.indexedAt + "::" + k.cid && k.indexedAt != "" && k.cid != "" && CarriesInCursor(k.indexedAt)
  }

  /** No text asks for the first page, the text of a key for the rows below that key; any other text is refused. */
  lemma {:induction false} RequestKeyIff(s: string)
    ensures forall k :: RequestKey(s) == Ok(Some(k)) <==> SpellsKey(s, k)
    ensures RequestKey(s) == Ok(None) <==> s == ""
    ensures RequestKey(s).Err? <==> s != "" && forall k :: !SpellsKey(s, k)
  {
    AcceptedCursorRebuilds(s);
    forall k
      ensures RequestKey(s) == Ok(Some(k)) <==> SpellsKey(s, k)
    {
      CursorRoundTrip(k);
    }
  }

  class Service {
    const publisherDid: string
    const feeds: map<string, FeedEntry>
    const store: Store

    constructor (publisherDid: string, feeds: map<string, FeedEntry>, store: Store)
      ensures this.publisherDid == publisherDid && this.feeds == feeds && this.store == store
    {
      this.publisherDid, this.feeds, this.store := publisherDid, feeds, store;
    }

    /** The record key of the feed that a URI names. */
    function Route(feedUri: string): Option<string> {
      var parts := Split(TrimScheme(feedUri), '/');
      if feedUri == "" || |parts| != 3 || parts[0] != publisherDid || parts[2] !in feeds
         || parts[1] != feeds[parts[2]].collectionName
      then None
      else Some(parts[2])
    }

    /**
     A feed URI is served exactly when it spells a known feed of this publisher, with or without the scheme.
     A feed whose publisher, collection or name holds a slash is never served.
     */
    lemma {:induction false} RouteSpellsFeed(feedUri: string, rkey: string)
      ensures Route(feedUri) == Some(rkey)
         <==> rkey in feeds
              && '/' !in publisherDid && '/' !in feeds[rkey].collectionName && '/' !in rkey
              && var spelled := publisherDid + "/" + (feeds[rkey].collectionName + "/" + rkey);
                 feedUri == "at://" + spelled || (feedUri == spelled && !("at://" <= feedUri))
    {
      var s := TrimScheme(feedUri);
      assert feedUri == "at://" + s || (feedUri == s && !("at://" <= feedUri));
      assert forall x :: feedUri == "at://" + x ==> s == x;
      var parts := Split(s, '/');
      if Route(feedUri) == Some(rkey) {
        JoinSplit(s, '/');
        assert parts[1..][1..] == [parts[2]];
        assert Join(parts[1..], '/') == parts[1] + "/" + parts[2];
      }
      if rkey in feeds && '/' !in publisherDid && '/' !in feeds[rkey].collectionName && '/' !in rkey
         && s == publisherDid + "/" + (feeds[rkey].collectionName + "/" + rkey) {
        SplitFirst(publisherDid, feeds[rkey].collectionName + "/" + rkey, '/');
        SplitFirst(feeds[rkey].collectionName, rkey, '/');
        SplitPlain(rkey, '/');
        assert feedUri != "";
      }
    }

    /** The URIs of the rows, and the cursor of the last one if the page is full. */
    method Respond(rows: seq<FeedRow>, limit: nat) returns (response: FeedResponse)
      ensures response == ResponseFor(rows, limit)
    {
      var feedItems: seq<string> := [];
      var nextCursor: Option<string> := None;
      for i := 0 to |rows|
        invariant |feedItems| == i && forall k :: 0 <= k < i ==> feedItems[k] == rows[k].uri
        invariant nextCursor == if i == |rows| && rows != [] then Some(BuildCursor(KeyOf(rows[|rows| - 1]))) else None
      {
        feedItems := feedItems + [rows[i].uri];
        if i == |rows| - 1 {
          nextCursor := Some(BuildCursor(KeyOf(rows[i])));
        }
      }
      if |rows| < limit {
        nextCursor := None;
      }
      assert feedItems == UrisOf(rows);
      return FeedResponse(feedItems, nextCursor);
    }

    method GetFeedPage(feedUri: string, limitStr: string, cursorStr: string)
      returns (r: Result<FeedResponse, FeedError>, ghost page: seq<FeedRow>)
      modifies store`calls
      ensures Route(feedUri).None? ==> r == Err(UnknownFeed)
      ensures Route(feedUri).Some? && RequestKey(cursorStr).Err? ==> r == Err(InvalidCursor)
      ensures Route(feedUri).Some? && RequestKey(cursorStr).Ok? ==>
        && store.calls == old(store.calls) + 1
        && if store.env.fails(old(store.calls)) then r == Err(QueryFailed)
           else
             && IsPage(FeedRows(store.posts, Route(feedUri).value), RequestKey(cursorStr).value,
                       PageLimit(limitStr), page)
             && r == Ok(ResponseFor(page, PageLimit(limitStr)))
    {
      page := [];
      if feedUri == "" {
        return Err(UnknownFeed), page;
      }
      var parts := Split(TrimScheme(feedUri), '/');
      if |parts| != 3 {
        return Err(UnknownFeed), page;
      }
      var did, collection, rkey := parts[0], parts[1], parts[2];
      if did != publisherDid {
        return Err(UnknownFeed), page;
      }
      if rkey !in feeds {
        return Err(UnknownFeed), page;
      }
      if collection != feeds[rkey].collectionName {
        return Err(UnknownFeed), page;
      }
      var limit := 50;
      if limitStr != "" {
        var n := Atoi(limitStr);
        if n.Some? && n.value > 0 {
          limit := if n.value < 100 then n.value else 100;
        }
      }
      var key: Option<Key> := None;
      if cursorStr != "" {
        key := ParseCursor(cursorStr);
        if key.None? {
          return Err(InvalidCursor), page;
        }
      }
      var failed := store.env.fails(store.calls);
      store.calls := store.calls + 1;
      if failed {
        return Err(QueryFailed), page;
      }
      var rows := QueryPage(FeedRows(store.posts, rkey), key, limit);
      page := rows;
      var response := Respond(rows, limit);
      return Ok(response), page;
    }
  }
}
