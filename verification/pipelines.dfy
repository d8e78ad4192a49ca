/** A feed's pipeline: the filters that decide which posts go into the feed. */
module Pipelines {
  import opened Results
  import opened Words
  import opened Regexp
  import opened BoundaryPattern

  /** The parts of a post record that the filters read. */
  datatype Post = Post(text: string, langs: seq<string>, hasEmbed: bool)

  /** What an operator configures for one pipeline. */
  datatype Config = Config(
    name: string,
    keywords: seq<string>,
    excludeKeywords: seq<string>,
    contextKeywords: seq<string>,
    contextWords: seq<string>,
    blockDids: seq<string>,
    languages: seq<string>,
    requireMedia: bool)

  /** Lower-casing is a map on characters, as `strings.ToLower` is a map on runes. */
  type CaseMap = char -> char

  function Lower(lower: CaseMap, s: string): string {
    seq(|s|, i requires 0 <= i < |s| => lower(s[i]))
  }

  predicate AnyMatch(regexps: seq<Regex>, s: string) {
    exists i | 0 <= i < |regexps| :: MatchString(regexps[i], s)
  }

  datatype Pipeline = Pipeline(
    name: string,
    keywords: seq<string>,
    excludeKeywords: seq<string>,
    contextKeywords: seq<string>,
    contextWords: seq<string>,
    keywordRegexps: seq<Regex>,
    excludeRegexps: seq<Regex>,
    contextKeywordRegexps: seq<Regex>,
    contextWordRegexps: seq<Regex>,
    languages: set<string>,
    blockedDids: set<string>,
    requireMedia: bool,
    lower: CaseMap)
  {
    /** The two keyword tiers and the excludes as one formula over the lower-cased text. */
    predicate AcceptsText(text: string) {
      var s := Lower(lower, text);
      && (AnyMatch(keywordRegexps, s)
          || (AnyMatch(contextKeywordRegexps, s) && AnyMatch(contextWordRegexps, s)))
      && !AnyMatch(excludeRegexps, s)
    }

    predicate AcceptsLangs(langs: seq<string>) {
      languages == {} || langs == [] || exists i | 0 <= i < |langs| :: Lower(lower, langs[i]) in languages
    }

    predicate Accepts(post: Post) {
      (requireMedia ==> post.hasEmbed) && AcceptsLangs(post.langs) && AcceptsText(post.text)
    }

    predicate Inserts(actor: string, post: Post) {
      actor !in blockedDids && Accepts(post)
    }

    method Matches(text: string) returns (r: bool)
      ensures r == AcceptsText(text)
    {
      var s := Lower(lower, text);
      for i := 0 to |keywordRegexps|
        invariant forall k :: 0 <= k < i ==> !MatchString(keywordRegexps[k], s)
      {
        if MatchString(keywordRegexps[i], s) {
          for x := 0 to |excludeRegexps|
            invariant forall k :: 0 <= k < x ==> !MatchString(excludeRegexps[k], s)
          {
            if MatchString(excludeRegexps[x], s) {
              return false;
            }
          }
          return true;
        }
      }
      for i := 0 to |contextKeywordRegexps|
        invariant forall k :: 0 <= k < i && MatchString(contextKeywordRegexps[k], s) ==>
                    !AnyMatch(contextWordRegexps, s)
      {
        if MatchString(contextKeywordRegexps[i], s) {
          var hasContext := false;
          for w := 0 to |contextWordRegexps|
            invariant !hasContext && forall k :: 0 <= k < w ==> !MatchString(contextWordRegexps[k], s)
          {
            if MatchString(contextWordRegexps[w], s) {
              hasContext := true;
              break;
            }
          }
          if !hasContext {
            continue;
          }
          for x := 0 to |excludeRegexps|
            invariant forall k :: 0 <= k < x ==> !MatchString(excludeRegexps[k], s)
          {
            if MatchString(excludeRegexps[x], s) {
              return false;
            }
          }
          return true;
        }
      }
      return false;
    }

    method MatchesPost(text: string, langs: seq<string>, hasEmbed: bool) returns (r: bool)
      ensures r == Accepts(Post(text, langs, hasEmbed))
    {
      if requireMedia && !hasEmbed {
        return false;
      }
      if languages != {} && |langs| > 0 {
        var matched := false;
        for i := 0 to |langs|
          invariant !matched && forall k :: 0 <= k < i ==> Lower(lower, langs[k]) !in languages
        {
          if Lower(lower, langs[i]) in languages {
            matched := true;
            break;
          }
        }
        if !matched {
          return false;
        }
      }
      r := Matches(text);
    }

    method ShouldInsert(actor: string, post: Post) returns (r: bool)
      ensures r == Inserts(actor, post)
    {
      if actor in blockedDids {
        return false;
      }
      if requireMedia && !post.hasEmbed {
        return false;
      }
      if languages != {} && |post.langs| > 0 {
        var matched := false;
        for i := 0 to |post.langs|
          invariant !matched && forall k :: 0 <= k < i ==> Lower(lower, post.langs[k]) !in languages
        {
          if Lower(lower, post.langs[i]) in languages {
            matched := true;
            break;
          }
        }
        if !matched {
          return false;
        }
      }
      r := Matches(post.text);
    }
  }

  // Building a pipeline from its configuration.

  predicate IsLowered(lower: CaseMap, words: seq<string>, lowered: seq<string>) {
    |lowered| == |words| && forall i :: 0 <= i < |words| ==> lowered[i] == Lower(lower, words[i])
  }

  predicate IsCompiled(words: seq<string>, regexps: seq<Regex>) {
    |regexps| == |words| && forall i :: 0 <= i < |words| ==> Compile(PatternText(words[i])) == Some(regexps[i])
  }

  ghost predicate Built(p: Pipeline, c: Config, lower: CaseMap) {
    && p.name == c.name && p.requireMedia == c.requireMedia && p.lower == lower
    && p.blockedDids == (set i | 0 <= i < |c.blockDids| :: c.blockDids[i])
    && p.languages == (set i | 0 <= i < |c.languages| :: Lower(lower, c.languages[i]))
    && IsLowered(lower, c.keywords, p.keywords) && IsCompiled(p.keywords, p.keywordRegexps)
    && IsLowered(lower, c.excludeKeywords, p.excludeKeywords) && IsCompiled(p.excludeKeywords, p.excludeRegexps)
    && IsLowered(lower, c.contextKeywords, p.contextKeywords)
    && IsCompiled(p.contextKeywords, p.contextKeywordRegexps)
    && IsLowered(lower, c.contextWords, p.contextWords) && IsCompiled(p.contextWords, p.contextWordRegexps)
  }

  method LowerAll(words: seq<string>, lower: CaseMap) returns (lowered: seq<string>)
    ensures IsLowered(lower, words, lowered)
  {
    lowered := [];
    for i := 0 to |words|
      invariant |lowered| == i && forall k :: 0 <= k < i ==> lowered[k] == Lower(lower, words[k])
    {
      lowered := lowered + [Lower(lower, words[i])];
    }
  }

  /** Compiles one pattern per word; an error names the word whose pattern is malformed. */
  method CompileAll(words: seq<string>) returns (r: Result<seq<Regex>, string>)
    ensures r.Ok? ==> IsCompiled(words, r.value)
    ensures r.Err? ==> Compile(PatternText(r.error)).None?
  {
    var regexps := [];
    for i := 0 to |words|
      invariant |regexps| == i
      invariant forall k :: 0 <= k < i ==> Compile(PatternText(words[k])) == Some(regexps[k])
    {
      var re := Compile(PatternText(words[i]));
      if re.None? {
        return Err(words[i]);
      }
      regexps := regexps + [re.value];
    }
    return Ok(regexps);
  }

  method NewPipeline(c: Config, lower: CaseMap) returns (r: Result<Pipeline, string>)
    ensures r.Ok? ==> Built(r.value, c, lower)
    ensures r.Err? ==> Compile(PatternText(r.error)).None?
  {
    var blocked: set<string> := {};
    for i := 0 to |c.blockDids|
      invariant blocked == set k | 0 <= k < i :: c.blockDids[k]
    {
      blocked := blocked + {c.blockDids[i]};
    }
    var lowerKw := LowerAll(c.keywords, lower);
    var lowerExclude := LowerAll(c.excludeKeywords, lower);
    var kwRegexps := CompileAll(lowerKw);
    if kwRegexps.Err? {
      return Err(kwRegexps.error);
    }
    var excludeRegexps := CompileAll(lowerExclude);
    if excludeRegexps.Err? {
      return Err(excludeRegexps.error);
    }
    var lowerCtxKw := LowerAll(c.contextKeywords, lower);
    var ctxKwRegexps := CompileAll(lowerCtxKw);
    if ctxKwRegexps.Err? {
      return Err(ctxKwRegexps.error);
    }
    var lowerCtxW := LowerAll(c.contextWords, lower);
    var ctxWRegexps := CompileAll(lowerCtxW);
    if ctxWRegexps.Err? {
      return Err(ctxWRegexps.error);
    }
    var langs: set<string> := {};
    for i := 0 to |c.languages|
      invariant langs == set k | 0 <= k < i :: Lower(lower, c.languages[k])
    {
      langs := langs + {Lower(lower, c.languages[i])};
    }
    return Ok(Pipeline(c.name, lowerKw, lowerExclude, lowerCtxKw, lowerCtxW, kwRegexps.value, excludeRegexps.value,
                       ctxKwRegexps.value, ctxWRegexps.value, langs, blocked, c.requireMedia, lower));
  }

  // What a configuration means, in terms of words in the text.

  predicate AnyOccurs(lower: CaseMap, words: seq<string>, s: string) {
    exists i | 0 <= i < |words| :: Occurs(Lower(lower, words[i]), s)
  }

  /** The decision a configuration promises for a post, the blocklist aside. */
  predicate Wants(c: Config, lower: CaseMap, post: Post) {
    var s := Lower(lower, post.text);
    && (c.requireMedia ==> post.hasEmbed)
    && (c.languages == [] || post.langs == [] ||
        exists i, k | 0 <= i < |post.langs| && 0 <= k < |c.languages| ::
          Lower(lower, post.langs[i]) == Lower(lower, c.languages[k]))
    && (AnyOccurs(lower, c.keywords, s)
        || (AnyOccurs(lower, c.contextKeywords, s) && AnyOccurs(lower, c.contextWords, s)))
    && !AnyOccurs(lower, c.excludeKeywords, s)
  }

  lemma {:induction false} CompiledMeansOccurs(
      lower: CaseMap, words: seq<string>, lowered: seq<string>, regexps: seq<Regex>, s: string)
    requires IsLowered(lower, words, lowered) && IsCompiled(lowered, regexps)
    ensures AnyMatch(regexps, s) <==> AnyOccurs(lower, words, s)
  {
    forall i | 0 <= i < |words|
      ensures MatchString(regexps[i], s) <==> Occurs(Lower(lower, words[i]), s)
    {
      PatternCompiles(lowered[i]);
      PatternMeansOccurrence(lowered[i], s);
    }
  }

  /** A built pipeline decides every post as its configuration reads in plain words. */
  lemma {:induction false} BuiltDecidesAsConfigured(p: Pipeline, c: Config, lower: CaseMap, post: Post)
    requires Built(p, c, lower)
    ensures p.Accepts(post) <==> Wants(c, lower, post)
  {
    var s := Lower(lower, post.text);
    CompiledMeansOccurs(lower, c.keywords, p.keywords, p.keywordRegexps, s);
    CompiledMeansOccurs(lower, c.excludeKeywords, p.excludeKeywords, p.excludeRegexps, s);
    CompiledMeansOccurs(lower, c.contextKeywords, p.contextKeywords, p.contextKeywordRegexps, s);
    CompiledMeansOccurs(lower, c.contextWords, p.contextWords, p.contextWordRegexps, s);
    assert p.languages == {} <==> c.languages == [] by {
      if c.languages != [] {
        assert Lower(lower, c.languages[0]) in p.languages;
      }
    }
  }

  /** A built pipeline inserts the posts that its configuration wants, of authors that it does not block. */
  lemma {:induction false} InsertsAsConfigured(
      p: Pipeline, c: Config, lower: CaseMap, actor: string, post: Post)
    requires Built(p, c, lower)
    ensures p.Inserts(actor, post) <==> actor !in c.blockDids && Wants(c, lower, post)
  {
    BuiltDecidesAsConfigured(p, c, lower, post);
  }

  // Edits to a configuration that change no decision.

  /** `phrase` joins two parts at a boundary character, and one of the parts is in `words` already. */
  ghost predicate CoveredPhrase(lower: CaseMap, words: seq<string>, phrase: string) {
    exists n :: 0 <= n < |phrase| && IsBoundary(lower(phrase[n])) && (phrase[..n] in words || phrase[n + 1..] in words)
  }

  /** `extended` keeps every word of `words`, in any order, and adds only covered phrases. */
  ghost predicate ExtendsByPhrases(lower: CaseMap, words: seq<string>, extended: seq<string>) {
    && (forall w :: w in words ==> w in extended)
    && (forall w :: w in extended ==> w in words || CoveredPhrase(lower, words, w))
  }

  lemma {:induction false} OccursInList(lower: CaseMap, words: seq<string>, w: string, s: string)
    requires w in words && Occurs(Lower(lower, w), s)
    ensures AnyOccurs(lower, words, s)
  {
    var i :| 0 <= i < |words| && words[i] == w;
  }

  lemma {:induction false} CoveredPhraseAddsNothing(lower: CaseMap, words: seq<string>, phrase: string, s: string)
    requires CoveredPhrase(lower, words, phrase) && Occurs(Lower(lower, phrase), s)
    ensures AnyOccurs(lower, words, s)
  {
    var n :| 0 <= n < |phrase| && IsBoundary(lower(phrase[n])) && (phrase[..n] in words || phrase[n + 1..] in words);
    var a, b, c := phrase[..n], phrase[n], phrase[n + 1..];
    assert Lower(lower, phrase) == Lower(lower, a) + [lower(b)] + Lower(lower, c);
    PhraseHoldsItsParts(Lower(lower, a), lower(b), Lower(lower, c), s);
    OccursInList(lower, words, if a in words then a else c, s);
  }

  lemma {:induction false} PhrasesAddNothing(lower: CaseMap, words: seq<string>, extended: seq<string>, s: string)
    requires ExtendsByPhrases(lower, words, extended)
    ensures AnyOccurs(lower, words, s) <==> AnyOccurs(lower, extended, s)
  {
    if AnyOccurs(lower, words, s) {
      var i :| 0 <= i < |words| && Occurs(Lower(lower, words[i]), s);
      assert words[i] in words;
      OccursInList(lower, extended, words[i], s);
    }
    if AnyOccurs(lower, extended, s) {
      var i :| 0 <= i < |extended| && Occurs(Lower(lower, extended[i]), s);
      var w := extended[i];
      assert w in extended;
      if w in words {
        OccursInList(lower, words, w, s);
      } else {
        CoveredPhraseAddsNothing(lower, words, w, s);
      }
    }
  }

  ghost predicate IsHarmlessEdit(c: Config, c': Config, lower: CaseMap) {
    && c'.requireMedia == c.requireMedia
    && (forall l :: l in c.languages <==> l in c'.languages)
    && (forall d :: d in c.blockDids <==> d in c'.blockDids)
    && ExtendsByPhrases(lower, c.keywords, c'.keywords)
    && ExtendsByPhrases(lower, c.excludeKeywords, c'.excludeKeywords)
    && ExtendsByPhrases(lower, c.contextKeywords, c'.contextKeywords)
    && ExtendsByPhrases(lower, c.contextWords, c'.contextWords)
  }

  lemma {:induction false} LanguageMatchKept(c: Config, c': Config, lower: CaseMap, l: string)
    requires forall m :: m in c.languages ==> m in c'.languages
    requires exists k :: 0 <= k < |c.languages| && l == Lower(lower, c.languages[k])
    ensures exists k :: 0 <= k < |c'.languages| && l == Lower(lower, c'.languages[k])
  {
    var k :| 0 <= k < |c.languages| && l == Lower(lower, c.languages[k]);
    assert c.languages[k] in c'.languages;
  }

  lemma {:induction false} WantsUnchanged(c: Config, c': Config, lower: CaseMap, post: Post)
    requires IsHarmlessEdit(c, c', lower)
    ensures Wants(c, lower, post) <==> Wants(c', lower, post)
  {
    var s := Lower(lower, post.text);
    PhrasesAddNothing(lower, c.keywords, c'.keywords, s);
    PhrasesAddNothing(lower, c.excludeKeywords, c'.excludeKeywords, s);
    PhrasesAddNothing(lower, c.contextKeywords, c'.contextKeywords, s);
    PhrasesAddNothing(lower, c.contextWords, c'.contextWords, s);
    assert c.languages == [] <==> c'.languages == [] by {
      assert c.languages != [] ==> c.languages[0] in c'.languages;
      assert c'.languages != [] ==> c'.languages[0] in c.languages;
    }
    forall i | 0 <= i < |post.langs|
      ensures (exists k :: 0 <= k < |c.languages| && Lower(lower, post.langs[i]) == Lower(lower, c.languages[k]))
         <==> (exists k :: 0 <= k < |c'.languages| && Lower(lower, post.langs[i]) == Lower(lower, c'.languages[k]))
    {
      var l := Lower(lower, post.langs[i]);
      if exists k :: 0 <= k < |c.languages| && l == Lower(lower, c.languages[k]) {
        LanguageMatchKept(c, c', lower, l);
      }
      if exists k :: 0 <= k < |c'.languages| && l == Lower(lower, c'.languages[k]) {
        LanguageMatchKept(c', c, lower, l);
      }
    }
  }

  lemma {:induction false} SameBlocklist(p: Pipeline, c: Config, p': Pipeline, c': Config, lower: CaseMap)
    requires Built(p, c, lower) && Built(p', c', lower) && IsHarmlessEdit(c, c', lower)
    ensures p.blockedDids == p'.blockedDids
  {
    assert forall d :: d in p.blockedDids <==> d in c.blockDids;
    assert forall d :: d in p'.blockedDids <==> d in c'.blockDids;
  }

  /**
   Reordering the lists of a configuration, repeating their words, or adding phrases of which a part
   is already listed changes no pipeline decision, blocklist included.
   */
  lemma {:induction false} HarmlessEditChangesNothing(
      p: Pipeline, c: Config, p': Pipeline, c': Config, lower: CaseMap, actor: string, post: Post)
    requires Built(p, c, lower) && Built(p', c', lower) && IsHarmlessEdit(c, c', lower)
    ensures p.Inserts(actor, post) <==> p'.Inserts(actor, post)
  {
    BuiltDecidesAsConfigured(p, c, lower, post);
    BuiltDecidesAsConfigured(p', c', lower, post);
    WantsUnchanged(c, c', lower, post);
    SameBlocklist(p, c, p', c', lower);
  }
}
