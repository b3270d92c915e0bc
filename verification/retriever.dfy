/**
  Knowledge retrieval for a chat turn: keywords from the user's message, a
  token budget from the model's context window, and either a semantic
  selection of relevant chunks or a general selection of whole files.

  Two copies of this logic exist and differ in their constants and in the
  general strategy; `Variant` picks one. `Library` is the retriever under
  `lib/`, `ChatRoute` the revised copy under `app/api/chat/`.
  Scores are kept in tenths so that they are integers.
 */
module Retriever {
  import opened Wrappers
  import opened Text
  import opened Seqs
  import opened Keywords
  import opened Chunker
  import opened Intent

  datatype Variant = Library | ChatRoute

  datatype KnowledgeFile = KnowledgeFile(id: string, filename: string, fileType: string, filePath: string, content: Option<string>)

  /** `relevanceScore` in tenths. */
  datatype ContentChunk = ContentChunk(content: string, filename: string, relevanceScore: int, tokens: nat)

  datatype RetrievalResult = RetrievalResult(chunks: seq<ContentChunk>, totalTokens: nat, filesUsed: seq<string>, selectionStrategy: string)

  /** `file.content` is truthy: present and not empty. */
  predicate HasContent(f: KnowledgeFile) {
    f.content.Some? && f.content.value != []
  }

  /** `file.content || ''`. */
  function ContentOrEmpty(f: KnowledgeFile): string {
    if f.content.Some? then f.content.value else []
  }

  // ---------------------------------------------------------------------
  // tokens and budget

  /** `estimateTokens`: `Math.ceil(length / 4)`, or `Math.ceil(length / 2.5)` in the revised copy. */
  function EstimateTokens(v: Variant, text: string): (n: nat)
    ensures v == Library ==> 4 * n >= |text| && (n == 0 || 4 * (n - 1) < |text|)
    ensures v == ChatRoute ==> 5 * n >= 2 * |text| && (n == 0 || 5 * (n - 1) < 2 * |text|)
  {
    match v
    case Library => (|text| + 3) / 4
    case ChatRoute => (2 * |text| + 4) / 5
  }

  /** A longer text never has a smaller estimate; in particular extending a text never lowers it. */
  lemma EstimateMonotone(v: Variant, a: string, b: string)
    requires |a| <= |b|
    ensures EstimateTokens(v, a) <= EstimateTokens(v, b)
  {
  }

  /** The estimate of two texts together is at most the sum of their estimates. */
  lemma EstimateSubadditive(v: Variant, a: string, b: string)
    ensures EstimateTokens(v, a + b) <= EstimateTokens(v, a) + EstimateTokens(v, b)
  {
  }

  /** A substring rule of `getModelContextLimit`: any of `patterns` in the lower-cased name gives `limit`. */
  datatype Rule = Rule(patterns: seq<string>, limit: nat)

  /** `MODEL_CONTEXT_LIMITS`. */
  function LimitTable(v: Variant): seq<(string, nat)> {
    match v
    case Library => [
      ("gpt-3.5-turbo", 16000), ("gpt-3.5-turbo-16k", 16000), ("gpt-4", 8000), ("gpt-4-32k", 32000),
      ("gpt-4-turbo", 128000), ("gpt-4-turbo-preview", 128000), ("claude-3-opus", 200000),
      ("claude-3-sonnet", 200000), ("claude-3-haiku", 200000), ("claude-3.5-sonnet", 200000),
      ("claude-2", 100000), ("llama-3.1-8b", 128000), ("llama-3.1-70b", 128000),
      ("llama-3.1-405b", 128000), ("mistral-large", 128000), ("mixtral-8x7b", 32000), ("default", 8000)]
    case ChatRoute => [
      ("gpt-3.5-turbo", 16000), ("gpt-4", 8000), ("gpt-4-turbo", 128000), ("gpt-4o", 128000),
      ("claude-3-opus", 200000), ("claude-3-sonnet", 200000), ("claude-3-haiku", 200000),
      ("llama-3.1-8b", 128000), ("llama-3.1-70b", 128000), ("default", 8000)]
  }

  /** The partial matches, tried in order. */
  function Rules(v: Variant): seq<Rule> {
    match v
    case Library => [
      Rule(["gpt-4-turbo"], 128000), Rule(["gpt-4-32k"], 32000), Rule(["gpt-4"], 8000),
      Rule(["gpt-3.5-16k"], 16000), Rule(["gpt-3.5"], 16000), Rule(["claude-3"], 200000),
      Rule(["claude-2"], 100000), Rule(["llama-3.1"], 128000), Rule(["llama-3"], 8000),
      Rule(["mistral-large"], 128000), Rule(["mixtral"], 32000)]
    case ChatRoute => [
      Rule(["gpt-4-turbo", "gpt-4o"], 128000), Rule(["gpt-4"], 8000), Rule(["gpt-3.5"], 16000),
      Rule(["claude-3"], 200000), Rule(["llama-3.1"], 128000)]
  }

  /** The fallback limit when nothing matches. */
  const DefaultLimit: nat := 8000

  /** Every limit in a table is at least the default. */
  predicate TableAtLeastDefault(table: seq<(string, nat)>) {
    forall i :: 0 <= i < |table| ==> table[i].1 >= DefaultLimit
  }

  predicate RulesAtLeastDefault(rules: seq<Rule>) {
    forall i :: 0 <= i < |rules| ==> rules[i].limit >= DefaultLimit
  }

  lemma LimitsAtLeastDefault(v: Variant)
    ensures TableAtLeastDefault(LimitTable(v)) && RulesAtLeastDefault(Rules(v))
  {
  }

  /** Property lookup `table[key]`: the value under the key, if any. */
  function Lookup(table: seq<(string, nat)>, key: string): (r: Option<nat>)
    ensures r.Some? <==> exists i :: 0 <= i < |table| && table[i].0 == key
    ensures r.Some? ==> exists i :: 0 <= i < |table| && table[i] == (key, r.value)
    decreases |table|
  {
    if table == [] then None
    else if table[0].0 == key then Some(table[0].1)
    else
      var r := Lookup(table[1..], key);
      assert forall i :: 1 <= i < |table| ==> table[i] == table[1..][i - 1];
      r
  }

  /** A rule applies to a lower-cased name when one of its patterns occurs in it. */
  predicate Applies(rule: Rule, lower: string) {
    exists j :: 0 <= j < |rule.patterns| && Contains(lower, rule.patterns[j])
  }

  /** The limit of the first rule that applies. */
  function FirstRule(rules: seq<Rule>, lower: string): (r: Option<nat>)
    ensures r.None? <==> forall i :: 0 <= i < |rules| ==> !Applies(rules[i], lower)
    ensures r.Some? ==> exists i :: (0 <= i < |rules| && Applies(rules[i], lower) && rules[i].limit == r.value
      && forall k :: 0 <= k < i ==> !Applies(rules[k], lower))
    decreases |rules|
  {
    if rules == [] then None
    else if Applies(rules[0], lower) then Some(rules[0].limit)
    else
      var r := FirstRule(rules[1..], lower);
      assert forall i :: 1 <= i < |rules| ==> rules[i] == rules[1..][i - 1];
      if r.Some? then
        var i :| (0 <= i < |rules[1..]| && Applies(rules[1..][i], lower) && rules[1..][i].limit == r.value
          && forall k :: 0 <= k < i ==> !Applies(rules[1..][k], lower));
        assert forall k :: 0 <= k < i + 1 ==> !Applies(rules[k], lower) by {
          forall k | 0 <= k < i + 1 ensures !Applies(rules[k], lower) {
            if k > 0 {
              assert rules[k] == rules[1..][k - 1];
            }
          }
        }
        assert rules[i + 1] == rules[1..][i];
        r
      else r
  }

  /** `getModelContextLimit`: the exact entry for the name, else the first partial match on the lower-cased name, else 8000. */
  function ModelContextLimit(v: Variant, modelName: string): (r: nat)
    ensures r >= DefaultLimit
    ensures Lookup(LimitTable(v), modelName).Some? ==> r == Lookup(LimitTable(v), modelName).value
    ensures Lookup(LimitTable(v), modelName).None? && FirstRule(Rules(v), Lower(modelName)).Some? ==>
      r == FirstRule(Rules(v), Lower(modelName)).value
    ensures Lookup(LimitTable(v), modelName).None? && FirstRule(Rules(v), Lower(modelName)).None? ==> r == DefaultLimit
  {
    LimitsAtLeastDefault(v);
    var exact := Lookup(LimitTable(v), modelName);
    if exact.Some? && exact.value != 0 then exact.value
    else
      var partial := FirstRule(Rules(v), Lower(modelName));
      if partial.Some? then partial.value else DefaultLimit
  }

  /** The tokens reserved for the reply, base prompt and message. */
  function Reserved(v: Variant): nat {
    match v
    case Library => 2700
    case ChatRoute => 4000
  }

  /** `availableTokens`: the limit less the reservation, capped in the revised copy at 35000 with two or more keywords and 15000 otherwise. */
  function AvailableTokens(v: Variant, limit: nat, keywordCount: nat): (b: int)
    ensures v == Library ==> b == limit - 2700
    ensures v == ChatRoute ==> b <= limit - 4000 && b <= (if keywordCount >= 2 then 35000 else 15000)
    ensures v == ChatRoute ==> b == limit - 4000 || b == (if keywordCount >= 2 then 35000 else 15000)
  {
    var raw := limit - Reserved(v);
    match v
    case Library => raw
    case ChatRoute =>
      var cap := if keywordCount >= 2 then 35000 else 15000;
      if raw < cap then raw else cap
  }

  /** The budget is never negative: the library copy leaves at least 5300 tokens, the revised copy between 4000 and 35000. */
  lemma BudgetBounds(v: Variant, modelName: string, keywordCount: nat)
    ensures var b := AvailableTokens(v, ModelContextLimit(v, modelName), keywordCount);
      (v == Library ==> b >= 5300) && (v == ChatRoute ==> 4000 <= b <= 35000)
  {
  }

  /** The revised copy gives 128000 to any name containing "gpt-4-turbo" or "gpt-4o", before the "gpt-4" rule can give 8000. */
  lemma RouteTurboBeforeGpt4(modelName: string)
    requires Contains(Lower(modelName), "gpt-4-turbo") || Contains(Lower(modelName), "gpt-4o")
    requires Lookup(LimitTable(ChatRoute), modelName).None?
    ensures ModelContextLimit(ChatRoute, modelName) == 128000
  {
    assert Applies(Rules(ChatRoute)[0], Lower(modelName)) by {
      var ps := Rules(ChatRoute)[0].patterns;
      if Contains(Lower(modelName), "gpt-4-turbo") {
        assert Contains(Lower(modelName), ps[0]);
      } else {
        assert Contains(Lower(modelName), ps[1]);
      }
    }
  }

  // ---------------------------------------------------------------------
  // relevance scores, in tenths

  /** Keywords made of word characters only, so that `new RegExp(keyword, 'g')` matches the keyword literally. */
  predicate PlainWords(keywords: seq<string>) {
    forall i :: 0 <= i < |keywords| ==> IsLowerWord(keywords[i])
  }

  function Min(a: int, b: int): int {
    if a < b then a else b
  }

  /** One keyword's share of the file score: 3.0 for a filename hit, 0.2 per occurrence up to 5.0, and 1.0 for an occurrence in the first 1000 characters. */
  function KeywordFileScore(lowerName: string, lowerContent: string, keyword: string): (n: nat)
    ensures n <= 90
    ensures n > 0 <==> Contains(lowerName, keyword) || Contains(lowerContent, keyword)
  {
    var fromName := if Contains(lowerName, keyword) then 30 else 0;
    var frequency := Min(2 * CountOccurrences(lowerContent, keyword), 50);
    var early := if Contains(Prefix(lowerContent, 1000), keyword) then 10 else 0;
    assert Contains(Prefix(lowerContent, 1000), keyword) ==> Contains(lowerContent, keyword) by {
      if Contains(Prefix(lowerContent, 1000), keyword) {
        PrefixContains(lowerContent, 1000, keyword);
      }
    }
    fromName + frequency + early
  }

  function SumFileScores(lowerName: string, lowerContent: string, keywords: seq<string>): (n: nat)
    ensures n <= 90 * |keywords|
    decreases |keywords|
  {
    if keywords == [] then 0
    else KeywordFileScore(lowerName, lowerContent, keywords[0]) + SumFileScores(lowerName, lowerContent, keywords[1..])
  }

  /** `scoreFileRelevance`. */
  function FileScore(filename: string, content: string, keywords: seq<string>): (n: nat)
    requires PlainWords(keywords)
    ensures keywords == [] ==> n == 0
    ensures n <= 90 * |keywords|
  {
    if |keywords| == 0 then 0 else SumFileScores(Lower(filename), Lower(content), keywords)
  }

  /** One keyword's share of the chunk score: 2 per occurrence, and 3 for an occurrence in the first 100 characters. */
  function KeywordChunkScore(lower: string, keyword: string): (n: nat)
    ensures n > 0 <==> Contains(lower, keyword)
  {
    var early := if Contains(Prefix(lower, 100), keyword) then 30 else 0;
    assert Contains(Prefix(lower, 100), keyword) ==> Contains(lower, keyword) by {
      if Contains(Prefix(lower, 100), keyword) {
        PrefixContains(lower, 100, keyword);
      }
    }
    20 * CountOccurrences(lower, keyword) + early
  }

  function SumChunkScores(lower: string, keywords: seq<string>): nat
    decreases |keywords|
  {
    if keywords == [] then 0 else KeywordChunkScore(lower, keywords[0]) + SumChunkScores(lower, keywords[1..])
  }

  /** The keywords the lower-cased chunk contains. */
  function Found(lower: string, keywords: seq<string>): (r: seq<string>)
    ensures forall k :: k in r <==> k in keywords && Contains(lower, k)
  {
    Filter(keywords, k => Contains(lower, k))
  }

  /** `scoreChunkRelevance`: the keyword shares plus, with several keywords of which more than one is found, 1.5 per found keyword. */
  function ChunkScore(chunk: string, keywords: seq<string>): (n: nat)
    requires PlainWords(keywords)
    ensures keywords == [] ==> n == 0
  {
    if |keywords| == 0 then 0
    else
      var lower := Lower(chunk);
      var found := Found(lower, keywords);
      var proximity := if |keywords| > 1 && |found| > 1 then 15 * |found| else 0;
      SumChunkScores(lower, keywords) + proximity
  }

  /** Some keyword occurs in the text. */
  predicate Mentions(lower: string, keywords: seq<string>) {
    exists i :: 0 <= i < |keywords| && Contains(lower, keywords[i])
  }

  lemma {:induction false} SumChunkScoresPositive(lower: string, keywords: seq<string>)
    ensures SumChunkScores(lower, keywords) > 0 <==> Mentions(lower, keywords)
    decreases |keywords|
  {
    if keywords != [] {
      SumChunkScoresPositive(lower, keywords[1..]);
      if Mentions(lower, keywords[1..]) {
        var i :| 0 <= i < |keywords[1..]| && Contains(lower, keywords[1..][i]);
        assert Contains(lower, keywords[i + 1]);
      }
      if Mentions(lower, keywords) && !Contains(lower, keywords[0]) {
        var i :| 0 <= i < |keywords| && Contains(lower, keywords[i]);
        assert keywords[i] == keywords[1..][i - 1];
      }
    }
  }

  lemma {:induction false} SumFileScoresPositive(lowerName: string, lowerContent: string, keywords: seq<string>)
    ensures SumFileScores(lowerName, lowerContent, keywords) > 0 <==> Mentions(lowerName, keywords) || Mentions(lowerContent, keywords)
    decreases |keywords|
  {
    if keywords != [] {
      SumFileScoresPositive(lowerName, lowerContent, keywords[1..]);
      forall t | t == lowerName || t == lowerContent
        ensures Mentions(t, keywords) <==> Contains(t, keywords[0]) || Mentions(t, keywords[1..])
      {
        if Mentions(t, keywords[1..]) {
          var i :| 0 <= i < |keywords[1..]| && Contains(t, keywords[1..][i]);
          assert Contains(t, keywords[i + 1]);
        }
        if Mentions(t, keywords) && !Contains(t, keywords[0]) {
          var i :| 0 <= i < |keywords| && Contains(t, keywords[i]);
          assert keywords[i] == keywords[1..][i - 1];
        }
      }
    }
  }

  /** A chunk scores above zero exactly when it contains one of the keywords. */
  lemma ChunkScorePositive(chunk: string, keywords: seq<string>)
    requires PlainWords(keywords)
    ensures ChunkScore(chunk, keywords) > 0 <==> Mentions(Lower(chunk), keywords)
  {
    var lower := Lower(chunk);
    SumChunkScoresPositive(lower, keywords);
    var found := Found(lower, keywords);
    if found != [] {
      assert found[0] in keywords && Contains(lower, found[0]);
      var i :| 0 <= i < |keywords| && keywords[i] == found[0];
    }
  }

  /** A file scores above zero exactly when its name or content contains one of the keywords. */
  lemma FileScorePositive(filename: string, content: string, keywords: seq<string>)
    requires PlainWords(keywords)
    ensures FileScore(filename, content, keywords) > 0 <==> Mentions(Lower(filename), keywords) || Mentions(Lower(content), keywords)
  {
    SumFileScoresPositive(Lower(filename), Lower(content), keywords);
  }

  /** Each keyword's share of the file score adds up: the score of a keyword list is the sum of its parts. */
  lemma {:induction false} SumFileScoresAppend(lowerName: string, lowerContent: string, a: seq<string>, b: seq<string>)
    ensures SumFileScores(lowerName, lowerContent, a + b) == SumFileScores(lowerName, lowerContent, a) + SumFileScores(lowerName, lowerContent, b)
    decreases |a|
  {
    if a == [] {
      assert a + b == b;
    } else {
      SumFileScoresAppend(lowerName, lowerContent, a[1..], b);
      assert (a + b)[1..] == a[1..] + b;
    }
  }

  // ---------------------------------------------------------------------
  // the greedy walk under a token budget

  /** A chunk to try, and what to try instead when it does not fit. */
  datatype Offer = Offer(primary: ContentChunk, fallback: Option<ContentChunk>)

  /** `selectedChunks` with `usedTokens`. */
  datatype Picked = Picked(chunks: seq<ContentChunk>, used: nat)

  function Names(cs: seq<ContentChunk>): (r: seq<string>)
    ensures |r| == |cs| && forall i :: 0 <= i < |cs| ==> r[i] == cs[i].filename
  {
    seq(|cs|, i requires 0 <= i < |cs| => cs[i].filename)
  }

  /** `Array.from(filesUsed)`: a set fills in insertion order, so this is the distinct file names in order of first selection. */
  function FilesUsed(cs: seq<ContentChunk>): (r: seq<string>)
    ensures NoDup(r)
    ensures forall f :: f in r <==> exists i :: 0 <= i < |cs| && cs[i].filename == f
  {
    var names := Names(cs);
    assert forall f :: f in names <==> exists i :: 0 <= i < |cs| && cs[i].filename == f by {
      forall f | f in names ensures exists i :: 0 <= i < |cs| && cs[i].filename == f {
        var i :| 0 <= i < |names| && names[i] == f;
      }
    }
    Dedup(names)
  }

  function TokenSum(cs: seq<ContentChunk>): nat
    decreases |cs|
  {
    if cs == [] then 0 else TokenSum(cs[..|cs| - 1]) + cs[|cs| - 1].tokens
  }

  /** The general strategies never stop early. */
  const NoHalt: seq<ContentChunk> -> bool := cs => false

  /** Keeps a chunk and counts its tokens. */
  function Keep(acc: Picked, c: ContentChunk): Picked {
    Picked(acc.chunks + [c], acc.used + c.tokens)
  }

  /** What the walk keeps of one offer: its chunk if it fits, else its fallback if that fits. */
  function Fitting(o: Offer, used: nat, budget: nat): (r: Option<ContentChunk>)
    ensures r.Some? ==> used + r.value.tokens <= budget && (r.value == o.primary || o.fallback == Some(r.value))
    ensures r.None? ==> used + o.primary.tokens > budget
  {
    if used + o.primary.tokens <= budget then Some(o.primary)
    else if o.fallback.Some? && used + o.fallback.value.tokens <= budget then o.fallback
    else None
  }

  /** The selection loops: every offer in turn, keeping what fits, until `halt` holds of the selection. */
  function Walk(offers: seq<Offer>, budget: nat, halt: seq<ContentChunk> -> bool, acc: Picked): (r: Picked)
    ensures |acc.chunks| <= |r.chunks| <= |acc.chunks| + |offers| && r.chunks[..|acc.chunks|] == acc.chunks
    ensures acc.used <= r.used
    decreases |offers|
  {
    if offers == [] then acc
    else
      var next := Fitting(offers[0], acc.used, budget);
      if next.None? then Walk(offers[1..], budget, halt, acc)
      else
        var acc' := Keep(acc, next.value);
        if halt(acc'.chunks) then acc'
        else
          var r := Walk(offers[1..], budget, halt, acc');
          assert r.chunks[..|acc.chunks|] == r.chunks[..|acc'.chunks|][..|acc.chunks|];
          r
  }

  /** The walk never overspends, and the tokens it reports are those of the chunks it kept. */
  lemma {:induction false} WalkBudget(offers: seq<Offer>, budget: nat, halt: seq<ContentChunk> -> bool, acc: Picked)
    requires acc.used == TokenSum(acc.chunks) && acc.used <= budget
    ensures Walk(offers, budget, halt, acc).used == TokenSum(Walk(offers, budget, halt, acc).chunks)
    ensures Walk(offers, budget, halt, acc).used <= budget
    decreases |offers|
  {
    if offers != [] {
      var next := Fitting(offers[0], acc.used, budget);
      if next.None? {
        WalkBudget(offers[1..], budget, halt, acc);
      } else {
        var acc' := Keep(acc, next.value);
        assert acc'.chunks[..|acc'.chunks| - 1] == acc.chunks;
        if !halt(acc'.chunks) {
          WalkBudget(offers[1..], budget, halt, acc');
        }
      }
    }
  }

  /** `c` is the chunk or the fallback of one of the offers. */
  predicate Drawn(c: ContentChunk, offers: seq<Offer>) {
    exists j :: 0 <= j < |offers| && (offers[j].primary == c || offers[j].fallback == Some(c))
  }

  /** Everything the walk adds comes from the offers. */
  lemma {:induction false} WalkDrawn(offers: seq<Offer>, budget: nat, halt: seq<ContentChunk> -> bool, acc: Picked)
    ensures forall i :: |acc.chunks| <= i < |Walk(offers, budget, halt, acc).chunks| ==> Drawn(Walk(offers, budget, halt, acc).chunks[i], offers)
    decreases |offers|
  {
    if offers != [] {
      var r := Walk(offers, budget, halt, acc);
      var next := Fitting(offers[0], acc.used, budget);
      var tail := offers[1..];
      assert forall c :: Drawn(c, tail) ==> Drawn(c, offers) by {
        forall c | Drawn(c, tail) ensures Drawn(c, offers) {
          var j :| 0 <= j < |tail| && (tail[j].primary == c || tail[j].fallback == Some(c));
          assert offers[j + 1] == tail[j];
        }
      }
      if next.None? {
        assert r == Walk(tail, budget, halt, acc);
        WalkDrawn(tail, budget, halt, acc);
      } else {
        var acc' := Keep(acc, next.value);
        assert Drawn(next.value, offers) by {
          assert offers[0].primary == next.value || offers[0].fallback == Some(next.value);
        }
        assert acc'.chunks[|acc.chunks|] == next.value;
        if halt(acc'.chunks) {
          assert r == acc';
        } else {
          assert r == Walk(tail, budget, halt, acc');
          assert r.chunks[..|acc'.chunks|] == acc'.chunks;
          assert r.chunks[|acc.chunks|] == acc'.chunks[|acc.chunks|];
          WalkDrawn(tail, budget, halt, acc');
          forall i | |acc.chunks| <= i < |r.chunks| ensures Drawn(r.chunks[i], offers) {
            if i > |acc.chunks| {
              assert Drawn(r.chunks[i], tail);
            }
          }
        }
      }
    }
  }

  /** Without an early stop, walking two lists of offers is walking the first and then the second. */
  lemma {:induction false} WalkAppend(a: seq<Offer>, b: seq<Offer>, budget: nat, acc: Picked)
    ensures Walk(a + b, budget, NoHalt, acc) == Walk(b, budget, NoHalt, Walk(a, budget, NoHalt, acc))
    decreases |a|
  {
    if a == [] {
      assert a + b == b;
    } else {
      assert (a + b)[0] == a[0] && (a + b)[1..] == a[1..] + b;
      var next := Fitting(a[0], acc.used, budget);
      if next.None? {
        WalkAppend(a[1..], b, budget, acc);
      } else {
        WalkAppend(a[1..], b, budget, Keep(acc, next.value));
      }
    }
  }

  /** Offers without fallbacks. */
  function Plain(cs: seq<ContentChunk>): (r: seq<Offer>)
    ensures |r| == |cs| && forall i :: 0 <= i < |cs| ==> r[i] == Offer(cs[i], None)
  {
    seq(|cs|, i requires 0 <= i < |cs| => Offer(cs[i], None))
  }

  /** On plain offers the walk keeps a subsequence of them. */
  lemma {:induction false} WalkSubseq(prior: seq<ContentChunk>, cs: seq<ContentChunk>, budget: nat, halt: seq<ContentChunk> -> bool, acc: Picked)
    requires IsSubseq(acc.chunks, prior)
    ensures IsSubseq(Walk(Plain(cs), budget, halt, acc).chunks, prior + cs)
    decreases |cs|
  {
    if cs == [] {
      assert prior + cs == prior;
    } else {
      assert Plain(cs)[1..] == Plain(cs[1..]);
      assert prior + cs == (prior + [cs[0]]) + cs[1..];
      var next := Fitting(Plain(cs)[0], acc.used, budget);
      if next.None? {
        SubseqExtend(acc.chunks, prior, cs[0]);
        WalkSubseq(prior + [cs[0]], cs[1..], budget, halt, acc);
      } else {
        var acc' := Keep(acc, next.value);
        SubseqSnoc(acc.chunks, prior, cs[0]);
        if halt(acc'.chunks) {
          SubseqMembers(acc'.chunks, prior + [cs[0]]);
          SubseqAppendRight(acc'.chunks, prior + [cs[0]], cs[1..]);
        } else {
          WalkSubseq(prior + [cs[0]], cs[1..], budget, halt, acc');
        }
      }
    }
  }

  /** The walk stops at the first moment `halt` holds: no shorter selection met it. */
  lemma {:induction false} WalkStopsFirst(offers: seq<Offer>, budget: nat, halt: seq<ContentChunk> -> bool, acc: Picked)
    requires forall n :: 0 < n <= |acc.chunks| ==> !halt(acc.chunks[..n])
    ensures forall n :: 0 < n < |Walk(offers, budget, halt, acc).chunks| ==> !halt(Walk(offers, budget, halt, acc).chunks[..n])
    decreases |offers|
  {
    if offers != [] {
      var r := Walk(offers, budget, halt, acc);
      var next := Fitting(offers[0], acc.used, budget);
      if next.None? {
        assert r == Walk(offers[1..], budget, halt, acc);
        WalkStopsFirst(offers[1..], budget, halt, acc);
      } else {
        var acc' := Keep(acc, next.value);
        forall n | 0 < n <= |acc.chunks| ensures !halt(acc'.chunks[..n]) {
          assert acc'.chunks[..n] == acc.chunks[..n];
        }
        if halt(acc'.chunks) {
          assert r == acc';
        } else {
          assert r == Walk(offers[1..], budget, halt, acc');
          assert acc'.chunks[..|acc'.chunks|] == acc'.chunks;
          WalkStopsFirst(offers[1..], budget, halt, acc');
          forall n | 0 < n < |r.chunks| ensures !halt(r.chunks[..n]) {
          }
        }
      }
    }
  }

  /** Unless the walk stopped early, every plain offer it skipped would not have fitted in what was left of the budget. */
  lemma {:induction false} WalkMaximal(cs: seq<ContentChunk>, budget: nat, halt: seq<ContentChunk> -> bool, acc: Picked)
    ensures !halt(Walk(Plain(cs), budget, halt, acc).chunks) ==>
      forall j :: 0 <= j < |cs| && cs[j] !in Walk(Plain(cs), budget, halt, acc).chunks ==> Walk(Plain(cs), budget, halt, acc).used + cs[j].tokens > budget
    decreases |cs|
  {
    if cs != [] {
      var r := Walk(Plain(cs), budget, halt, acc);
      assert Plain(cs)[1..] == Plain(cs[1..]);
      var next := Fitting(Plain(cs)[0], acc.used, budget);
      if next.None? {
        WalkMaximal(cs[1..], budget, halt, acc);
      } else {
        var acc' := Keep(acc, next.value);
        if !halt(acc'.chunks) {
          WalkMaximal(cs[1..], budget, halt, acc');
          assert cs[0] == r.chunks[|acc.chunks|] by {
            assert r.chunks[..|acc'.chunks|] == acc'.chunks;
          }
        }
      }
      forall j | 1 <= j < |cs| ensures cs[j] == cs[1..][j - 1] {
      }
    }
  }

  // ---------------------------------------------------------------------
  // semantic selection

  /** A file with its relevance score. */
  datatype ScoredFile = ScoredFile(file: KnowledgeFile, score: nat)

  function ScoreFiles(files: seq<KnowledgeFile>, keywords: seq<string>): (r: seq<ScoredFile>)
    requires PlainWords(keywords)
    ensures |r| == |files|
    ensures forall i :: 0 <= i < |files| ==> r[i] == ScoredFile(files[i], FileScore(files[i].filename, ContentOrEmpty(files[i]), keywords))
  {
    seq(|files|, i requires 0 <= i < |files| => ScoredFile(files[i], FileScore(files[i].filename, ContentOrEmpty(files[i]), keywords)))
  }

  /** `scoredFiles`: the files by descending score, ties in input order. */
  function RankFiles(files: seq<KnowledgeFile>, keywords: seq<string>): seq<ScoredFile>
    requires PlainWords(keywords)
  {
    SortDesc(ScoreFiles(files, keywords), (sf: ScoredFile) => sf.score)
  }

  /** The chunks of one file that mention a keyword, scored on top of the file's score. */
  function ScoreChunks(v: Variant, chunks: seq<TextChunk>, keywords: seq<string>, filename: string, fileScore: nat): (r: seq<ContentChunk>)
    requires PlainWords(keywords)
    ensures forall c :: c in r ==> Candidate(v, c, keywords) && c.filename == filename && c.relevanceScore > fileScore
    decreases |chunks|
  {
    if chunks == [] then []
    else
      var text := chunks[0].text;
      var score := ChunkScore(text, keywords);
      var rest := ScoreChunks(v, chunks[1..], keywords, filename, fileScore);
      if score > 0 then
        ChunkScorePositive(text, keywords);
        [ContentChunk(text, filename, fileScore + score, EstimateTokens(v, text))] + rest
      else rest
  }

  /** What every semantic candidate satisfies: it mentions a keyword and carries its own token estimate. */
  predicate Candidate(v: Variant, c: ContentChunk, keywords: seq<string>) {
    Mentions(Lower(c.content), keywords) && c.tokens == EstimateTokens(v, c.content)
  }

  /** `allChunks` before sorting: the scored chunks of every file with content, files in rank order. */
  function Candidates(v: Variant, ranked: seq<ScoredFile>, keywords: seq<string>): (r: seq<ContentChunk>)
    requires PlainWords(keywords)
    ensures forall c :: c in r ==> Candidate(v, c, keywords)
    decreases |ranked|
  {
    if ranked == [] then []
    else
      var f := ranked[0].file;
      var own := if HasContent(f) then ScoreChunks(v, ChunkContent(f.content.value, f.filename, 2000), keywords, f.filename, ranked[0].score) else [];
      own + Candidates(v, ranked[1..], keywords)
  }

  /** `allChunks` after its stable sort by descending relevance. */
  function AllChunks(v: Variant, files: seq<KnowledgeFile>, keywords: seq<string>): (r: seq<ContentChunk>)
    requires PlainWords(keywords)
    ensures SortedDesc(r, (c: ContentChunk) => c.relevanceScore)
    ensures forall c :: c in r ==> Candidate(v, c, keywords)
  {
    var cs := Candidates(v, RankFiles(files, keywords), keywords);
    var r := SortDesc(cs, (c: ContentChunk) => c.relevanceScore);
    assert forall c :: c in r ==> c in cs by {
      forall c | c in r ensures c in cs {
        assert c in multiset(r);
      }
    }
    r
  }

  /** The stop test: at least 20 chunks (15 in the revised copy) from at least 3 files. */
  function MaxChunks(v: Variant): nat {
    match v
    case Library => 20
    case ChatRoute => 15
  }

  const MaxFiles: nat := 3

  predicate Enough(v: Variant, cs: seq<ContentChunk>) {
    |cs| >= MaxChunks(v) && |FilesUsed(cs)| >= MaxFiles
  }

  const Empty := Picked([], 0)

  /** The semantic strategy: walk the sorted candidates, keeping what fits, until enough is selected. */
  function Semantic(v: Variant, files: seq<KnowledgeFile>, keywords: seq<string>, budget: nat): (r: RetrievalResult)
    requires PlainWords(keywords)
    ensures r.totalTokens == TokenSum(r.chunks) && r.totalTokens <= budget
    ensures r.filesUsed == FilesUsed(r.chunks)
  {
    var p := Walk(Plain(AllChunks(v, files, keywords)), budget, cs => Enough(v, cs), Empty);
    WalkBudget(Plain(AllChunks(v, files, keywords)), budget, cs => Enough(v, cs), Empty);
    RetrievalResult(p.chunks, p.used, FilesUsed(p.chunks), "semantic-chunking")
  }

  /** The semantic selection is a subsequence of the sorted candidates, all of which mention a keyword. */
  lemma SemanticOrder(v: Variant, files: seq<KnowledgeFile>, keywords: seq<string>, budget: nat)
    requires PlainWords(keywords)
    ensures IsSubseq(Semantic(v, files, keywords, budget).chunks, AllChunks(v, files, keywords))
    ensures forall c :: c in Semantic(v, files, keywords, budget).chunks ==> Candidate(v, c, keywords)
  {
    var all := AllChunks(v, files, keywords);
    WalkSubseq([], all, budget, cs => Enough(v, cs), Empty);
    assert [] + all == all;
    SubseqMembers(Semantic(v, files, keywords, budget).chunks, all);
  }

  /** The semantic walk ends as soon as it holds enough chunks from enough files, and not before. */
  lemma SemanticStop(v: Variant, files: seq<KnowledgeFile>, keywords: seq<string>, budget: nat)
    requires PlainWords(keywords)
    ensures forall n :: 0 < n < |Semantic(v, files, keywords, budget).chunks| ==> !Enough(v, Semantic(v, files, keywords, budget).chunks[..n])
  {
    WalkStopsFirst(Plain(AllChunks(v, files, keywords)), budget, cs => Enough(v, cs), Empty);
  }

  /** Unless it stopped for having enough, the semantic walk skipped only candidates too large for the tokens left. */
  lemma SemanticMaximal(v: Variant, files: seq<KnowledgeFile>, keywords: seq<string>, budget: nat)
    requires PlainWords(keywords)
    ensures !Enough(v, Semantic(v, files, keywords, budget).chunks) ==>
      forall j :: 0 <= j < |AllChunks(v, files, keywords)| && AllChunks(v, files, keywords)[j] !in Semantic(v, files, keywords, budget).chunks ==>
        Semantic(v, files, keywords, budget).totalTokens + AllChunks(v, files, keywords)[j].tokens > budget
  {
    WalkMaximal(AllChunks(v, files, keywords), budget, cs => Enough(v, cs), Empty);
  }

  // ---------------------------------------------------------------------
  // general selection

  /** Scores of general chunks: 10 for a template, 5 for a whole factual file, 3 for a summary or preview. */
  const TemplateScore := 100
  const WholeScore := 50
  const ShortScore := 30

  const TruncationNote := "\n\n[Content truncated for brevity...]"
  const PreviewNote := "\n[Preview only]"

  /** A whole file as one chunk. */
  function WholeChunk(v: Variant, f: KnowledgeFile, score: int): (c: ContentChunk)
    requires HasContent(f)
    ensures c.content == f.content.value && c.filename == f.filename && c.relevanceScore == score
  {
    ContentChunk(f.content.value, f.filename, score, EstimateTokens(v, f.content.value))
  }

  /** A shortened file: its first `n` characters followed by a note. */
  function ShortChunk(v: Variant, f: KnowledgeFile, n: nat, note: string): (c: ContentChunk)
    requires HasContent(f)
    ensures c.content == Prefix(f.content.value, n) + note && c.filename == f.filename && c.relevanceScore == ShortScore
  {
    var text := Prefix(f.content.value, n) + note;
    ContentChunk(text, f.filename, ShortScore, EstimateTokens(v, text))
  }

  /** The library's template test: "guide" or "prompt" in the name, or "you are" in the content. */
  predicate LibraryTemplate(f: KnowledgeFile) {
    Contains(Lower(f.filename), "guide") || Contains(Lower(f.filename), "prompt")
      || (f.content.Some? && Contains(Lower(f.content.value), "you are"))
  }

  /** The revised template test: the name alone. */
  predicate RouteTemplate(f: KnowledgeFile) {
    Contains(Lower(f.filename), "guide") || Contains(Lower(f.filename), "prompt")
  }

  /** Template files with content, offered whole. */
  function TemplateOffers(v: Variant, files: seq<KnowledgeFile>): (r: seq<Offer>)
    ensures |r| <= |files|
    ensures forall o :: o in r ==> (o.fallback.None? && o.primary.relevanceScore == TemplateScore
      && exists f :: f in files && HasContent(f) && o.primary == WholeChunk(v, f, TemplateScore))
    decreases |files|
  {
    if files == [] then []
    else
      var rest := TemplateOffers(v, files[1..]);
      (if HasContent(files[0]) then [Offer(WholeChunk(v, files[0], TemplateScore), None)] else []) + rest
  }

  /** The library's factual files with content: offered whole, else as a 2000-character summary. */
  function FactualOffers(v: Variant, files: seq<KnowledgeFile>): (r: seq<Offer>)
    ensures forall o :: o in r ==> exists f :: (f in files && HasContent(f) && o.primary == WholeChunk(v, f, WholeScore)
      && o.fallback == Some(ShortChunk(v, f, 2000, TruncationNote)))
    decreases |files|
  {
    if files == [] then []
    else
      var rest := FactualOffers(v, files[1..]);
      var f := files[0];
      (if HasContent(f) then [Offer(WholeChunk(v, f, WholeScore), Some(ShortChunk(v, f, 2000, TruncationNote)))] else []) + rest
  }

  /** The revised copy's previews: the first 1500 characters of each file with content. */
  function PreviewOffers(v: Variant, files: seq<KnowledgeFile>): (r: seq<Offer>)
    ensures |r| <= |files|
    ensures forall o :: o in r ==> o.fallback.None? && exists f :: f in files && HasContent(f) && o.primary == ShortChunk(v, f, 1500, PreviewNote)
    decreases |files|
  {
    if files == [] then []
    else
      var rest := PreviewOffers(v, files[1..]);
      (if HasContent(files[0]) then [Offer(ShortChunk(v, files[0], 1500, PreviewNote), None)] else []) + rest
  }

  /** `retrieveGeneralKnowledge` in the library: every template that fits, then every factual file whole or summarised. */
  function LibraryGeneral(files: seq<KnowledgeFile>, budget: nat): (r: RetrievalResult)
    ensures r.totalTokens == TokenSum(r.chunks) && r.totalTokens <= budget
    ensures r.filesUsed == FilesUsed(r.chunks)
  {
    var templates := Filter(files, LibraryTemplate);
    var factual := Filter(files, f => !LibraryTemplate(f));
    var offers := TemplateOffers(Library, templates) + FactualOffers(Library, factual);
    var p := Walk(offers, budget, NoHalt, Empty);
    WalkBudget(offers, budget, NoHalt, Empty);
    RetrievalResult(p.chunks, p.used, FilesUsed(p.chunks), "general-instruction-based")
  }

  /** The index of the first file satisfying the revised template test. */
  function FirstTemplate(files: seq<KnowledgeFile>): (r: Option<nat>)
    ensures r.Some? ==> r.value < |files| && RouteTemplate(files[r.value])
    ensures forall i :: 0 <= i < |files| && (r.None? || i < r.value) ==> !RouteTemplate(files[i])
    decreases |files|
  {
    if files == [] then None
    else if RouteTemplate(files[0]) then Some(0)
    else
      var r := FirstTemplate(files[1..]);
      assert forall i :: 1 <= i < |files| ==> files[i] == files[1..][i - 1];
      if r.Some? then Some(r.value + 1) else None
  }

  /** The files other than the chosen template, in order. */
  function Others(files: seq<KnowledgeFile>, t: Option<nat>): seq<KnowledgeFile>
    requires t.Some? ==> t.value < |files|
  {
    if t.Some? then files[..t.value] + files[t.value + 1..] else files
  }

  /** The revised copy's factual files: the first two files other than the chosen template, with or without content. */
  function PreviewFiles(files: seq<KnowledgeFile>): (r: seq<KnowledgeFile>)
    ensures |r| <= 2
  {
    var others := Others(files, FirstTemplate(files));
    others[..if |others| < 2 then |others| else 2]
  }

  /** `retrieveGeneralKnowledge` in the revised copy: at most one template, then previews of the next two files. */
  function RouteGeneral(files: seq<KnowledgeFile>, budget: nat): (r: RetrievalResult)
    ensures r.totalTokens == TokenSum(r.chunks) && r.totalTokens <= budget
    ensures r.filesUsed == FilesUsed(r.chunks)
    ensures |r.chunks| <= 3
  {
    var t := FirstTemplate(files);
    var templates := if t.Some? then [files[t.value]] else [];
    var offers := TemplateOffers(ChatRoute, templates) + PreviewOffers(ChatRoute, PreviewFiles(files));
    var p := Walk(offers, budget, NoHalt, Empty);
    WalkBudget(offers, budget, NoHalt, Empty);
    RetrievalResult(p.chunks, p.used, FilesUsed(p.chunks), "general-limited")
  }

  function General(v: Variant, files: seq<KnowledgeFile>, budget: nat): (r: RetrievalResult)
    ensures r.totalTokens == TokenSum(r.chunks) && r.totalTokens <= budget
    ensures r.filesUsed == FilesUsed(r.chunks)
  {
    match v
    case Library => LibraryGeneral(files, budget)
    case ChatRoute => RouteGeneral(files, budget)
  }

  /** Every chunk and fallback of the offers satisfies `P`. */
  predicate OffersAll(offers: seq<Offer>, P: ContentChunk -> bool) {
    forall j :: 0 <= j < |offers| ==> P(offers[j].primary) && (offers[j].fallback.Some? ==> P(offers[j].fallback.value))
  }

  lemma OffersAllAppend(a: seq<Offer>, b: seq<Offer>, P: ContentChunk -> bool)
    requires OffersAll(a, P) && OffersAll(b, P)
    ensures OffersAll(a + b, P)
  {
    forall j | |a| <= j < |a + b| ensures (a + b)[j] == b[j - |a|] {
    }
  }

  lemma DrawnHas(c: ContentChunk, offers: seq<Offer>, P: ContentChunk -> bool)
    requires Drawn(c, offers) && OffersAll(offers, P)
    ensures P(c)
  {
    var j :| 0 <= j < |offers| && (offers[j].primary == c || offers[j].fallback == Some(c));
  }

  /** Whatever every offer satisfies, every chunk the walk adds satisfies. */
  lemma WalkHas(offers: seq<Offer>, budget: nat, halt: seq<ContentChunk> -> bool, acc: Picked, P: ContentChunk -> bool)
    requires OffersAll(offers, P)
    ensures forall i :: |acc.chunks| <= i < |Walk(offers, budget, halt, acc).chunks| ==> P(Walk(offers, budget, halt, acc).chunks[i])
  {
    WalkDrawn(offers, budget, halt, acc);
    forall i | |acc.chunks| <= i < |Walk(offers, budget, halt, acc).chunks| ensures P(Walk(offers, budget, halt, acc).chunks[i]) {
      DrawnHas(Walk(offers, budget, halt, acc).chunks[i], offers, P);
    }
  }

  /** Walking offers of one kind and then offers of another keeps every chunk of the first kind ahead of every chunk of the second. */
  lemma WalkPhases(a: seq<Offer>, b: seq<Offer>, budget: nat, P: ContentChunk -> bool)
    requires OffersAll(a, P) && OffersAll(b, c => !P(c))
    ensures forall i, j :: 0 <= i < j < |Walk(a + b, budget, NoHalt, Empty).chunks| && P(Walk(a + b, budget, NoHalt, Empty).chunks[j]) ==>
      P(Walk(a + b, budget, NoHalt, Empty).chunks[i])
  {
    var mid := Walk(a, budget, NoHalt, Empty);
    var r := Walk(a + b, budget, NoHalt, Empty).chunks;
    WalkAppend(a, b, budget, Empty);
    WalkHas(a, budget, NoHalt, Empty, P);
    WalkHas(b, budget, NoHalt, mid, c => !P(c));
    forall i | 0 <= i < |mid.chunks| ensures P(r[i]) {
      assert r[..|mid.chunks|] == mid.chunks;
      assert r[i] == r[..|mid.chunks|][i];
    }
  }

  /** Where a chunk of the library's general strategy comes from: a template whole, or a factual file whole or summarised. */
  predicate LibrarySource(c: ContentChunk, files: seq<KnowledgeFile>) {
    exists f :: f in files && HasContent(f) &&
      ((LibraryTemplate(f) && c == WholeChunk(Library, f, TemplateScore))
       || (!LibraryTemplate(f) && (c == WholeChunk(Library, f, WholeScore) || c == ShortChunk(Library, f, 2000, TruncationNote))))
  }

  /** Every chunk of the library's general strategy is a template file whole, or a factual file whole or cut to 2000 characters with a truncation note. */
  lemma LibraryGeneralSources(files: seq<KnowledgeFile>, budget: nat)
    ensures forall i :: 0 <= i < |LibraryGeneral(files, budget).chunks| ==> LibrarySource(LibraryGeneral(files, budget).chunks[i], files)
  {
    var ts := TemplateOffers(Library, Filter(files, LibraryTemplate));
    var fs := FactualOffers(Library, Filter(files, f => !LibraryTemplate(f)));
    var P := (c: ContentChunk) => LibrarySource(c, files);
    var offers: seq<Offer> := ts + fs;
    forall j | 0 <= j < |offers| ensures P(offers[j].primary) && (offers[j].fallback.Some? ==> P(offers[j].fallback.value)) {
      var o := offers[j];
      if j < |ts| {
        assert o in ts;
      } else {
        assert o == fs[j - |ts|] && o in fs;
      }
    }
    WalkHas(offers, budget, NoHalt, Empty, P);
  }

  /** Template offers are scored as templates, factual offers (whole or summarised) are not. */
  lemma OffersScored(v: Variant, templates: seq<KnowledgeFile>, factual: seq<KnowledgeFile>)
    ensures forall j :: 0 <= j < |TemplateOffers(v, templates)| ==>
      TemplateOffers(v, templates)[j].primary.relevanceScore == TemplateScore && TemplateOffers(v, templates)[j].fallback.None?
    ensures forall j :: 0 <= j < |FactualOffers(v, factual)| ==>
      FactualOffers(v, factual)[j].primary.relevanceScore != TemplateScore &&
      FactualOffers(v, factual)[j].fallback.Some? && FactualOffers(v, factual)[j].fallback.value.relevanceScore != TemplateScore
  {
    var ts := TemplateOffers(v, templates);
    var fs := FactualOffers(v, factual);
    forall j | 0 <= j < |ts| ensures ts[j].primary.relevanceScore == TemplateScore && ts[j].fallback.None? {
      assert ts[j] in ts;
    }
    forall j | 0 <= j < |fs| ensures fs[j].primary.relevanceScore != TemplateScore && fs[j].fallback.Some? && fs[j].fallback.value.relevanceScore != TemplateScore {
      assert fs[j] in fs;
    }
  }

  /** Template chunks come first: no factual chunk precedes a template chunk. */
  lemma LibraryTemplatesFirst(files: seq<KnowledgeFile>, budget: nat)
    ensures forall i, j :: 0 <= i < j < |LibraryGeneral(files, budget).chunks| && LibraryGeneral(files, budget).chunks[j].relevanceScore == TemplateScore ==>
      LibraryGeneral(files, budget).chunks[i].relevanceScore == TemplateScore
  {
    var ts := TemplateOffers(Library, Filter(files, LibraryTemplate));
    var fs := FactualOffers(Library, Filter(files, f => !LibraryTemplate(f)));
    OffersScored(Library, Filter(files, LibraryTemplate), Filter(files, f => !LibraryTemplate(f)));
    WalkPhases(ts, fs, budget, (c: ContentChunk) => c.relevanceScore == TemplateScore);
  }

  /** Where a chunk of the revised general strategy comes from: the first template file whole, or a preview of one of the next two files. */
  predicate RouteSource(c: ContentChunk, files: seq<KnowledgeFile>) {
    var t := FirstTemplate(files);
    (t.Some? && HasContent(files[t.value]) && c == WholeChunk(ChatRoute, files[t.value], TemplateScore))
    || exists f :: f in PreviewFiles(files) && HasContent(f) && c == ShortChunk(ChatRoute, f, 1500, PreviewNote)
  }

  /** Every chunk of the revised general strategy is the first template file whole or a 1500-character preview of one of the first two other files. */
  lemma RouteGeneralSources(files: seq<KnowledgeFile>, budget: nat)
    ensures forall i :: 0 <= i < |RouteGeneral(files, budget).chunks| ==> RouteSource(RouteGeneral(files, budget).chunks[i], files)
  {
    var t := FirstTemplate(files);
    var ts := TemplateOffers(ChatRoute, if t.Some? then [files[t.value]] else []);
    var ps := PreviewOffers(ChatRoute, PreviewFiles(files));
    var P := (c: ContentChunk) => RouteSource(c, files);
    forall j | 0 <= j < |ts| ensures P(ts[j].primary) && ts[j].fallback.None? {
      assert ts[j] in ts;
    }
    forall j | 0 <= j < |ps| ensures P(ps[j].primary) && ps[j].fallback.None? {
      assert ps[j] in ps;
    }
    OffersAllAppend(ts, ps, P);
    WalkHas(ts + ps, budget, NoHalt, Empty, P);
  }

  // ---------------------------------------------------------------------
  // the entry point

  /** The general strategy is chosen without keywords or for plain conversation in the library, and with fewer than two keywords in the revised copy. */
  predicate UseGeneral(v: Variant, keywords: seq<string>, intent: IntentType) {
    match v
    case Library => |keywords| == 0 || intent == NormalConversation
    case ChatRoute => |keywords| < 2
  }

  /** The knowledge budget for a model and a keyword count. */
  function Budget(v: Variant, modelName: string, keywordCount: nat): (b: nat)
    ensures v == Library ==> b + 2700 == ModelContextLimit(v, modelName)
    ensures v == ChatRoute ==> b <= ModelContextLimit(v, modelName) - 4000 && b <= (if keywordCount >= 2 then 35000 else 15000)
    ensures v == ChatRoute ==> b == ModelContextLimit(v, modelName) - 4000 || b == (if keywordCount >= 2 then 35000 else 15000)
  {
    BudgetBounds(v, modelName, keywordCount);
    AvailableTokens(v, ModelContextLimit(v, modelName), keywordCount)
  }

  /** `retrieveRelevantKnowledge`: keywords from the message, a budget from the model, then the general or the semantic strategy. */
  function RetrieveRelevantKnowledge(v: Variant, files: seq<KnowledgeFile>, userMessage: string, modelName: string, intent: IntentType): (r: RetrievalResult)
    ensures r.totalTokens == TokenSum(r.chunks)
    ensures r.totalTokens <= Budget(v, modelName, |ExtractKeywords(userMessage)|)
    ensures NoDup(r.filesUsed) && forall f :: f in r.filesUsed <==> exists i :: 0 <= i < |r.chunks| && r.chunks[i].filename == f
    ensures r.selectionStrategy == "semantic-chunking" <==> !UseGeneral(v, ExtractKeywords(userMessage), intent)
  {
    var keywords := ExtractKeywords(userMessage);
    var budget := Budget(v, modelName, |keywords|);
    if UseGeneral(v, keywords, intent) then General(v, files, budget)
    else Semantic(v, files, keywords, budget)
  }
}
