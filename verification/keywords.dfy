/**
  Keyword extraction from a user query: lower-case it, turn punctuation into
  spaces, split on whitespace, and keep the distinct words of three or more
  characters that are not stop words, in order of first occurrence.
 */
module Keywords {
  import opened Text
  import opened Seqs

  /** The words too common to say anything about a query. */
  const StopWords: seq<string> := [
    "the", "a", "an", "and", "or", "but", "in", "on", "at", "to", "for",
    "of", "with", "by", "from", "as", "is", "was", "are", "were", "been",
    "be", "have", "has", "had", "do", "does", "did", "will", "would", "should",
    "could", "can", "may", "might", "must", "i", "you", "he", "she", "it",
    "we", "they", "them", "their", "this", "that", "these", "those", "what",
    "which", "who", "when", "where", "why", "how", "tell", "me", "about",
    "give", "want", "need", "know", "get", "help"]

  /** Lower-case ASCII letters, digits and underscores only. */
  predicate IsLowerWord(w: string) {
    forall j :: 0 <= j < |w| ==> IsWordChar(w[j]) && !('A' <= w[j] <= 'Z')
  }

  /** `query.toLowerCase().replace(/[^\w\s]/g, ' ')`. */
  function CleanQuery(query: string): (r: string)
    ensures |r| == |query|
    ensures forall i :: 0 <= i < |query| ==>
      r[i] == if IsWordChar(query[i]) || IsSpace(query[i]) then LowerChar(query[i]) else ' '
  {
    var lower := Lower(query);
    seq(|lower|, i requires 0 <= i < |lower| => if IsWordChar(lower[i]) || IsSpace(lower[i]) then lower[i] else ' ')
  }

  /** The first whitespace position at or after `i`, or `|s|` when there is none. */
  function SpaceFrom(s: string, i: nat): (k: nat)
    requires i <= |s|
    ensures i <= k <= |s| && (k == |s| || IsSpace(s[k]))
    ensures forall j :: i <= j < k ==> !IsSpace(s[j])
    decreases |s| - i
  {
    if i == |s| || IsSpace(s[i]) then i else SpaceFrom(s, i + 1)
  }

  /** `s.split(/\s+/)`: the pieces between whitespace runs, with an empty piece before a leading and after a trailing run. */
  function SplitWs(s: string): (r: seq<string>)
    ensures |r| > 0
    ensures forall k, j :: 0 <= k < |r| && 0 <= j < |r[k]| ==> !IsSpace(r[k][j]) && r[k][j] in s
    decreases |s|
  {
    var i := SpaceFrom(s, 0);
    if i == |s| then [s]
    else
      var e := SkipSpaces(s, i);
      var rest := SplitWs(s[e..]);
      assert forall k, j :: 0 <= k < |rest| && 0 <= j < |rest[k]| ==> rest[k][j] in s;
      [s[..i]] + rest
  }

  /** A word kept by the two filters: longer than two characters and not a stop word. */
  predicate Meaningful(w: string) {
    |w| > 2 && w !in StopWords
  }

  /** The meaningful words of a query, repetitions included. */
  function MeaningfulWords(query: string): (ws: seq<string>)
    ensures forall w :: w in ws <==> w in SplitWs(CleanQuery(query)) && Meaningful(w)
  {
    var words := Filter(SplitWs(CleanQuery(query)), w => |w| > 2);
    Filter(words, w => w !in StopWords)
  }

  /** `extractKeywords`. */
  function ExtractKeywords(query: string): (r: seq<string>)
    ensures NoDup(r)
    ensures forall i :: 0 <= i < |r| ==> |r[i]| >= 3 && r[i] !in StopWords && IsLowerWord(r[i])
  {
    var ws := MeaningfulWords(query);
    var r := Dedup(ws);
    forall i | 0 <= i < |r| ensures |r[i]| >= 3 && r[i] !in StopWords && IsLowerWord(r[i]) {
      KeywordShape(query, r[i]);
    }
    r
  }

  lemma KeywordShape(query: string, w: string)
    requires w in MeaningfulWords(query)
    ensures |w| >= 3 && w !in StopWords && IsLowerWord(w)
  {
    var cleaned := CleanQuery(query);
    var words := SplitWs(cleaned);
    var k :| 0 <= k < |words| && words[k] == w;
    forall j | 0 <= j < |w| ensures IsWordChar(w[j]) && !('A' <= w[j] <= 'Z') {
      assert w[j] in cleaned && !IsSpace(w[j]);
    }
  }

  /** A word is a keyword exactly when it is a meaningful word of the cleaned query. */
  lemma KeywordsMembership(query: string, w: string)
    ensures w in ExtractKeywords(query) <==> w in SplitWs(CleanQuery(query)) && Meaningful(w)
  {
  }

  /** Keywords come in the order of their first occurrence among the meaningful words. */
  lemma KeywordsFirstOccurrence(query: string)
    ensures var ws := MeaningfulWords(query); var r := ExtractKeywords(query);
      forall i, j :: 0 <= i < j < |r| ==> FirstIndex(ws, r[i]) < FirstIndex(ws, r[j])
  {
    DedupFirstOccurrenceOrder(MeaningfulWords(query));
  }
}
