/**
  Intent detection: which of three conversational intents a message asks for,
  judged by trigger phrases, and where in a message the user's post begins.
 */
module Intent {
  import opened Wrappers
  import opened Text

  datatype IntentType = HookGeneration | PostRewrite | NormalConversation

  const HookTriggers := ["generate hook", "create hook", "write hook", "give me hook", "make hook",
                         "viral hook", "hook for", "hooks for", "generate 5 hook"]

  const RewriteTriggers := ["rewrite", "improve this", "make this better", "enhance this", "rephrase",
                            "polish this", "fix this post", "improve my post"]

  /** Some phrase of `ps` occurs in `s`. */
  predicate ContainsAny(s: string, ps: seq<string>) {
    exists i :: 0 <= i < |ps| && Contains(s, ps[i])
  }

  /** The `for ... of` loop over `ps` that returns on the first phrase `s` includes. */
  function AnyIncluded(s: string, ps: seq<string>): (b: bool)
    ensures b <==> ContainsAny(s, ps)
    decreases |ps|
  {
    if ps == [] then false
    else if Contains(s, ps[0]) then true
    else
      var b := AnyIncluded(s, ps[1..]);
      assert forall i :: 1 <= i < |ps| ==> ps[i] == ps[1..][i - 1];
      b
  }

  /** Neither end of any phrase is whitespace. */
  predicate Unpadded(ps: seq<string>) {
    forall i :: 0 <= i < |ps| ==> ps[i] != [] && !IsSpace(ps[i][0]) && !IsSpace(ps[i][|ps[i]| - 1])
  }

  /** Trimming the message does not change which unpadded phrases it contains. */
  lemma ContainsAnyTrim(s: string, ps: seq<string>)
    requires Unpadded(ps)
    ensures ContainsAny(Trim(s), ps) <==> ContainsAny(s, ps)
  {
    forall i | 0 <= i < |ps| ensures Contains(Trim(s), ps[i]) <==> Contains(s, ps[i]) {
      ContainsTrim(s, ps[i]);
    }
  }

  lemma TriggersUnpadded()
    ensures Unpadded(HookTriggers) && Unpadded(RewriteTriggers)
  {
    HookTriggersUnpadded();
    RewriteTriggersUnpadded();
  }

  lemma HookTriggersUnpadded()
    ensures Unpadded(HookTriggers)
  {
  }

  lemma RewriteTriggersUnpadded()
    ensures Unpadded(RewriteTriggers)
  {
  }

  /** `detectIntent`: hook triggers are checked first, then rewrite triggers, on the trimmed lower-cased message. */
  function DetectIntent(message: string): (r: IntentType)
    ensures r == HookGeneration <==> ContainsAny(Lower(message), HookTriggers)
    ensures r == PostRewrite <==> !ContainsAny(Lower(message), HookTriggers) && ContainsAny(Lower(message), RewriteTriggers)
    ensures r == NormalConversation <==> !ContainsAny(Lower(message), HookTriggers) && !ContainsAny(Lower(message), RewriteTriggers)
  {
    var lowerMessage := Trim(Lower(message));
    TriggersUnpadded();
    ContainsAnyTrim(Lower(message), HookTriggers);
    ContainsAnyTrim(Lower(message), RewriteTriggers);
    if AnyIncluded(lowerMessage, HookTriggers) then HookGeneration
    else if AnyIncluded(lowerMessage, RewriteTriggers) then PostRewrite
    else NormalConversation
  }

  // ---------------------------------------------------------------------
  // post extraction

  const Separators := ["for:", "for this:", "for the following:", "this:", "this post:", "my post:", "---", "\n\n"]

  /** What one separator yields: the trimmed text after its first occurrence (found case-insensitively), if longer than 10. */
  function SeparatorContent(message: string, separator: string): (r: Option<string>)
    ensures r.Some? ==> |r.value| > 10 && IsTrimmed(r.value)
    ensures !Contains(Lower(message), separator) ==> r.None?
  {
    var index := IndexOf(Lower(message), separator);
    if index == -1 then None
    else
      var content := Trim(message[index + |separator|..]);
      if |content| > 10 then Some(content) else None
  }

  /** What each separator yields, in list order. */
  function Yields(message: string): (ys: seq<Option<string>>)
    ensures |ys| == |Separators| && forall i :: 0 <= i < |ys| ==> ys[i] == SeparatorContent(message, Separators[i])
  {
    seq(|Separators|, i requires 0 <= i < |Separators| => SeparatorContent(message, Separators[i]))
  }

  /** The first present value of `ys`. */
  function FirstSome<T>(ys: seq<Option<T>>): (r: Option<T>)
    ensures r.Some? ==> r in ys
    decreases |ys|
  {
    if ys == [] then None else if ys[0].Some? then ys[0] else FirstSome(ys[1..])
  }

  /** `FirstSome` is the entry at the least index holding a value, and none when no entry holds one. */
  lemma {:induction false} FirstSomeSpec<T>(ys: seq<Option<T>>)
    ensures (exists i :: 0 <= i < |ys| && ys[i].Some?) ==>
      exists i :: 0 <= i < |ys| && FirstSome(ys) == ys[i] && ys[i].Some? && forall j :: 0 <= j < i ==> ys[j].None?
    ensures (forall i :: 0 <= i < |ys| ==> ys[i].None?) ==> FirstSome(ys).None?
    decreases |ys|
  {
    if ys != [] && ys[0].None? {
      var tail := ys[1..];
      FirstSomeSpec(tail);
      assert forall i :: 1 <= i < |ys| ==> ys[i] == tail[i - 1];
      if exists i :: 0 <= i < |ys| && ys[i].Some? {
        var i :| 0 <= i < |ys| && ys[i].Some?;
        assert tail[i - 1].Some?;
        var k :| 0 <= k < |tail| && FirstSome(tail) == tail[k] && tail[k].Some? && forall j :: 0 <= j < k ==> tail[j].None?;
        assert FirstSome(ys) == ys[k + 1];
      }
    }
  }

  function Max(a: int, b: int): int {
    if a < b then b else a
  }

  /** `Math.max` of the first indices of ". ", "? " and "! ": the latest of the three first sentence ends. */
  function SentenceBreak(message: string): (k: int)
    ensures k >= -1
    ensures k == -1 <==> !Contains(message, ". ") && !Contains(message, "? ") && !Contains(message, "! ")
    ensures k == IndexOf(message, ". ") || k == IndexOf(message, "? ") || k == IndexOf(message, "! ")
    ensures IndexOf(message, ". ") <= k && IndexOf(message, "? ") <= k && IndexOf(message, "! ") <= k
    ensures k != -1 ==> k + 2 <= |message|
  {
    Max(Max(IndexOf(message, ". "), IndexOf(message, "? ")), IndexOf(message, "! "))
  }

  /** The sentence fallback: in a message over 100 characters whose sentence break lies in (0, 100), the trimmed rest if longer than 20. */
  function SentenceTail(message: string): (r: Option<string>)
    ensures r.Some? ==> |message| > 100 && 0 < SentenceBreak(message) < 100 && |r.value| > 20
    ensures r.Some? ==> r.value == Trim(message[SentenceBreak(message) + 2..])
  {
    if |message| > 100 then
      var k := SentenceBreak(message);
      if 0 < k < 100 then
        var possiblePost := Trim(message[k + 2..]);
        if |possiblePost| > 20 then Some(possiblePost) else None
      else None
    else None
  }

  /** `extractPostContent`: the first separator that yields, else the sentence fallback, else the whole message if over 50. */
  function ExtractPostContent(message: string): (r: Option<string>)
    ensures r.Some? ==> |r.value| > 10
  {
    var fromSep := FirstSome(Yields(message));
    if fromSep.Some? then fromSep
    else
      var tail := SentenceTail(message);
      if tail.Some? then tail
      else if |message| > 50 then Some(message)
      else None
  }

  /** The separators are tried in list order, and the first that yields decides. */
  lemma ExtractSeparatorOrder(message: string)
    ensures var ys := Yields(message);
      (exists i :: 0 <= i < |ys| && ys[i].Some?) ==>
        exists i :: 0 <= i < |ys| && ExtractPostContent(message) == ys[i] && ys[i].Some? && forall j :: 0 <= j < i ==> ys[j].None?
  {
    FirstSomeSpec(Yields(message));
  }

  /** Without a yielding separator: the sentence fallback when it applies, else the whole message when over 50 characters, else none. */
  lemma ExtractWithoutSeparator(message: string)
    requires forall i :: 0 <= i < |Yields(message)| ==> Yields(message)[i].None?
    ensures ExtractPostContent(message) == if SentenceTail(message).Some? then SentenceTail(message) else if |message| > 50 then Some(message) else None
    ensures |message| <= 50 ==> ExtractPostContent(message).None?
    ensures 50 < |message| <= 100 ==> ExtractPostContent(message) == Some(message)
  {
    FirstSomeSpec(Yields(message));
  }

  /** `hasPostContent`. */
  predicate HasPostContent(message: string) {
    var content := ExtractPostContent(message);
    content.Some? && |content.value| > 20
  }

  /** The first present value is longer than `n` exactly when some present entry, preceded only by absent ones, is. */
  lemma {:induction false} FirstSomeLonger(ys: seq<Option<string>>, n: nat)
    ensures (FirstSome(ys).Some? && |FirstSome(ys).value| > n) <==>
      exists i :: 0 <= i < |ys| && ys[i].Some? && |ys[i].value| > n && forall j :: 0 <= j < i ==> ys[j].None?
    decreases |ys|
  {
    if ys != [] {
      var tail := ys[1..];
      if ys[0].Some? {
        if exists i :: 0 <= i < |ys| && ys[i].Some? && |ys[i].value| > n && forall j :: 0 <= j < i ==> ys[j].None? {
          var i :| 0 <= i < |ys| && ys[i].Some? && |ys[i].value| > n && forall j :: 0 <= j < i ==> ys[j].None?;
          assert i == 0;
        }
      } else {
        FirstSomeLonger(tail, n);
        if FirstSome(ys).Some? && |FirstSome(ys).value| > n {
          var i :| 0 <= i < |tail| && tail[i].Some? && |tail[i].value| > n && forall j :: 0 <= j < i ==> tail[j].None?;
          assert ys[i + 1] == tail[i];
          forall j | 0 <= j < i + 1 ensures ys[j].None? {
            if j > 0 {
              assert ys[j] == tail[j - 1];
            }
          }
        }
        if exists i :: 0 <= i < |ys| && ys[i].Some? && |ys[i].value| > n && forall j :: 0 <= j < i ==> ys[j].None? {
          var i :| 0 <= i < |ys| && ys[i].Some? && |ys[i].value| > n && forall j :: 0 <= j < i ==> ys[j].None?;
          assert tail[i - 1] == ys[i];
          forall j | 0 <= j < i - 1 ensures tail[j].None? {
            assert tail[j] == ys[j + 1];
          }
        }
      }
    }
  }

  /** A message has a post exactly when the first yielding separator gives more than 20 characters, or none yields and the message exceeds 50. */
  lemma HasPostContentIff(message: string)
    ensures var ys := Yields(message);
      HasPostContent(message) <==>
        (exists i :: 0 <= i < |ys| && ys[i].Some? && |ys[i].value| > 20 && forall j :: 0 <= j < i ==> ys[j].None?)
        || ((forall i :: 0 <= i < |ys| ==> ys[i].None?) && |message| > 50)
  {
    var ys := Yields(message);
    HasPostContentFirst(message);
    FirstSomeLonger(ys, 20);
    FirstSomeNone(ys);
  }

  /** `HasPostContent` in terms of the first yielding separator. */
  lemma HasPostContentFirst(message: string)
    ensures var first := FirstSome(Yields(message));
      HasPostContent(message) <==> (first.Some? && |first.value| > 20) || (first.None? && |message| > 50)
  {
    if FirstSome(Yields(message)).None? {
      assert SentenceTail(message).Some? ==> |message| > 50;
    }
  }

  /** No entry is present exactly when `FirstSome` finds none. */
  lemma FirstSomeNone<T>(ys: seq<Option<T>>)
    ensures FirstSome(ys).None? <==> forall i :: 0 <= i < |ys| ==> ys[i].None?
  {
    FirstSomeSpec(ys);
  }
}
