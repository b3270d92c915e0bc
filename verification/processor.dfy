/**
  The knowledge processor: sorting knowledge-base files into instruction
  templates and factual knowledge, building the system prompt for an intent,
  and cleaning the model's reply.
 */
module KnowledgeProcessor {
  import opened Text
  import opened Intent

  datatype FileCategory = InstructionTemplate | FactualKnowledge | Unknown

  /** The parts of an instruction file the prompt builder uses. */
  datatype Template = Template(systemRules: string, userPromptTemplate: string, responseFormat: string, examples: seq<string>)

  // ---------------------------------------------------------------------
  // categorising

  const ContentIndicators := ["{insert", "{user", "user prompt template", "system prompt template", "generate 5",
                              "guidelines:", "you are kevin box", "rules:", "must be", "tone must be", "avoid emojis",
                              "example:", "match the tone of these examples"]

  const FilenameIndicators := ["instruction", "template", "prompt", "framework", "guide", "rules"]

  /** How many phrases of `ps` occur in `s`. */
  function CountPresent(s: string, ps: seq<string>): (n: nat)
    ensures n <= |ps|
    decreases |ps|
  {
    if ps == [] then 0 else (if Contains(s, ps[0]) then 1 else 0) + CountPresent(s, ps[1..])
  }

  /** Every phrase that occurs adds one: two distinct occurring phrases count at least two. */
  lemma {:induction false} CountPresentTwo(s: string, ps: seq<string>, i: nat, j: nat)
    requires i < j < |ps| && Contains(s, ps[i]) && Contains(s, ps[j])
    ensures CountPresent(s, ps) >= 2
    decreases |ps|
  {
    if i == 0 {
      CountPresentOne(s, ps[1..], j - 1);
    } else {
      CountPresentTwo(s, ps[1..], i - 1, j - 1);
    }
  }

  lemma {:induction false} CountPresentOne(s: string, ps: seq<string>, i: nat)
    requires i < |ps| && Contains(s, ps[i])
    ensures CountPresent(s, ps) >= 1
    decreases |ps|
  {
    if i > 0 {
      CountPresentOne(s, ps[1..], i - 1);
    }
  }

  /** No occurring phrase, no count. */
  lemma {:induction false} CountPresentNone(s: string, ps: seq<string>)
    requires forall i :: 0 <= i < |ps| ==> !Contains(s, ps[i])
    ensures CountPresent(s, ps) == 0
    decreases |ps|
  {
    if ps != [] {
      assert forall i :: 0 <= i < |ps[1..]| ==> ps[1..][i] == ps[i + 1];
      CountPresentNone(s, ps[1..]);
    }
  }

  /** One point per content indicator present, two per filename indicator present. */
  function InstructionScore(filename: string, content: string): nat {
    CountPresent(Lower(content), ContentIndicators) + 2 * CountPresent(Lower(filename), FilenameIndicators)
  }

  /** `categorizeKnowledgeFile`. */
  function CategorizeKnowledgeFile(filename: string, content: string): (r: FileCategory)
    ensures r == InstructionTemplate <==> InstructionScore(filename, content) >= 3
    ensures r == FactualKnowledge <==> InstructionScore(filename, content) < 3 && |content| > 50
    ensures r == Unknown <==> InstructionScore(filename, content) < 3 && |content| <= 50
  {
    var instructionScore := CountPresent(Lower(content), ContentIndicators) + 2 * CountPresent(Lower(filename), FilenameIndicators);
    if instructionScore >= 3 then InstructionTemplate
    else if |content| > 50 then FactualKnowledge
    else Unknown
  }

  /** A filename with two distinct indicator words marks a template, whatever the content. */
  lemma TwoFilenameIndicators(filename: string, content: string, i: nat, j: nat)
    requires i < j < |FilenameIndicators|
    requires Contains(Lower(filename), FilenameIndicators[i]) && Contains(Lower(filename), FilenameIndicators[j])
    ensures CategorizeKnowledgeFile(filename, content) == InstructionTemplate
  {
    CountPresentTwo(Lower(filename), FilenameIndicators, i, j);
  }

  /** Without any indicator, a file is factual exactly when its content exceeds 50 characters. */
  lemma NoIndicators(filename: string, content: string)
    requires forall i :: 0 <= i < |ContentIndicators| ==> !Contains(Lower(content), ContentIndicators[i])
    requires forall i :: 0 <= i < |FilenameIndicators| ==> !Contains(Lower(filename), FilenameIndicators[i])
    ensures CategorizeKnowledgeFile(filename, content) == (if |content| > 50 then FactualKnowledge else Unknown)
  {
    CountPresentNone(Lower(content), ContentIndicators);
    CountPresentNone(Lower(filename), FilenameIndicators);
  }

  // ---------------------------------------------------------------------
  // the contextual prompt

  const DefaultPrompt := "You are a helpful AI assistant."
  const KnowledgeHeader := "\n\nYou have access to the following knowledge base:\n"
  const BlankLine := "\n\n"

  const FallbackRules :=
    "You are Kevin Box's AI content strategist, trained to create viral hooks and rewrite posts in Kevin's bold, pithy, and no-nonsense style.\n\n"
    + "Rules:\n"
    + "- Avoid emojis, filler, or politeness.\n"
    + "- Tone must be confident, emotionally charged, and attention-grabbing.\n"
    + "- Hooks and rewrites must evoke curiosity, fear, surprise, or identity.\n\n"

  const HookTask :=
    "Generate 5 viral hooks for the following post.\n\n"
    + "Guidelines:\n"
    + "- Hooks must be 10-20 words, pithy, bold, and emotionally charged.\n"
    + "- Use curiosity, fear, and surprise to drive attention.\n"
    + "- Number them 1-5.\n"
    + "- Do not include any preamble or explanation, just the 5 hooks.\n\n"

  const ExamplesHeader := "Match the tone of these examples:\n"

  const RewriteTask :=
    "Rewrite the following post in Kevin Box's viral style.\n\n"
    + "Guidelines:\n"
    + "- Make it bold, pithy, and emotionally charged.\n"
    + "- Evoke curiosity, fear, or surprise.\n"
    + "- Remove filler words and politeness.\n"
    + "- Make every word count.\n"
    + "- Do not include any preamble or explanation, just the rewritten post.\n\n"

  /** `basePrompt || 'You are a helpful AI assistant.'`. */
  function BaseOrDefault(basePrompt: string): (r: string)
    ensures r != []
    ensures basePrompt != [] ==> r == basePrompt
  {
    if basePrompt != [] then basePrompt else DefaultPrompt
  }

  /** One example line: its 1-based number, a dot, the example. */
  function ExampleLine(n: nat, example: string): string {
    NatToString(n) + ". " + example + "\n"
  }

  /** The `forEach` that appends the examples, numbering from `start`. */
  function NumberExamples(examples: seq<string>, start: nat): string
    decreases |examples|
  {
    if examples == [] then [] else ExampleLine(start, examples[0]) + NumberExamples(examples[1..], start + 1)
  }

  /** The example lines numbered from `start`, one per example, in order. */
  function ExampleLines(examples: seq<string>, start: nat): (lines: seq<string>)
    ensures |lines| == |examples| && forall i :: 0 <= i < |examples| ==> lines[i] == ExampleLine(start + i, examples[i])
  {
    seq(|examples|, i requires 0 <= i < |examples| => ExampleLine(start + i, examples[i]))
  }

  /** The appended text is the example lines in order. */
  lemma {:induction false} NumberExamplesLines(examples: seq<string>, start: nat)
    ensures NumberExamples(examples, start) == Concat(ExampleLines(examples, start))
    decreases |examples|
  {
    if examples != [] {
      NumberExamplesLines(examples[1..], start + 1);
      assert ExampleLines(examples, start)[1..] == ExampleLines(examples[1..], start + 1);
    }
  }

  /** The rules part: the template's own system rules, else the fixed fallback rules. */
  function RulesPart(t: Template): string {
    if t.systemRules != [] then t.systemRules + BlankLine else FallbackRules
  }

  /** The task part for a non-normal intent. */
  function TaskPart(intent: IntentType, t: Template): string {
    match intent
    case HookGeneration =>
      HookTask + (if |t.examples| > 0 then ExamplesHeader + NumberExamples(t.examples, 1) + "\n" else [])
    case PostRewrite => RewriteTask
    case NormalConversation => []
  }

  /** `buildContextualPrompt`; the user's message takes no part in it. */
  function BuildContextualPrompt(intent: IntentType, templates: seq<Template>, knowledge: seq<string>,
                                 userMessage: string, basePrompt: string): (r: string)
    ensures intent == NormalConversation && knowledge == [] ==> r == BaseOrDefault(basePrompt)
    ensures intent == NormalConversation && knowledge != [] ==>
      StartsWith(r, BaseOrDefault(basePrompt) + KnowledgeHeader) && EndsWith(r, Join(knowledge, BlankLine))
      && |r| == |BaseOrDefault(basePrompt)| + |KnowledgeHeader| + |Join(knowledge, BlankLine)|
    ensures intent != NormalConversation && templates == [] ==> r == BaseOrDefault(basePrompt)
    ensures intent != NormalConversation && templates != [] ==> StartsWith(r, RulesPart(templates[0]))
  {
    if intent == NormalConversation then
      var prompt := BaseOrDefault(basePrompt);
      if |knowledge| > 0 then
        var r := prompt + KnowledgeHeader + Join(knowledge, BlankLine);
        assert r[..|prompt + KnowledgeHeader|] == prompt + KnowledgeHeader;
        assert r[|r| - |Join(knowledge, BlankLine)|..] == Join(knowledge, BlankLine);
        r
      else prompt
    else if |templates| > 0 then
      var r := RulesPart(templates[0]) + TaskPart(intent, templates[0]);
      assert r[..|RulesPart(templates[0])|] == RulesPart(templates[0]);
      r
    else BaseOrDefault(basePrompt)
  }

  /** For hook and rewrite requests only the first template matters; knowledge, the message and the base prompt are ignored. */
  lemma OnlyFirstTemplate(intent: IntentType, t: Template, rest: seq<Template>, knowledge: seq<string>, userMessage: string,
                          basePrompt: string, knowledge': seq<string>, userMessage': string, basePrompt': string)
    requires intent != NormalConversation
    ensures BuildContextualPrompt(intent, [t] + rest, knowledge, userMessage, basePrompt)
         == BuildContextualPrompt(intent, [t], knowledge', userMessage', basePrompt')
  {
    assert ([t] + rest)[0] == t;
  }

  /** A rewrite prompt never includes the template's examples. */
  lemma RewriteIgnoresExamples(t: Template, examples: seq<string>, knowledge: seq<string>, userMessage: string, basePrompt: string)
    ensures BuildContextualPrompt(PostRewrite, [t], knowledge, userMessage, basePrompt)
         == BuildContextualPrompt(PostRewrite, [t.(examples := examples)], knowledge, userMessage, basePrompt)
         == RulesPart(t) + RewriteTask
  {
  }

  /** A hook prompt with examples ends with the examples numbered 1..n in order, then a blank line. */
  lemma HookListsExamples(t: Template, knowledge: seq<string>, userMessage: string, basePrompt: string)
    requires t.examples != []
    ensures BuildContextualPrompt(HookGeneration, [t], knowledge, userMessage, basePrompt)
         == RulesPart(t) + HookTask + ExamplesHeader + Concat(ExampleLines(t.examples, 1)) + "\n"
  {
    NumberExamplesLines(t.examples, 1);
    var n := NumberExamples(t.examples, 1);
    assert BuildContextualPrompt(HookGeneration, [t], knowledge, userMessage, basePrompt) == RulesPart(t) + TaskPart(HookGeneration, t);
    assert TaskPart(HookGeneration, t) == HookTask + (ExamplesHeader + n + "\n");
    assert RulesPart(t) + (HookTask + (ExamplesHeader + n + "\n")) == RulesPart(t) + HookTask + ExamplesHeader + n + "\n";
  }

  // ---------------------------------------------------------------------
  // cleaning a reply

  /** The literal openings of the meta-commentary patterns, lower-cased (they are matched case-insensitively). */
  const MetaLeads := ["here are ", "here's ", "sure", "i've ", "based on "]

  /** The lazy `.+?:` scan from `j`: the first `j` with `:\n` at `j` before any line terminator. -1 when a line terminator or the end comes first. */
  function ColonNewline(s: string, j: nat): (k: int)
    requires j >= 1
    ensures k == -1 || (j <= k && k + 1 < |s| && s[k] == ':' && s[k + 1] == '\n')
    ensures k != -1 ==> forall m :: j - 1 <= m < k ==> !IsLineTerminator(s[m])
    decreases |s| - j
  {
    if j >= |s| then -1
    else if IsLineTerminator(s[j - 1]) then -1
    else if s[j] == ':' && j + 1 < |s| && s[j + 1] == '\n' then j
    else ColonNewline(s, j + 1)
  }


  /** `s.replace(/^Lead.+?:\n+/i, '')` for a lower-case `lead`: what is left after the match, or `s` when there is none. */
  function StripLead(s: string, lead: string): (r: string)
    ensures EndsWith(s, r)
  {
    if |lead| <= |s| && Lower(s[..|lead|]) == lead then
      var k := ColonNewline(s, |lead| + 1);
      if k == -1 then s else s[SkipNewlines(s, k + 1)..]
    else s
  }

  /** The five meta-commentary removals, applied in turn. */
  function StripMeta(s: string, leads: seq<string>): (r: string)
    ensures EndsWith(s, r)
    decreases |leads|
  {
    if leads == [] then s
    else
      var t := StripLead(s, leads[0]);
      var r := StripMeta(t, leads[1..]);
      EndsWithTrans(s, t, r);
      r
  }

  /** A list marker: the digit `d`, a dot or parenthesis, then whitespace. */
  predicate IsMarkerAt(s: string, p: int, d: char) {
    0 <= p && p + 3 <= |s| && s[p] == d && (s[p + 1] == '.' || s[p + 1] == ')') && IsSpace(s[p + 2])
  }

  /** `/^[\s\S]*?(1[\.\)]\s)/`: the position of the first "1." or "1)" marker, or -1. */
  function FirstItem(s: string, from: nat): (p: int)
    ensures p == -1 || (from <= p && IsMarkerAt(s, p, '1'))
    ensures forall q :: from <= q && (p == -1 || q < p) ==> !IsMarkerAt(s, q, '1')
    decreases |s| - from
  {
    if from + 3 > |s| then -1
    else if IsMarkerAt(s, from, '1') then from
    else FirstItem(s, from + 1)
  }

  /** The source looks the matched marker up again with `indexOf`; that finds the same position. */
  lemma IndexOfFirstItem(s: string)
    requires FirstItem(s, 0) != -1
    ensures IndexOf(s, s[FirstItem(s, 0)..FirstItem(s, 0) + 3]) == FirstItem(s, 0)
  {
    var p := FirstItem(s, 0);
    var g := s[p..p + 3];
    var i := IndexOf(s, g);
    assert IsAt(s, g, p);
    MarkerCopy(s, g, i);
  }

  /** An occurrence of a marker's three characters is itself a marker. */
  lemma MarkerCopy(s: string, g: string, i: int)
    ensures |g| == 3 && IsMarkerAt(g, 0, '1') && IsAt(s, g, i) ==> IsMarkerAt(s, i, '1')
  {
    if |g| == 3 && IsAt(s, g, i) {
      assert s[i..i + 3] == g;
      assert s[i] == g[0] && s[i + 1] == g[1] && s[i + 2] == g[2];
    }
  }

  /** Drops the text before the first "1." marker, when there is one. */
  function FromFirstItem(s: string): (r: string)
    ensures FirstItem(s, 0) == -1 ==> r == s
    ensures FirstItem(s, 0) != -1 ==> r == s[FirstItem(s, 0)..] && IsMarkerAt(r, 0, '1')
  {
    var p := FirstItem(s, 0);
    if p == -1 then s
    else
      IndexOfFirstItem(s);
      var startIndex := IndexOf(s, s[p..p + 3]);
      s[startIndex..]
  }

  /** `lines.findIndex(line => /^5[\.\)]\s/.test(line))`. */
  function FiveLine(lines: seq<string>, from: nat): (k: int)
    ensures k == -1 || (from <= k < |lines| && IsMarkerAt(lines[k], 0, '5'))
    ensures forall q :: from <= q < |lines| && (k == -1 || q < k) ==> !IsMarkerAt(lines[q], 0, '5')
    decreases |lines| - from
  {
    if from >= |lines| then -1
    else if IsMarkerAt(lines[from], 0, '5') then from
    else FiveLine(lines, from + 1)
  }

  /** `lines.slice(0, n)`: at most `n` leading lines. */
  function Take(lines: seq<string>, n: nat): (r: seq<string>)
    ensures |r| == if n < |lines| then n else |lines|
    ensures r == lines[..|r|]
  {
    if n < |lines| then lines[..n] else lines
  }

  /** Keeps the lines up to the first "5." line and one more; unchanged when there is no such line. */
  function KeepThroughFive(s: string): (r: string)
    ensures StartsWith(s, r)
    ensures FiveLine(Split(s, '\n'), 0) == -1 ==> r == s
  {
    var lines := Split(s, '\n');
    var k := FiveLine(lines, 0);
    if k == -1 then s
    else
      JoinSplitPrefix(s, '\n', |Take(lines, k + 2)|);
      Join(Take(lines, k + 2), "\n")
  }

  /** The kept text's own lines are the lines through the first "5." line and at most one more,
      so the "5." line is still the first such line of the result. */
  lemma KeepsLineAfterFive(s: string)
    requires FiveLine(Split(s, '\n'), 0) != -1
    ensures var lines := Split(s, '\n'); var k := FiveLine(lines, 0);
      && Split(KeepThroughFive(s), '\n') == lines[..if k + 2 < |lines| then k + 2 else |lines|]
      && FiveLine(Split(KeepThroughFive(s), '\n'), 0) == k
  {
    var lines := Split(s, '\n');
    var k := FiveLine(lines, 0);
    var m := if k + 2 < |lines| then k + 2 else |lines|;
    SplitPiecesFree(s, '\n');
    assert forall j :: 0 <= j < m ==> lines[..m][j] == lines[j];
    SplitJoin(lines[..m], '\n');
    assert KeepThroughFive(s) == Join(lines[..m], "\n");
    FiveLinePrefix(lines, m);
  }

  /** Cutting lines after the first "5." line does not move it. */
  lemma FiveLinePrefix(lines: seq<string>, m: nat)
    requires FiveLine(lines, 0) != -1 && FiveLine(lines, 0) < m <= |lines|
    ensures FiveLine(lines[..m], 0) == FiveLine(lines, 0)
  {
    var k := FiveLine(lines, 0);
    var p := lines[..m];
    var k2 := FiveLine(p, 0);
    assert forall q :: 0 <= q < m ==> p[q] == lines[q];
  }

  /** The trimmed reply with the meta-commentary openings removed. */
  function MetaStripped(response: string): (r: string)
    ensures EndsWith(Trim(response), r)
  {
    StripMeta(Trim(response), MetaLeads)
  }

  /** `cleanResponse`. */
  function CleanResponse(response: string, intent: IntentType): (r: string)
    ensures IsTrimmed(r)
  {
    var cleaned := MetaStripped(response);
    if intent == HookGeneration then HookCleaned(cleaned) else Trim(cleaned)
  }

  /** The hook branch: from the first "1." marker through the line after "5.", trimmed. */
  function HookCleaned(cleaned: string): (r: string)
    ensures IsTrimmed(r)
  {
    Trim(KeepThroughFive(FromFirstItem(cleaned)))
  }

  /** Outside hook generation only the meta-commentary openings go: the result is a trimmed tail of the trimmed reply. */
  lemma CleanOtherIntents(response: string, intent: IntentType)
    requires intent != HookGeneration
    ensures EndsWith(Trim(response), CleanResponse(response, intent))
  {
    TrimOfTail(Trim(response), MetaStripped(response));
  }

  /** A reply without meta-commentary opening, outside hook generation, is only trimmed. */
  lemma CleanWithoutMeta(response: string, intent: IntentType)
    requires intent != HookGeneration
    requires forall i :: 0 <= i < |MetaLeads| ==> StripLead(Trim(response), MetaLeads[i]) == Trim(response)
    ensures CleanResponse(response, intent) == Trim(response)
  {
    StripMetaUnchanged(Trim(response), MetaLeads);
    assert MetaStripped(response) == Trim(response);
    TrimIdempotent(response);
  }

  lemma {:induction false} StripMetaUnchanged(s: string, leads: seq<string>)
    requires forall i :: 0 <= i < |leads| ==> StripLead(s, leads[i]) == s
    ensures StripMeta(s, leads) == s
    decreases |leads|
  {
    if leads != [] {
      assert forall i :: 0 <= i < |leads[1..]| ==> leads[1..][i] == leads[i + 1];
      StripMetaUnchanged(s, leads[1..]);
    }
  }

  /** For hooks, a meta-stripped reply with a "1." marker is cut to begin at the first marker; the result starts with that "1" and is drawn from the lines through "5." and one after. */
  lemma CleanHook(cleaned: string)
    requires FirstItem(cleaned, 0) != -1
    ensures HookCleaned(cleaned) == Trim(KeepThroughFive(cleaned[FirstItem(cleaned, 0)..]))
    ensures HookCleaned(cleaned) != [] && HookCleaned(cleaned)[0] == '1'
  {
    HookCutHead(FromFirstItem(cleaned));
  }

  /** A text opening with a "1." marker keeps that "1" first through the cut and the final trim. */
  lemma HookCutHead(s: string)
    requires IsMarkerAt(s, 0, '1')
    ensures Trim(KeepThroughFive(s)) != [] && Trim(KeepThroughFive(s))[0] == '1'
  {
    KeepThroughFiveHead(s);
    TrimHead(KeepThroughFive(s));
  }

  /** Cutting after the "5." line keeps the first character. */
  lemma KeepThroughFiveHead(s: string)
    requires s != [] && s[0] != '\n'
    ensures KeepThroughFive(s) != [] && KeepThroughFive(s)[0] == s[0]
  {
    var lines := Split(s, '\n');
    var k := FiveLine(lines, 0);
    if k != -1 {
      assert !IsAt(s, ['\n'], 0) by {
        assert s[0..1][0] == s[0];
      }
      assert lines[0] != [] && lines[0][0] == s[0];
      var taken := Take(lines, k + 2);
      assert |taken| >= 1 && taken[0] == lines[0];
      JoinHead(taken, "\n");
    }
  }

  lemma JoinHead(parts: seq<string>, sep: string)
    requires parts != [] && parts[0] != []
    ensures Join(parts, sep) != [] && Join(parts, sep)[0] == parts[0][0]
  {
  }
}
