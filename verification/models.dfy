/**
  The model catalogue: three providers with their models, lookup by id, the
  preference rules that pick a model for a kind of task, and the classifier
  that guesses the kind of task from a message. Pricing is left out.
 */
module Models {
  import opened Wrappers
  import opened Text
  import opened Seqs

  datatype ModelInfo = ModelInfo(id: string, name: string, description: string, contextLength: nat,
                                 capabilities: seq<string>, bestFor: seq<string>)

  datatype ModelProvider = ModelProvider(id: string, name: string, models: seq<ModelInfo>)

  const Gpt35Turbo := "openai/gpt-3.5-turbo"
  const Gpt4 := "openai/gpt-4"
  const Gpt4Turbo := "openai/gpt-4-turbo"
  const Gpt4o := "openai/gpt-4o"
  const ClaudeHaiku := "anthropic/claude-3.5-haiku-20241022"
  const ClaudeSonnet := "anthropic/claude-3-5-sonnet-20241022"
  const ClaudeOpus := "anthropic/claude-3-opus-20240229"
  const GeminiPro := "google/gemini-pro"
  const GeminiFlash := "google/gemini-flash-1.5"
  const GeminiPro15 := "google/gemini-pro-1.5"

  const OpenAI := ModelProvider("openai", "OpenAI", [
    ModelInfo(Gpt35Turbo, "GPT-3.5 Turbo", "Fast and efficient for basic conversational tasks", 16385,
      ["chat", "text-generation"], ["quick responses", "basic questions", "cost-effective solutions"]),
    ModelInfo(Gpt4, "GPT-4", "Advanced reasoning and complex problem solving", 8192,
      ["chat", "reasoning", "analysis"], ["complex analysis", "detailed explanations", "creative tasks"]),
    ModelInfo(Gpt4Turbo, "GPT-4 Turbo", "Enhanced version with improved reasoning capabilities", 128000,
      ["chat", "advanced-reasoning", "analysis"], ["complex challenges", "multi-step reasoning", "technical analysis"]),
    ModelInfo(Gpt4o, "GPT-4o", "Optimized for real-time conversations and interactions", 128000,
      ["chat", "real-time", "multimodal"], ["real-time chat", "conversational AI", "interactive experiences"])
  ])

  const Anthropic := ModelProvider("anthropic", "Anthropic (Claude)", [
    ModelInfo(ClaudeHaiku, "Claude 3.5 Haiku", "Fast and efficient Claude model for quick tasks", 200000,
      ["chat", "analysis", "writing"], ["quick analysis", "writing assistance", "cost-effective solutions"]),
    ModelInfo(ClaudeSonnet, "Claude 4 Sonnet", "Balanced performance for most conversational needs", 200000,
      ["chat", "reasoning", "writing", "analysis"], ["balanced conversations", "thoughtful responses", "content creation"]),
    ModelInfo(ClaudeOpus, "Claude 4 Opus", "Most capable Claude model for complex, nuanced tasks", 200000,
      ["advanced-reasoning", "nuanced-analysis", "creative-writing"], ["complex analysis", "nuanced conversations", "creative projects"])
  ])

  const Google := ModelProvider("google", "Google Gemini", [
    ModelInfo(GeminiPro, "Gemini Pro", "Google's flagship model for general tasks", 32768,
      ["chat", "reasoning", "multimodal"], ["general conversations", "web reasoning", "multimodal tasks"]),
    ModelInfo(GeminiFlash, "Gemini 2.5 Flash", "Fast and efficient for quick responses", 1000000,
      ["chat", "fast-processing", "web-reasoning"], ["quick responses", "web search", "real-time interactions"]),
    ModelInfo(GeminiPro15, "Gemini 2.5 Pro", "Advanced capabilities with enhanced reasoning", 2000000,
      ["advanced-reasoning", "multimodal", "web-reasoning"], ["complex reasoning", "multimodal analysis", "research tasks"])
  ])

  /** `MODEL_PROVIDERS`. */
  const Providers := [OpenAI, Anthropic, Google]

  /** `flatMap(provider => provider.models)`. */
  function Flatten(ps: seq<ModelProvider>): (r: seq<ModelInfo>)
    ensures forall i, j :: 0 <= i < |ps| && 0 <= j < |ps[i].models| ==> ps[i].models[j] in r
    ensures forall m :: m in r ==> exists i :: 0 <= i < |ps| && m in ps[i].models
    decreases |ps|
  {
    if ps == [] then []
    else
      var rest := Flatten(ps[1..]);
      assert forall i :: 1 <= i < |ps| ==> ps[i] == ps[1..][i - 1];
      ps[0].models + rest
  }

  /** `getAllModels`. */
  function AllModels(): seq<ModelInfo> {
    Flatten(Providers)
  }

  function Ids(ms: seq<ModelInfo>): (r: seq<string>)
    ensures |r| == |ms| && forall i :: 0 <= i < |ms| ==> r[i] == ms[i].id
  {
    seq(|ms|, i requires 0 <= i < |ms| => ms[i].id)
  }

  /** The ids of the catalogue, in declaration order. */
  const CatalogueIds := [Gpt35Turbo, Gpt4, Gpt4Turbo, Gpt4o, ClaudeHaiku, ClaudeSonnet, ClaudeOpus,
                         GeminiPro, GeminiFlash, GeminiPro15]

  /** The catalogue lists the OpenAI, Anthropic and Google models in declaration order. */
  lemma AllModelsCatalogue()
    ensures AllModels() == OpenAI.models + Anthropic.models + Google.models
  {
    var ps := Providers;
    assert ps[1..] == [Anthropic, Google];
    assert [Anthropic, Google][1..] == [Google];
    assert [Google][1..] == [];
    assert Flatten([Google]) == Google.models;
    assert Flatten([Anthropic, Google]) == Anthropic.models + Google.models;
  }

  lemma IdsAppend(a: seq<ModelInfo>, b: seq<ModelInfo>)
    ensures Ids(a + b) == Ids(a) + Ids(b)
  {
  }

  /** Ten models, whose ids are the catalogue ids in order. */
  lemma AllModelsIds()
    ensures |AllModels()| == 10 && Ids(AllModels()) == CatalogueIds
  {
    AllModelsCatalogue();
    IdsAppend(OpenAI.models, Anthropic.models);
    IdsAppend(OpenAI.models + Anthropic.models, Google.models);
    assert Ids(OpenAI.models) == [Gpt35Turbo, Gpt4, Gpt4Turbo, Gpt4o];
    assert Ids(Anthropic.models) == [ClaudeHaiku, ClaudeSonnet, ClaudeOpus];
    assert Ids(Google.models) == [GeminiPro, GeminiFlash, GeminiPro15];
  }

  /** No two catalogue models share an id. */
  lemma CatalogueIdsDistinct()
    ensures NoDup(CatalogueIds)
  {
    var c := CatalogueIds;
    forall i, j | 0 <= i < j < |c| ensures c[i] != c[j] {
      assert |c[i]| != |c[j]|;
    }
  }

  /** Some model in `ms` has the id `id`. */
  predicate HasId(ms: seq<ModelInfo>, id: string) {
    exists i :: 0 <= i < |ms| && ms[i].id == id
  }

  lemma HasIdIff(ms: seq<ModelInfo>, id: string)
    ensures HasId(ms, id) <==> id in Ids(ms)
  {
    if id in Ids(ms) {
      var i :| 0 <= i < |ms| && Ids(ms)[i] == id;
    }
  }

  /** `ms.find(m => m.id === id)`: the first model with that id. */
  function FindById(ms: seq<ModelInfo>, id: string): (r: Option<ModelInfo>)
    ensures r.Some? <==> HasId(ms, id)
    ensures r.Some? ==> r.value.id == id && exists i :: 0 <= i < |ms| && ms[i] == r.value && forall j :: 0 <= j < i ==> ms[j].id != id
    decreases |ms|
  {
    if ms == [] then None
    else if ms[0].id == id then Some(ms[0])
    else
      var r := FindById(ms[1..], id);
      assert HasId(ms, id) ==> HasId(ms[1..], id) by {
        if HasId(ms, id) {
          var i :| 0 <= i < |ms| && ms[i].id == id;
          assert ms[1..][i - 1] == ms[i];
        }
      }
      assert r.Some? ==> exists i :: 0 <= i < |ms| && ms[i] == r.value && forall j :: 0 <= j < i ==> ms[j].id != id by {
        if r.Some? {
          var i :| 0 <= i < |ms[1..]| && ms[1..][i] == r.value && forall j :: 0 <= j < i ==> ms[1..][j].id != id;
          assert ms[i + 1] == r.value;
          assert forall j :: 1 <= j < i + 1 ==> ms[j] == ms[1..][j - 1];
        }
      }
      r
  }

  /** With distinct ids, finding a model's id gives back that model. */
  lemma FindByIdDistinct(ms: seq<ModelInfo>, m: ModelInfo)
    requires NoDup(Ids(ms)) && m in ms
    ensures FindById(ms, m.id) == Some(m)
  {
    var k :| 0 <= k < |ms| && ms[k] == m;
    assert HasId(ms, m.id);
    var r := FindById(ms, m.id);
    assert r.Some? && r.value.id == m.id;
    var i :| 0 <= i < |ms| && ms[i] == r.value;
    assert Ids(ms)[i] == Ids(ms)[k];
    assert i == k;
  }

  /** `getModelById`. */
  function GetModelById(id: string): Option<ModelInfo> {
    FindById(AllModels(), id)
  }

  /** Looking up the id of a catalogue model gives back that model; an id outside the catalogue gives none. */
  lemma GetModelByIdCatalogue(id: string)
    ensures GetModelById(id).Some? <==> id in CatalogueIds
    ensures forall m :: m in AllModels() && m.id == id ==> GetModelById(id) == Some(m)
  {
    AllModelsIds();
    CatalogueIdsDistinct();
    HasIdIff(AllModels(), id);
    forall m | m in AllModels() && m.id == id ensures GetModelById(id) == Some(m) {
      FindByIdDistinct(AllModels(), m);
    }
  }

  // ---------------------------------------------------------------------
  // selecting a model

  /** The models of `ms` whose id is listed in `ids`, in catalogue order. */
  function Listed(ms: seq<ModelInfo>, ids: seq<string>): (r: seq<ModelInfo>)
    ensures forall m :: m in r <==> m in ms && m.id in ids
    ensures IsSubseq(r, ms)
    decreases |ms|
  {
    if ms == [] then []
    else
      var init := ms[..|ms| - 1];
      var last := ms[|ms| - 1];
      assert ms == init + [last];
      var p := Listed(init, ids);
      if last.id in ids then
        SubseqSnoc(p, init, last);
        p + [last]
      else
        SubseqExtend(p, init, last);
        p
  }

  /** The candidate set: every model when no ids are given, otherwise the listed ones. */
  function Candidates(available: seq<string>): (r: seq<ModelInfo>)
    ensures available == [] ==> r == AllModels()
    ensures available != [] ==> (forall m :: m in r <==> m in AllModels() && m.id in available) && IsSubseq(r, AllModels())
  {
    if |available| > 0 then Listed(AllModels(), available) else AllModels()
  }

  datatype TaskType = Quick | Complex | Creative | Analytical | Conversational

  /** The ids each kind of task tries, in order of preference. */
  function Preferences(t: TaskType): (p: seq<string>)
    ensures |p| >= 2 && forall i :: 0 <= i < |p| ==> p[i] in CatalogueIds && p[i] != ""
  {
    match t
    case Quick => [Gpt35Turbo, ClaudeHaiku]
    case Complex => [Gpt4Turbo, ClaudeOpus, Gpt4]
    case Creative => [ClaudeOpus, ClaudeSonnet, Gpt4]
    case Analytical => [ClaudeSonnet, GeminiPro15, Gpt4]
    case Conversational => [Gpt4o, ClaudeSonnet, Gpt4]
  }

  /** The id returned when there is no candidate at all. */
  function Fallback(t: TaskType): (id: string)
    ensures id in CatalogueIds
  {
    match t
    case Quick => Gpt35Turbo
    case Complex => Gpt4
    case Creative => ClaudeSonnet
    case Analytical => ClaudeSonnet
    case Conversational => Gpt4o
  }

  /** `find(...)?.id || find(...)?.id || ... || last`: tries each preferred id in turn. */
  function FirstFound(c: seq<ModelInfo>, prefs: seq<string>, last: string): string
    decreases |prefs|
  {
    if prefs == [] then last
    else
      var found := FindById(c, prefs[0]);
      if found.Some? && found.value.id != "" then found.value.id else FirstFound(c, prefs[1..], last)
  }

  /** With non-empty preferred ids, `FirstFound` gives the first one present in `c`, or `last` when none is. */
  lemma {:induction false} FirstFoundSpec(c: seq<ModelInfo>, prefs: seq<string>, last: string)
    requires forall i :: 0 <= i < |prefs| ==> prefs[i] != ""
    ensures var r := FirstFound(c, prefs, last);
      (exists i :: 0 <= i < |prefs| && HasId(c, prefs[i])) ==>
        exists i :: 0 <= i < |prefs| && r == prefs[i] && HasId(c, r) && forall j :: 0 <= j < i ==> !HasId(c, prefs[j])
    ensures (forall i :: 0 <= i < |prefs| ==> !HasId(c, prefs[i])) ==> FirstFound(c, prefs, last) == last
    decreases |prefs|
  {
    if prefs != [] && !HasId(c, prefs[0]) {
      var tail := prefs[1..];
      FirstFoundSpec(c, tail, last);
      assert forall i :: 1 <= i < |prefs| ==> prefs[i] == tail[i - 1];
      if exists i :: 0 <= i < |prefs| && HasId(c, prefs[i]) {
        var i :| 0 <= i < |prefs| && HasId(c, prefs[i]);
        assert HasId(c, tail[i - 1]);
        var k :| 0 <= k < |tail| && FirstFound(c, tail, last) == tail[k] && HasId(c, tail[k])
          && forall j :: 0 <= j < k ==> !HasId(c, tail[j]);
        assert FirstFound(c, prefs, last) == prefs[k + 1];
      }
    } else if prefs != [] {
      assert FirstFound(c, prefs, last) == prefs[0];
    }
  }

  /** `selectOptimalModel`. */
  function SelectOptimalModel(t: TaskType, available: seq<string>): string {
    var c := Candidates(available);
    FirstFound(c, Preferences(t), if |c| > 0 && c[0].id != "" then c[0].id else Fallback(t))
  }

  /** The catalogue ids are all non-empty, so `?.id ||` never falls through on a found model. */
  lemma CatalogueIdsNonEmpty(m: ModelInfo)
    requires m in AllModels()
    ensures m.id != ""
  {
    AllModelsCatalogue();
  }

  /** The first preferred id present among the candidates wins; with none present, the first candidate, else the fallback. */
  lemma SelectPreferenceOrder(t: TaskType, available: seq<string>)
    ensures var c := Candidates(available); var r := SelectOptimalModel(t, available);
      (exists i :: 0 <= i < |Preferences(t)| && HasId(c, Preferences(t)[i])) ==>
        exists i :: 0 <= i < |Preferences(t)| && r == Preferences(t)[i] && HasId(c, r)
          && forall j :: 0 <= j < i ==> !HasId(c, Preferences(t)[j])
    ensures var c := Candidates(available);
      (forall i :: 0 <= i < |Preferences(t)| ==> !HasId(c, Preferences(t)[i])) ==>
        SelectOptimalModel(t, available) == if c != [] then c[0].id else Fallback(t)
  {
    var c := Candidates(available);
    var last := if |c| > 0 && c[0].id != "" then c[0].id else Fallback(t);
    FirstFoundSpec(c, Preferences(t), last);
    if c != [] {
      CatalogueIdsNonEmpty(c[0]);
    }
  }

  /** The pick is a candidate's id whenever there are candidates, and the fallback only when there are none. */
  lemma SelectIsCandidate(t: TaskType, available: seq<string>)
    ensures var c := Candidates(available); c != [] ==> HasId(c, SelectOptimalModel(t, available))
    ensures Candidates(available) == [] ==> SelectOptimalModel(t, available) == Fallback(t)
  {
    var c := Candidates(available);
    SelectPreferenceOrder(t, available);
    if c != [] && forall i :: 0 <= i < |Preferences(t)| ==> !HasId(c, Preferences(t)[i]) {
      assert c[0].id == SelectOptimalModel(t, available);
    }
  }

  /** With no restriction every preferred model is available, so the first preference wins. */
  lemma SelectUnrestricted(t: TaskType)
    ensures SelectOptimalModel(t, []) == Preferences(t)[0]
  {
    var c := Candidates([]);
    var p := Preferences(t);
    AllModelsIds();
    HasIdIff(c, p[0]);
  }

  // ---------------------------------------------------------------------
  // classifying a message

  const QuickPrefixes := ["hi", "hello", "hey", "what", "who", "when", "where", "how much", "price", "cost"]
  const ComplexWords := ["analyze", "compare", "evaluate", "explain in detail", "step by step", "comprehensive", "thorough"]
  const CreativeWords := ["write", "create", "design", "imagine", "story", "poem", "creative", "brainstorm", "generate ideas"]
  const AnalyticalWords := ["data", "statistics", "research", "study", "report", "analysis", "insights", "trends"]

  /** A regular-expression `\b` at position `p`: a word character on exactly one side. */
  predicate Boundary(s: string, p: nat)
    requires p <= |s|
  {
    (p > 0 && IsWordChar(s[p - 1])) != (p < |s| && IsWordChar(s[p]))
  }

  /** `w` occurs at `i` with a word boundary on both sides. */
  predicate WordAt(s: string, w: string, i: int) {
    IsAt(s, w, i) && Boundary(s, i) && Boundary(s, i + |w|)
  }

  /** `/\bw\b/.test(s)`. */
  predicate HasWord(s: string, w: string) {
    exists i :: 0 <= i <= |s| && WordAt(s, w, i)
  }

  /** `/^(p1|p2|...)/.test(s)`. */
  predicate HasPrefixIn(s: string, ps: seq<string>) {
    exists i :: 0 <= i < |ps| && StartsWith(s, ps[i])
  }

  /** `/\b(w1|w2|...)\b/.test(s)`. */
  predicate HasWordIn(s: string, ws: seq<string>) {
    exists i :: 0 <= i < |ws| && HasWord(s, ws[i])
  }

  /** Scans the positions from `from` on for a bounded occurrence of `w`. */
  function WordFrom(s: string, w: string, from: nat): (b: bool)
    ensures b <==> exists i :: from <= i && WordAt(s, w, i)
    decreases |s| + 1 - from
  {
    if from > |s| then false
    else if IsAt(s, w, from) && Boundary(s, from) && Boundary(s, from + |w|) then
      assert WordAt(s, w, from);
      true
    else
      var b := WordFrom(s, w, from + 1);
      assert !WordAt(s, w, from);
      assert (exists i :: from <= i && WordAt(s, w, i)) ==> exists i :: from + 1 <= i && WordAt(s, w, i) by {
        if exists i :: from <= i && WordAt(s, w, i) {
          var i :| from <= i && WordAt(s, w, i);
          assert i != from;
        }
      }
      b
  }

  /** Tries each alternative in turn. */
  function AnyWord(s: string, ws: seq<string>): (b: bool)
    ensures b <==> HasWordIn(s, ws)
    decreases |ws|
  {
    if ws == [] then false
    else if WordFrom(s, ws[0], 0) then true
    else
      var b := AnyWord(s, ws[1..]);
      assert forall i :: 1 <= i < |ws| ==> ws[i] == ws[1..][i - 1];
      assert HasWordIn(s, ws) ==> HasWordIn(s, ws[1..]) by {
        if HasWordIn(s, ws) {
          var i :| 0 <= i < |ws| && HasWord(s, ws[i]);
          assert i > 0 && ws[1..][i - 1] == ws[i];
        }
      }
      b
  }

  /** Tries each prefix in turn. */
  function AnyPrefix(s: string, ps: seq<string>): (b: bool)
    ensures b <==> HasPrefixIn(s, ps)
    decreases |ps|
  {
    if ps == [] then false
    else if StartsWith(s, ps[0]) then true
    else
      var b := AnyPrefix(s, ps[1..]);
      assert forall i :: 1 <= i < |ps| ==> ps[i] == ps[1..][i - 1];
      b
  }

  /** `analyzeTaskType`: quick, complex, creative, analytical, then conversational, first that applies. */
  function AnalyzeTaskType(message: string): (r: TaskType)
    ensures var s := Lower(message);
      r == Quick <==> |s| < 50 || HasPrefixIn(s, QuickPrefixes)
    ensures var s := Lower(message);
      r == Complex <==> !(|s| < 50 || HasPrefixIn(s, QuickPrefixes)) && (HasWordIn(s, ComplexWords) || |s| > 200)
    ensures var s := Lower(message);
      r == Creative <==> (!(|s| < 50 || HasPrefixIn(s, QuickPrefixes)) && !(HasWordIn(s, ComplexWords) || |s| > 200)
        && HasWordIn(s, CreativeWords))
    ensures var s := Lower(message);
      r == Analytical <==> (!(|s| < 50 || HasPrefixIn(s, QuickPrefixes)) && !(HasWordIn(s, ComplexWords) || |s| > 200)
        && !HasWordIn(s, CreativeWords) && HasWordIn(s, AnalyticalWords))
  {
    var s := Lower(message);
    if |s| < 50 || AnyPrefix(s, QuickPrefixes) then Quick
    else if AnyWord(s, ComplexWords) || |s| > 200 then Complex
    else if AnyWord(s, CreativeWords) then Creative
    else if AnyWord(s, AnalyticalWords) then Analytical
    else Conversational
  }

  /** The prefix test has no trailing boundary: a long message opening with "hiking" is quick. */
  lemma QuickPrefixWithoutBoundary(rest: string)
    requires |rest| >= 44
    ensures AnalyzeTaskType("Hiking" + rest) == Quick
  {
    var s := Lower("Hiking" + rest);
    assert s[..2] == "hi";
    assert StartsWith(s, QuickPrefixes[0]);
  }

  /** A keyword only counts as a whole word: "comparer" is not "compare". */
  lemma WordNeedsBoundary(s: string, i: nat)
    requires i + 8 <= |s| && s[i..i + 8] == "comparer"
    ensures !WordAt(s, "compare", i)
  {
    assert s[i + 7] == 'r';
  }
}
