/**
  The system prompt of a chat turn (`buildOptimizedPrompt`): the base prompt,
  then the selected knowledge grouped by file, then an instruction for the
  detected intent. The grouping is the `Map` the source fills chunk by chunk;
  `GroupByFileSpec` relates it to the selection's distinct files.
 */
module OptimizedPrompt {
  import opened Wrappers
  import opened Text
  import opened Seqs
  import opened Intent
  import opened Retriever

  /** One entry of `chunksByFile`: a file name and the contents of its chunks. */
  datatype Group = Group(filename: string, contents: seq<string>)

  function Keys(gs: seq<Group>): (r: seq<string>)
    ensures |r| == |gs| && forall k :: 0 <= k < |gs| ==> r[k] == gs[k].filename
  {
    seq(|gs|, k requires 0 <= k < |gs| => gs[k].filename)
  }

  /** The contents of the chunks from file `f`, in selection order. */
  function ContentsOf(cs: seq<ContentChunk>, f: string): seq<string>
    decreases |cs|
  {
    if cs == [] then []
    else ContentsOf(cs[..|cs| - 1], f) + (if cs[|cs| - 1].filename == f then [cs[|cs| - 1].content] else [])
  }

  /** The position of the group for `f`, if there is one (`chunksByFile.has`). */
  function GroupIndex(gs: seq<Group>, f: string): (r: Option<nat>)
    ensures r.Some? ==> r.value < |gs| && gs[r.value].filename == f
    ensures r.None? ==> f !in Keys(gs)
    decreases |gs|
  {
    if gs == [] then None
    else if gs[0].filename == f then Some(0)
    else
      var r := GroupIndex(gs[1..], f);
      assert Keys(gs) == [gs[0].filename] + Keys(gs[1..]);
      if r.Some? then Some(r.value + 1) else None
  }

  /** One turn of the `forEach`: push onto the file's group, or open a new group at the end of the map. */
  function AddChunk(gs: seq<Group>, c: ContentChunk): seq<Group> {
    var k := GroupIndex(gs, c.filename);
    if k.Some? then gs[k.value := Group(c.filename, gs[k.value].contents + [c.content])]
    else gs + [Group(c.filename, [c.content])]
  }

  /** `chunksByFile` once every chunk is added; a `Map` iterates in insertion order. */
  function GroupByFile(cs: seq<ContentChunk>): seq<Group>
    decreases |cs|
  {
    if cs == [] then [] else AddChunk(GroupByFile(cs[..|cs| - 1]), cs[|cs| - 1])
  }

  lemma {:induction false} ContentsOfAbsent(cs: seq<ContentChunk>, f: string)
    requires forall i :: 0 <= i < |cs| ==> cs[i].filename != f
    ensures ContentsOf(cs, f) == []
    decreases |cs|
  {
    if cs != [] {
      ContentsOfAbsent(cs[..|cs| - 1], f);
    }
  }

  /** The groups name the distinct files of `cs` in order of first selection, each holding its chunks' contents in order. */
  predicate GroupsMatch(gs: seq<Group>, cs: seq<ContentChunk>) {
    Keys(gs) == FilesUsed(cs) && forall k :: 0 <= k < |gs| ==> gs[k].contents == ContentsOf(cs, gs[k].filename)
  }

  lemma ContentsOfSnoc(cs: seq<ContentChunk>, c: ContentChunk, f: string)
    ensures ContentsOf(cs + [c], f) == ContentsOf(cs, f) + (if c.filename == f then [c.content] else [])
  {
    assert (cs + [c])[..|cs|] == cs;
  }

  lemma FilesUsedSnoc(cs: seq<ContentChunk>, c: ContentChunk)
    ensures FilesUsed(cs + [c]) == if c.filename in FilesUsed(cs) then FilesUsed(cs) else FilesUsed(cs) + [c.filename]
  {
    assert Names(cs + [c])[..|cs|] == Names(cs);
  }

  /** A chunk from a file already grouped joins that file's group. */
  lemma AddChunkHit(gs: seq<Group>, cs: seq<ContentChunk>, c: ContentChunk)
    requires GroupsMatch(gs, cs) && GroupIndex(gs, c.filename).Some?
    ensures GroupsMatch(AddChunk(gs, c), cs + [c])
  {
    var k := GroupIndex(gs, c.filename).value;
    var r := AddChunk(gs, c);
    FilesUsedSnoc(cs, c);
    assert Keys(gs)[k] == c.filename;
    assert Keys(r) == Keys(gs);
    forall k' | 0 <= k' < |r| ensures r[k'].contents == ContentsOf(cs + [c], r[k'].filename) {
      ContentsOfSnoc(cs, c, r[k'].filename);
      if k' != k {
        assert Keys(gs)[k'] != Keys(gs)[k];
      }
    }
  }

  /** A chunk from a new file opens a group at the end. */
  lemma AddChunkMiss(gs: seq<Group>, cs: seq<ContentChunk>, c: ContentChunk)
    requires GroupsMatch(gs, cs) && GroupIndex(gs, c.filename).None?
    ensures GroupsMatch(AddChunk(gs, c), cs + [c])
  {
    var r := gs + [Group(c.filename, [c.content])];
    assert AddChunk(gs, c) == r;
    assert c.filename !in FilesUsed(cs);
    FilesUsedSnoc(cs, c);
    assert forall i :: 0 <= i < |cs| ==> cs[i].filename != c.filename;
    ContentsOfAbsent(cs, c.filename);
    assert Keys(r) == Keys(gs) + [c.filename];
    forall k' | 0 <= k' < |gs| ensures r[k'].contents == ContentsOf(cs + [c], r[k'].filename) {
      ContentsOfSnoc(cs, c, gs[k'].filename);
      assert r[k'] == gs[k'] && Keys(gs)[k'] != c.filename;
    }
    ContentsOfSnoc(cs, c, c.filename);
  }

  /** The map the loop fills is the reference grouping: distinct files in order of first selection, contents in order. */
  lemma {:induction false} GroupByFileSpec(cs: seq<ContentChunk>)
    ensures GroupsMatch(GroupByFile(cs), cs)
    decreases |cs|
  {
    if cs != [] {
      var init := cs[..|cs| - 1];
      var c := cs[|cs| - 1];
      GroupByFileSpec(init);
      assert cs == init + [c];
      if GroupIndex(GroupByFile(init), c.filename).Some? {
        AddChunkHit(GroupByFile(init), init, c);
      } else {
        AddChunkMiss(GroupByFile(init), init, c);
      }
    }
  }

  /** Every chunk's content is among the contents of its file. */
  lemma {:induction false} ContentsOfHas(cs: seq<ContentChunk>, i: nat)
    requires i < |cs|
    ensures cs[i].content in ContentsOf(cs, cs[i].filename)
    decreases |cs|
  {
    if i < |cs| - 1 {
      var init := cs[..|cs| - 1];
      ContentsOfHas(init, i);
      assert init[i] == cs[i];
    }
  }

  // ---------------------------------------------------------------------
  // the prompt text

  /** Each content followed by a blank line. */
  function Entries(contents: seq<string>): string
    decreases |contents|
  {
    if contents == [] then [] else contents[0] + "\n\n" + Entries(contents[1..])
  }

  /** A file's header line followed by its entries. */
  function Section(g: Group): string {
    "\n--- " + g.filename + " ---\n" + Entries(g.contents)
  }

  function Sections(gs: seq<Group>): string
    decreases |gs|
  {
    if gs == [] then [] else Section(gs[0]) + Sections(gs[1..])
  }

  const DefaultPrompt := "You are a helpful AI assistant."
  const KnowledgeHeader := "\n\n=== KNOWLEDGE BASE ===\n"
  const KnowledgeFooter := "=== END KNOWLEDGE BASE ===\n\n"

  /** The library tells the model how many documents the knowledge comes from; the revised copy does not. */
  function Preamble(v: Variant, fileCount: nat): string {
    match v
    case Library => "You have access to relevant information from " + NatToString(fileCount) + " documents. Use this information to provide accurate, detailed responses.\n\n"
    case ChatRoute => ""
  }

  /** The closing instruction for each intent. */
  function Instruction(v: Variant, intent: IntentType): string {
    match (v, intent)
    case (Library, HookGeneration) => "Task: Generate 5 viral hooks based on the knowledge base content.\n"
    case (Library, PostRewrite) => "Task: Rewrite the provided post using insights from the knowledge base.\n"
    case (Library, NormalConversation) => "Use the knowledge base to provide detailed, accurate answers. Reference specific information when relevant.\n"
    case (ChatRoute, HookGeneration) => "Generate 5 viral hooks.\n"
    case (ChatRoute, PostRewrite) => "Rewrite using the knowledge base.\n"
    case (ChatRoute, NormalConversation) => "Provide detailed, accurate answers using the knowledge base.\n"
  }

  /** The knowledge block: header, preamble, one section per file, footer. */
  function Knowledge(v: Variant, fileCount: nat, sections: string): string {
    KnowledgeHeader + Preamble(v, fileCount) + sections + KnowledgeFooter
  }

  /** `basePrompt || 'You are a helpful AI assistant.'`: an empty base prompt is falsy. */
  function Base(basePrompt: string): (r: string)
    ensures r != []
    ensures basePrompt != [] ==> r == basePrompt
  {
    if basePrompt == [] then DefaultPrompt else basePrompt
  }

  /** A text framed by a head and a tail starts with the head and ends with the tail. */
  lemma Framed(a: string, m: string, b: string)
    ensures StartsWith(a + m + b, a) && EndsWith(a + m + b, b)
  {
    assert (a + m + b)[..|a|] == a;
    assert (a + m + b)[|a + m + b| - |b|..] == b;
  }

  /** An occurrence inside `s` is an occurrence inside `a + s`, shifted by `|a|`. */
  lemma IsAtPrepend(a: string, s: string, t: string, i: int)
    requires IsAt(s, t, i)
    ensures IsAt(a + s, t, |a| + i)
  {
    assert (a + s)[|a| + i..|a| + i + |t|] == s[i..i + |t|];
  }

  /** An occurrence inside `s` is an occurrence inside `s + b` at the same place. */
  lemma IsAtAppend(s: string, b: string, t: string, i: int)
    requires IsAt(s, t, i)
    ensures IsAt(s + b, t, i)
  {
    assert (s + b)[i..i + |t|] == s[i..i + |t|];
  }

  lemma IsAtStart(s: string, b: string)
    ensures IsAt(s + b, s, 0)
  {
    assert (s + b)[..|s|] == s;
  }

  /** The prompt text from its parts: the base, the knowledge block when there is knowledge, and the instruction. */
  function Prompt(v: Variant, base: string, fileCount: nat, sections: string, knowledge: bool, intent: IntentType): (r: string)
    ensures StartsWith(r, base) && EndsWith(r, Instruction(v, intent))
    ensures !knowledge ==> r == base + Instruction(v, intent)
    ensures knowledge ==> IsAt(r, KnowledgeHeader, |base|)
  {
    var middle := if knowledge then Knowledge(v, fileCount, sections) else "";
    Framed(base, middle, Instruction(v, intent));
    if knowledge then
      var hp := KnowledgeHeader + Preamble(v, fileCount);
      IsAtStart(KnowledgeHeader, Preamble(v, fileCount));
      IsAtAppend(hp, sections, KnowledgeHeader, 0);
      IsAtAppend(hp + sections, KnowledgeFooter, KnowledgeHeader, 0);
      IsAtPrepend(base, middle, KnowledgeHeader, 0);
      IsAtAppend(base + middle, Instruction(v, intent), KnowledgeHeader, |base|);
      base + middle + Instruction(v, intent)
    else
      assert middle == [];
      base + middle + Instruction(v, intent)
  }

  /** `buildOptimizedPrompt`: the base, the knowledge block when anything was selected, and the intent's instruction. */
  function BuildOptimizedPrompt(v: Variant, basePrompt: string, result: RetrievalResult, intent: IntentType): (r: string)
    ensures StartsWith(r, Base(basePrompt)) && EndsWith(r, Instruction(v, intent))
    ensures result.chunks == [] ==> r == Base(basePrompt) + Instruction(v, intent)
    ensures result.chunks != [] ==> IsAt(r, KnowledgeHeader, |Base(basePrompt)|)
  {
    Prompt(v, Base(basePrompt), |result.filesUsed|, Sections(GroupByFile(result.chunks)), result.chunks != [], intent)
  }

  // ---------------------------------------------------------------------
  // every selected chunk reaches the prompt

  lemma {:induction false} EntriesHas(contents: seq<string>, j: nat) returns (p: nat)
    requires j < |contents|
    ensures IsAt(Entries(contents), contents[j], p)
    decreases |contents|
  {
    var head := contents[0] + "\n\n";
    assert Entries(contents) == head + Entries(contents[1..]);
    if j == 0 {
      p := 0;
      IsAtStart(contents[0], "\n\n");
      IsAtAppend(head, Entries(contents[1..]), contents[0], 0);
    } else {
      var q := EntriesHas(contents[1..], j - 1);
      p := |head| + q;
      IsAtPrepend(head, Entries(contents[1..]), contents[j], q);
    }
  }

  lemma {:induction false} SectionsHas(gs: seq<Group>, k: nat, j: nat) returns (p: nat)
    requires k < |gs| && j < |gs[k].contents|
    ensures IsAt(Sections(gs), gs[k].contents[j], p)
    decreases |gs|
  {
    if k == 0 {
      var head := "\n--- " + gs[0].filename + " ---\n";
      var q := EntriesHas(gs[0].contents, j);
      p := |head| + q;
      IsAtPrepend(head, Entries(gs[0].contents), gs[0].contents[j], q);
      IsAtAppend(Section(gs[0]), Sections(gs[1..]), gs[0].contents[j], p);
    } else {
      var q := SectionsHas(gs[1..], k - 1, j);
      p := |Section(gs[0])| + q;
      IsAtPrepend(Section(gs[0]), Sections(gs[1..]), gs[k].contents[j], q);
    }
  }

  /** Every chunk's content occurs in the sections built from its selection. */
  lemma SectionsHaveChunk(cs: seq<ContentChunk>, i: nat) returns (q: nat)
    requires i < |cs|
    ensures IsAt(Sections(GroupByFile(cs)), cs[i].content, q)
  {
    var c := cs[i];
    var gs := GroupByFile(cs);
    GroupByFileSpec(cs);
    assert Names(cs)[i] == c.filename;
    var k := FirstIndex(Keys(gs), c.filename);
    assert gs[k].contents == ContentsOf(cs, c.filename);
    ContentsOfHas(cs, i);
    var j := FirstIndex(gs[k].contents, c.content);
    q := SectionsHas(gs, k, j);
  }

  /** An occurrence inside `s` is an occurrence inside `a + s + b`, shifted by `|a|`. */
  lemma IsAtMiddle(a: string, s: string, b: string, t: string, q: int)
    requires IsAt(s, t, q)
    ensures IsAt(a + s + b, t, |a| + q)
  {
    IsAtPrepend(a, s, t, q);
    IsAtAppend(a + s, b, t, |a| + q);
  }

  lemma ContainsMiddle(a: string, s: string, b: string, t: string, q: nat)
    requires IsAt(s, t, q)
    ensures Contains(a + s + b, t)
  {
    IsAtMiddle(a, s, b, t, q);
    ContainsAt(a + s + b, t, |a| + q);
  }

  lemma Regroup(base: string, hp: string, sections: string, footer: string, instr: string)
    ensures base + (hp + sections + footer) + instr == (base + hp) + sections + (footer + instr)
  {
  }

  /** With knowledge, the prompt is the sections with some text before and after. */
  lemma PromptAround(v: Variant, base: string, fileCount: nat, sections: string, intent: IntentType) returns (a: string, b: string)
    ensures Prompt(v, base, fileCount, sections, true, intent) == a + sections + b
  {
    var hp := KnowledgeHeader + Preamble(v, fileCount);
    a := base + hp;
    b := KnowledgeFooter + Instruction(v, intent);
    Regroup(base, hp, sections, KnowledgeFooter, Instruction(v, intent));
  }

  /** Whatever occurs in the sections occurs in the prompt. */
  lemma PromptHasSections(v: Variant, base: string, fileCount: nat, sections: string, intent: IntentType, t: string, q: nat)
    requires IsAt(sections, t, q)
    ensures Contains(Prompt(v, base, fileCount, sections, true, intent), t)
  {
    var a, b := PromptAround(v, base, fileCount, sections, intent);
    ContainsMiddle(a, sections, b, t, q);
  }

  /** The content of every selected chunk appears in the prompt. */
  lemma PromptHasEveryChunk(v: Variant, basePrompt: string, result: RetrievalResult, intent: IntentType, i: nat)
    requires i < |result.chunks|
    ensures Contains(BuildOptimizedPrompt(v, basePrompt, result, intent), result.chunks[i].content)
  {
    var q := SectionsHaveChunk(result.chunks, i);
    PromptHasSections(v, Base(basePrompt), |result.filesUsed|, Sections(GroupByFile(result.chunks)), intent, result.chunks[i].content, q);
  }
}
