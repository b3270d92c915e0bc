# Knowledge retrieval, prompting and theme import/export — a Dafny model

This project models the core of a chatbot builder in two halves.

**The chat side** answers a user's message from a knowledge base of uploaded files:

- extracts keywords from the message;
- detects the user's intent (hook generation, post rewrite or normal conversation) and pulls the post out of the message;
- categorises knowledge files and builds the contextual prompt for an intent;
- cleans the model's reply;
- picks a model for a kind of task;
- retrieves the knowledge that fits the model's context budget, and renders it into the system prompt.

Retrieval exists in two copies, and both are modelled through one `Retriever.Variant`:

- `Library` is the library version in `lib/knowledge-retriever.ts`: tokens are `ceil(n/4)`, 2700 tokens are reserved, the semantic walk stops at 20 chunks from 3 files, and templates are detected by name or by "you are".
- `ChatRoute` is the revised version in `app/api/chat/route.ts`: tokens are `ceil(n/2.5)`, 4000 tokens are reserved, the budget is capped at 35000 or 15000, the walk stops at 15 chunks, and the general strategy takes one template and previews of two more files.

**The design side** handles theme files:

- the constraint table and its unit parsers;
- the schema's enumerations and result shape;
- the validator, which collects every error it finds in a theme document;
- the transformer between the chatbot configuration and the export format, and the selective merge of an import;
- the import and export entry points.

**Conventions.**

- JSON values are `Json.Value`, where `Undefined` stands for a missing key. Property access, truthiness and `typeof` follow JavaScript.
- An exception the source would raise is an `Outcome.Thrown` value. `String(v)`, which regular-expression tests and template literals apply, throws for an object with its own `toString` key, because no JSON value is callable; so does `isInRange` on such a value, and on an array whose text looks like `"12px"`, where it calls `value.replace` on a non-string.
- Relevance scores are integers in tenths (3.0 is 30, 1.5 is 15). Token estimates are exact integer ceilings.
- Lower-casing and `\w` are ASCII. `\s` and `trim()` use JavaScript's whitespace set.
- Iteration order is the source's: a `Set` or `Map` iterates in insertion order, which gives `FilesUsed` and `GroupByFile`; `Array.prototype.sort` is stable, which gives `Seqs.SortDesc`.

**Behaviours the model keeps as written.**

- An oversized paragraph is split with `/[^.!?]+[.!?]+/g`. Text after its last terminator therefore never reaches a chunk.
- The hook clean-up keeps one line after the "5." line.
- `analyzeTaskType`'s quick-prefix test has no word boundary, so "Hiking ..." is quick.
- In the constraint table, the `maxCharacters` bounds carry no unit. `isInRange` could therefore never accept even the default, but the validator never checks that field.

## Model

| member | source | states |
|---|---|---|
| Keywords.CleanQuery | lib/knowledge-retriever.ts:113-114 | the cleaned query has the query's length; each position holds the lower-cased character when it is a word or whitespace character, otherwise a space |
| Keywords.SplitWs | lib/knowledge-retriever.ts:115 | `split(/\s+/)` yields at least one piece, and every piece is whitespace-free and made of characters of the text |
| Keywords.MeaningfulWords | lib/knowledge-retriever.ts:115-119 | a word is meaningful exactly when it is a piece of the cleaned query, at least 3 long and not a stop word |
| Keywords.ExtractKeywords | lib/knowledge-retriever.ts:111-123 | keywords are distinct, each at least 3 lower-case word characters and never a stop word |
| Keywords.KeywordShape | lib/knowledge-retriever.ts:116-119 | every meaningful word is at least 3 characters, not a stop word, and lower-case word characters only |
| Keywords.KeywordsMembership | lib/knowledge-retriever.ts:111-123 | a word is a keyword if and only if it is a meaningful piece of the cleaned query |
| Keywords.KeywordsFirstOccurrence | lib/knowledge-retriever.ts:122 | `[...new Set]` orders keywords by their first occurrence among the meaningful words |
| Seqs.Dedup | lib/knowledge-retriever.ts:122 | the result has no duplicates, the same members as the input, and is a subsequence of it |
| Seqs.DedupFirstOccurrenceOrder | lib/knowledge-retriever.ts:357 | the distinct elements come in the order of their first occurrence |
| Seqs.SortDesc | lib/knowledge-retriever.ts:327 | the sort is descending by key and a permutation of its input |
| Seqs.SortDescStable | lib/knowledge-retriever.ts:327 | the sort is stable: elements with equal keys keep their input order |
| Chunker.Paragraphs | lib/knowledge-retriever.ts:169 | `split(/\n\n+/)` always yields at least one piece |
| Chunker.SentencesFrom | lib/knowledge-retriever.ts:190 | every sentence the regular expression matches ends in a terminator |
| Chunker.Pieces | lib/knowledge-retriever.ts:190 | every piece of an oversized paragraph has non-whitespace text |
| Chunker.ChunkContent | lib/knowledge-retriever.ts:161-216 | every chunk is non-empty, trimmed and tagged with the file name; it is within the size limit, or it is the trimmed text of one over-long sentence of an oversized paragraph |
| Chunker.MakeRoomKeeps | lib/knowledge-retriever.ts:179-185 | flushing the current chunk keeps the chunker's invariant; afterwards the current chunk is empty, or the next piece fits with it |
| Chunker.AddSentencesKeeps | lib/knowledge-retriever.ts:192-201 | the sentence loop keeps the invariant: good chunks, and a current chunk that trims to bounded text |
| Chunker.AddParagraphsKeeps | lib/knowledge-retriever.ts:173-205 | the paragraph loop keeps the same invariant over all paragraphs of the content |
| Intent.AnyIncluded | lib/intent-detector.ts:46-50 | the early-return loop answers true exactly when some trigger occurs in the text |
| Intent.ContainsAnyTrim | lib/intent-detector.ts:18 | trimming the message does not change whether it contains one of a list of unpadded triggers |
| Intent.DetectIntent | lib/intent-detector.ts:17-61 | hook generation if and only if a hook trigger occurs in the lower-cased message; rewrite if and only if no hook trigger but a rewrite trigger occurs; otherwise normal conversation |
| Intent.SeparatorContent | lib/intent-detector.ts:85-93 | a separator yields only trimmed text longer than 10 characters, and nothing when the lower-cased message lacks it |
| Intent.FirstSomeSpec | lib/intent-detector.ts:85-93 | the loop's result is the value at the least index that holds one, and none when no index does |
| Intent.SentenceBreak | lib/intent-detector.ts:98-102 | the break is the greatest of the three first indices; it is -1 exactly when none of ". ", "? ", "! " occurs |
| Intent.SentenceTail | lib/intent-detector.ts:97-110 | the fallback yields only for messages over 100 characters with a break in (0, 100), and yields the trimmed rest, longer than 20 |
| Intent.ExtractPostContent | lib/intent-detector.ts:69-119 | any extracted post is longer than 10 characters |
| Intent.ExtractSeparatorOrder | lib/intent-detector.ts:84-93 | when some separator yields, the first yielding one in list order decides the post |
| Intent.ExtractWithoutSeparator | lib/intent-detector.ts:95-118 | without a yielding separator: the sentence fallback, else the whole message when over 50 characters, else none |
| Intent.HasPostContentIff | lib/intent-detector.ts:126-129 | a message has a post if and only if the first yielding separator gives more than 20 characters, or no separator yields and the message exceeds 50 characters |
| Intent.HasPostContentFirst | lib/intent-detector.ts:126-129 | a message has a post if and only if the first yielding separator's text exceeds 20 characters, or none yields and the message exceeds 50 |
| KnowledgeProcessor.CountPresent | lib/knowledge-processor.ts:58-62 | the indicator count never exceeds the number of indicators |
| KnowledgeProcessor.CategorizeKnowledgeFile | lib/knowledge-processor.ts:25-82 | template if and only if the score is at least 3; factual if and only if the score is below 3 and the content exceeds 50 characters; unknown otherwise |
| KnowledgeProcessor.TwoFilenameIndicators | lib/knowledge-processor.ts:65-74 | a file name with two distinct indicator words makes a template, whatever the content |
| KnowledgeProcessor.NoIndicators | lib/knowledge-processor.ts:56-81 | with no indicator anywhere, a file is factual exactly when its content exceeds 50 characters |
| KnowledgeProcessor.BaseOrDefault | lib/knowledge-processor.ts:146 | the base prompt is never empty, and it is the configured one whenever that is non-empty |
| KnowledgeProcessor.ExampleLines | lib/knowledge-processor.ts:184-186 | one line per example, numbered consecutively from the start number, in order |
| KnowledgeProcessor.NumberExamplesLines | lib/knowledge-processor.ts:184-186 | the appended text is exactly those lines in order |
| KnowledgeProcessor.BuildContextualPrompt | lib/knowledge-processor.ts:137-204 | normal conversation: the base prompt, followed by the header and the joined knowledge when there is knowledge; other intents: the base prompt without templates, else a prompt opening with the first template's rules |
| KnowledgeProcessor.OnlyFirstTemplate | lib/knowledge-processor.ts:155-157 | for hook and rewrite requests only the first template matters; the knowledge, the message and the base prompt do not |
| KnowledgeProcessor.RewriteIgnoresExamples | lib/knowledge-processor.ts:189-197 | a rewrite prompt is the rules plus the fixed rewrite task, whatever the template's examples |
| KnowledgeProcessor.HookListsExamples | lib/knowledge-processor.ts:174-188 | a hook prompt with examples is the rules, the hook task, the examples header and the examples numbered 1..n, then a blank line |
| KnowledgeProcessor.StripLead | lib/knowledge-processor.ts:217-225 | removing a meta-commentary opening leaves a tail of the text |
| KnowledgeProcessor.StripMeta | lib/knowledge-processor.ts:224-226 | the five removals in turn leave a tail of the text |
| KnowledgeProcessor.FirstItem | lib/knowledge-processor.ts:231 | the match position holds a "1." or "1)" marker followed by whitespace, and no earlier position does |
| KnowledgeProcessor.IndexOfFirstItem | lib/knowledge-processor.ts:232-234 | looking the matched marker up again with `indexOf` finds the same position |
| KnowledgeProcessor.FromFirstItem | lib/knowledge-processor.ts:231-235 | the text is cut to begin at the first marker, and is unchanged when there is none |
| KnowledgeProcessor.FiveLine | lib/knowledge-processor.ts:239 | the index is the first line opening with a "5." marker, or -1 when no line does |
| KnowledgeProcessor.Take | lib/knowledge-processor.ts:242 | `slice(0, n)` is the leading min(n, length) lines |
| KnowledgeProcessor.KeepThroughFive | lib/knowledge-processor.ts:238-243 | the cut keeps a prefix of the text, and the whole text when no line opens with "5." |
| KnowledgeProcessor.KeepsLineAfterFive | lib/knowledge-processor.ts:240-243 | split back into lines, the kept text is exactly the original lines through the first "5." line and at most one more, so that line is still the first "5." line of the result |
| KnowledgeProcessor.MetaStripped | lib/knowledge-processor.ts:213-226 | the meta-stripped reply is a tail of the trimmed reply |
| KnowledgeProcessor.CleanResponse | lib/knowledge-processor.ts:212-247 | the cleaned reply is always trimmed |
| KnowledgeProcessor.CleanOtherIntents | lib/knowledge-processor.ts:213-226 | outside hook generation the cleaned reply is a trimmed tail of the trimmed reply |
| KnowledgeProcessor.CleanWithoutMeta | lib/knowledge-processor.ts:213-226 | a reply without a meta-commentary opening, outside hook generation, is only trimmed |
| KnowledgeProcessor.CleanHook | lib/knowledge-processor.ts:229-246 | for hooks with a "1." marker, the result begins with that "1" and is the cut from the marker through the line after "5.", trimmed |
| Retriever.EstimateTokens | lib/knowledge-retriever.ts:76-78 | the estimate is the least n with 4n ≥ length, or in the revised copy with 5n ≥ 2·length |
| Retriever.EstimateMonotone | lib/knowledge-retriever.ts:76-78 | a longer text never has a smaller estimate |
| Retriever.EstimateSubadditive | app/api/chat/route.ts:61-63 | the estimate of two texts together never exceeds the sum of their estimates |
| Retriever.LimitsAtLeastDefault | lib/knowledge-retriever.ts:52-70 | every table entry and every partial-match limit is at least the 8000 default |
| Retriever.Lookup | lib/knowledge-retriever.ts:85-87 | the exact lookup finds a value if and only if the table has an entry for the key, and the value found is that entry's |
| Retriever.FirstRule | lib/knowledge-retriever.ts:89-102 | the partial match gives the limit of the first applicable rule, and none exactly when no rule applies |
| Retriever.ModelContextLimit | lib/knowledge-retriever.ts:83-106 | the limit is at least 8000; an exact entry wins; with no exact entry, the first rule in listed order whose pattern occurs in the lower-cased name decides; with neither it is 8000 |
| Retriever.RouteTurboBeforeGpt4 | app/api/chat/route.ts:70-72 | in the revised copy, names containing "gpt-4-turbo" or "gpt-4o" get 128000 before the "gpt-4" rule can give 8000 |
| Retriever.AvailableTokens | app/api/chat/route.ts:189-193 | the library budget is the limit less 2700; the revised budget is the smaller of the limit less 4000 and the cap of 35000 (two or more keywords) or 15000 |
| Retriever.BudgetBounds | lib/knowledge-retriever.ts:274-277 | the budget is never negative: at least 5300 in the library, between 4000 and 35000 in the revised copy |
| Retriever.Budget | app/api/chat/route.ts:186-193 | the library budget is the model's limit less 2700; the revised budget is the smaller of the limit less 4000 and the cap, 35000 with two or more keywords and 15000 otherwise |
| Retriever.KeywordFileScore | lib/knowledge-retriever.ts:139-153 | one keyword adds at most 9.0 to a file's score, and adds anything if and only if it occurs in the name or the content |
| Retriever.SumFileScores | lib/knowledge-retriever.ts:139-153 | the file score is at most 9.0 per keyword |
| Retriever.FileScore | lib/knowledge-retriever.ts:128-156 | no keywords give 0, and the score is at most 9.0 per keyword |
| Retriever.FileScorePositive | lib/knowledge-retriever.ts:128-156 | a file scores above zero if and only if its name or content contains a keyword |
| Retriever.SumFileScoresAppend | lib/knowledge-retriever.ts:139-153 | the file score of a keyword list is the sum of the scores of its parts |
| Retriever.KeywordChunkScore | lib/knowledge-retriever.ts:230-239 | one keyword adds to a chunk's score if and only if the chunk contains it |
| Retriever.Found | lib/knowledge-retriever.ts:243 | the found keywords are exactly the keywords the chunk contains |
| Retriever.ChunkScore | lib/knowledge-retriever.ts:221-250 | no keywords give 0 |
| Retriever.ChunkScorePositive | lib/knowledge-retriever.ts:221-250 | a chunk scores above zero if and only if it contains one of the keywords |
| Retriever.Names | lib/knowledge-retriever.ts:341 | one name per selected chunk, in order |
| Retriever.FilesUsed | lib/knowledge-retriever.ts:335-357 | the reported files are distinct, and a file is reported if and only if some selected chunk comes from it |
| Retriever.Fitting | lib/knowledge-retriever.ts:401-431 | a kept chunk fits the remaining budget and is the offer's chunk or its fallback; nothing is kept only when the chunk itself does not fit |
| Retriever.Walk | lib/knowledge-retriever.ts:337-348 | the selection loop only appends, at most one chunk per offer, and never lowers the tokens used |
| Retriever.WalkBudget | lib/knowledge-retriever.ts:337-348 | the loop never overspends, and the tokens it reports are the sum over the chunks it kept |
| Retriever.WalkDrawn | lib/knowledge-retriever.ts:337-348 | everything the loop adds is an offered chunk or fallback |
| Retriever.WalkAppend | lib/knowledge-retriever.ts:380-432 | without an early stop, the two loops over template and factual files are one loop over both lists |
| Retriever.Plain | lib/knowledge-retriever.ts:337 | each candidate is offered as itself, with no fallback |
| Retriever.WalkSubseq | lib/knowledge-retriever.ts:337-348 | on candidates without fallbacks the loop keeps a subsequence of them |
| Retriever.WalkStopsFirst | lib/knowledge-retriever.ts:343-346 | the loop stops the first time the stop test holds: no shorter selection met it |
| Retriever.WalkMaximal | lib/knowledge-retriever.ts:337-348 | unless it stopped early, every candidate left out would not have fitted in the tokens left |
| Retriever.ScoreFiles | lib/knowledge-retriever.ts:290-294 | each file is paired with its relevance score over its content or `''` |
| Retriever.ScoreChunks | lib/knowledge-retriever.ts:308-323 | every kept chunk mentions a keyword, carries its own token estimate and the file's name, and scores above the file's score |
| Retriever.Candidates | lib/knowledge-retriever.ts:303-324 | every candidate chunk mentions a keyword and carries its token estimate |
| Retriever.AllChunks | lib/knowledge-retriever.ts:326-327 | the candidates are sorted by descending relevance, and each mentions a keyword |
| Retriever.Semantic | lib/knowledge-retriever.ts:289-360 | the semantic selection stays within the budget, reports its exact token total, and reports its files in order of first selection |
| Retriever.SemanticOrder | lib/knowledge-retriever.ts:326-348 | the selection is a subsequence of the sorted candidates, each mentioning a keyword |
| Retriever.SemanticStop | lib/knowledge-retriever.ts:343-346 | the selection ends as soon as it holds enough chunks from enough files, and not earlier |
| Retriever.SemanticMaximal | lib/knowledge-retriever.ts:337-348 | unless it stopped for having enough, every unselected candidate was too large for the tokens left |
| Retriever.ShortChunk | lib/knowledge-retriever.ts:418 | a summary chunk is the file's first n characters followed by the note |
| Retriever.TemplateOffers | lib/knowledge-retriever.ts:374-396 | template offers are whole files with content, scored as templates, without fallback |
| Retriever.FactualOffers | lib/knowledge-retriever.ts:398-431 | each factual offer is a whole file with content, with the 2000-character summary as its fallback |
| Retriever.PreviewOffers | app/api/chat/route.ts:297-315 | each preview is the first 1500 characters of a file with content plus the preview note |
| Retriever.LibraryGeneral | lib/knowledge-retriever.ts:365-442 | the general selection stays within the budget, reports its exact token total and its files in order of first selection |
| Retriever.FirstTemplate | app/api/chat/route.ts:274-277 | the chosen template is the first file whose name contains "guide" or "prompt", and no earlier file's does |
| Retriever.PreviewFiles | app/api/chat/route.ts:297 | at most two files are previewed |
| Retriever.RouteGeneral | app/api/chat/route.ts:265-325 | the revised general selection stays within the budget, reports its exact total, and holds at most three chunks |
| Retriever.General | lib/knowledge-retriever.ts:283 | the general strategy of either copy stays within the budget and reports its exact total and its files |
| Retriever.WalkHas | lib/knowledge-retriever.ts:380-432 | whatever every offer satisfies, every chunk the loop adds satisfies |
| Retriever.WalkPhases | lib/knowledge-retriever.ts:380-432 | with offers of one kind walked before offers of another, no chunk of the second kind precedes one of the first |
| Retriever.LibraryGeneralSources | lib/knowledge-retriever.ts:365-442 | every general chunk is a template file whole, or a factual file whole or cut to 2000 characters with the truncation note |
| Retriever.OffersScored | lib/knowledge-retriever.ts:387-427 | template offers score as templates; factual offers and their summaries do not |
| Retriever.LibraryTemplatesFirst | lib/knowledge-retriever.ts:380-432 | no factual chunk precedes a template chunk in the general selection |
| Retriever.RouteGeneralSources | app/api/chat/route.ts:265-325 | every revised general chunk is the first template whole, or a 1500-character preview of one of the two previewed files |
| Retriever.RetrieveRelevantKnowledge | lib/knowledge-retriever.ts:255-360 | the result stays within the model's budget and reports its exact total; its files are distinct and are exactly those of its chunks; it is semantic exactly when the general strategy does not apply |
| OptimizedPrompt.GroupIndex | lib/knowledge-retriever.ts:462 | a group found for a file carries that file name; none means the file has no group yet |
| OptimizedPrompt.AddChunkHit | lib/knowledge-retriever.ts:461-466 | a chunk from an already grouped file joins that file's group, and the grouping stays faithful |
| OptimizedPrompt.AddChunkMiss | lib/knowledge-retriever.ts:461-466 | a chunk from a new file opens a group at the end, and the grouping stays faithful |
| OptimizedPrompt.GroupByFileSpec | lib/knowledge-retriever.ts:459-466 | the map holds the distinct files in order of first selection, each with its chunks' contents in order |
| OptimizedPrompt.ContentsOfHas | lib/knowledge-retriever.ts:465 | every chunk's content is among the contents listed for its file |
| OptimizedPrompt.Base | lib/knowledge-retriever.ts:452 | the base prompt is never empty, and it is the caller's whenever that is non-empty |
| OptimizedPrompt.Prompt | lib/knowledge-retriever.ts:452-488 | the prompt starts with the base and ends with the intent's instruction; without knowledge it is just the two; with knowledge the block header follows the base |
| OptimizedPrompt.BuildOptimizedPrompt | lib/knowledge-retriever.ts:447-489 | the prompt opens with the base prompt and closes with the intent's instruction; the knowledge block appears exactly when chunks were selected |
| OptimizedPrompt.SectionsHaveChunk | lib/knowledge-retriever.ts:468-474 | every selected chunk's content occurs in the rendered file sections |
| OptimizedPrompt.PromptAround | lib/knowledge-retriever.ts:455-477 | with knowledge, the prompt is the rendered sections with text before and after |
| OptimizedPrompt.PromptHasSections | lib/knowledge-retriever.ts:468-476 | whatever occurs in the sections occurs in the prompt |
| OptimizedPrompt.PromptHasEveryChunk | lib/knowledge-retriever.ts:447-489 | the content of every selected chunk appears in the final prompt |
| Models.Flatten | lib/models.ts:143 | a model is in the flattened list if and only if some provider lists it |
| Models.AllModelsCatalogue | lib/models.ts:31-144 | the catalogue lists the OpenAI, Anthropic and Google models in declaration order |
| Models.AllModelsIds | lib/models.ts:31-144 | ten models, whose ids are the catalogue's ids in order |
| Models.CatalogueIdsDistinct | lib/models.ts:31-140 | no two catalogue models share an id |
| Models.FindById | lib/models.ts:147 | `find` gives the first model with the id, and nothing exactly when no model has it |
| Models.FindByIdDistinct | lib/models.ts:147 | with distinct ids, finding a model's id gives back that model |
| Models.GetModelByIdCatalogue | lib/models.ts:146-148 | looking up a catalogue model's id gives that model; an id outside the catalogue gives none |
| Models.Listed | lib/models.ts:156 | the restricted list holds the catalogue models whose id is listed, in catalogue order |
| Models.Candidates | lib/models.ts:155-157 | no restriction gives the whole catalogue, otherwise the listed models |
| Models.Preferences | lib/models.ts:159-187 | every kind of task tries at least two preferred ids, each a non-empty catalogue id |
| Models.Fallback | lib/models.ts:159-187 | the last-resort id of every kind of task is a catalogue id |
| Models.FirstFoundSpec | lib/models.ts:160-163 | the `find(...)?.id ||` chain gives the first preferred id present, or the last resort when none is |
| Models.SelectPreferenceOrder | lib/models.ts:150-192 | the first preferred id present among the candidates wins; with none present, the first candidate, else the fallback |
| Models.SelectIsCandidate | lib/models.ts:150-192 | the pick is a candidate's id whenever there are candidates, and the fallback only when there are none |
| Models.SelectUnrestricted | lib/models.ts:152-157 | with no restriction the first preference of the task always wins |
| Models.WordFrom | lib/models.ts:204 | the scan finds a whole-word occurrence exactly when one starts at or after the position |
| Models.AnyWord | lib/models.ts:204 | the alternation matches exactly when one of its words occurs as a whole word |
| Models.AnyPrefix | lib/models.ts:199 | the anchored alternation matches exactly when the text starts with one of its prefixes |
| Models.AnalyzeTaskType | lib/models.ts:194-221 | quick, complex, creative and analytical each hold exactly when their test holds and no earlier test did |
| Models.QuickPrefixWithoutBoundary | lib/models.ts:198-199 | the quick prefix test has no boundary: any long message opening with "Hiking" is quick |
| Models.WordNeedsBoundary | lib/models.ts:204 | keywords match only as whole words: "comparer" is not "compare" |
| Json.TypeOf | lib/design/validator.ts:27 | `typeof` is "string" exactly for strings and "boolean" exactly for booleans |
| Json.Get | lib/design/validator.ts:37 | property access gives the field when an object has it, and `undefined` otherwise |
| Json.ToString | lib/design/import.ts:93 | `String(v)` throws exactly for an object with its own `toString` key among objects, always with the same message |
| Json.ToStringThrowsIff | lib/design/import.ts:93 | `String(v)` throws if and only if the value is an object with its own `toString` key or an array holding such a value at any depth |
| Json.ToStringScalarEnd | lib/design/constraints.ts:116 | `String(v)` of a non-string, non-array value either throws, for an object with its own `toString` key, or gives text that cannot end in a unit, so no unit pattern matches it |
| Constraints.LeadingDigits | lib/design/constraints.ts:89 | the longest digit prefix, and it ends the text or before a non-digit |
| Constraints.ParseInt | lib/design/constraints.ts:89 | `parseInt` is NaN exactly when no digit follows the leading whitespace and optional sign |
| Constraints.ParseIntOfDigits | lib/design/constraints.ts:89 | a digit run parses to its decimal value |
| Constraints.ReplaceUnitSuffix | lib/design/constraints.ts:89 | replacing a non-digit unit after a digit run leaves the digits |
| Constraints.ParsePixelsOf | lib/design/constraints.ts:88-90 | "Npx" parses to N |
| Constraints.ParsePercentOf | lib/design/constraints.ts:95-97 | "N%" parses to N |
| Constraints.ParseTime | lib/design/constraints.ts:102-109 | a text not ending in "s" is 0 milliseconds |
| Constraints.ParseTimeOf | lib/design/constraints.ts:102-109 | "Nms" is N milliseconds and "Ns" is 1000·N |
| Constraints.InRangeNeedsUnit | lib/design/constraints.ts:114-138 | only a digit run followed by px, %, ms or s can be in range |
| Constraints.InRangePixels | lib/design/constraints.ts:116-121 | a pixel value is in range exactly when its number lies between the parsed bounds |
| Constraints.InRangePercent | lib/design/constraints.ts:123-128 | a percent value is in range exactly when its number lies between the parsed bounds |
| Constraints.UnitlessNeverInRange | lib/design/constraints.ts:137 | a bare number is never in range, whatever the constraint |
| Constraints.ValidColorIgnoresCase | lib/design/constraints.ts:80 | the colour pattern accepts a text exactly when it accepts its lower-cased form |
| Constraints.TwoSecondsIsAllowedDuration | lib/design/constraints.ts:105-106 | "2s" reads as 2000 ms and lies within the transition-duration range |
| Constraints.DigitsValueOfNatToString | lib/design/constraints.ts:89 | reading back the decimal text of a number gives the number |
| Constraints.PixelDefaultInRange | lib/design/constraints.ts:116-121 | a range of "Npx" bounds holds a "Npx" default whenever the numbers are ordered |
| Constraints.RangeDefaultsInRange | lib/design/constraints.ts:14-78 | every unit-bearing default of the table lies within its own bounds |
| Constraints.MaxCharactersDefaultNotInRange | lib/design/constraints.ts:67 | the character limit's bounds carry no unit, so even its default is not in range |
| Constraints.ChoiceDefaultsAllowed | lib/design/constraints.ts:14-78 | every enumerated default of the table is one of its allowed values |
| Schema.EnumsMatchConstraintTable | lib/design/schema.ts:22-88 | each enumeration's names are exactly the constraint table's allowed list for it |
| Schema.EnumNamesRoundTrip | lib/design/schema.ts:22-88 | every enumeration value reads back from its own name |
| Schema.Failure | lib/design/schema.ts:150-154 | a failure carries at least one error and no data |
| Schema.Success | lib/design/schema.ts:150-154 | a success carries data and no errors |
| Validator.Then | lib/design/validator.ts:36-48 | two checks in turn pass exactly when both pass; their errors accumulate in order |
| Validator.RangeCheck | lib/design/constraints.ts:114-138 | on strings it is `isInRange`; an object with its own `toString` key throws in the first regular expression; every other non-string, non-array value is out of range; no non-string is ever in range; only arrays and unprintable values throw |
| Validator.CheckField | lib/design/validator.ts:203-245 | a field check reports nothing exactly when its rule accepts the value, else at most one error at that field's path |
| Validator.CheckRequired | lib/design/validator.ts:220-243 | a required field: falsy is missing, then the type, range or choice test; no error exactly when accepted |
| Validator.CheckOptional | lib/design/validator.ts:389-427 | a boolean, string or optional field check reports nothing exactly when the rule accepts the value |
| Validator.CheckFields | lib/design/validator.ts:203-245 | a list of field checks passes exactly when every field is accepted, with at most one error per field, all under the section's path |
| Validator.FieldsAcceptedEach | lib/design/validator.ts:203-245 | the fields are accepted together exactly when each one is |
| Validator.Section | lib/design/validator.ts:352-359 | a falsy sub-section is one "Missing" error; otherwise it passes exactly when all its fields are accepted |
| Validator.ComponentErrors | lib/design/validator.ts:351-387 | the components pass exactly when header, bubbles, input and footer are each present and accepted |
| Validator.ResponsiveErrors | lib/design/validator.ts:609-642 | the responsive section passes exactly when its four sizes are strings and its breakpoints are present and accepted |
| Validator.Nested | lib/design/validator.ts:183-190 | a falsy section is one "Missing" error; otherwise the section's own check decides |
| Validator.DesignErrors | lib/design/validator.ts:141-201 | the design passes exactly when all six sections are present and accepted; none is skipped because another failed |
| Validator.DesignErrorsUnder | lib/design/validator.ts:141-201 | every design error names a field under `design.` |
| Validator.ComponentErrorsUnder | lib/design/validator.ts:351-387 | every component error names a field under `design.components` |
| Validator.ResponsiveErrorsUnder | lib/design/validator.ts:609-642 | every responsive error names a field under `design.responsive` |
| Validator.VersionErrors | lib/design/validator.ts:58-71 | the version is faultless exactly when it is the schema version, with at most one error |
| Validator.ExportedAtErrors | lib/design/validator.ts:73-84 | the timestamp is faultless exactly when it is a non-empty string |
| Validator.ThemeNameErrors | lib/design/validator.ts:86-99 | the theme name is faultless exactly when it is a string of 1 to 50 characters |
| Validator.DescriptionErrors | lib/design/validator.ts:101-112 | the description is faultless exactly when it is falsy or a string of at most 200 characters |
| Validator.TagError | lib/design/validator.ts:124-136 | a tag has an error exactly when it is not a string of at most 20 characters, reported at `metadata.tags[i]` |
| Validator.TagItemErrors | lib/design/validator.ts:124-136 | the tag loop reports nothing exactly when every tag is accepted, at most one error per tag |
| Validator.TagsErrors | lib/design/validator.ts:114-138 | the tags are faultless exactly when falsy, or an array of at most five accepted tags |
| Validator.MetadataErrors | lib/design/validator.ts:57-139 | the metadata passes exactly when every one of its checks does, with at most nine errors, all under `metadata.` |
| Validator.MetadataPart | lib/design/validator.ts:36-41 | a falsy metadata section is one "Missing" error; otherwise the metadata checks decide |
| Validator.DesignPart | lib/design/validator.ts:43-48 | a falsy design section is one "Missing" error; otherwise the design checks decide |
| Validator.ValidateDesignImport | lib/design/validator.ts:23-55 | every result is well formed; a success carries the document itself; a non-object document is the single root error |
| Validator.Collect | lib/design/validator.ts:50-54 | an exception propagates; no errors is success with the document; otherwise a failure with the metadata errors, then the design errors |
| Validator.AcceptedIffSuccess | lib/design/validator.ts:23-55 | the validator accepts a document if and only if it is an object whose metadata and design are accepted |
| Validator.ErrorsCollectedInOrder | lib/design/validator.ts:36-52 | a rejected document lists the metadata errors first, then the design errors |
| Validator.MissingMetadataReported | lib/design/validator.ts:37-38 | a missing metadata section is one error at `metadata`, followed by the design errors |
| Validator.MissingDesignReported | lib/design/validator.ts:44-45 | a missing design section is one error at `design`, after the metadata errors |
| Validator.MetadataPartUnder | lib/design/validator.ts:36-41 | every metadata error names a field under `metadata` |
| Validator.DesignPartUnder | lib/design/validator.ts:43-48 | every design error names a field under `design` |
| Transformer.ApplyDefault | lib/design/transformer.ts:28 | `v \|\| "d"` keeps a truthy value, else the default; `!== false` is true unless the value is false; `\|\| false` keeps a truthy value, else false |
| Transformer.ApplyDefaultKeeps | lib/design/transformer.ts:28-131 | a value that survives defaulting comes out unchanged |
| Transformer.BuildFields | lib/design/transformer.ts:26-133 | a built part has exactly its spec's keys, each holding its configuration value or its default |
| Transformer.Project | lib/design/transformer.ts:155-263 | a projection has exactly the given keys, each copied from the source |
| Transformer.Assemble | lib/design/transformer.ts:26-133 | every part of the assembled design is the part it was built from |
| Transformer.ConfigToExport | lib/design/transformer.ts:16-147 | the export's metadata holds the schema version, the clock reading and the caller's theme information, and no preview |
| Transformer.ConfigToExportDesign | lib/design/transformer.ts:26-133 | each exported part has exactly its fields, each the configuration value or the field's default |
| Transformer.Disassemble | lib/design/transformer.ts:155-263 | the configuration object has the layout fields at top level and the nested sections, nothing else |
| Transformer.DisassembleGet | lib/design/transformer.ts:155-263 | each part read back from a disassembled configuration holds the fields it was given |
| Transformer.ExportToConfig | lib/design/transformer.ts:152-264 | the configuration has exactly the layout and nested keys, and every mapped field holds the design's value |
| Transformer.RoundTrip | lib/design/transformer.ts:16-264 | exporting and converting back keeps every mapped field whose value survives defaulting |
| Transformer.Overwrite | lib/design/transformer.ts:285-290 | the listed keys take the source's values; every other key is unchanged |
| Transformer.ApplyFacts | lib/design/transformer.ts:284-311 | after the option blocks, a key holds the imported value exactly when an enabled group names it, else its earlier value |
| Transformer.GroupKeysIncoming | lib/design/transformer.ts:281-311 | every key an option names is a key of the converted design |
| Transformer.MergeOverwrites | lib/design/transformer.ts:280-314 | a key of an enabled group takes the imported value |
| Transformer.MergeKeeps | lib/design/transformer.ts:280-314 | a key no enabled group names keeps its current value, and a missing one stays missing |
| Transformer.MergeNothing | lib/design/transformer.ts:280-314 | with every option off, the merge returns the current configuration |
| Transformer.AnimationsOverwriteBoth | lib/design/transformer.ts:308-311 | the animations option replaces both the animation and the responsive configuration |
| DesignImport.ExceptionResult | lib/design/import.ts:18-27 | an exception becomes a well-formed failure with one `root` error whose message starts "Invalid JSON: " |
| DesignImport.ParseDesignImport | lib/design/import.ts:14-29 | unparseable text or an exception gives the single root error; otherwise the validator's result |
| DesignImport.ParseAccepts | lib/design/import.ts:14-29 | a file is accepted if and only if it parses to a document the validator accepts |
| DesignImport.ApplyImport | lib/design/import.ts:65-83 | keys the options overwrite take the imported value; all other keys are the current configuration's |
| DesignImport.AllOptionsOverwrite | lib/design/import.ts:74-80 | with every option on, exactly the keys `exportToConfig` produces are overwritten |
| DesignImport.ApplyAllOptions | lib/design/import.ts:65-83 | with the default options, the import is the current configuration updated with the whole converted design |
| DesignImport.FormatError | lib/design/import.ts:92-96 | a line throws exactly when the error has a value that `String` cannot print; otherwise it starts with the message, is the bare message exactly when there is no value, and else ends with the value's text and ")" |
| DesignImport.FormatValidationErrors | lib/design/import.ts:88-98 | throws exactly when some error's line throws; otherwise one line per error, in order |
| DesignImport.FormatAppend | lib/design/import.ts:91-97 | formatting two error lists together succeeds exactly when each list formats, and then gives the lines of the first followed by those of the second |
| DesignExport.GetExportData | lib/design/export.ts:56-66 | the export data's metadata holds the schema version, the clock reading and the caller's theme information, with no exporter |
| DesignExport.GetExportDataRoundTrip | lib/design/export.ts:56-66 | converting the export data back keeps every mapped field whose value survives defaulting |
| DesignExport.ReplaceInvalid | lib/design/export.ts:84 | every character outside `[A-Za-z0-9_-]` becomes `_`, and nothing else changes |
| DesignExport.DownloadName | lib/design/export.ts:29 | the download name is the sanitised theme name followed by ".json" |
| DesignExport.CollapseShape | lib/design/export.ts:85 | collapsing underscore runs never lengthens the text, keeps its first character and leaves no `__` |
| DesignExport.CollapseOfNoDouble | lib/design/export.ts:85 | a text without `__` is unchanged by the collapse |
| DesignExport.SanitizeShape | lib/design/export.ts:82-87 | a sanitised name uses only `[a-z0-9_-]`, has no `__`, and is no longer than the input |
| DesignExport.SanitizeKeepsEssence | lib/design/export.ts:82-87 | sanitising keeps every letter, digit and hyphen, lower-cased and in order, and drops everything else except single underscores |
| DesignExport.SanitizeIdempotent | lib/design/export.ts:82-87 | sanitising a sanitised name changes nothing |

## Left out

- Reading files is abstracted: `readDesignFile` (FileReader), `exportDesignToFile` (Blob, object URL and link click), `exportDesignToClipboard` and `generatePreviewThumbnail`. Only the data they compute is modelled: `getExportData`, and the download name through `DownloadName`.
- `JSON.parse` and `JSON.stringify` are abstracted. `parseDesignImport` receives the parse outcome as a `Parsed` value, and the exception's own message is not modelled beyond the "Invalid JSON: " prefix.
- The clock is not modelled. `new Date().toISOString()` in `configToExport` is the `exportedAt` parameter.
- `extractInstructionTemplate` (lib/knowledge-processor.ts:89-126) is not modelled. Its lazy multi-line regular expressions with look-ahead are outside this model, and `buildContextualPrompt` takes the resulting templates as input.
- Console logging and `async`/`await` are left out. Neither affects the results.
- Model pricing and the provider records' display fields are carried only as strings. No arithmetic on prices is modelled.
- Floating point is not modelled. Scores are exact tenths, so `toFixed` in log lines and any float rounding of sums are absent.
- `text.length` is the number of Dafny characters, not UTF-16 code units.
- Case mapping and `\w` are ASCII only. Non-ASCII letters are neither lower-cased nor word characters.
- Property lookup in the limit table sees only the table's own keys. Inherited object keys such as "constructor" are not modelled.
- The revised copy's `templates.includes(f)` (app/api/chat/route.ts:297) compares file objects by identity. The model excludes the chosen template by its position in the file list, which differs only when the same file object occurs twice in the list. The library copy's `templateFiles.includes(f)` (lib/knowledge-retriever.ts:399) is modelled exactly, because `templateFiles` is itself a filter of the same list, so membership is the filter's predicate.
- The unused `fieldName` in `formatValidationErrors` is left out.
- The unused `userMessage` parameter of `buildContextualPrompt` is carried but ignored, as in the source.
- The unused `intent` parameter of the revised `retrieveRelevantKnowledge` is carried but ignored, as in the source.
- The `default` branch of `selectOptimalModel` is unreachable for the five task types and is not modelled.
- Transformer.ApplyDefaultKeeps: states only that a surviving value is kept. It does not state the converse, that a non-surviving value is replaced; that direction is in `ApplyDefault`'s own contract.
- Retriever.RouteTurboBeforeGpt4: requires that the name has no exact table entry. The names that do have one ("gpt-4-turbo", "gpt-4o") also give 128000, but that case is left to `ModelContextLimit`'s contract, where an exact entry wins.
- Transformer.ConfigToExport: requires a configuration that is not `null` or `undefined`. For such a configuration, `configToExport` throws a `TypeError` when it reads `config.ui_layout` (lib/design/transformer.ts:28), and that exception is not modelled. The same requires carries over to Transformer.ConfigToExportDesign, Transformer.RoundTrip, DesignExport.GetExportData and DesignExport.GetExportDataRoundTrip. The configuration comes from the export dialog's `config` prop (components/ui/design-export-dialog.tsx:28), and the design page renders only once `chatbot` is loaded and non-null (app/chatbot/[id]/design/page.tsx:11-13). The component that passes it to the dialog is not part of this model.
- DesignExport.GetExportData: requires a configuration that is not nullish, as for Transformer.ConfigToExport above.
- Transformer.MergePartialExport: requires a current configuration that is not a string or an array. `{ ...currentConfig }` would copy their index keys (and a string's characters), and that is not modelled. The same requires carries over to Transformer.Spread, Transformer.MergeOverwrites, Transformer.MergeKeeps and Transformer.AnimationsOverwriteBoth. Transformer.MergeNothing is stated for an object configuration only, since only there the merge's result can equal the configuration's own fields. The current configuration is the import dialog's `currentConfig` prop (components/ui/design-import-dialog.tsx:29), the chatbot's configuration object.
- DesignImport.ApplyImport: requires a current configuration that is not a string or an array, as for Transformer.MergePartialExport above; DesignImport.ApplyAllOptions carries the same requires.
