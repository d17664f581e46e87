# therapeutic_relationship_ai — a verified model of the analysis pipeline

The program reads an exported chat between Rui and Maria. It pairs
neighbouring messages from different senders into interaction blocks and
splits the blocks into token-budgeted batches. It asks a language model, once
per batch and per persona, for first-person reflections, and filters those
reflections. It keeps a running feedback aggregate per persona, and finally
asks the model for a relational report, which it appends to a relational
memory.

This project models that core in Dafny, file by file:

| Dafny file | module | models |
|---|---|---|
| shared.dfy | Shared | values shared by all parts: `Result`/`Exc` for Python exceptions, `Json`, messages, blocks, the opaque collaborators (`Io`) |
| pytext.dfy | PyText | `str.strip`, `str.split`, `" ".join`, the `\s` and `\w` classes |
| utf8.dfy | Utf8 | the `utf-8` and `latin1` codecs used by `fix_encoding` (RFC 3629 sections 3 and 4; ISO/IEC 8859-1) |
| ai_base.dfy | AiBase | ai/ai_base.py: `fix_encoding`, `_clean_json`, the memory operations, `model_url` |
| batching.dfy | Batching | the greedy batching loop (main.py `split_into_batches` and both `analyze` loops) and the prefix rule of `generate_initial_memory` |
| pairing.dfy | Pairing | the adjacent-pair rule shared by both `create_interaction_blocks` |
| reflections.dfy | Reflections | the `analyze` body common to ai/ai_rui.py and ai/ai_maria.py: grouping, `extend`, the deduplicating filter, the final `update_memory` call |
| personas.dfy | Personas | ai/ai_rui.py and ai/ai_maria.py: formatting, token estimates, Rui's truncation, `_process_batch`, `generate_initial_memory`, `analyze` |
| main_py.dfy | MainScript | main.py: blocks, batches, batch keys, the cache rule, the thread bodies (run one after the other) and the `extend` accumulation |
| ai_relational.dfy | Relational | ai/ai_relational.py: memory normalisation and `generate_feedback` |
| stack_manager.dfy | StackManager | utils/stack_manager.py: the one-week filter |
| conversation_parser.dfy | ConversationParser | utils/conversation_parser.py: the timestamp-free copy of `create_interaction_blocks` |

The model follows the code exactly, defects included. Python exceptions are
values (`Raise(TypeError)` and so on), so each error path is a branch of the
model. Some of them decide what the program does:
- Both `analyze` methods call `self.update_memory(data)` without the `key`
  argument. That raises TypeError whenever a reflection survives the filter,
  so `analyze` only ever returns an empty list (`AnalyzeOutcome`,
  `AnalyzeNeverReports`).
- The profile step of `generate_initial_memory` always fails inside its own
  `try` (`self.MEMORY_SCHEMA` does not exist), so it never changes the memory.
- In main.py, `rui_feedback.copy()` is shallow. The `extend` loop therefore
  appends a list to itself, doubling it (`Doubled`, `AccumulateDoublesLists`).
- `fix_encoding` turns "é" into "Ã©" and back again, so it is not idempotent
  (`FixEncodingUndoesFallback`).

What the code does not do:
- There is no total JSON repair: a parsed non-dict still raises
  AttributeError in `generate_feedback`.
- There is no brace balancing, single-quote conversion or comment removal.
- There is no batch overlap and no rounding up of the token estimate.
- There are no capped, bounded or deduplicating merges.
- There are no retries or timeouts.
- The encoding fix-up has no replacement table and is not idempotent.

## Model

| member | source | states |
|---|---|---|
| Utf8.Latin1Encode | ai/ai_base.py:21 | `encode('latin1')` maps each code point up to U+00FF to the byte of the same number, keeping the length |
| Utf8.Latin1Decode | ai/ai_base.py:21 | `decode('latin1')` never fails and maps byte n to code point n |
| Utf8.EncodeCharDecodes | ai/ai_base.py:21 | the strict UTF-8 decoder reads back exactly the scalar value the encoder wrote, consuming exactly its bytes |
| Utf8.DecodeEncode | ai/ai_base.py:21 | decoding the UTF-8 encoding of surrogate-free text gives the text back |
| Utf8.DecodeAscii | ai/ai_base.py:21 | ASCII bytes always decode, to the same values |
| Utf8.DecodeKeepsAsciiCount | ai/ai_base.py:21 | a successful UTF-8 decode keeps the number of every ASCII value |
| Utf8.EncodeKeepsAsciiCount | ai/ai_base.py:21 | UTF-8 encoding keeps the number of every ASCII value |
| Utf8.EncodeCharAsciiCount | ai/ai_base.py:21 | the UTF-8 bytes of one scalar value hold an ASCII value once if the character is that value, else not at all |
| AiBase.FixEncodingCps | ai/ai_base.py:10-25 | the three codec pairs are tried in order and the first that raises nothing wins; surrogate-free text stays surrogate-free |
| AiBase.Cp1252FailsWhereReached | ai/ai_base.py:16-25 | the cp1252 pair is reached only on text with a lone surrogate, which it cannot encode, so such text is returned unchanged |
| AiBase.FixEncodingKeepsAscii | ai/ai_base.py:10-25 | ASCII text passes through unchanged |
| AiBase.FixEncodingFallback | ai/ai_base.py:14-21 | when the first pair fails, the result is the Latin-1 reading of the text's UTF-8 bytes |
| AiBase.FixEncodingUndoesFallback | ai/ai_base.py:13-21 | applied twice after a failed first pair, `fix_encoding` gives the input back: it toggles rather than settles |
| AiBase.FixEncodingExample | ai/ai_base.py:13-21 | "é" becomes "Ã©" and "Ã©" becomes "é" |
| AiBase.FixEncodingKeepsAsciiCount | ai/ai_base.py:10-25 | `fix_encoding` keeps the count of every ASCII character |
| AiBase.FenceAt | ai/ai_base.py:31 | a fence match is empty or at least three characters, all of them fence characters, within the text |
| AiBase.StripFencesDeletesOnlyFenceChars | ai/ai_base.py:31 | removing code fences deletes only the characters of "```json\n": apart from those, input and output agree |
| AiBase.StripFencesKeepsCount | ai/ai_base.py:31 | removing fences keeps the number of every character outside "```json\n" |
| AiBase.SpanFromIsMaximalRun | ai/ai_base.py:33 | the greedy `\s*` / `\w+` runs of the key pattern end at the first character outside the class |
| AiBase.QuoteKeysInsertsOnlyQuotes | ai/ai_base.py:33 | quoting bare keys only inserts '"': apart from double quotes the text is unchanged |
| AiBase.QuoteKeysKeepsCount | ai/ai_base.py:33 | quoting keys keeps the number of every character other than '"' |
| AiBase.QuoteKeysAddsQuotePairs | ai/ai_base.py:33 | the quote count grows by exactly two per quoted key |
| AiBase.QuoteKeysExample | ai/ai_base.py:33 | `{a:1}` becomes `{"a":1}`; an already quoted key is left alone |
| AiBase.DropTrailingCommasDeletesOnlyCommasAndSpace | ai/ai_base.py:35 | the trailing-comma pass deletes only commas and whitespace and never lengthens the text |
| AiBase.DropTrailingCommasKeepsCount | ai/ai_base.py:35 | the trailing-comma pass keeps the number of every character other than commas and whitespace |
| AiBase.DropTrailingCommasExample | ai/ai_base.py:35 | the pass is single: ",,]" keeps one comma; whitespace before the bracket goes with the comma |
| AiBase.CleanJsonKeepsBrackets | ai/ai_base.py:27-40 | `_clean_json` keeps the count of each of `{`, `}`, `[`, `]`: nothing balances brackets |
| AiBase.RStripSlash | ai/ai_base.py:8 | the URL keeps its prefix up to the trailing slashes, removes them all, and ends in no '/' |
| AiBase.UpdatedMemory | ai/ai_base.py:77-81 | `update_memory` succeeds iff the memory is a dict and a stored value under the key is a dict; the new value under the key holds `data` over the old entries; other keys unchanged; TypeError on a non-dict memory; AttributeError on a non-dict value under the key |
| AiBase.MemoryGet | ai/ai_base.py:74-75 | `get_from_memory` returns the stored value, `{}` for an absent key, AttributeError on a non-dict memory |
| AiBase.BaseAI.constructor | ai/ai_base.py:6-8 | the memory is kept as given and the URL loses its trailing slashes |
| AiBase.BaseAI.SaveToMemory | ai/ai_base.py:71-72 | a dict memory gets the key set to the value; any other memory raises TypeError and is unchanged |
| AiBase.BaseAI.GetFromMemory | ai/ai_base.py:74-75 | the stored value, or `{}` for an absent key |
| AiBase.BaseAI.UpdateMemory | ai/ai_base.py:77-81 | the memory becomes `UpdatedMemory` of the old one, or stays unchanged with its exception |
| PyText.SpaceIsNotWord | ai/ai_base.py:33 | no character is both `\s` and `\w` |
| PyText.StripStart | ai/ai_rui.py:23 | the suffix after the leading whitespace |
| PyText.StripEnd | ai/ai_rui.py:23 | the prefix before the trailing whitespace |
| PyText.StripIsTrimmedSlice | ai/ai_rui.py:23 | `strip()` is the slice between the first and last non-whitespace characters; only whitespace is cut |
| PyText.Split | ai/ai_rui.py:123 | `split()` yields non-empty words without whitespace |
| PyText.SplitJoin | ai/ai_rui.py:123-124 | `" ".join` then `split()` gives the words back |
| PyText.JoinLength | ai/ai_rui.py:124 | n words joined by spaces take at least 2n - 1 characters |
| PyText.StripKeepsCount | ai/ai_base.py:29 | stripping keeps the count of every non-whitespace character |
| Batching.TokensForWords | main.py:93-94 | `int(words / 0.75)` is the floor of 4·words/3 |
| Batching.ContinueFlattens | main.py:96-113 | the batches cover the current batch and the remaining items, in order, nothing dropped or repeated |
| Batching.ContinueIsGreedy | main.py:103-110 | every emitted batch is non-empty, within budget unless it is one item, and could not have taken the next batch's first item |
| Batching.BatchesIsGreedy | main.py:96-113 | the loop's batches are a greedy split of the items |
| Batching.GreedySplitIsUnique | main.py:103-113 | two greedy splits of the same items are equal |
| Batching.FirstBatchLongest | main.py:103-110 | a greedy first batch is at least as long as the first batch of any other greedy split |
| Batching.GreedySplitIsBatches | main.py:96-113 | any greedy split is the one the loop produces |
| Batching.OversizedItemSitsAlone | main.py:103-107 | an item over the budget is kept, alone in its batch |
| Batching.SplitIntoBatches | main.py:87-113 | the loop computes the greedy split (empty input gives no batch) |
| Batching.BudgetPrefixIsLongest | ai/ai_rui.py:29-35 | the prefix taken before the first overflowing block is the longest prefix within budget |
| Pairing.PairIndicesBelowSpec | main.py:69-72 | below k, an index is listed iff the senders differ there; the list is increasing and at most k long |
| Pairing.PairIndicesSpec | main.py:69-72 | an index i is listed iff i + 1 < n and the senders of i and i + 1 differ; increasing; at most n - 1 indices |
| Pairing.PairIndicesOfShort | utils/conversation_parser.py:3 | fewer than two messages give no pair |
| MainScript.Senders | main.py:72 | the sender of each message, in order |
| MainScript.CreateInteractionBlocks | main.py:67-85 | the index loop returns one block per sender change, in index order |
| MainScript.InteractionBlocksSpec | main.py:69-84 | a block for i is emitted iff the senders of i and i + 1 differ; every block is such a pair; at most n - 1 blocks |
| MainScript.BlockAtContent | main.py:73-84 | a block's sides come from messages i and i + 1, missing content reads as "" |
| MainScript.EstimateTokens | main.py:93-94 | the estimate is the floor of 4/3 of the word count |
| MainScript.SplitBlocks | main.py:180 | the blocks are split greedily with a budget of 3000 |
| MainScript.Digits | main.py:204 | the decimal digits of a number: non-empty, all '0'..'9' |
| MainScript.DigitsInjective | main.py:204 | different numbers have different digits |
| MainScript.BatchKeysDistinct | main.py:203-204 | `batch_{i}` keys of different batches differ |
| MainScript.FreshFeedbackNeverCached | main.py:213-215 | a cache miss never writes: `analyze` succeeds only with an empty list, which is not truthy |
| MainScript.Doubled | main.py:236-243 | after the shallow copy, `extend` turns a list L into L ++ L; a present non-list raises AttributeError; other keys unchanged |
| MainScript.AccumulateDoublesLists | main.py:239-243 | with lists under all listed keys, the loop completes and doubles each of them, nothing else changing |
| MainScript.AccumulateStopsAtNonList | main.py:239-241 | a non-list under "reflexoes" ends the loop with AttributeError before anything changes |
| MainScript.Side.constructor | main.py:143-148 | a side holds its AI, its loaded cache and its aggregate, whose fresh lists it shares with no cache entry |
| MainScript.Side.Process | main.py:208-216 | a hit returns the cached entry and writes nothing; a miss returns `analyze` and caches it only when worth caching |
| MainScript.Side.Update | main.py:208-229 | on success the aggregate is overwritten key by key with the answer, and each of those keys then shares its list with the cache entry when the answer is one (a hit or a cached miss), else with none; an exception leaves it as it was; the aggregate and the cache keep agreeing on shared lists |
| MainScript.UpdateShares | main.py:210-228 | after `update` with a hit's entry, the aggregate and that entry agree on every shared key, and entries shared before still agree |
| MainScript.Side.DoubleList | main.py:241 | `extend` of a list by itself doubles it in the aggregate and in the cache entry that shares it, and nowhere else |
| MainScript.CacheWithSharedStep | main.py:241 | changing one aggregate list changes the cache only in the entry sharing it, under that key |
| MainScript.Pipeline.constructor | main.py:228-229 | the pipeline holds the two sides |
| MainScript.Pipeline.Accumulate | main.py:236-243 | the loop over the five keys does exactly what `AccumulateFrom` describes, Rui's aggregate before Maria's per key; each cache ends up holding the aggregate's new value under every shared list |
| MainScript.Pipeline.Step | main.py:203-243 | no cache entry is added; each aggregate is updated with its side's answer, then accumulated; every cache entry whose lists the aggregate shares holds the accumulated lists |
| MainScript.HitListsDouble | main.py:210-243 | on a cache hit, every list of the entry under an accumulated key is doubled inside the cache as well |
| Reflections.Extension | ai/ai_rui.py:87 | `extend` takes a list's items, a string's characters, a dict's keys; None, booleans and numbers raise TypeError |
| Reflections.Then | ai/ai_rui.py:87 | prefixing a result keeps its exception or prefixes its list |
| Reflections.ThenThen | ai/ai_rui.py:87 | two extensions in a row are one extension by the concatenation |
| Reflections.CollectOfLists | ai/ai_rui.py:81-97 | when every batch answers with a list, the collected list is the answers laid end to end |
| Reflections.CollectOfEmptyAnswers | ai/ai_maria.py:80-96 | when every batch answers `[]`, nothing is collected |
| Reflections.GroupAndCollect | ai/ai_rui.py:81-97 | the grouping loop extends the answers of exactly the greedy batches, in order |
| Reflections.Judge | ai/ai_rui.py:103 | a reflection is admitted iff it is a dated, non-blank string-text dict whose text was not seen |
| Reflections.FilterKeepsDistinctReflections | ai/ai_rui.py:99-105 | the kept list is an ordered selection of valid reflections with distinct, unseen texts |
| Reflections.FilterStep | ai/ai_rui.py:102-105 | one successful step of the filter adds the head's text to the seen texts when it is a reflection |
| Reflections.FilterIsComplete | ai/ai_rui.py:99-105 | no valid reflection is lost: its text was seen or is kept |
| Reflections.FilterRejectsText | ai/ai_rui.py:103 | a string element (`r.get` on a str) raises AttributeError |
| Reflections.FilterReflections | ai/ai_rui.py:99-105 | the loop computes the deduplicating filter from an empty seen set |
| Reflections.RecentReflections | ai/ai_rui.py:107 | the first two reflections, or all if fewer |
| Reflections.AnalyzeOutcome | ai/ai_rui.py:107-113 | raises TypeError iff something was kept, else returns `{"recent_reflections": []}` |
| Reflections.AnalyzeNeverReports | ai/ai_rui.py:74-113 | a successful `analyze` always returns an empty list of reflections |
| Reflections.AnalyzeRaisesOnReflection | ai/ai_maria.py:98-108 | a valid reflection in the collected list makes a completed filter end in TypeError |
| Reflections.Analyze | ai/ai_maria.py:74-112 | `analyze` computes grouping, collection, filter and outcome as specified |
| Personas.Speaker | ai/ai_rui.py:17-18 | the label is "Eu" iff the sender is the persona itself, else the other persona's name |
| Personas.FormatConversation | ai/ai_maria.py:10-23 | the loop builds two lines per block and strips the result |
| Personas.TurnLineNewlines | ai/ai_rui.py:21-22 | each turn is one line |
| Personas.LinesNewlines | ai/ai_rui.py:12-22 | the text before stripping holds two newlines per block |
| Personas.TextTokens | ai/ai_maria.py:31 | Rui: `len(text) // 4`; Maria: the floor of 4/3 of the word count |
| Personas.TruncatedKeepsLeadingWords | ai/ai_rui.py:122-124 | an over-long batch is cut to its first 24420 words, in order |
| Personas.TruncatedLeavesShortText | ai/ai_rui.py:122 | a batch within 6105 tokens is left alone |
| Personas.TruncationStaysOverLimit | ai/ai_rui.py:122-125 | with 24420 words or more the cut text is still over the limit |
| Personas.AnswerReflections | ai/ai_rui.py:147-156 | a parsed dict gives its "recent_reflections" (or `[]`); anything else gives the `[]` of the except branch |
| Personas.AnalyzeWithoutAnswers | ai/ai_maria.py:74-112 | when no answer parses, `analyze` returns `{"recent_reflections": []}` |
| Personas.InitialStep | ai/ai_maria.py:29-35 | taking one more block adds its estimate and its formatted text plus a newline |
| Personas.PersonaAI.constructor | ai/ai_rui.py:6-8 | the persona's BaseAI state as given |
| Personas.PersonaAI.GenerateInitialMemory | ai/ai_rui.py:25-72 | the text and estimate are those of the longest prefix of blocks within the persona's limit, stopped at the first overflow; the memory is untouched |
| Personas.PersonaAI.Analyze | ai/ai_maria.py:74-112 | the persona's `analyze` with its limit, its cost and its batch processor |
| Relational.NormalizedSpec | ai/ai_relational.py:9-14 | both profiles exist (stored ones kept) and the history is a list (a stored list kept, anything else replaced by `[]`); other keys untouched |
| Relational.NormalizedIdempotent | ai/ai_relational.py:9-14 | normalising twice is normalising once |
| Relational.IndexOf | ai/ai_relational.py:26 | the first '{', or the length when there is none |
| Relational.LastIndexOf | ai/ai_relational.py:26 | the last '}', or -1 when there is none |
| Relational.GreedySpanSpec | ai/ai_relational.py:26 | a match exists iff a '{' precedes a '}'; it runs from the first '{' to the last '}' |
| Relational.GreedySpanTakesBothObjects | ai/ai_relational.py:26-28 | two objects with prose between are matched as one span |
| Relational.Fallback | ai/ai_relational.py:29-31 | the primary key's value, else the fallback key's, else `[]` |
| Relational.Extract | ai/ai_relational.py:25-38 | no span or an unparsable span gives three empty lists; a parsed non-dict raises AttributeError, which is not caught |
| Relational.Slice3 | ai/ai_relational.py:42-44 | `[:3]` keeps at most three items or characters, a prefix; other values raise TypeError |
| Relational.ReportSpec | ai/ai_relational.py:40-45 | the report exists iff all three values are sliceable; it holds the date and the three prefixes |
| Relational.ReportOfNoLists | ai/ai_relational.py:36-45 | with nothing extracted the report is the date and three empty lists |
| Relational.MergeProfile | ai/ai_relational.py:48-49 | the dict union of incoming feedback and stored profile: all keys of both, the stored value winning; a non-dict stored value raises TypeError |
| Relational.MergeProfileIdempotent | ai/ai_relational.py:48 | merging the same feedback again changes nothing |
| Relational.StoreReportSpec | ai/ai_relational.py:47-49 | the report is appended to the history, other keys stay, each dict profile becomes its merge, and only a merge can fail, with TypeError |
| Relational.FeedbackSpec | ai/ai_relational.py:17-52 | the memory stays well formed and keeps its keys |
| Relational.FeedbackAppendsOneReport | ai/ai_relational.py:40-49 | once a report is built the history grows by exactly it; otherwise the memory is unchanged; only the three managed keys change; after the report only a merge can fail, with TypeError |
| Relational.FeedbackStoredProfileWins | ai/ai_relational.py:48-49 | with dict profiles the call succeeds and each new profile is the merge in which the stored entries win |
| Relational.FeedbackWithoutJson | ai/ai_relational.py:26-47 | an answer without a '{' before a '}' still appends the empty report, and can only fail in a merge |
| Relational.RelationalAI.constructor | ai/ai_relational.py:7-14 | the memory is normalised and the URL stripped |
| Relational.RelationalAI.GenerateFeedback | ai/ai_relational.py:17-52 | the result and the new memory are those of `FeedbackSpec` on the model's answer; the memory stays well formed |
| StackManager.FilterLastWeek | utils/stack_manager.py:3-12 | never longer than the input; every kept message is an input message within the week |
| StackManager.FilterLastWeekSpec | utils/stack_manager.py:7-11 | an ordered subsequence; a message is kept iff its time is at least the reference minus seven days, as many times as it occurs |
| StackManager.FilterLastWeekKeepsAllRecent | utils/stack_manager.py:8-11 | the result is the whole input iff no message is older than a week |
| StackManager.FilterLastWeekIdempotent | utils/stack_manager.py:8-11 | filtering twice with the same reference is filtering once |
| StackManager.FilterLastWeekMonotone | utils/stack_manager.py:7-10 | a later reference keeps no message an earlier one drops |
| ConversationParser.CreateInteractionBlocks | utils/conversation_parser.py:1-19 | the index loop returns one block per sender change, in index order |
| ConversationParser.ChatBlocksSpec | utils/conversation_parser.py:3-18 | a block for i is emitted iff the senders of i and i + 1 differ; every block is such a pair; at most n - 1 blocks |
| ConversationParser.ChatBlocksOfShort | utils/conversation_parser.py:3 | fewer than two messages give no block |
| ConversationParser.ChatBlocksForgetTimestamps | utils/conversation_parser.py:9-18 | the blocks are main.py's blocks with the timestamps dropped, one for one |

## Left out

- The model endpoint (`_call_model_api`, ai/ai_base.py:42-69), the prompts and `_construct_prompt` are left out. The model's answer is the parameter `io.complete` and the prompts are opaque functions. The HTTP failure path returns "{}", so it is just another answer. A 2xx response without `choices[0].message.content` raises KeyError, IndexError or TypeError at ai/ai_base.py:60; the persona processors catch it (ai/ai_rui.py:147-156), but `generate_feedback` calls the endpoint outside any `try` (ai/ai_relational.py:21), and that uncaught path is left out.
- `datetime.fromtimestamp(...).strftime(...)` and `datetime.now()` are left out: the stamp is a parameter (`io.stamp`) and the date is a parameter (`today`, `referenceMs`).
- `json.loads` and `json.dumps` are left out. Parsing is the parameter `io.parse`, which returns None where Python raises JSONDecodeError.
- The file and pickle I/O of main.py (`load_memory`, `save_memory`, `load_conversations`, `save_report`, `load_cache`, `save_cache`) is left out, as is `print`.
- Threads and the lock of main.py:201-233 are left out. The two thread bodies run one after the other, Rui's first, so interleavings are not modelled.
- The enumerate loop over all batches (main.py:203) is not modelled beyond one iteration, `MainScript.Pipeline.Step`. The final `generate_feedback` call is modelled on its own.
- The `is_blocks=False` branch of `split_into_batches` (main.py:101) is left out: main.py never takes it.
- Numbers in `Json` are integers, and float arithmetic is left out. The token estimates are exact floors, which agree with Python's `/ 0.75` and `// 0.75` for realistic word counts.
- Relational.Slice3: slicing a dict raises TypeError before Python 3.12. From 3.12 on, slices are hashable and the same expression raises KeyError. The model follows the older behaviour.
- Reflections.Extension: extending by a dict adds its keys. The model adds that many empty strings instead, because the filter rejects any string whatever it spells.
- Dict key order is left out: objects are maps.
- Personas.PersonaAI.GenerateInitialMemory: the profile request, its parsing and `update_memory` are left out. They always raise inside the method's own `try`, so the memory never changes.
- MainScript.Side.Process: caches are maps from keys to feedback dicts. Object identity is tracked only where it matters: `Side.shared` records which aggregate list is the list of which cache entry.
- MainScript.Pipeline.Step: a hit's lists grow with the aggregate (doubled per batch while shared), and `save_cache` (main.py:250-251) writes the grown entries to disk for the next run; that write is left out with the rest of the file I/O.
- The memory of a persona may be None on a first run. `Json` has `JNull` for it, but the relational memory is required to be a dict, because `setdefault` on anything else raises before the object exists.
- A message's `content` is a string or absent, and its `sender_name` a string. `load_conversations` (main.py:47-49) always sets both keys; a None sender (an export without `sender_name`) and non-string content are left out.
- `\w` is enumerated only up to U+00FF. The `\s` class is Python's `str.isspace`.
- The naive local-time conversion in `filter_last_week_messages` is left out: times are compared as whole milliseconds. The `reference_date=None` default (the clock) is a parameter.
