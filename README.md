# AI Video/Audio Summarizer backend: a verified model of its deterministic core

This project models the deterministic logic of the summarizer's FastAPI backend (and two helpers of its Node backend). That logic sits around the AI, transcription and storage calls:

- **Chat service.** Keyword-overlap retrieval over transcript segments. Sentence-based pseudo-segmentation of untimed transcripts. The "Referenced timestamps" trailer. The multi-turn `chat_agent`/`chat_gpt` handlers with their per-user history files. The translation-intent detector and translation shortcut. The token-usage estimate. The `stream_chunks` chunker.
- **Unified media router.**
  - The sliding-window rate limiter (in both copies).
  - The TXT and SRT exports and the PDF time stamps.
  - Summary normalisation.
  - The media-metadata rules.
- **Database media router.** The retrieval of its chat handler, its SRT export, the analytics word count and the chunked-upload assembly.
- **Pseudo-streaming transcriber.** `RealtimeTranscriber`, a state machine over a byte buffer.
- **`search` fallback chain.** Embedding results first, then BM25, top five.
- **Upload-extension validators.** The Python one and the Node one.
- **Bearer-header checks.** `get_current_user_optional`, `get_current_user` and the router dependency.

How the outside world appears in the model:

- **Times** are integer milliseconds (`nat`).
- **Collaborators are function parameters.** This covers:
  - the LLM call `complete` (None: it raised);
  - the one-decimal float rendering of a time in prompts `fmt1`;
  - the embedding search `embed` and the BM25 scorer `bm25`;
  - the JWT decode `decode` (None: it raised);
  - the Whisper decode;
  - the summary generator;
  - the uuid and the clock `now`.
- **Storage becomes maps.** Transcript files are a `map` from media id to `Transcript`. History files are the `files` field of a `HistoryStore`. Rate-limit buckets are the `buckets` field of a `SlidingWindow`. Upload folders are the fields of `Disk` and `ChunkStore`.
- **Objects the source mutates are classes.** Their methods state their whole new state.
- **Loops of the source are methods with invariants.** Each is proved equal to a specification function, and the properties are proved about that function.

Module layout:

| file | module | what it holds |
|---|---|---|
| `wrappers.dfy` | `Wrappers` | `Option`, `Result`, `HttpError` |
| `text.dfy` | `Text` | Python string operations: `lower`, `split`, `strip`, `title`, `in`, `count`, slicing, `str(int)`, zero padding |
| `transcripts.dfy` | `Transcripts` | segments, transcripts, `data.get('text') or ' '.join(...)` |
| `ranking.dfy` | `Ranking` | stable descending sort (`list.sort(key, reverse=True)`) |
| `retrieval.dfy` | `Retrieval` | term filter, substring-count score, top-K with fallback |
| `replies.dfy` | `Replies`, `Usage` | reply records, `_estimate_tokens`, `_build_usage` |
| `translation.dfy` | `Translation` | language table, detector, `translate_transcript`, `maybe_handle_translation` |
| `chat.dfy` | `Chat` | `call_gemini_chat`, pseudo-segmentation, trailer, `chat` |
| `history.dfy` | `History` | history files, `chat_agent`, `chat_gpt`, `clear_history` |
| `streaming.dfy` | `Streaming` | `stream_chunks` |
| `rate_limit.dfy` | `RateLimit` | `_rate_limit` of both routers |
| `export.dfy` | `Export` | `export_txt`, `export_srt`, `fmt`, `fmt_ts` |
| `unified_media.dfy` | `UnifiedMedia` | summary normalisation, `summarize_media`, `get_summary`, `get_media_meta` |
| `media_api.dfy` | `MediaApi` | the database router's `chat`, `export_srt`, `analytics`, `upload_chunk` |
| `realtime.dfy` | `Realtime` | `RealtimeTranscriber` |
| `search.dfy` | `Search` | `search` |
| `uploads.dfy` | `Uploads` | `save_upload`, `validateExt`, `saveUploaded` |
| `auth.dfy` | `Auth` | bearer-header parsing and the three user checks |

The two routers differ in small ways, and the model keeps each as written:

- The unified router's SRT block ends at `start + 2` seconds when a segment has no end (`EndOrTwoSeconds`). The database router's ends at 0 (`EndOrZero`).
- `search` pairs the BM25 scores with **all** segments, including empty ones, although the scores are computed for the non-empty texts only. This is logged under "## Findings".

## Model

| member | source | states |
|---|---|---|
| Text.LowerChar | backend/app/services/gemini_service.py:54 | an upper-case ASCII letter becomes the letter 32 code points above it, which is its lower-case form; any other character is unchanged; the result is never upper-case |
| Text.TitleCase | backend/app/services/gemini_service.py:78 | `str.title()` keeps the length; a letter at the start or after a non-letter is upper-cased; a letter after a letter is lower-cased; every non-letter is unchanged |
| Text.Take | backend/app/services/gemini_service.py:170 | `s[:n]` is the prefix of length min(n, \|s\|) |
| Text.Last | backend/app/services/gemini_service.py:253 | `s[-n:]` is the suffix of length min(n, \|s\|) for n > 0, and all of s for n = 0 (since `-0` is `0`) |
| Text.ContainsIffOccurs | backend/app/services/gemini_service.py:201 | `t in s` holds iff t occurs at some index of s |
| Text.CountPositiveIffContains | backend/app/services/gemini_service.py:162 | for a non-empty t, `s.count(t) > 0` iff `t in s` |
| Text.TrimLeft | backend/app/services/gemini_service.py:185 | drops exactly the leading whitespace; the rest starts with a non-space |
| Text.TrimRight | backend/app/services/gemini_service.py:185 | drops exactly the trailing whitespace; the rest ends with a non-space |
| Text.Words | backend/app/services/gemini_service.py:157 | `str.split()` yields non-empty words without whitespace |
| Text.WordsOfWord | backend/app/services/gemini_service.py:157 | a non-empty run without whitespace splits into exactly itself |
| Text.WordsConcatSpace | backend/app/services/gemini_service.py:157 | splitting text with a whitespace run in it gives the words before the run followed by the words after it |
| Text.WordsBlankPrefix | backend/app/services/gemini_service.py:157 | leading whitespace does not change the words |
| Text.WordsEmptyIffBlank | backend/app/services/gemini_service.py:329-333 | `s.split()` is empty iff s is all whitespace |
| Text.WordsStrip | backend/app/services/gemini_service.py:332 | `s.strip().split() == s.split()` |
| Text.StripIsStripOf | backend/app/services/gemini_service.py:35 | `s.strip()` is s with a whitespace prefix and a whitespace suffix removed, and it neither starts nor ends with whitespace |
| Text.StripIdempotent | backend/app/services/gemini_service.py:35 | stripping twice is stripping once |
| Text.KeptIndices | backend/app/services/gemini_service.py:189 | the kept positions of a comprehension's `if`: increasing, in range, each satisfying the condition, and including every position that does |
| Text.FilterMapSpec | backend/app/services/gemini_service.py:189 | `[f(x) for x in s if keep(x)]` has one result per kept position, in order, and the i-th is f of the element at the i-th kept position |
| Text.KeptNone | backend/app/services/gemini_service.py:207 | nothing is kept iff no element satisfies the condition |
| Text.JoinSnoc | backend/app/services/gemini_service.py:273 | joining one more part adds the separator and that part |
| Text.NatToString | backend/app/unified_media.py:354 | `str(idx)` is a non-empty digit string |
| Text.ParseNatToString | backend/app/unified_media.py:354 | `str(n)` reads back as n |
| Text.ParseZeroPad | backend/app/unified_media.py:350 | a zero-padded field reads back as its number |
| Text.ZeroPadLength | backend/app/unified_media.py:350 | `{n:0w}` has exactly w digits when n < 10^w |
| Transcripts.SegmentTexts | backend/app/unified_media.py:55 | the texts of the segments, one per segment, in order |
| Transcripts.FullTextEmpty | backend/app/unified_media.py:332 | `text or ' '.join(seg texts)` is empty iff the text is empty and there are no segments or a single empty one |
| Ranking.InsertMultiset | backend/app/services/gemini_service.py:165 | inserting into the sorted list adds exactly that element |
| Ranking.InsertSorted | backend/app/services/gemini_service.py:165 | insertion keeps the list sorted by descending score |
| Ranking.InsertWithKey | backend/app/services/gemini_service.py:165 | among the elements of its key, the inserted one comes first and the others keep their order |
| Ranking.SortDescPermutation | backend/app/services/gemini_service.py:165 | `sort(key, reverse=True)` is a permutation of its input |
| Ranking.SortDescSorted | backend/app/services/gemini_service.py:165 | the sorted list is in descending key order |
| Ranking.SortDescStable | backend/app/services/gemini_service.py:165 | the sort is stable: the elements of each key keep their input order |
| Ranking.WithKeyTakePrefix | backend/app/services/gemini_service.py:166 | cutting a list keeps a prefix of each key's elements |
| Retrieval.LongWords | backend/app/services/gemini_service.py:157 | the terms are exactly the words longer than 2 characters |
| Retrieval.ScorePositiveIffSomeTermOccurs | backend/app/services/gemini_service.py:160-163 | the score is positive iff some term occurs in the lower-cased text |
| Retrieval.ScoredHits | backend/app/services/gemini_service.py:158-164 | scored holds exactly the positive-score segments, each with its own score |
| Retrieval.ScoredAppend | backend/app/services/gemini_service.py:159-164 | the scoring loop distributes over concatenated segment lists |
| Retrieval.ScoredWithKey | backend/app/services/gemini_service.py:159-164 | for each score, the scored segments are the input's segments of that score, in input order |
| Retrieval.HitSegments | backend/app/services/gemini_service.py:166 | `[s for _, s in ...]` keeps the segments in order |
| Retrieval.ScoreSegments | backend/app/services/gemini_service.py:158-164 | the scoring loop computes the specification `Scored` |
| Retrieval.Retrieve | backend/app/services/gemini_service.py:157-166 | the retrieval loop computes the specification `Top` |
| Retrieval.RankedHits | backend/app/services/gemini_service.py:165 | the sorted hits are in descending order, are exactly the positive-score segments, and are empty iff no segment scores |
| Retrieval.TopFallback | backend/app/services/gemini_service.py:166 | when nothing scores, the selection is the first `fallback` segments |
| Retrieval.TopSelection | backend/app/services/gemini_service.py:166 | otherwise it is min(k, #scored) positive-score segments in descending order, including every segment that beats the last one |
| Retrieval.TopIncludesBetter | backend/app/services/gemini_service.py:166 | a hit scoring above the cut-off is among the first k |
| Retrieval.CutFacts | backend/app/services/gemini_service.py:166 | the first k of the ranking have the size, membership, order and inclusion properties |
| Retrieval.TopStableOnTies | backend/app/services/gemini_service.py:165-166 | among the selected segments of one score, the input order is kept (a prefix of that score's segments) |
| Retrieval.ExampleDogQuestion | backend/app/services/gemini_service.py:157-166 | for the question "Dog" over "cat" and "dog" segments, only the "dog" segment is selected |
| Usage.EstimateTokensSpec | backend/app/services/gemini_service.py:328-333 | the estimate is floor(1.3 × word count), 0 iff the text is blank, and never below the word count |
| Usage.BuildUsage | backend/app/services/gemini_service.py:335-341 | prompt = est(question) + floor(extra/4); completion = est(completion); total = prompt + completion |
| Usage.BuildUsageContextMonotone | backend/app/services/gemini_service.py:336 | prompt tokens grow with the extra context, and every 4 characters add one token |
| Translation.FirstNameAt | backend/app/services/gemini_service.py:50 | the first table name matching as a word at a position, or none matches there |
| Translation.FindFromSpec | backend/app/services/gemini_service.py:50 | the pattern search finds the leftmost position where a table name matches |
| Translation.FindLanguageSpec | backend/app/services/gemini_service.py:57 | `_LANG_PATTERN.search` finds the leftmost match, and None iff no name matches anywhere |
| Translation.NamesNonEmpty | backend/app/services/gemini_service.py:43-48 | every table name is non-empty |
| Translation.Lookup | backend/app/services/gemini_service.py:60 | `LANG_NAME_TO_CODE.get` answers iff the name is in the table |
| Translation.LookupFinds | backend/app/services/gemini_service.py:60 | with distinct names before it, an entry's name looks up its own code |
| Translation.NamesDistinct | backend/app/services/gemini_service.py:43-48 | the table has no repeated name |
| Translation.LookupTableName | backend/app/services/gemini_service.py:60 | every table name looks up its own code |
| Translation.DetectTranslationSpec | backend/app/services/gemini_service.py:52-66 | a code only when a trigger phrase or "transcript" occurs and a name matches, then the leftmost name's code; None iff no trigger or no match |
| Translation.DetectWithTranscript | backend/app/services/gemini_service.py:62-65 | a question mentioning "transcript" and a language gets that language's table code |
| Translation.ExampleHindiRequest | backend/app/services/gemini_service.py:62-65 | "hindi transcript" is detected as a request for "hi" |
| Translation.RemoveAllLength | backend/app/services/gemini_service.py:35 | `replace('```','')` removes 3 characters per occurrence and nothing when there is none |
| Translation.TranslateTranscript | backend/app/services/gemini_service.py:17-39 | "" for empty text; the text for English targets and for a failed call; else the cleaned reply |
| Translation.CleanReply | backend/app/services/gemini_service.py:35 | the result is the reply stripped, with every "```" removed, then stripped again; it is shorter than the stripped reply by at least 3 characters per fence; a fence-free reply is just stripped |
| Translation.TranslateCleanReply | backend/app/services/gemini_service.py:32-36 | a reply with no fence and no surrounding whitespace is returned unchanged |
| Translation.LanguageTitle | backend/app/services/gemini_service.py:78 | a code with no table entry is its own title |
| Translation.LanguageTitleFirst | backend/app/services/gemini_service.py:78 | otherwise the title is `name.title()` of the first table entry with that code |
| Translation.MaybeHandleTranslation | backend/app/services/gemini_service.py:68-82 | None iff nothing is detected; "not found" without a transcript; else the prefix, at most 60000 translated characters, no references, usage over `text[:4000]` |
| Chat.FirstBreak | backend/app/services/gemini_service.py:189 | the first sentence break at or after i, or none before the end |
| Chat.SpaceLen | backend/app/services/gemini_service.py:189 | the length of the whitespace run after a break |
| Chat.SplitNoBreak | backend/app/services/gemini_service.py:189 | text in which the pattern never matches is one piece, itself |
| Chat.SplitAtBreak | backend/app/services/gemini_service.py:189 | a first sentence ending in `.`, `!` or `?` with no break inside it, followed by a whole whitespace run and the rest: the pieces are that sentence followed by the pieces of the rest |
| Chat.SplitSentencesSpec | backend/app/services/gemini_service.py:189 | `re.split(r'(?<=[.!?])\s+')`: every piece but the last ends in `.`, `!` or `?`; no piece holds a break; no later piece starts with whitespace |
| Chat.SplitTerminated | backend/app/services/gemini_service.py:189 | every piece but the last ends with a sentence terminator |
| Chat.SplitUnbroken | backend/app/services/gemini_service.py:189 | no piece contains a terminator followed by whitespace |
| Chat.SplitStartsPastSpace | backend/app/services/gemini_service.py:189 | no piece after the first starts with whitespace |
| Chat.SplitSentencesEmpty | backend/app/services/gemini_service.py:185-190 | an empty text has no sentences |
| Chat.NonBlankStripped | backend/app/services/gemini_service.py:189 | `[p.strip() for p in ... if p.strip()]`: the i-th result is the strip of the piece at the i-th position whose strip is non-empty, in increasing order; every other piece strips to "" and is dropped; no result is empty |
| Chat.Windows | backend/app/services/gemini_service.py:193-195 | sentence k gets the window [5(i+k), 5(i+k)+5) seconds and its own text |
| Chat.Synthetic | backend/app/services/gemini_service.py:192-195 | at most 120 segments; sentence i gets start 5i s, end 5i+5 s |
| Chat.Synthesize | backend/app/services/gemini_service.py:192-195 | the synthesis loop builds exactly `Synthetic` |
| Chat.EffectiveSegmentsSpec | backend/app/services/gemini_service.py:181-196 | untimed segments with at least one sentence are replaced by the synthetic windows; otherwise the segments are unchanged |
| Chat.ContextLines | backend/app/services/gemini_service.py:167 | the context lines exist iff every selected segment has both times, one line per segment |
| Chat.ContextMissingTime | backend/app/services/gemini_service.py:167 | formatting the context raises iff some selected segment lacks a start or an end |
| Chat.ChatAnswerSpec | backend/app/services/gemini_service.py:167-171 | raises on a missing time; otherwise fails iff the model call fails; the references are the first five selected |
| Chat.GeminiChatSpec | backend/app/services/gemini_service.py:155-171 | `call_gemini_chat` on the top 8 (or first 4): the same error and reply rules as above |
| Chat.CallGeminiChat | backend/app/services/gemini_service.py:155-171 | the handler computes `GeminiChat` |
| Chat.AnswerOn | backend/app/services/gemini_service.py:167-171 | the prompt-and-call part computes `ChatAnswer` |
| Chat.MmSsSpec | backend/app/services/gemini_service.py:202-204 | `fmt(t)` is `mm:ss` whose fields read back as minutes and seconds (below 100 minutes) |
| Chat.RefStamps | backend/app/services/gemini_service.py:207 | one stamp per reference with a start, in order: the i-th is `"[" + mm:ss + "]"` of the i-th reference with a start; empty iff no reference has a start |
| Chat.RefStringSpec | backend/app/services/gemini_service.py:207 | `ref_str` is the first min(120, n) characters of the comma-joined stamps, is empty iff no reference has a start, and starts with `[` otherwise |
| Chat.JoinNonEmptyHead | backend/app/services/gemini_service.py:207 | a join starts with the first part's first character |
| Chat.WithTrailerSpec | backend/app/services/gemini_service.py:201-209 | with no `[` in the answer and a reference with a start: `answer.strip()`, the label, and `ref_str`; otherwise the answer unchanged |
| Chat.ContainsBracket | backend/app/services/gemini_service.py:201 | a `[` at some index means `'[' in s` |
| Chat.WithTrailerIdempotent | backend/app/services/gemini_service.py:201-209 | adding the trailer twice is adding it once |
| Chat.ModelAnswerSpec | backend/app/services/gemini_service.py:198-211 | fails exactly as `call_gemini_chat`; else the trailered answer, the five references and the usage of the answer |
| Chat.ChatReplySpec | backend/app/services/gemini_service.py:173-211 | `chat`: the translation reply when one is detected; "not found" without a transcript; else the answer on the effective segments |
| History.AnonymousShareHistory | backend/app/services/gemini_service.py:215-217 | no id, the empty id and "anon" share one history file |
| History.Retain | backend/app/services/gemini_service.py:231 | exactly the last min(40, n) entries: the history when it fits, and always a suffix of it of that length |
| History.RetainAppend | backend/app/services/gemini_service.py:228-233 | the stored file is always the last 40 of all entries ever appended |
| History.RoleLines | backend/app/services/gemini_service.py:268-272 | at most one line per entry |
| History.RoleLinesAllChat | backend/app/services/gemini_service.py:269-272 | user and assistant entries each give their own rendered line, in order |
| History.RoleLinesNoChat | backend/app/services/gemini_service.py:270-271 | entries of other roles give no line |
| History.RoleLinesSnoc | backend/app/services/gemini_service.py:269-272 | one more entry adds its line iff it is a user or assistant entry |
| History.ConversationLines | backend/app/services/gemini_service.py:268-272 | the conversation loop computes `RoleLines` |
| History.AnsweredSpec | backend/app/services/gemini_service.py:283-287 | a turn appends exactly the user entry and then the reply, and shows a suffix ending in that exchange |
| History.AgentContext | backend/app/services/gemini_service.py:266 | the context is the rendered lines cut to 6000 characters, or None when a time is missing |
| History.AgentTurnSpec | backend/app/services/gemini_service.py:253-287 | the history gains the exchange; references are the first 6 of the top 10 (or first 5); the reply shows the last 20 entries |
| History.AgentAnswerSpec | backend/app/services/gemini_service.py:268-287 | fails iff the model call fails; else the exchange is appended, there are six references and 20 entries are shown |
| History.AgentTurnFails | backend/app/services/gemini_service.py:266 | an agent turn raises on formatting iff a selected segment lacks a time |
| History.TranscriptSummary | backend/app/services/gemini_service.py:298-303 | the first min(4000, n) characters of the texts of the first 150 segments joined by spaces, and empty without a transcript or segments |
| History.GptTurnSpec | backend/app/services/gemini_service.py:307-324 | fails iff the model call fails; else the exchange is appended, there are no references and 30 entries are shown |
| History.AgentConversation | backend/app/services/gemini_service.py:268-273 | the loop computes the conversation block of the last eight entries |
| History.GptConversation | backend/app/services/gemini_service.py:307-312 | the loop computes the conversation of the last 30 entries |
| History.RunAgentTurn | backend/app/services/gemini_service.py:253-287 | the handler body computes `AgentTurn` |
| History.RunAgentAnswer | backend/app/services/gemini_service.py:268-287 | the prompt-and-call part computes `AgentAnswer` |
| History.RunGptTurn | backend/app/services/gemini_service.py:298-324 | the handler body computes `GptTurn` |
| History.HistoryStore.constructor | backend/app/services/gemini_service.py:215-217 | no history files |
| History.HistoryStore.Load | backend/app/services/gemini_service.py:219-226 | the stored entries, or [] for a missing or unreadable file |
| History.HistoryStore.Save | backend/app/services/gemini_service.py:228-233 | writes the last 40 entries to the one file; loading it gives them back |
| History.HistoryStore.Clear | backend/app/services/gemini_service.py:345-353 | true without a file; otherwise the file is gone iff unlinking works, and the result says so |
| History.HistoryStore.ChatAgent | backend/app/services/gemini_service.py:235-287 | `chat_agent`: the translation shortcut and "not found" write nothing; a failed turn writes nothing; else the reply, with the retained history saved |
| History.HistoryStore.ChatGpt | backend/app/services/gemini_service.py:289-324 | `chat_gpt`: the translation shortcut writes nothing; else the turn's reply, with the retained history saved |
| Streaming.FlushYield | backend/app/services/gemini_service.py:362-364 | yielding the buffer and starting a new one keeps the joined output |
| Streaming.FlushExtend | backend/app/services/gemini_service.py:365-366 | extending the buffer by a word extends the joined output by that word |
| Streaming.StripSpaced | backend/app/services/gemini_service.py:366 | `f"{buf} {part}".strip()` is the part alone for an empty buffer, else the buffer, a space and the part |
| Streaming.ExtendTrimmed | backend/app/services/gemini_service.py:366 | extending a trimmed buffer needs no strip |
| Streaming.YieldStep | backend/app/services/gemini_service.py:362-364 | the yield branch keeps the chunker invariant |
| Streaming.ExtendStep | backend/app/services/gemini_service.py:365-366 | the extend branch keeps the chunker invariant |
| Streaming.StreamChunks | backend/app/services/gemini_service.py:358-368 | no empty chunk; the chunks joined by spaces equal `' '.join(answer.split())`; each chunk fits `size` or is a single word; greedy: no chunk plus a space plus the next chunk's first word fits `size` |
| RateLimit.BucketKeyInjective | backend/app/unified_media.py:314 | `"namespace:key"` or just the namespace for a falsy key; distinct keys get distinct buckets |
| RateLimit.Prune | backend/app/unified_media.py:315 | only timestamps after the cutoff survive |
| RateLimit.PruneMembers | backend/app/unified_media.py:315 | a timestamp survives iff it was stored and is after the cutoff |
| RateLimit.PruneAppend | backend/app/unified_media.py:315 | pruning distributes over concatenation |
| RateLimit.PruneTwice | backend/app/routes.py:118-121 | pruning at two cutoffs is pruning at the later |
| RateLimit.AdmitSpec | backend/app/unified_media.py:315-319 | rejected iff the survivors reach the limit; else at most `limit` entries ending with `now`: the survivors and `now` |
| RateLimit.StepKeepsWindow | backend/app/routes.py:117-125 | each call keeps the entries stored within the window equal to the accepted ones, and no more than the limit |
| RateLimit.ReplayWindowBound | backend/app/routes.py:115-125 | over any time-ordered sequence of calls, at most `limit` are accepted within the window ending at the last call, and exactly those are stored there |
| RateLimit.SlidingWindow.constructor | backend/app/routes.py:114 | no buckets |
| RateLimit.SlidingWindow.Entries | backend/app/unified_media.py:315 | `_RL_BUCKET.get(bucket_key, [])` |
| RateLimit.SlidingWindow.RateLimit | backend/app/unified_media.py:312-319 | a rejection is a 429 that changes nothing; an acceptance stores the survivors plus `now` in that bucket only; bounded buckets stay bounded |
| Export.ClockOfSpec | backend/app/unified_media.py:348-350 | h, m, s, ms decompose the time, with m, s < 60 and ms < 1000 |
| Export.SrtTimeRoundTrip | backend/app/unified_media.py:348-350 | `HH:MM:SS,mmm` is 12 characters whose fields read back as the time (below 100 hours) |
| Export.PdfTimeMatchesSrt | backend/app/unified_media.py:390-394 | `fmt_ts` is the SRT stamp with `.` before the milliseconds, without the hours when h is zero |
| Export.BlocksSpec | backend/app/unified_media.py:351-358 | four lines per segment; lines 4i..4i+3 are segment i's block, numbered i+1 |
| Export.RouterBlocksSpec | backend/app/unified_media.py:353-357 | the two routers' blocks are the SRT block with their own end default |
| Export.BuildSrtLines | backend/app/unified_media.py:351-358 | the block loop computes `Blocks` |
| Export.SrtTimeZero | backend/app/unified_media.py:362 | `fmt(0)` is `00:00:00,000` |
| Export.SrtTimeTenMinutes | backend/app/unified_media.py:362 | `fmt(600)` is `00:10:00,000` |
| Export.FallbackStamps | backend/app/unified_media.py:362 | the fallback's literal stamps are those of 0 and 10 minutes |
| Export.SrtContentFallback | backend/app/unified_media.py:359-362 | with no segments the content is `"1\n00:00:00,000 --> 00:10:00,000\n" + text + "\n"` |
| Export.SrtContentBlocks | backend/app/unified_media.py:351-358 | with segments: the joined blocks, each the number, stamps with end default start+2 s, stripped text and a blank line |
| Export.ExportSrt | backend/app/unified_media.py:337-363 | 404 without a transcript, else the SRT content |
| Export.ExportTxt | backend/app/unified_media.py:324-335 | 404 without a transcript, else `text or ' '.join(segment texts)` |
| UnifiedMedia.SetDefault | backend/app/unified_media.py:142 | `setdefault` adds the key only when it is absent and overwrites nothing |
| UnifiedMedia.NormalizedSpec | backend/app/unified_media.py:140-143 | `highlights` comes from `key_highlights` only when absent; both fields default to []; other keys are untouched |
| UnifiedMedia.NormalizedIdempotent | backend/app/unified_media.py:248-251 | normalising twice is normalising once |
| UnifiedMedia.NormalizeSummary | backend/app/unified_media.py:140-143 | the in-place updates compute `Normalized` |
| UnifiedMedia.GetSummary | backend/app/unified_media.py:227-252 | processing iff no transcript file; otherwise the normalised summary |
| UnifiedMedia.SummarizeMedia | backend/app/unified_media.py:125-144 | 400 iff neither `media_id` nor `id` is given, else the summary of the first one present |
| UnifiedMedia.FirstRaw | backend/app/unified_media.py:35-37 | the first stored file of the media that is not a transcript or summary file, or None iff there is none |
| UnifiedMedia.Snippet | backend/app/unified_media.py:52-57 | present iff there are 1 to 200 segments; then the first min(2000, n) characters of the joined texts |
| UnifiedMedia.GetMediaMetaSpec | backend/app/unified_media.py:28-66 | 404 iff neither the raw file nor the transcript exists; status `done` iff the transcript was loaded; the counts and language of the transcript, and its Snippet as the transcript field |
| MediaApi.SelectedSpec | backend/app/api/media.py:125-139 | the top 8 positive-score segments in descending order with no fallback, and none without stored segments |
| MediaApi.ContextEmptyIffNone | backend/app/api/media.py:143-144 | the rendered context is empty iff no segment was selected, which is when the prompt falls back to `transcript[:4000]` |
| MediaApi.ApiChatSpec | backend/app/api/media.py:115-146 | 400 without a transcript; raises on a missing time; else the model's answer to the right prompt, with the first five selected as references |
| MediaApi.ChatHandler | backend/app/api/media.py:115-146 | the handler computes `ApiChat` |
| MediaApi.ApiSrtContentSpec | backend/app/api/media.py:193-199 | the raw transcript without segments; else blocks numbered from 1 with the end defaulting to 0 |
| MediaApi.ApiExportSrt | backend/app/api/media.py:178-200 | 404 without a transcript, else the SRT content |
| MediaApi.WordCountSpec | backend/app/api/media.py:91 | the number of whitespace tokens, 0 iff the transcript is missing or blank |
| MediaApi.Analytics | backend/app/api/media.py:85-98 | 404 for a missing row, else the word count |
| MediaApi.AssembleCompleteIff | backend/app/api/media.py:67-70 | the assembly completes iff parts 0..n-1 all exist |
| MediaApi.AssembleStep | backend/app/api/media.py:67-70 | each part is appended in index order |
| MediaApi.AssemblePrefix | backend/app/api/media.py:67-70 | what is written after i parts is a prefix of the final file |
| MediaApi.AssembleLayout | backend/app/api/media.py:67-70 | part i sits in the file right after parts 0..i-1 |
| MediaApi.AssembleStops | backend/app/api/media.py:68-69 | after a missing part nothing more is written |
| MediaApi.ChunkStore.constructor | backend/app/api/media.py:54 | no chunk directories and no files |
| MediaApi.ChunkStore.Parts | backend/app/api/media.py:56 | the parts of an upload, none for a new one |
| MediaApi.ChunkStore.UploadChunk | backend/app/api/media.py:52-75 | the chunk is stored; with exactly `total` parts they are assembled in order and the directory removed; a missing part raises and leaves the directory |
| MediaApi.ChunkStore.WriteAssembled | backend/app/api/media.py:66-70 | the write loop writes `Assemble(parts, n)` and reports completeness |
| Realtime.Delta | backend/app/services/realtime_service.py:49-52 | the suffix after the last text when the new text starts with it, else the whole text |
| Realtime.DeltaSuffix | backend/app/services/realtime_service.py:49-53 | the delta is a suffix of the new text, empty iff that text is empty or the last one |
| Realtime.PartialForSpec | backend/app/services/realtime_service.py:46-55 | a partial only for a non-empty text with a non-blank delta, carrying the text, the delta and at most the last five segments |
| Realtime.LastTextSnoc | backend/app/services/realtime_service.py:53-55 | the last emitted text follows the last partial or final sent |
| Realtime.RealtimeTranscriber.constructor | backend/app/services/realtime_service.py:18-25 | empty buffer, no text, time 0, not closing |
| Realtime.RealtimeTranscriber.AddChunk | backend/app/services/realtime_service.py:27-29 | the data goes at the end of the buffer and nothing else changes |
| Realtime.RealtimeTranscriber.MaybeDecode | backend/app/services/realtime_service.py:31-55 | a no-op before the interval or below 4000 bytes; else the time is recorded, a failure sends an error, a partial is sent and recorded |
| Realtime.RealtimeTranscriber.Finalize | backend/app/services/realtime_service.py:74-90 | a second call changes nothing; the first closes and sends one final (or error), with the decoded text or the last one |
| Realtime.RealtimeTranscriber.EmitFinal | backend/app/services/realtime_service.py:78-90 | the one message `finalize` sends after closing, keeping the last-text invariant |
| Search.Zip | backend/app/services/search_service.py:22 | pairs by position, as many as the shorter list |
| Search.NonEmpty | backend/app/services/search_service.py:17 | exactly the segments with a non-empty text |
| Search.Tokenized | backend/app/services/search_service.py:17 | one token list per non-empty text, in order |
| Search.Hits | backend/app/services/search_service.py:23-27 | each result is the segment's text, start and score |
| Search.TopFiveSpec | backend/app/services/search_service.py:22 | min(5, n) results in descending score, a sub-multiset of the pairs' hits (none repeated more often than it occurs), and every pair whose hit is left out scores no higher than the last result |
| Search.ChainSpec | backend/app/services/search_service.py:6-14 | [] without a transcript; non-empty embedding results unchanged; else the BM25 fallback |
| Search.TopFiveOfZip | backend/app/services/search_service.py:22 | every top result is document k with score k |
| Search.RankedTexts | backend/app/services/search_service.py:23-24 | results drawn from non-empty documents have non-empty texts |
| Search.Bm25AlignedSpec | backend/app/services/search_service.py:16-27 | [] when every text is empty; else the top results of the non-empty segments paired with their own BM25 scores: at most five, best first, a sub-multiset of those hits, and every segment left out scores no higher than the last result |
| Search.Bm25AsWrittenBounds | backend/app/services/search_service.py:16-22 | as written, still at most five results, no more than the non-empty texts, best first |
| Search.SortOne | backend/app/services/search_service.py:22 | sorting one pair leaves it alone |
| Search.SearchMisaligned | backend/app/services/search_service.py:17-22 | an empty segment before a matching one receives that one's score |
| Uploads.LastIndex | backend/app/utils/file.py:14 | the last index of a character, or None iff it is absent |
| Uploads.BaseName | backend/app/utils/file.py:14 | the part after the last `/` |
| Uploads.DotSuffix | backend/app/utils/file.py:14 | the suffix from the last dot of a base name |
| Uploads.PyExt | backend/app/utils/file.py:14 | `os.path.splitext`: a non-empty extension is the base name's suffix from its last dot, and the part before that dot is not all dots; "" iff the base name has no dot or everything before its last dot is dots |
| Uploads.TrimSlashes | backend_node/utils/fileUtils.js:8 | drops trailing slashes |
| Uploads.NodeExt | backend_node/utils/fileUtils.js:8 | `path.extname` after trailing slashes: a non-empty extension is the base name's suffix from its last dot, shorter than the base name, and the base name is not ".."; "" iff there is no dot, the last dot is the first character, or the base name is ".." |
| Uploads.ExtAgree | backend_node/utils/fileUtils.js:8 | the two extractors agree on base names not starting with a dot |
| Uploads.ExtDisagree | backend_node/utils/fileUtils.js:8 | on `..mp4` Python finds no extension and Node finds `.mp4` |
| Uploads.AllowedExtensions | backend_node/utils/fileUtils.js:5 | Node accepts exactly Python's extensions except `.webm` |
| Uploads.CheckPyExt | backend/app/utils/file.py:14-16 | ok iff the lower-cased extension is allowed; else `"Unsupported file type: " + ext` |
| Uploads.ValidateExt | backend_node/utils/fileUtils.js:7-11 | ok iff the lower-cased extension is allowed; else `'Unsupported file type: '+ext` |
| Uploads.Disk.constructor | backend/app/utils/file.py:8-9 | no files |
| Uploads.Disk.SaveUpload | backend/app/utils/file.py:12-21 | an unsupported extension writes nothing; else the content is written under uuid+ext, which is returned: 32 lower-case hex digits and an allowed extension |
| Uploads.Disk.SaveUploaded | backend_node/utils/fileUtils.js:12-20 | validates before moving; moves the file to id+ext and returns `{id, filename, path, original, ext}`; a missing file throws |
| Auth.BearerToken | backend/app/api/deps.py:8-9 | a token iff the header splits into two words, the first `bearer` in any case; it is one non-empty word |
| Auth.WordsOfPair | backend/app/api/deps.py:8 | `"a b".split()` is `[a, b]` |
| Auth.BearerTokenOf | backend/app/services/auth_service.py:24-26 | `<scheme> <token>` yields the token iff the scheme lower-cases to `bearer` |
| Auth.SubOrAnon | backend/app/services/auth_service.py:29 | `payload.get("sub") or "anon"`: a non-empty sub, else anon |
| Auth.OptionalUserSpec | backend/app/services/auth_service.py:17-33 | anon without a header, for a non-bearer header and for a bad token; else the non-empty sub |
| Auth.StrictUser | backend/app/services/auth_service.py:9-14 | 401 iff the token does not decode; else the sub claim, None when absent |
| Auth.DepsUser | backend/app/api/deps.py:5-13 | None iff there is no header; 401 for a non-bearer header, an undecodable token or empty claims; for non-empty claims, the `sub` claim as the user, or a 500 when it is missing |
| Auth.OptionalAgreesWithDeps | backend/app/services/auth_service.py:17-33 | where the dependency rejects with 401 the optional check answers anon; a non-empty user is the same in both |
| Auth.OptionalAgreesWithStrict | backend/app/services/auth_service.py:24-32 | for a bearer header, the optional check is the strict check with failures and empty subjects as anon |

## Left out

- Floating-point times: segment times and the clock are integer milliseconds. Python's float arithmetic in `fmt`, `fmt_ts` and the synthetic windows is not modelled.
- `f"{x:.1f}"` in the LLM context lines is the parameter `fmt1`.
- A `start`/`end` key that is present but null becomes `None` in the model. The context formatting then raises (the `TimestampNotNumeric` error), and the SRT export treats it as missing. In Python, `fmt(None)` in the SRT export raises instead.
- The `"??:??"` branch of the trailer's `fmt` is not modelled. Starts are numbers in the model, so it cannot occur.
- Case folding and whitespace are ASCII only. `str.lower`, `str.title` and `str.split` on non-ASCII text are not modelled.
- The LLM (`call_gemini`), embeddings (`embedding_service`), BM25 numerics (`rank_bm25`), JWT verification, Whisper decoding and `call_gemini_summarize` are opaque parameters. BM25 scores are integers, not floats.
- File I/O is maps. Write failures swallowed by `save_history`, JSON read errors other than an unreadable history file, `ensure_upload_dir`/`mkdir`, and `path.join` normalisation are not modelled. Paths are POSIX.
- The empty-dict case of `load_transcript` (a falsy transcript) is not distinguished from a missing one.
- `user.get('id') if isinstance(user, dict) else 'anon'`: the user id is passed in as an optional string.
- `list_history` is `load_history` and is covered by `HistoryStore.Load`.
- `cost_estimate_usd` of `_build_usage` is a float placeholder and is not modelled.
- The ETag/304 branch of `get_summary` and the sentiment field of `analytics` are not modelled.
- `GET /{media_id}/summary` is registered twice in backend/app/unified_media.py, at lines 212-225 and again at 227-252. Starlette dispatches to the first matching route, so the handler served would be the one at 212-225, which has no 202 "processing" answer and no normalisation. UnifiedMedia.GetSummary models the later handler at 227-252; the earlier one is `gemini_service.get_summary` plus the unmodelled ETag branch. This follows from reading the routing order and was not executed.
- PDF rendering beyond the `fmt_ts` stamps is not modelled.
- The exception text carried by the realtime `error` messages is not modelled.
- Threading, locks, the executor, websockets and `async` scheduling are not modelled. Each method runs atomically.
- Other endpoints of the routers (upload, transcription, polling, raw-file streaming) are not modelled.
- `OAuth2PasswordBearer`'s own 401 for a missing header is not modelled. Claims are a map from names to string values, and `payload['sub']` on claims without it is a 500.
- A transcript segment with no `text` key is a segment with an empty text.
- Retrieval.ExampleDogQuestion, Translation.ExampleHindiRequest: concrete instances, stated for one input each.
- Search.Bm25AsWrittenBounds: requires BM25 to return one score per document, which `rank_bm25` does but the parameter does not promise.
- Chat.MmSsSpec: stated for starts below 100 minutes, where the minutes field has two digits.
- Export.SrtTimeRoundTrip, Export.PdfTimeMatchesSrt: stated below 100 hours, where the hours field has two digits.

## Findings

| source | as written | input that shows it | evidently intended | confidence | as-written member | corrected member |
|---|---|---|---|---|---|---|
| backend/app/services/search_service.py:17-22 | BM25 scores are computed for the non-empty segment texts only, then `zip`ped with all segments, so each score lands on the segment at the same position in the full list | segments `[s0 with text "", s1 with a non-empty text]` and no embedding results: the one score, for s1, is reported with s0's empty text and start | each score reported with the segment it was computed for | not executed | Search.SearchMisaligned | Search.Bm25AlignedSpec |
