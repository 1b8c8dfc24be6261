# KAIEF event recommender, modelled in Dafny

KAIEF recommends Korean cultural events (exhibitions, festivals, talks)
through a chat interface. This project models its retrieval core in three
parts.

- **The server variant** (`server/chat/main.py`):
  - Loads the corpus: each record gets its position as `id` and a `state`
    computed from its `period` and today's date.
  - Merges the English translations by `id`.
  - Renders each event as a document.
  - Embeds the documents in batches of 64. A failed batch or a count
    mismatch clears the embeddings.
  - Answers `recommend_events_tool`: it scores events by cosine similarity,
    sorts them stably in descending order, and keeps up to a clamped limit
    of 1 to 5.
  - Keeps chat histories trimmed to 24 messages.
- **The FAISS variant** (`main.py`):
  - Loads the Korean and English corpora.
  - Embeds `create_event_text` of each event in batches of 50. When a batch
    fails, it falls back to one request per text, and a failed single
    request gives a 1536-wide zero vector.
  - Accepts the embedding cache only when it holds one vector per event.
  - Keeps the in-range hits of the index search.
  - Runs the `chatbot`: the prompt holds the system text, the last 4
    history entries and the message. A session keeps its last 16 entries. A
    reply that is not JSON becomes an answer with intent `"other"`.
- **The keyword-extraction comparison** (`keyword_extraction_compare.py`):
  - Rule-based keyword and exclusion extraction.
  - Post-processing of the model's answer.
  - The Jaccard score averaged over keywords and exclusions.

## Modelling choices

- Records are `map<string, Value>`, where a `Value` is null, a boolean, an
  integer or a string. Python's `str()` and truthiness are written out for
  each kind.
- Everything the program asks of the outside world is a parameter:
  - the embedding endpoint, the chat completion, the FAISS search and the
    JSON decoder are total functions returning `Option`;
  - today's date is a `Date` argument;
  - the square root is a `real -> real` argument;
  - a file is a `Source`: missing, not valid JSON, unreadable (an I/O or
    text-decoding error), or its decoded record list.
- `datetime.strptime(s, "%Y-%m-%d")` is modelled after the pattern CPython
  compiles for it:
  - four ASCII digits for the year, which must be at least 1;
  - a one- or two-digit month from 1 to 12;
  - a day from 1 to 31, which may be written with a leading blank;
  - then the calendar check of the day against the month.
- `recommend_events_tool` reports the indices, scores and summaries of the
  picked events. The payload dictionaries are not built.

Where the code and the design description disagree, the model follows the
code:

- **A truthy `period` that is not a string makes `compute_event_state`
  raise.** The `"~" in period` test throws `TypeError` outside its `try`.
  - In the server, the exception escapes the startup. `LoadServerEvents`
    returns `None`.
  - In the FAISS variant, the startup's `except Exception` empties both
    corpora. `LoadBothCorpora` returns two empty lists.
  - The design promises that a malformed record never aborts a load.
- **`build_vector_database` does not compare the rebuilt vector count with
  the corpus size.** It fails only when the vectors cannot form a matrix.
  The design says a count mismatch leaves an empty index.
- **`MAX_MEMORY = 10` is declared but never used.** The session cut is
  `history[-16:]`.
- **The design describes a term-frequency fallback vectorizer.** Neither
  variant has one. The server's recommendation returns an error context
  instead, and the FAISS variant falls back to the first events of the
  corpus.
- **The design truncates long free-text fields with a marker.** Neither
  `build_event_document` (server/chat/main.py:191-211) nor
  `create_event_text` (main.py:83-103) truncates anything, so documents
  carry every field in full.
- **The server's startup survives only two kinds of corpus error.** It
  catches a missing file and invalid JSON. Any other error reading the
  Korean file, such as a permission error or text that is not UTF-8,
  escapes. `LoadServerEvents` then returns `None`.

## Model

| member | source | states |
|---|---|---|
| Seqs.Batches | server/chat/main.py:290-292 | Slicing in steps of the batch size gives non-empty batches of at most the size, all full except the last, which concatenate back to the input. |
| Seqs.SliceTo | main.py:208 | `s[:k]` with Python's slice rules: a prefix of `min(k, len)` elements for `k >= 0`, and all but the last `-k` for a negative `k`. |
| Seqs.SliceFrom | main.py:415 | `s[k:]` with Python's slice rules: a suffix of `len - k` elements for `k >= 0`, and the last `min(-k, len)` for a negative `k`. |
| Seqs.Filter | keyword_extraction_compare.py:33 | A comprehension with a condition keeps exactly the elements that pass, in order, each as many times as it occurs. |
| Numerals.IntToDecimal | server/chat/main.py:210 | `str(n)` is a minus sign exactly for a negative `n`, then digits with no leading zero. Reading it back gives `n`. |
| Numerals.NumeralRoundTrip | server/chat/main.py:210 | Every text of that form is `str` of the number it denotes, so `str(n)` is the only such text for `n`. |
| Numerals.DecimalRoundTrip | server/chat/main.py:210 | Reading back the digits `str(n)` prints for a non-negative `n` gives `n`. |
| Values.Render | main.py:416 | `str(v)` is `None`, `True` or `False` for those values, a string itself, and for an integer the canonical numeral that reads back as it. |
| Values.Or | server/chat/main.py:315-318 | `a or b` is one of its operands. It is truthy exactly when either operand is, and it is `a` whenever `a` is truthy. |
| Values.KeyOf | server/chat/main.py:533-536 | A key is never a boolean, and it keeps the truthiness of the value it stands for. |
| Values.KeyOfSameKey | server/chat/main.py:533-536 | Two values are the same dictionary key exactly when they are equal, or are `True` and `1`, or are `False` and `0`. |
| Text.Strip | server/chat/main.py:210 | `strip()` gives the slice left after removing whitespace from both ends, which starts and ends with non-whitespace. |
| Text.StripIdempotent | server/chat/main.py:210 | Stripping twice strips nothing more. |
| Text.ContainsIff | server/chat/main.py:164 | `sub in s` holds exactly when `sub` occurs at some position of `s`. |
| Text.SplitCount | server/chat/main.py:166 | Splitting on one character gives one more piece than the occurrences of that character, so the two-way unpacking of `split("~")` needs exactly one `~`. |
| Text.SplitJoin | server/chat/main.py:210 | Splitting a join at its separator gives the parts back, when the separator has a character that occurs nowhere else in it and in no part. |
| Text.SplitWhitespace | keyword_extraction_compare.py:37 | `split()` gives one token per maximal run of non-whitespace characters, in text order. |
| Text.MaximalRunIsToken | keyword_extraction_compare.py:37 | Every maximal run of non-whitespace characters is a token, so `split()` misses no word. |
| Text.Runs | keyword_extraction_compare.py:32 | `re.findall` of a character class gives the text of each maximal run of that class, left to right. |
| Text.RunSpansCover | keyword_extraction_compare.py:32 | No character of the class is outside every reported run. |
| Text.KeepOnly | keyword_extraction_compare.py:41 | Deleting everything outside a class keeps, in order, every character of the class as often as it occurs, and nothing else. |
| Dates.ParseDate | server/chat/main.py:167-168 | A parsed date is always a real calendar date: the month is 1 to 12 and the day exists in that month and year. |
| Dates.ParseFormatRoundTrip | server/chat/main.py:167-168 | Parsing the `YYYY-MM-DD` text of any valid date gives back that date. |
| Dates.MonthThirteenRejected | main.py:70-71 | `2025-13-40` is not a date, so the parse fails. |
| Dates.MonthFourteenRejected | main.py:70-71 | `2025-14-50` is not a date, so the parse fails. |
| Dates.LeapDayInLeapYear | main.py:70-71 | 29 February parses in 2024. |
| Dates.LeapDayInCommonYear | main.py:70-71 | 29 February is rejected in 2025. |
| Dates.UnpaddedFields | main.py:70-71 | A one-digit month and a blank-padded day are accepted, as `strptime` accepts them. |
| EventStates.LabelInjective | server/chat/main.py:163-177 | The four state labels are pairwise distinct. |
| EventStates.PeriodBounds | server/chat/main.py:164-168 | An empty period, a period without `~`, or one whose `~` count is not exactly one has no bounds. Otherwise there are bounds exactly when both stripped sides parse as dates. |
| EventStates.Classify | server/chat/main.py:170-175 | Scheduled exactly when today is before the start. Ongoing exactly when today is within the closed range. Ended exactly when today is after the end and not before the start. |
| EventStates.ComputeEventState | server/chat/main.py:163-177 | The state is Unknown exactly when the period has no parsable bounds. Otherwise it is the three-way classification of today against those bounds. |
| EventStates.InvertedPeriodNeverOngoing | main.py:63-81 | A period whose end precedes its start is never reported as ongoing. |
| EventStates.FormattedPeriod | main.py:63-81 | A period written as `start~end` in `YYYY-MM-DD` form classifies today against exactly those two dates. |
| EventStates.WorkedExample | main.py:63-81 | `2025-11-15~2025-11-20` is scheduled on 1 November, ongoing on 17 November and ended on 1 December 2025. |
| EventStates.MalformedPeriodUnknown | main.py:63-81 | `2025-13-40~2025-14-50` has state Unknown on any day. |
| Normalize.StateOfPeriod | server/chat/main.py:519-520 | A falsy period gives Unknown. A string period gives its computed state. Any other truthy period raises. |
| Normalize.StateLabelNamesState | server/chat/main.py:518-520 | A normalised record's `state` label names exactly the state its period computes. |
| Normalize.NormalizeEvent | server/chat/main.py:518-520 | A normalised record keeps every original field except `id` and `state`. Its `id` is its position and its `state` is the label of its period's state. It fails exactly when the period raises. |
| Normalize.NormalizeEvents | server/chat/main.py:518-520 | The load succeeds exactly when no period raises. Record `i` then carries id `i`, its state label, and all other original fields unchanged. |
| Normalize.NormalizedIdsDistinct | server/chat/main.py:518 | After a load no two records share an `id`. |
| Normalize.NormalizeEnglish | main.py:264-266 | English record `i` gets id `i`. It keeps a truthy `state` and otherwise gets `"Unknown"`. All other fields are unchanged. |
| Normalize.LastWithKey | server/chat/main.py:533 | The dictionary built from the translations keeps, for each key, the last translation carrying it. |
| Normalize.MergeTranslations | server/chat/main.py:529-542 | A missing or unreadable file, or a translation without `id`, leaves the corpus unchanged. Otherwise each event gets exactly the fields of its non-empty translation overlaid on its own. The number of events and every original key are preserved. |
| Normalize.MergeTranslationsIdempotent | server/chat/main.py:533-538 | Merging the same translations a second time changes nothing. |
| Normalize.LoadServerEvents | server/chat/main.py:506-542 | A missing or undecodable corpus gives no events. Any other read error aborts startup. A loaded corpus aborts exactly when its normalisation does. Otherwise the result is the normalised corpus with the translations merged, one record per raw entry, each with a `state`. |
| Normalize.LoadBothCorpora | main.py:237-279 | Any failure of the Korean corpus, or an English file that is undecodable or unreadable, empties both lists. Otherwise the Korean list is the normalised corpus. The English list is the normalised English corpus, or empty when that file is absent. |
| Documents.BuildEventDocument | server/chat/main.py:191-211 | With two or more truthy fields, the document is their stripped texts joined by ` \n `. With none, or with one that strips to nothing, it is the `title` or `""`. |
| DocumentRoundTrips.DocumentSplitsIntoFields | server/chat/main.py:191-211 | When no field contains a line break, splitting the document at ` \n ` gives back exactly the field texts in order. |
| Documents.EventTextParts | main.py:92-101 | There are five labelled parts, plus one for a truthy description. |
| Documents.CreateEventText | main.py:83-103 | The text always starts with the title label. Its field-by-field layout is stated by `DocumentRoundTrips.EventTextRoundTrip`. |
| DocumentRoundTrips.EventTextRoundTrip | main.py:83-103 | When no field contains `\|`, splitting the text at ` \| ` gives back each labelled field in order. The description appears exactly when it is truthy. |
| Documents.SummaryTitle | server/chat/main.py:315 | The title is the truthy `title`, else the truthy `title_en`, else the placeholder name, so it is never falsy. |
| Documents.BuildEventSummary | server/chat/main.py:313-328 | The summary raises exactly when the chosen overview is truthy but not text. Otherwise it starts with the title and a colon. |
| DocumentRoundTrips.SummaryRoundTrip | server/chat/main.py:313-328 | One piece appears for each truthy period, place, category and overview. When no piece contains a comma, the text after the title splits at `, ` back into those pieces. |
| Documents.BareSummary | server/chat/main.py:313-328 | An event with none of the optional fields summarises to its title and a colon. |
| Documents.CompactEvent | main.py:322-333 | The compact entry has exactly the seven fields, copied from the event. Its `url` is the event's truthy `url`, else its truthy `link`, else `#`. |
| Documents.CompactEventIdempotent | main.py:322-333 | Compacting a compact entry changes nothing. |
| Similarity.Cosine | server/chat/main.py:180-188 | Empty or unequal-length vectors and zero norms give 0. Otherwise the result times the product of the norms is the dot product. |
| Similarity.CosineSymmetric | server/chat/main.py:180-188 | The similarity does not depend on argument order. |
| Similarity.CosineZeroVector | server/chat/main.py:185-187 | A zero vector is similar to nothing. |
| Similarity.CosineSelf | server/chat/main.py:180-188 | A vector with a non-zero entry has similarity exactly 1 with itself, given a true square root. |
| Ranking.Rank | server/chat/main.py:367 | The sort is a permutation of all indices in which each index precedes the next: a higher score first, and on a tie the earlier event first. |
| Ranking.RankedUnique | server/chat/main.py:367 | Exactly one such ordering exists, so the stable descending sort is fully determined. |
| Ranking.RankedScoresNonIncreasing | server/chat/main.py:367 | Scores never increase along the ranking. |
| Ranking.TiesKeepCorpusOrder | server/chat/main.py:367 | Events with equal scores keep their corpus order. |
| Ranking.ClampLimit | server/chat/main.py:369 | The limit lies in 1 to 5. A limit already in range is kept, and a limit outside is moved to the nearer end. |
| Ranking.TopIndices | server/chat/main.py:369-372 | The selection is the first `min(limit, n)` indices of the ranking. |
| Ranking.TopIndicesAreBest | server/chat/main.py:367-372 | Every selected event outranks every event left out. |
| EmbeddingStore.EmbedBatchesSucceeds | server/chat/main.py:291-299 | The batch loop completes exactly when no batch request raises. |
| EmbeddingStore.EmbedBatchesCount | server/chat/main.py:291-302 | An endpoint answering one vector per input yields one vector per document. |
| EmbeddingStore.PrepareEventEmbeddings | server/chat/main.py:269-305 | Without a client the store is emptied. A populated store is kept unless forced. Otherwise the store is the rebuilt one: every event's document, and the batch vectors when every request answered and their count matches the corpus, else no vectors. The embeddings are never left partial. |
| EmbeddingStore.EnsureEventEmbeddings | server/chat/main.py:308-310 | A ready store is kept. Otherwise, with a client, the result is exactly the rebuilt store of a forced preparation, and without one the store is emptied. The result is empty or ready, and ready whenever the endpoint answers one vector per input. |
| EmbeddingStore.RankPicks | server/chat/main.py:359-395 | There are `min(clamped limit, n)` picks, each with its cosine score and summary. It raises exactly when a selected event's summary raises. |
| EmbeddingStore.RankPicksAreBest | server/chat/main.py:359-395 | The picks follow the ranking, have non-increasing scores, and each outscores every left-out event, winning ties by corpus order. |
| EmbeddingStore.RecommendEvents | server/chat/main.py:331-402 | Empty query, empty corpus and missing configuration answer early and leave the store alone. Past them the store is kept when ready and rebuilt otherwise, and "not ready" is answered exactly when it is still not ready. Once ready, the answer is "query failed" exactly when the query request raises, an error exactly when the response is empty or a summary raises, and the ranked picks exactly when ranking succeeds. A ranked answer holds 1 to 5 picks. |
| VectorDatabase.ZeroVector | main.py:116 | The fallback vector has the requested width and every entry is 0. |
| VectorDatabase.GetEmbedding | main.py:106-116 | The first vector of the answer, or the 1536-wide zero vector when the request raises or returns nothing. |
| VectorDatabase.BatchVectors | main.py:159-176 | A batch contributes the endpoint's vectors, or one single-text embedding per event when the batch request raises. |
| VectorDatabase.BatchVectorsShape | main.py:159-176 | From an endpoint answering one 1536-wide vector per text, every batch contributes one such vector per event, with or without the fallback. |
| VectorDatabase.RebuildShape | main.py:156-176 | Under the same endpoint the rebuilt list has one 1536-wide vector per event. |
| VectorDatabase.CreateEmbeddings | main.py:156-179 | The loop's list is the batches' vectors in order. Under such an endpoint it has one 1536-wide vector per event. |
| VectorDatabase.BuildVectorDatabase | main.py:119-186 | No client or no events skips the build. A usable cache is taken as is. Otherwise the rebuilt list becomes the index exactly when it forms a matrix. Under such an endpoint the index has one row per event. |
| VectorDatabase.LoadVectorDatabase | main.py:237-279 | No client or no events keeps both corpora without an index. A usable cache becomes the index. Otherwise the rebuilt list becomes the index when it forms a matrix, and a failed build empties both corpora and leaves no index. Under such an endpoint with a client and events, the index is always built. |
| VectorDatabase.Hits | main.py:222-228 | Every hit is an event of the corpus. When all ids are in range there is one hit per id, and when none is there are none. |
| VectorDatabase.HitsFollowInRangeIds | main.py:222-228 | Hit `p` is the event named by the `p`-th in-range id: out-of-range ids are skipped, and nothing else is. |
| VectorDatabase.SearchSimilarEvents | main.py:201-230 | Without an index or client, or when the search raises, the result is the first `top_k` events. Otherwise entry `p` is the event named by the `p`-th in-range id the search returned. |
| Conversation.TrimHistory | server/chat/main.py:413-416 | The result is a suffix of the history. It is the whole history when that is short enough, otherwise exactly the last `max_messages` entries. |
| Conversation.TrimHistoryIdempotent | server/chat/main.py:413-416 | Trimming twice is trimming once. |
| Conversation.TrimKeepsLast | server/chat/main.py:437 | Trimming never drops the newest message. |
| Conversation.PromptEntry | main.py:416 | An entry maps to an assistant message exactly when its role is `"assistant"`, and to a user message otherwise. Its content is rendered as text. An entry missing `role` or `content` raises. |
| Conversation.PromptEntries | main.py:415-416 | The mapped history succeeds exactly when every entry has a role and a content. Each message is then the mapping of the entry at the same position. |
| Conversation.PromptMessages | main.py:413-417 | The prompt is the system text, up to four history entries, and the user's message. It never holds a second system message. |
| Conversation.PromptIsNewestHistory | main.py:415-416 | Each middle message of the prompt is the mapped entry at the matching position among the newest four history entries. |
| Conversation.SessionAfterReply | main.py:428-432 | The session gains the user message and the reply, and keeps at most its newest 16 entries. |
| Conversation.ChatTurn | main.py:413-451 | A prompt that cannot be built raises. A failed completion answers the fixed apology and leaves the history alone. A completed reply is always remembered. A reply that parses answers its `response`. One that does not parse answers intent `"other"` with the reply in both languages. |
| Conversation.SessionMemory | main.py:310-316 | Without a session id the memory is unchanged. With one, only that session changes. |
| Conversation.Chatbot | main.py:302-451 | An empty message and a missing client answer early without touching the memory. Otherwise a prompt that cannot be built raises, a failed completion answers the apology, and a reply answers its parsed `response` or itself under intent `"other"`. Only the turn's own session changes. A completed turn ends that session with the user message and the stripped reply, a failed one leaves its history. No session grows past 16 entries. |
| Keywords.ExtractKeywordsSimple | keyword_extraction_compare.py:31-33 | The keywords are the Hangul runs of the text that are neither stopwords nor single characters. They keep their order and their multiplicities. |
| Keywords.KeywordIsMaximalRun | keyword_extraction_compare.py:32-33 | Every keyword is a maximal Hangul run of the text. |
| Keywords.MaximalRunIsKeyword | keyword_extraction_compare.py:32-33 | Every maximal Hangul run that qualifies as a keyword is extracted. |
| Keywords.HangulOnly | keyword_extraction_compare.py:41 | Cleaning keeps, in order, every Hangul character of the word as often as it occurs, and nothing else. |
| Keywords.ExcludedUpToMember | keyword_extraction_compare.py:37-41 | A word is excluded exactly when it is the cleaned predecessor of a marked word among the first `n` words. |
| Keywords.MarkedPositionsComplete | keyword_extraction_compare.py:38-39 | The marked positions after the first word ascend, and every marked word after the first is among them. |
| Keywords.ExcludedUpToPositions | keyword_extraction_compare.py:38-41 | The loop appends one entry per marked word after the first, in order: entry `p` is the cleaned predecessor of the `p`-th marked word. |
| Keywords.ExtractExcludedSimple | keyword_extraction_compare.py:35-42 | There is one exclusion per token after the first that holds a negation marker, in token order, and it is the cleaned predecessor of that token. So a word is excluded exactly when it is such a predecessor, there are fewer exclusions than tokens, and all are pure Hangul. |
| Keywords.MarkerExcludesPrevious | keyword_extraction_compare.py:39-41 | A marker token after the first always excludes its predecessor. |
| Keywords.Jaccard | keyword_extraction_compare.py:75-80 | Two empty sets score 1. Otherwise the score is the size of the intersection over the size of the union. |
| Keywords.JaccardRange | keyword_extraction_compare.py:75-80 | The score lies in 0 to 1. It is 1 exactly for equal sets, and 0 exactly for disjoint sets that are not both empty. |
| Keywords.JaccardSymmetric | keyword_extraction_compare.py:75-80 | The score does not depend on argument order. |
| Keywords.SentenceScore | keyword_extraction_compare.py:108 | The averaged score lies in 0 to 1, and is 1 exactly when both extracted sets equal the expected sets. |
| Keywords.DropOpeningFence | keyword_extraction_compare.py:61 | A leading fence is removed, together with `json` when it follows. |
| Keywords.DropClosingFence | keyword_extraction_compare.py:62 | A trailing fence is removed, including one followed by a final newline. |
| Keywords.BraceSpan | keyword_extraction_compare.py:66 | The search finds nothing exactly when no `{` precedes a `}`. Otherwise it finds the span from the first `{` to the last `}`. |
| Keywords.ExtractKeywordsAi | keyword_extraction_compare.py:59-73 | The answer falls back to empty lists exactly when the cleaned answer has no brace span or the span does not decode. Otherwise it is the decoded span. |
| Keywords.CleanBareObject | keyword_extraction_compare.py:59-63 | A bare object comes through cleaning unchanged. |
| Keywords.CleanFencedObject | keyword_extraction_compare.py:59-63 | An object wrapped in a ```` ```json ```` fence is cleaned down to the object. |
| Keywords.FencedAnswerReadsLikeBare | keyword_extraction_compare.py:59-73 | A fenced object is extracted exactly as the bare object would be. |
| Keywords.BraceSpanFindsObject | keyword_extraction_compare.py:66 | An object surrounded by text without braces of the wrong side is found exactly. |

## Left out

- Floating point: scores, vectors and the square root are real numbers, and
  the square root is a parameter. `float32` conversion, `round(…, 4)` and
  the `:.3f` / `:.2f` formatting are not modelled.
- The HTTP routes, page templates, `api_translate_events`,
  `translate_event_with_openai`, `get_base_messages` and `get_history` are
  glue around the modelled functions.
- `handle_chat_logic`'s tool-call dispatch depends on the completion's
  structured tool calls. Only its `trim_history` steps are modelled.
- The network is not modelled:
  - the OpenAI completion and embedding calls are oracle parameters;
  - `get_embedding`'s `input=text` is modelled as a one-element list;
  - the prompt strings are opaque text.
- Concurrency is not modelled: the embeddings lock, `create_task` and
  `asyncio.sleep`. Each operation is one atomic step.
- File reading, JSON decoding and the cache write are not modelled. A file
  is a `Source` or the decoded cache list. The cache save cannot change the
  result of the build.
- A file that decodes to JSON of an unexpected shape is not modelled: for
  example `"events": null`, records that are not objects, or a translation
  list that is not a list. A `Source` holds a list of objects.
- The L2 search inside FAISS is an oracle returning ids. NumPy's matrix
  conversion is the `Matrix` predicate.
- `datetime.now()` is a `Date` argument. `strptime`'s acceptance of
  non-ASCII Unicode digits is not modelled.
- The `matplotlib` plot, the timing and the printing of the comparison
  script are not modelled.
- VectorDatabase.SearchSimilarEvents: bounds the result by the number of
  ids the search returns, not by `top_k`. FAISS pads its answer to `k` ids
  with `-1`, which that bound leaves to the oracle.
- Similarity.Cosine: states the quotient through multiplication by the
  product of norms rather than as a division of floats, because the square
  root is a parameter.
