# volcano-tts speech service, modelled in Dafny

This project models the OpenAI-compatible text-to-speech proxy in front of the
Volcengine translation TTS endpoint: `POST /v1/audio/speech` in its three
generations (app.py with its earlier copy, appV1.py, appV2.py), the
`TextFilter` that strips reference material from the input, the text
segmenter, and the command-line client `VolcengineTTS.tts`.

The modules:

- `Backend` is the remote endpoint. It is a `Server` object with a fixed reply
  oracle `reply(n, body)` for the `n`-th post and a log `sent` of every body
  posted so far. `HandleReply` and `DecodeAudio` say how one reply becomes
  audio or an error.
- `Strings` and `Subsequences` hold the Python string primitives: `strip`,
  `isspace` and `replace`, and "obtained by deleting characters".
- `Segmenter` is `split_text`: windows of 500 characters, cut after the last
  sentence terminator, else the last clause separator, else the last blank,
  else hard.
- `Cleanup` and `Filter` are `text_filter.py`:
  - the six built-in passes, the configured rules and `_final_cleanup`;
  - the rule loading from the environment, given as parameters;
  - the `TextFilter` object, whose `rules` list grows in place.
- `Memo` is `functools.lru_cache` as a bounded map with a recency order.
  `Metrics` is the `PERFORMANCE_METRICS` / `REQUEST_STATS` counters and the
  request-logging middleware.
- `Voices` holds the shipped `VOICE_CONFIG`, `LANGUAGE_MAP` and
  `DEFAULT_SPEAKERS` tables and the two voice lookups:
  - by display name, then id, in app.py;
  - by id only, in appV1.py and appV2.py.
- `Auth` is `verify_api_key`, in two variants:
  - the header is required, in app.py;
  - the header is optional, in appV1.py and appV2.py.
- `App` is app.py. A `Service` object owns:
  - the memo (200 entries) and the counters;
  - the optional filter (the earlier copy has none).

  Its methods are the memoised fetch, the fan-out over segments, the 32 KiB
  stream and `create_speech` behind the key check and the middleware.
- `AppV1` is appV1.py: one wrapped request for the whole input, memoised on
  100 entries.
- `AppV2` is appV2.py:
  - no cache;
  - each segment tries the wrapped body and then the flat body;
  - the buffered path stops at the first failing segment.
- `Volcengine` is `VolcengineTTS.tts` up to the decoded audio.

Every method that talks to the backend states exactly which bodies it
appended to `server.sent`. Most of them return those bodies as a ghost
`posted` sequence and promise `server.sent == old(server.sent) + posted`. A
run over several segments also returns a ghost trace: for each
segment, the server position its fetch started at, the memo it started
from (app.py only), its outcome and its posts. The trace ties each outcome
to the oracle's replies at those positions, or to the memoised audio.

Three points where the code's behaviour is easy to misread:

- In app.py, one failing segment of a buffered multi-segment request makes
  `asyncio.gather` raise, and the request ends with 500. No segment is left
  empty.
- `cache_hits` is incremented inside the memoised function. That body runs
  only when the memo misses, so `cache_hits` and `cache_misses` both count
  backend calls.
- app.py refuses a missing or empty `Authorization` header. appV1.py and
  appV2.py let it through.

## Model

| member | source | states |
|---|---|---|
| Strings.Strip | volcano-tts/app.py:118-119 | `str.strip()`: the result is no longer than the input and neither starts nor ends with whitespace |
| Strings.StripKeepsContent | volcano-tts/app.py:118-119 | stripping loses whitespace only: the non-whitespace characters are unchanged and in order |
| Strings.RemoveAllInside | volcano-tts/app.py:60 | `replace("Bearer ", "")` removes an occurrence wherever it stands, not only a leading one |
| Strings.RemoveAllAbsent | volcano-tts/app.py:60 | a header without the first character of "Bearer " is passed through unchanged |
| Backend.DecodeAudio | volcano-tts/app.py:179-189 | a 200 body gives audio exactly when it is JSON with a non-empty, decodable `audio.data`; the audio is the decoded data; otherwise not-JSON, missing audio or bad base64 |
| Backend.HandleReply | volcano-tts/app.py:165-189 | a post yields audio exactly when the reply delivers it; a raised post is a transport error with its message; a non-200 is an HTTP-status error with status and text |
| Backend.Server.Post | volcano-tts/app.py:165-171 | `requests.post` appends the body to the log and gets the oracle's reply for that position and body |
| Assembly.SlicesPartition | volcano-tts/app.py:246-248 | `audio[i:i+size]` over `range(0, len, size)`: every slice is non-empty and at most `size` long, and the slices concatenate back to the audio |
| Assembly.SlicedStreamCarriesAudio | volcano-tts/app.py:240-252 | the stream's chunks are non-empty and at most 32768 bytes, and they concatenate to the audio of the segments that succeeded, in order |
| Assembly.GatherKeepsOrder | volcano-tts/app.py:236-237 | `asyncio.gather` succeeds iff every segment did; its values are the segments' audio in submission order; otherwise it raises the first failure |
| Memo.LruCache.constructor | volcano-tts/app.py:128 | a fresh memo is empty with the given capacity |
| Memo.LruCache.Size | volcano-tts/app.py:219 | `cache_info().currsize` is the number of memoised keys, never above the capacity, and 0 exactly when the memo is empty |
| Memo.LruCache.Lookup | volcano-tts/app.py:128-132 | a hit exactly when the key is memoised; a hit returns the stored value and makes the key most recent; the stored calls are unchanged |
| Memo.LruCache.Room | volcano-tts/app.py:128 | eviction: the surviving keys are fewer than the capacity, distinct, exclude the new key and come from the memo; below capacity nothing is evicted |
| Memo.LruCache.Store | volcano-tts/app.py:128-132 | a returned value is stored under its key as most recent; every other surviving entry keeps its value; below capacity no entry is lost |
| Metrics.LoggedKeepsBalance | volcano-tts/app.py:271-314 | app.py's middleware keeps `total == successful + failed`; a success is counted exactly for a response below 400; no other counter changes |
| Metrics.LoggedNoTryCounts | Historicalversion/volcano-tts/app.py:404-425 | without the `try`, a response is counted as in app.py, but an escaping exception counts only `total_requests` and unbalances the counters |
| Metrics.PerformanceMetrics.LogRequest | volcano-tts/app.py:271-314 | the middleware passes the outcome through and updates the counters as `Logged` says |
| Metrics.PerformanceMetrics.LogRequestNoTry | volcano-tts/appV1.py:162-188 | the middleware without `try` passes the outcome through and updates the counters as `LoggedNoTry` says |
| Metrics.PerformanceMetrics.CountCacheHit | volcano-tts/app.py:131 | `cache_hits` goes up by one and nothing else changes |
| Metrics.PerformanceMetrics.CountCacheMiss | volcano-tts/app.py:137 | `cache_misses` goes up by one and nothing else changes |
| Metrics.PerformanceMetrics.CountRequestShape | volcano-tts/app.py:371-374 | `stream_requests` goes up for a streamed request and `parallel_requests` for more than one segment |
| Metrics.PerformanceMetrics.CountAudio | volcano-tts/app.py:398 | `total_audio_size` grows by the body's size |
| Voices.FindName | volcano-tts/app.py:346-351 | the position of the first voice with the display name, or none when no voice has it |
| Voices.ResolveVoiceByName | volcano-tts/app.py:339-364 | app.py's nested loop computes the name-first lookup `ResolveByName` |
| Voices.ResolveVoiceById | volcano-tts/appV2.py:324-337 | the id-only loop and the `any(...)` fallback compute `ResolveById` |
| Voices.ByNameGivesKnownSpeaker | volcano-tts/app.py:339-364 | the name-first lookup ends on a speaker id of the table or on the zh_cn default |
| Voices.ByIdKeepsKnownIds | volcano-tts/appV1.py:256-270 | the id-only lookup keeps a known id and replaces only an unknown one, with the zh_cn default and "zh" |
| Voices.ResolversAgreeOffNames | volcano-tts/app.py:339-364 | when no display name equals the voice, the name-first and the id-only lookups agree |
| Voices.UnknownVoiceFallsBack | volcano-tts/app.py:361-364 | a voice that is neither a name nor an id gets `DEFAULT_SPEAKERS["zh_cn"]` and "zh" in both lookups |
| Voices.FirstGroupDecides | volcano-tts/appV2.py:328-331 | the first group holding the id decides the language, even when a later group holds it too |
| Voices.ShippedTablesCohere | volcano-tts/config.py:85-198 | every language code has a default speaker, and every `VOICE_CONFIG` group has a language mapping |
| Voices.AliceIsPortugal | volcano-tts/config.py:106-177 | "pt_female_alice" is in pt_pt and pt_br, and the id lookup resolves it to language "pt" from pt_pt |
| Voices.ShippedLookupsGiveConfiguredSpeakers | volcano-tts/config.py:106-198 | with the shipped tables, both lookups always end on a configured speaker id |
| Auth.VerifyRequired | volcano-tts/app.py:51-67 | accepted iff a non-empty header with "Bearer " removed equals the key; a missing or empty header is exactly "API key is required" |
| Auth.VerifyOptional | volcano-tts/appV2.py:149-158 | accepted iff the header is missing or empty, or with "Bearer " removed equals the key; a refusal is always "Invalid API key" |
| Auth.ChecksDifferOnlyWithoutHeader | volcano-tts/appV1.py:143-152 | with a non-empty header the two checks agree; without one, app.py refuses and the others accept |
| Auth.BearerAndBareKeyAccepted | volcano-tts/app.py:60-61 | a key without 'B' is accepted bare and after "Bearer " by both checks |
| Auth.EmbeddedBearerIgnored | volcano-tts/app.py:60-61 | "Bearer " is removed wherever it stands, so a key with "Bearer " spliced into its middle is accepted |
| Auth.LowerCaseSchemeRefused | volcano-tts/app.py:60-61 | "bearer " in lower case is not removed, so such a header is refused |
| Auth.AppKeyAccepted | volcano-tts/config.py:19-22 | the default API_KEY is accepted bare and as a bearer token |
| Auth.LegacyKeyAccepted | volcano-tts/appV1.py:18 | the hard-coded key of appV1.py and appV2.py is accepted bare and as a bearer token |
| Auth.LegacyKeySplitByBearer | volcano-tts/appV2.py:20 | that key with "Bearer " inserted after its sixth character is accepted too |
| Segmenter.LastMatch | volcano-tts/app.py:107-110 | `matches[-1]`: the last position in the window of the delimiter class, or -1 when the class does not occur |
| Segmenter.SplitPointPriority | volcano-tts/app.py:90-115 | the split point is after the last sentence terminator if any, else after the last clause separator, else after the last blank, else the full window |
| Segmenter.SplitPosition | volcano-tts/app.py:101-115 | the inner loop over the three patterns computes the split point |
| Segmenter.SplitText | volcano-tts/app.py:70-124 | the loop emits exactly the chunk list `Split`; a text of at most `max_length` characters is returned whole |
| Segmenter.SplitBounded | volcano-tts/app.py:99-122 | no chunk is longer than `max_length` |
| Segmenter.SplitKeepsContent | volcano-tts/app.py:118-122 | the chunks, concatenated, hold every non-whitespace character of the input in order: only whitespace is lost |
| Segmenter.SplitNonEmpty | volcano-tts/app.py:82-83 | there is at least one chunk; only the first can be empty, and only when the text is empty or starts with whitespace |
| Segmenter.ShortTextIsOneChunk | volcano-tts/app.py:82-83 | a text of at most `max_length` characters, even the empty one, is one unstripped chunk |
| Segmenter.FirstChunkEndsAtSentence | volcano-tts/app.py:105-119 | when the last sentence terminator in the first window is at `k`, the first chunk is the stripped text through `k` |
| Segmenter.PeriodAt480 | volcano-tts/app.py:99-119 | a 1200-character text with its last '.' of the first window at 480 starts with the stripped 481-character chunk |
| Segmenter.DelimiterFreeIsHardCut | volcano-tts/app.py:114-119 | text without delimiters or whitespace is cut into consecutive `max_length` pieces and a shorter non-empty tail |
| Cleanup.StripTagsRemovesTags | volcano-tts/text_filter.py:273 | removing tags only deletes characters and leaves no '<' followed later by a '>' |
| Cleanup.MatchEnd | volcano-tts/text_filter.py:276-277 | a reference match starts with "DOI:" or "Issue" and ends at a newline or the end of the text; a DOI match exists exactly at "DOI:" |
| Cleanup.CutRefsDeletes | volcano-tts/text_filter.py:276-277 | the DOI and Issue passes only delete characters |
| Cleanup.CutRefsAvoids | volcano-tts/text_filter.py:276-277 | a newline-free pattern absent before a pass is absent after it, and the DOI pass leaves no "DOI:" |
| Cleanup.CollapseDeletes | volcano-tts/text_filter.py:280 | collapsing newline runs only deletes characters |
| Cleanup.CollapseLeadingNewlines | volcano-tts/text_filter.py:280 | a run of three or more newlines becomes exactly two; a shorter run is kept |
| Cleanup.CollapseNoTriple | volcano-tts/text_filter.py:280 | no three newlines in a row are left |
| Cleanup.CollapseAvoids | volcano-tts/text_filter.py:280 | collapsing creates no new occurrence of a newline-free pattern |
| Cleanup.StripDeletes | volcano-tts/text_filter.py:281 | stripping only deletes characters and creates no new occurrence of any pattern |
| Cleanup.FinalCleanupDeletes | volcano-tts/text_filter.py:270-283 | `_final_cleanup` only deletes characters, both of the input and of the tag-stripped text |
| Cleanup.FinalCleanupCleans | volcano-tts/text_filter.py:270-283 | `_final_cleanup`'s output comes from the input by deletion and has no tag, no "DOI:", no three newlines in a row and no whitespace at either end |
| Filter.KeptDeletes | volcano-tts/text_filter.py:154-162 | cutting the matched spans shortens the text by exactly their total length and only deletes characters |
| Filter.SelectMembers | volcano-tts/text_filter.py:217-228 | a plain pass cuts every match; pass 6 cuts exactly the matched lines that hold '<' or '>' |
| Filter.Removed | volcano-tts/text_filter.py:154-162 | one filtered item per cut span |
| Filter.RemovedOrder | volcano-tts/text_filter.py:154-162 | the items run from the last span to the first, and each records the rule name, the span and the text it covered |
| Filter.DeletePass | volcano-tts/text_filter.py:154-162 | the backward loop over the matches leaves the text with the selected spans cut out and records one item per cut span, last first; a plain pass cuts every match and shortens the text by their total length |
| Filter.DeleteAll | volcano-tts/text_filter.py:254-265 | a rule's pass cuts every match: the text shrinks by their total length and there is one item per match |
| Filter.AppliedDeletes | volcano-tts/text_filter.py:243-268 | the rules only delete characters, and the items' contents add up to exactly what was deleted |
| Filter.RemovedLength | volcano-tts/text_filter.py:254-265 | the items of one pass cover exactly the spans' total length |
| Filter.Lower | volcano-tts/text_filter.py:39 | `lower()` on ASCII letters, every other character kept |
| Filter.ParseBoolEnvMeaning | volcano-tts/text_filter.py:37-40 | an unset variable gives the default; a set one is true exactly when its lower-cased value is one of true, 1, yes, y, on; a value like "false" is false |
| Filter.EscapeIsLiteral | volcano-tts/text_filter.py:115-117 | `re.escape` gives a literal pattern that matches exactly the text it came from |
| Filter.EntryRulesSnoc | volcano-tts/text_filter.py:52-60 | custom entries are processed in order, one more entry appending its rule, if any, at the end |
| Filter.TextFilter.constructor | volcano-tts/text_filter.py:23-81 | `enabled` comes from TEXT_FILTER_ENABLED (default off); the rules are the default rules (unless switched off), then the custom rules, then the file rules, in order |
| Filter.TextFilter.AddRule | volcano-tts/text_filter.py:109-127 | a regex rule is compiled with DOTALL and added only if it compiles; a literal rule is escaped and always added |
| Filter.TextFilter.AddDefaultRules | volcano-tts/text_filter.py:83-107 | the three default rules are appended in order |
| Filter.TextFilter.AddEntries | volcano-tts/text_filter.py:52-60 | the loop appends the rules of the entries that are objects with a "pattern", with the default name, empty description and literal matching when keys are missing |
| Filter.TextFilter.ApplyRules | volcano-tts/text_filter.py:243-268 | every rule's pass in turn on the text the previous rules left, collecting their items |
| Filter.TextFilter.BuiltInPass | volcano-tts/text_filter.py:150-228 | one built-in pass leaves the text with its selected matches cut out, only deleting characters, and records one item per cut match under the pass's name |
| Filter.TextFilter.FilterText | volcano-tts/text_filter.py:129-241 | disabled or on empty text the input comes back with no items; otherwise the six passes, the rules and the cleanup run in that order, the items are the six passes' items then the rules' items, and the result comes from the input by deletion with no tag, no "DOI:", no triple newline and no surrounding whitespace |
| Filter.PassAccounts | volcano-tts/text_filter.py:150-162 | one built-in pass only deletes characters, and its items cover exactly the characters it deleted |
| Filter.BuiltInItemsAccount | volcano-tts/text_filter.py:150-228 | the six built-in passes only delete characters, and their items together cover exactly what they deleted |
| App.Service.constructor | volcano-tts/app.py:128 | a fresh service has an empty memo of 200 entries and zero counters |
| App.SegmentFetch | volcano-tts/app.py:128-137 | one memoised fetch: no post exactly for a memoised key; otherwise the reply to the flat body decides; a second post only on the synchronous try with a non-empty memo, and then its reply decides |
| App.RetryIsTwoFetches | volcano-tts/app.py:217-234 | the synchronous try that fails is two plain fetches: the second from the same memo at the next post |
| App.TracedPostsFlat | volcano-tts/app.py:165-171 | every body a traced run posts is the flat body of one of its segments with the resolved voice |
| App.MemoStaysFilled | volcano-tts/app.py:128-132 | within a run, a memo that holds a key never becomes empty again |
| App.SuccessFillsMemo | volcano-tts/app.py:219 | a segment that succeeded leaves the memo non-empty, so the next fan-out takes the synchronous branch |
| App.MemoisedRunPostsNothing | volcano-tts/app.py:128-132 | a run whose segments are all memoised posts nothing, returns the memoised audio and leaves the memo as it was |
| App.Respond | volcano-tts/app.py:377-398 | a stream carries the audio of the successful segments in order; a buffered answer is the joined audio exactly when every segment succeeded, else 500 |
| App.Service.GetSegmentAudio | volcano-tts/app.py:135-203 | counts a miss, posts the flat body once and returns the handled reply |
| App.Service.GetSegmentAudioCached | volcano-tts/app.py:128-137 | a memoised key answers with the memoised audio and posts nothing; otherwise the flat body is posted once and the reply to it is the answer; both cache counters count the post; a returned value is memoised, a failure leaves the memo as it was |
| App.Service.FetchForGather | volcano-tts/app.py:215-234 | a memoised segment is served without a post; with an empty memo one post decides; with a non-empty memo a failed first post is swallowed and the pool posts the body again, whose reply decides |
| App.Service.ProcessSegmentsParallel | volcano-tts/app.py:206-237 | segment by segment, in order, each outcome is what its memoised fetch gives from the memo the previous segments left and at the server position they left; the result is `gather` of the outcomes; the log grows by exactly those posts |
| App.Service.GenerateAudioStream | volcano-tts/app.py:240-252 | the chunks are the 32768-byte slices of each successful segment, in order, each segment fetched from the memo and the replies its turn sees; failing segments are skipped |
| App.Service.WarmUp | volcano-tts/app.py:255-269 | the three phrases are fetched through the memo with the default voice, each traced to the memo and the replies, failures swallowed; the cache counters count the posts |
| App.Service.FetchEach | volcano-tts/app.py:258-263 | each text is fetched through the memo in turn, each traced to the memo and the replies its turn sees, failures swallowed; the cache counters count the posts |
| App.Service.BufferedSpeech | volcano-tts/app.py:385-398 | the answer is the joined audio of the fetched outcomes, or 500 if any failed; several segments go through the fan-out, one through a plain memoised fetch; `total_audio_size` grows by the body |
| App.Service.CollectAudio | volcano-tts/app.py:385-394 | the collected audio is the segments' audio joined in order exactly when every segment succeeded |
| App.Service.FetchSingle | volcano-tts/app.py:392-394 | one segment is one plain memoised fetch, traced to the memo and the reply |
| App.Service.Prepare | volcano-tts/app.py:326-367 | the segments are the split of the filtered input, at least one; the voice is resolved by name, then id |
| App.Service.Speak | volcano-tts/app.py:371-398 | the request shape is counted; a streamed request gets the sliced stream and a buffered one the joined audio or 500, both of outcomes traced to the memo and the replies; the cache counters count the posts |
| App.Service.CreateSpeech | volcano-tts/app.py:316-419 | the whole handler: the split of the filtered text, the voice resolved by name then id, each segment's outcome traced to the memo and the replies to its flat posts, the answer built from those outcomes, and every counter update |
| App.Service.ServeSpeech | volcano-tts/app.py:271-314 | a refused key gives 401 with no post and the memo untouched; an accepted key gets `create_speech`'s traced answer and posts; the middleware counts the request once, as a success exactly below 400, and keeps the counters balanced |
| App.Service.LogAnswer | volcano-tts/app.py:271-314 | the counters update as the current middleware does with `try`, or as the earlier one does without it |
| App.SliceAudio | volcano-tts/app.py:246-248 | the slicing loop computes the 32768-byte slices |
| App.SegmentChunks | volcano-tts/app.py:242-252 | a successful segment adds its 32768-byte slices to the stream, a failed one nothing |
| App.Join | volcano-tts/app.py:388-391 | the join loop computes the concatenation of the segments in order |
| AppV1.AnswerFor | volcano-tts/appV1.py:273-283 | the audio unchanged, or 500 for anything raised |
| AppV1.Service.constructor | volcano-tts/appV1.py:191 | a fresh service has an empty memo of 100 entries and zero counters |
| AppV1.Service.GetTtsAudio | volcano-tts/appV1.py:190-248 | a memoised key answers with the memoised audio, posts nothing and leaves the memo as it was; otherwise one wrapped post, handled like app.py; only a returned value is memoised, no other key gains or changes a value, and below 100 entries nothing is evicted |
| AppV1.Service.CreateSpeech | volcano-tts/appV1.py:250-283 | id-only voice lookup, then one memoised call for the whole input, with the same memo frame; 500 on any failure |
| AppV1.Service.ServeSpeech | volcano-tts/appV1.py:143-188 | a refused key gives 401 with no post and the memo unchanged; a missing header is accepted; an accepted request gets the memoised audio without a post, or the handled reply to one wrapped post, and 500 on failure, with the memo changed only as one memoised call may; the counters update as the middleware without `try` does and stay balanced |
| AppV1.Service.RepeatedRequest | volcano-tts/appV1.py:191-192 | once a request has returned audio, the same request returns the same audio without a further post |
| AppV2.FallbackOutcomes | volcano-tts/appV2.py:258-301 | one or two posts, two exactly when the wrapped body gets no 200; audio exactly when the reply that was stopped at delivers it; a failure after two posts carries the second attempt's error |
| AppV2.MissingAudioNotRetried | volcano-tts/appV2.py:276-295 | a 200 without audio raises without trying the flat body |
| AppV2.RaiseThenDeliver | volcano-tts/appV2.py:261-301 | a raised wrapped post followed by a delivering flat post returns the flat reply's audio |
| AppV2.StatusThenRaise | volcano-tts/appV2.py:279-287 | a non-200 followed by a raised post fails with the exception text of the second attempt |
| AppV2.GetSegmentAudio | volcano-tts/appV2.py:219-304 | the loop over the two shapes posts a prefix of [wrapped, flat] and returns what `Fallback` says |
| AppV2.TracesAgree | volcano-tts/appV2.py:219-304 | the replies decide every fetch: two runs over the same segments from the same server position agree fetch by fetch |
| AppV2.GenerateAudioStream | volcano-tts/appV2.py:307-315 | segment by segment, each fetch starts where the previous one left the server and returns the fallback's result for the replies there; each successful segment's audio is yielded whole, in order; failing segments are skipped |
| AppV2.BufferedSpeech | volcano-tts/appV2.py:352-359 | segments are fetched in order, each traced to the fallback at its server position, up to the first failure; the answer is their joined audio, or 500 at the first failure |
| AppV2.BufferedIsStreamPrefix | volcano-tts/appV2.py:307-359 | the buffered request fetches exactly what the stream would, up to its first failure |
| AppV2.Respond | volcano-tts/appV2.py:344-371 | a streamed request gets every successful segment's audio whole, in order; a buffered one the joined audio exactly when every segment succeeded, else 500 |
| AppV2.CreateSpeech | volcano-tts/appV2.py:317-371 | id-only voice lookup and unfiltered split, then the stream of every segment or the buffered answer up to the first failure, each outcome traced to the fallback |
| AppV2.ServeSpeech | volcano-tts/appV2.py:149-158 | a refused key gives 401 with no post; a missing header or the right key is never refused; an accepted request gets `create_speech`'s traced answer and posts |
| Volcengine.RequestBody | volcengine_tts.py:105-132 | an unsupported language raises before posting; otherwise the flat body has the mapped language and the given speaker or the language's default |
| Volcengine.VoicesTablesAgree | volcengine_tts.py:14-53 | `language_map` and `default_speakers` have the same keys, so the default lookup cannot fail |
| Volcengine.BackendCodes | volcengine_tts.py:14-32 | ja, ko and hi are sent as jp, kr and id |
| Volcengine.Tts | volcengine_tts.py:90-156 | no post for an unsupported language; otherwise one post of the request body, its reply handled as the services handle it |

## Left out

- Regular expressions are not modelled. `finditer` of a compiled pattern is
  a parameter of the filter: a function from pattern and text to ascending,
  non-overlapping spans. `re.compile` is a predicate saying which sources
  compile. `_final_cleanup` and `split_text` are written out as scans,
  because their patterns are fixed.
- The `Issue\s+\d+` pass recognises ASCII digits only. Python's `\d` also
  matches other Unicode digits. The model also does not claim that this pass
  is idempotent: `re.sub` makes one pass, and what is left can match again.
- Filter.Lower: only ASCII letters are lowered. No non-ASCII character
  lowers into one of the words the switch accepts.
- Reading TEXT_FILTER_CUSTOM_RULES and TEXT_FILTER_RULES_FILE arrives as
  already parsed entries. This covers the JSON parsing, the file checks and
  the logged errors. An entry whose values have other JSON types (a
  non-string pattern, a non-boolean `is_regex`) is not modelled, nor is the
  `TypeError` that follows.
- The module-level `text_filter` instance and the `filter_text` wrapper
  function are not modelled separately. App's service holds the instance.
- Logging, headers other than `Authorization`, timeouts, TLS settings and
  the request and response wire formats are left out. So are
  `X-Process-Time` and `X-Cache-Info`.
- Float metrics are left out: `avg_response_time`, `avg_segment_size` and
  the elapsed times. Only the integer counters are modelled.
- The thread pool and `asyncio` are modelled as one sequential schedule, in
  submission order. Other interleavings and the memo's thread safety are not
  modelled.
- The streaming generators run to completion when the handler runs. In the
  source they run while the response is sent, so a streamed request's posts
  and counters happen after the middleware has counted it.
- Base64 decoding is opaque. A JSON reply carries the data string and the
  decoding result, or none when `b64decode` raises.
- Exception messages are not modelled as strings. They are `Failure` values
  that carry the status, the text or the message.
- `MAX_TEXT_LENGTH` is the default 500. Reading it from the environment in
  config.py is not modelled.
- Segmenter.SplitText requires `max_length > 0`. With 0, `split_text` never
  ends.
- `response_format`, `model` and `speed` of the request are ignored, as they
  are by the handlers.
- `list_voices`, `/stats`, `/` and `list_speakers` of the client are left
  out. They only read the tables and counters. The startup hook is
  App.Service.WarmUp, called by whoever starts the service. The requests of
  the model may come before or after it.
- The client's output file, playback and command line are left out.
  `available_speakers` is also left out.
- App.Service.ServeSpeech states the request counters and the key check.
  The other counters follow from App.Service.CreateSpeech's contract.
- logger.py and debug_utils.py are not part of this model. config.py
  contributes only its tables, its default key and its counters.
