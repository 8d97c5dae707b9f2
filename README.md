# Smart_Tutor backend, modelled in Dafny

Smart_Tutor lets a learner submit a YouTube video, turns it into a timed transcript, and then
answers questions asked at a moment of the video. A language model answers, given a context
built around that moment. This project models the sequential core of the backend and proves
properties of it.

- **Transcription** (`transcription.dfy`, module `Transcription`):
  - parsing of YouTube JSON3 caption events into timed segments;
  - merging of segments into chunks of about 30 seconds that only break after a sentence end;
  - the Whisper fallback: the 25 MB size guard and the segment mapping;
  - the choice between captions and Whisper in `get_transcript`.
- **Context assembly and answering** (`ai.dfy`, module `AiService`):
  - `build_context`: the summary, the transcript window `[max(0, t-60), t+30]` with the
    "YOU ARE HERE" marker, and the last five earlier questions asked within 300 seconds of the moment, with truncated answers;
  - `MM:SS` time formatting;
  - the 15-minute transcript cut-off used when a summary is requested, and the summary
    fallback;
  - the fragment filter and the error fragment of the streamed answer.
- **Store** (`store.dfy`, module `Store`):
  - the `videos`, `transcript_chunks` and `qa_history` tables as the fields of a `Database`
    object;
  - the inserts, updates and deletes the routes issue;
  - the queries the routes issue, including the chunk-window query and its ordering.
- **Q&A routes** (`qa.dfy`, module `QaRoutes`):
  - the request guards (400, 404, not ready);
  - the non-streaming route: answer, then one insert, or 500 and nothing stored;
  - the streaming route's `event_generator`: one text event per fragment, one insert of the
    concatenated answer, one `done` event with the new row's id; a stream that fails upstream
    still stores the text sent so far followed by the error fragment.
- **Video routes** (`videos.dfy`, module `VideoRoutes`):
  - the background job: the record mapping, batched inserts of 100, and the ready/failed
    status update;
  - the submission route's handling of new, failed and already-present videos.
- **URL and configuration logic** (`youtube.dfy`, module `YouTube`; `config.dfy`, module
  `Config`):
  - video id extraction from the four URL shapes;
  - metadata defaults, the classification of download errors, and the acceptance decision;
  - the comma-separated CORS origins setting.
- **Shared helpers**: `Text` covers Python's `str.strip`, `join`, `split`, ASCII `lower`, and
  decimal rendering. `Seqs` covers comprehension filters and `xs[-n:]`. `Wrappers` defines
  `Option` and `Result`.

External services are inputs:
- what yt-dlp returns or raises;
- the caption JSON;
- the audio file's size;
- the Whisper segments;
- the model's summary reply, answer, or stream of deltas (with a flag saying whether the stream
  ended in an exception);
- which batch insert, if any, raises.

Times are exact `real` numbers. JSON3 millisecond fields are integers.

## Model

| member | source | states |
|---|---|---|
| Config.CorsOriginsListSpec | backend/app/core/config.py:28-30 | one origin per comma-separated piece (commas + 1, so never empty), each the stripped piece at the same position, with no whitespace at either end and no comma |
| Config.SingleOrigin | backend/app/core/config.py:30 | a setting without a comma or surrounding whitespace is the only origin |
| Config.DefaultCorsOriginsList | backend/app/core/config.py:22-30 | the default setting gives exactly `["http://localhost:3000"]` |
| Config.EmptyEntriesKept | backend/app/core/config.py:30 | `"a, ,b"` gives three origins, the middle one empty |
| YouTube.SearchSpec | backend/app/services/youtube_service.py:10-21 | a pattern search yields nothing iff the pattern matches nowhere, and otherwise the 11 characters after its leftmost match |
| YouTube.SearchIgnoresTail | backend/app/services/youtube_service.py:10-15 | text appended after a match does not change the captured id |
| YouTube.ExtractedIsVideoId | backend/app/services/youtube_service.py:10-24 | an extracted id is exactly 11 characters from `[A-Za-z0-9_-]` |
| YouTube.FirstPatternSpec | backend/app/services/youtube_service.py:18-24 | extraction gives nothing iff no pattern matches, else the capture of the first pattern in list order that matches |
| YouTube.FirstPatternAt | backend/app/services/youtube_service.py:20-23 | when earlier patterns do not match and pattern k captures an id, that id is returned |
| YouTube.UrlShapes | backend/app/services/youtube_service.py:10-24 | each of the four URL shapes (watch, youtu.be, embed, shorts), after any scheme prefix and followed by any tail without a dot, yields its 11-character id |
| YouTube.MetadataOf | backend/app/services/youtube_service.py:42-49 | a missing title becomes "Unknown Title", a missing duration 0, a missing description or uploader "", a missing live flag false, a missing availability "public"; each present value is kept |
| YouTube.ClassifyOrder | backend/app/services/youtube_service.py:51-59 | first match wins on the lower-cased message: "private", then the age test, then "unavailable" or "not available", else the generic message |
| YouTube.ClassifyAgreesOnWords | backend/app/services/youtube_service.py:54 | where "age" only occurs as a whole word, the corrected and the written classification agree |
| YouTube.CorrectedAgeImpliesWritten | backend/app/services/youtube_service.py:54-55 | the corrected test reports an age restriction only where the written one does |
| YouTube.ValidateWebpageDiffers | backend/app/services/youtube_service.py:50-58 | for "Unable to download webpage" on a valid URL, the code as written raises the age-restriction message, while the model passes the message on as inaccessible |
| YouTube.WebpageMisclassified | backend/app/services/youtube_service.py:54-55 | as written, "Unable to download webpage" is reported as age-restricted; the corrected test reports it as inaccessible |
| YouTube.WebpageWords | backend/app/services/youtube_service.py:51-57 | "unable to download webpage" contains "age" only inside "webpage", and none of the other key phrases |
| YouTube.ConfirmAgeRecognised | backend/app/services/youtube_service.py:54-55 | "Sign in to confirm your age" is still reported as age-restricted by the corrected test |
| YouTube.ValidateVideoSpec | backend/app/services/youtube_service.py:65-86 | a URL without an id is refused before any fetch; a fetched live video is refused and any other fetched video accepted with the URL's id; a duration over three hours only sets the warning; a download error gives its classified message, which is the message the code as written raises whenever "age" occurs in it only as a whole word |
| Transcription.TextPartsSpec | backend/app/services/transcription_service.py:84-87 | every kept caption piece is non-empty and stripped |
| Transcription.EventSegment | backend/app/services/transcription_service.py:77-94 | an event yields a segment iff it has `segs` and at least one non-empty stripped piece |
| Transcription.JoinStripped | backend/app/services/transcription_service.py:93 | joining non-empty stripped pieces with single spaces gives non-empty stripped text |
| Transcription.Json3SegmentsSpec | backend/app/services/transcription_service.py:73-94 | every segment text is non-empty and stripped; there are no segments iff no event yields one; at most one segment per event |
| Transcription.KeptTextParts | backend/app/services/transcription_service.py:82-87 | the inner loop keeps exactly the stripped non-empty pieces, in order |
| Transcription.ParseJson3Captions | backend/app/services/transcription_service.py:71-96 | the parser returns nothing for zero segments and otherwise the merged chunks of the segments |
| Transcription.SentenceEndIsRegex | backend/app/services/transcription_service.py:205 | the sentence-end test holds iff `[.!?]\s*$` matches somewhere in the text (with `$` also before a final newline) |
| Transcription.Merge | backend/app/services/transcription_service.py:184-220 | no segments give no chunks; otherwise between 1 and as many chunks as segments |
| Transcription.MergeIntoChunks | backend/app/services/transcription_service.py:184-220 | the merge loop computes the fold `Merge` |
| Transcription.MergeBoundaries | backend/app/services/transcription_service.py:193-219 | the first chunk starts where the first segment starts, and the last chunk ends where the last segment ends |
| Transcription.MergePreservesText | backend/app/services/transcription_service.py:196-216 | the chunk texts joined by spaces equal the segment texts joined by spaces |
| Transcription.MergeBreaks | backend/app/services/transcription_service.py:199-213 | every chunk but the last ends a sentence, and each break is at a segment (not the first) that starts the next chunk and ends 30 s or more after the broken chunk's start |
| Transcription.AudioLimitInBytes | backend/app/services/transcription_service.py:154-156 | the file is too large iff it has more than 26214400 bytes |
| Transcription.WhisperSegments | backend/app/services/transcription_service.py:172-179 | one segment per Whisper segment, in order, times copied and text stripped, so the texts are the stripped response texts |
| Transcription.StrippedTexts | backend/app/services/transcription_service.py:172-179 | the texts of the segments built from a response are exactly the stripped texts of its segments, in order |
| Transcription.TranscribeWithWhisper | backend/app/services/transcription_service.py:138-181 | Whisper is asked only for a downloaded file of at most 25 MB; the download, missing-file and size errors come back as failures with their messages; otherwise the result is exactly the 30-second, sentence-end merge of the stripped segments, with no more chunks than segments and their text preserved |
| Transcription.GetTranscriptSpec | backend/app/services/transcription_service.py:229-238 | captions are used, tagged `youtube_captions`, iff the JSON3 events gave at least one segment; otherwise the Whisper outcome is returned, tagged `whisper` |
| AiService.FormatTimeSpec | backend/app/services/ai_service.py:191-195 | for non-negative seconds: at least two digits, a colon, two digits for a seconds value below 60, and minutes * 60 + seconds = floor of the input |
| AiService.GenerateVideoSummary | backend/app/services/ai_service.py:59-72 | the summary always carries the video title; a reply is kept with the title set, otherwise the fixed fallback is used |
| AiService.FirstLate | backend/app/services/ai_service.py:39-42 | the index of the first chunk starting after 900 s, with every chunk before it starting no later |
| AiService.FirstLateAt | backend/app/services/ai_service.py:39-42 | that index is the only one with this property, so the cut-off point is well defined |
| AiService.SummaryTranscript | backend/app/services/ai_service.py:37-45 | one `[MM:SS-MM:SS] text` line for each chunk before the first late one, then the continuation marker only if a late chunk exists |
| AiService.SelectChunksIsFilter | backend/app/services/ai_service.py:107-110 | the window selection is the comprehension over the closed-interval test |
| AiService.SelectChunksSpec | backend/app/services/ai_service.py:104-110 | the selected chunks are an order-preserving subsequence of the input, containing exactly the chunks that meet `[max(0, t-60), t+30]` |
| AiService.NearbyEntriesIsFilter | backend/app/services/ai_service.py:123-126 | the nearby entries are the comprehension over `abs(video_timestamp - t) <= 300` |
| AiService.NearbyQaSpec | backend/app/services/ai_service.py:121-127 | at most 5 entries, the last ones among the nearby ones, all nearby, in input order |
| AiService.Truncate | backend/app/services/ai_service.py:135-137 | answers of up to 300 characters are unchanged; longer ones become their first 300 characters plus "...", so never more than 303 |
| AiService.MarkerIff | backend/app/services/ai_service.py:117 | a line carries the marker iff the chunk's start <= t <= its end |
| AiService.TranscriptLines | backend/app/services/ai_service.py:114-118 | one line per selected chunk |
| AiService.AppendSummarySection | backend/app/services/ai_service.py:91-101 | the summary loop appends exactly the summary section |
| AiService.MarkedLines | backend/app/services/ai_service.py:114-118 | the transcript loop produces the marked line of each chunk, in order |
| AiService.AppendTranscriptSection | backend/app/services/ai_service.py:103-119 | appends exactly the transcript section |
| AiService.QaEntryLines | backend/app/services/ai_service.py:131-138 | the Q&A loop produces a question line and a truncated answer line per entry, in order |
| AiService.AppendQaSection | backend/app/services/ai_service.py:121-139 | appends exactly the Q&A section |
| AiService.BuildContext | backend/app/services/ai_service.py:75-141 | the context is the three sections' lines joined with newlines |
| AiService.ContextHeaders | backend/app/services/ai_service.py:89-141 | the headers in the context are, in order: the summary header iff the summary is truthy, the transcript header iff some chunk is selected, the Q&A header iff some entry is nearby |
| AiService.SummaryHeaders | backend/app/services/ai_service.py:92-101 | the summary section has its header iff the summary is truthy |
| AiService.TranscriptHeaders | backend/app/services/ai_service.py:112-119 | the transcript section has its header iff some chunk is selected |
| AiService.QaHeaders | backend/app/services/ai_service.py:122-139 | the Q&A section has its header iff some entry survives the filter |
| AiService.TranscriptLinesNoHeader | backend/app/services/ai_service.py:118 | transcript lines start with `[`, so none reads as a header |
| AiService.AllQaLinesNoHeader | backend/app/services/ai_service.py:133-138 | Q&A lines start with `[`, so none reads as a header |
| AiService.StoredSummaryShown | backend/app/services/ai_service.py:61-100 | a stored generated summary always opens the context with its header and title line |
| AiService.AnswerQuestion | backend/app/services/ai_service.py:144-162 | the reply is returned as is; a failure is re-raised with "Failed to generate answer: " in front |
| AiService.DropEmptyKeepsText | backend/app/services/ai_service.py:182-184 | skipping empty deltas loses no text |
| AiService.AnswerQuestionStream | backend/app/services/ai_service.py:165-188 | yields only non-empty delta contents, in order, then one error fragment if the stream failed; together they spell all the delta text plus the error text |
| Store.FindFirst | backend/app/routes/qa.py:37-40 | an equality query on one column (the id here, the YouTube id on registration) returns a stored row whose column has that value, and nothing iff no row has it |
| Store.FoundByYoutubeId | backend/app/routes/videos.py:86-93 | with unique ids, the row found by its YouTube id is the row a lookup of its own id finds |
| Store.WithStatus | backend/app/routes/videos.py:62-64 | the rows with the id get the new status; every other row is unchanged |
| Store.WithSummary | backend/app/routes/videos.py:56-58 | the rows with the id become ready with the summary; every other row is unchanged |
| Store.WithoutChunksOf | backend/app/routes/videos.py:98 | exactly the other videos' chunk rows remain |
| Store.WindowRows | backend/app/routes/qa.py:49-54 | exactly the video's rows with end >= window start and start <= window end |
| Store.InsertByStartCount | backend/app/routes/qa.py:55 | inserting adds exactly the new row, as a multiset |
| Store.InsertByStartSorted | backend/app/routes/qa.py:55 | inserting into a list in start-time order keeps it in start-time order |
| Store.SortByStartSpec | backend/app/routes/qa.py:55 | the ordering is a permutation sorted by start time |
| Store.ChunkData | backend/app/routes/qa.py:59-62 | one chunk per row with its start, end and text |
| Store.ChunkWindowQuerySpec | backend/app/routes/qa.py:46-57 | the query returns, sorted by start, exactly this video's rows meeting the same window `build_context` uses |
| Store.WindowRefilterKeepsAll | backend/app/routes/qa.py:46-62 | `build_context`'s own window filter keeps every fetched chunk |
| Store.SelectAllInWindow | backend/app/services/ai_service.py:107-110 | the window filter keeps a list whose chunks all meet the window |
| Store.QaQuery | backend/app/routes/qa.py:65-72 | exactly this user's rows for this video, in stored (creation) order |
| Store.QaData | backend/app/routes/qa.py:74-77 | one entry per row with its timestamp, question and answer |
| Store.Database.InsertQa | backend/app/routes/qa.py:94-101 | appends one row with a fresh id and changes nothing else |
| Store.Database.InsertVideo | backend/app/routes/videos.py:109-116 | appends one processing row with a fresh id and no summary, found by its id afterwards |
| Store.Database.InsertChunks | backend/app/routes/videos.py:49 | appends the batch to the chunk rows |
| Store.Database.DeleteChunks | backend/app/routes/videos.py:98 | removes the video's chunk rows, leaves the other tables alone, and keeps the store valid |
| Store.Database.UpdateStatus | backend/app/routes/videos.py:96 | sets the status of the rows with the id |
| Store.Database.UpdateReady | backend/app/routes/videos.py:56-58 | sets the summary and the ready status of the rows with the id |
| Store.FindWithStatus | backend/app/routes/videos.py:96-105 | after a status update, the lookup of that id sees the new status |
| QaRoutes.CheckAsk | backend/app/routes/qa.py:28-43 | a request passes only with both fields present, for a stored ready video with that id; refusals are 400 or 404 |
| QaRoutes.RequiredFieldsFirst | backend/app/routes/qa.py:33-34 | a missing video id or question is refused with 400 whatever the store holds |
| QaRoutes.CheckAskSpec | backend/app/routes/qa.py:33-43 | a request passes iff both fields are present and the video with that id is ready; 404 iff no video has the id |
| QaRoutes.GatherContext | backend/app/routes/qa.py:46-85 | the context is built from the stored summary, the chunk-window query and this user's earlier questions on the video |
| QaRoutes.AskQuestion | backend/app/routes/qa.py:18-103 | a refused request or a failed answer (500 with the prefixed message) stores nothing; an answer is stored as exactly one new row, which is returned |
| QaRoutes.EventGenerator | backend/app/routes/qa.py:176-194 | one text event per fragment in order, then one row whose answer is the concatenation of the fragments, then one done event with that row's id; the streamed text equals the stored answer |
| QaRoutes.AskQuestionStream | backend/app/routes/qa.py:106-194 | the same guards store nothing; otherwise exactly one row is stored, holding all text the model sent plus the error text if it failed, equal to the streamed text, and the stream ends with its id |
| VideoRoutes.ChunkRecords | backend/app/routes/videos.py:37-45 | one record per chunk, tagged with the video, from which the chunks read back unchanged |
| VideoRoutes.BatchesSpec | backend/app/routes/videos.py:47-49 | the batches are ⌈n/100⌉ pieces of 1 to 100 records whose concatenation is the record list |
| VideoRoutes.BatchAt | backend/app/routes/videos.py:47-48 | batch b is the slice from 100·b to 100·b + 100 |
| VideoRoutes.ProcessVideo | backend/app/routes/videos.py:23-64 | on success all records are stored and the video is ready with its generated summary; a transcript failure or a failing batch marks it failed, keeping the batches already stored |
| VideoRoutes.InsertBatches | backend/app/routes/videos.py:46-49 | the loop stops exactly when it reaches the failing batch, with the earlier batches stored in order; otherwise all records are stored; no video row changes |
| VideoRoutes.SubmitVideo | backend/app/routes/videos.py:67-126 | an invalid video is refused with 400 and nothing changes; otherwise the registration relation holds, the returned video is the stored row, and any scheduled job is for it while it is processing |
| VideoRoutes.Register | backend/app/routes/videos.py:85-126 | a failed video goes back to processing, loses its chunks and is scheduled once; a processing or ready video is returned unchanged with nothing scheduled; a new video is stored as processing with the metadata title and scheduled once |
| VideoRoutes.Retry | backend/app/routes/videos.py:95-105 | the failed video goes back to processing, its chunks are deleted, one job is scheduled for it, and the returned row is the stored one |
| VideoRoutes.RegisterTransitions | backend/app/routes/videos.py:92-116 | registration only moves a stored video from failed to processing, adds rows only as processing, and schedules at most one job |

## Left out

- yt-dlp, the OpenAI client and Supabase are not modelled. Their results are inputs: caption JSON, the audio download outcome and size, Whisper segments, metadata or the error raised, the summary reply, the answer or the deltas, and which batch insert raises.
- The Supabase store is a `Database` object with three sequence fields. Row ids come from a counter, while the database generates UUIDs.
- `order("created_at")` is taken to be insertion order.
- Rows that start at the same time keep their stored order. The database does not promise any particular order for such ties.
- Supabase queries are modelled only as far as the routes use them: equality filters, the window bounds, and the start-time ordering.
- A `video_id` of `None` stands for absent, null or empty. Ids are natural numbers, so Python's falsy `0` has no counterpart.
- An explicit `null` timestamp in the request is not modelled.
- `backend/app/core/auth.py`, `backend/app/core/database.py` and `backend/app/main.py` (authentication, client set-up and app wiring) are not part of this model.
- The pydantic schemas are not part of this model. Only the status enum of `backend/app/models/models.py` is used.
- The read-only routes are not part of this model: `get_qa_history`, the video status and list routes, and `backend/app/routes/transcripts.py`.
- Async generators, `StreamingResponse`, `BackgroundTasks` and client disconnects are left out. The stream is a sequential loop, and a scheduled job is returned as a `ProcessTask` value.
- The `json.dumps` encoding of SSE events is left out. Events are the datatype `StreamEvent`.
- An insert that raises inside `event_generator` is not modelled. It would end the stream without a `done` event.
- `_process_video` does not model a failure of its final status update, which would itself lead to the `failed` update.
- Logging and the prompt texts are not modelled.
- IEEE float rounding is not modelled; times are exact reals.
- `str.lower` is modelled on ASCII letters only.
- Whitespace is Python's `str.isspace` set, listed code point by code point.
- `_merge_into_chunks` is modelled with `window_seconds` fixed at 30, the only value the code passes.
- The JSON3 test `text != "\n"` is implied by the non-empty test after `strip()`, so it adds no case.
- A metadata field present with a null value is treated like an absent one.
- JSON3 caption fields with a `null` value: in `Json3Event` and `Json3Seg`, `None` stands for a missing key only. In the code, a JSON `null` for `segs`, `utf8`, `tStartMs` or `dDurationMs` raises inside the parser; `fetch_youtube_captions` catches that and returns no captions, which sends the video to Whisper. The model has no such event, so this path is not modelled.
- YouTube.ValidateVideoSpec and VideoRoutes.SubmitVideo use the corrected whole-word test for "age" (see Findings). They promise the message the code as written raises only when "age" occurs in the lower-cased error only as a whole word. For other messages, such as "Unable to download webpage", the code raises the age-restriction message and the model passes the message on (`YouTube.ValidateWebpageDiffers`).
- `submit_video` reads the title with `metadata.get("title", "Unknown Title")`. The metadata always carries a title, so this default never applies and the model uses the metadata title.
- Summary replies are modelled with the fields the context reads. A summary whose fields are all null is not distinguished from one with only unknown keys.
- Transcription.TranscribeWithWhisper: the too-large message omits the size figure (`{file_size_mb:.1f}`), because float formatting is not modelled.

## Findings

| source | as written | input that shows it | evidently intended | confidence | as-written member | corrected member |
|---|---|---|---|---|---|---|
| backend/app/services/youtube_service.py:54 | the age-restriction test is the substring `"age" in error_msg`, which also fires inside words such as "webpage", "message", "page" and "usage" | yt-dlp's "Unable to download webpage" network error is reported as "This video is age-restricted and cannot be processed." | report an age restriction only when "age" occurs as a word, as in "confirm your age" or "age-restricted" | not executed | YouTube.WebpageMisclassified (with YouTube.ClassifyAsWritten) | YouTube.Classify (YouTube.ClassifyOrder, YouTube.ConfirmAgeRecognised), used by YouTube.GetVideoMetadata and so by validation and submission |
