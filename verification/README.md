# LLM comparison playground — a Dafny model of its core

The repository is a small playground for comparing language-model answers.
A React frontend has several pages:

- model comparison: DeepSeek against Llama;
- reasoning comparison: six solving methods and a summarising card;
- temperature comparison: 0, 0.7 and 1.2, with an analysis of the answers;
- token comparison: short, long and near-limit prompts;
- a chat with a fixed system prompt, and a system-prompt lab;
- a history-compression test.

A FastAPI backend proxies these pages to DeepSeek and to a Hugging Face Llama model. It also summarises long histories, answers weather questions through a weather tool server, and serves a users stub. A command-line client calls tools with `key=value` arguments.

This project models the deterministic logic under the UI and the HTTP plumbing. It uses immutable datatypes and pure functions, plus one event-driven state machine:

- **Streaming:**
  - the pages' streamed-response loop: line framing, `data: ` records, progress, and per-card writes (`Lines`, `Records`, `Entries`, `StreamConsumer`);
  - the stale-batch guard of the model and token pages (`RequestGuard`);
  - the backend's stream producers, and the producer/consumer round trip (`StreamProducers`).
- **Message lists:** how the backend builds the messages it sends upstream, flattens them into a Llama prompt, and cleans the generated text (`BackendMessages`).
- **Compression:** the compression router and its test page (`Compression`, `CompressionPage`).
- **Pages:**
  - the reasoning, model, temperature and token pages (`Reasoning`, `ModelComparison`, `Temperature`, `TokenBudget`), with the token estimate and the prompt-sizing loops;
  - the two chat pages (`ChatPages`);
  - the LaTeX segmentation of the answer cards (`Latex`, `LatexCommands`).
- **Small parsers:** the weather route's intent extraction and tool call (`Weather`), the command-line argument parser (`CliArgs`), and the users stub (`Users`).

Shared modules:

- `Wrappers`: `Option` and `Result`;
- `Strings`: JavaScript and Python whitespace, trim/strip, words, joining, and decimal rendering;
- `Wire`: request bodies and messages.

Several things are parameters of the model rather than part of it:

- **Decoding:** JSON parsing and encoding, the Unicode lower-casing of the weather route, the three location regular expressions, and the temperature page's metric regular expressions.
- **Upstream services:** the upstream model and the weather tool server.
- **Ids:** the request and message ids that `Date.now()` supplies.

Every file is checked by `dafny verify` as one project.

Where the code does something it evidently did not mean to (see "## Findings"), the operation itself follows the code as written. The corrected behaviour sits beside it: a member named `…Corrected`, or a helper pair `…AsWritten` and the plain name. A lemma relates the two and says when they agree.

## Model

| member | source | states |
|---|---|---|
| Strings.Trim | frontend/TokenComparison.tsx:46 | the trimmed text is the infix left after removing whitespace at both ends; it is empty exactly when the text is all whitespace, and otherwise starts and ends with a visible character |
| Strings.TrimIdempotent | frontend/TokenComparison.tsx:46 | trimming twice is trimming once |
| Strings.Words | frontend/TokenComparison.tsx:37 | the words are non-empty and hold no whitespace |
| Strings.WordsCoverNonSpace | frontend/TokenComparison.tsx:37 | splitting into words loses exactly the whitespace: the words put together are the text's visible characters |
| Strings.AsciiLower | interact_mcp_9001.py:92 | lower-casing keeps the length and maps A-Z to a-z, leaving every other character |
| Strings.NatToString | interact_mcp_9001.py:94-95 | a natural prints as a non-empty run of digits with no leading zero |
| Strings.NatToStringRoundTrip | interact_mcp_9001.py:94-95 | printing a natural and reading the digits back gives the natural |
| Lines.SplitLines | frontend/ReasoningComparison.tsx:83 | `split('\n')` yields at least one piece and no piece holds a newline |
| Lines.SplitThenJoin | frontend/ReasoningComparison.tsx:83 | joining the pieces of a split with newlines gives back the text |
| Lines.JoinThenSplit | frontend/ReasoningComparison.tsx:83 | splitting newline-free pieces joined by newlines gives back the pieces |
| Lines.CompleteLines | frontend/ReasoningComparison.tsx:83-84 | the lines handed to the record loop never contain a newline |
| Lines.Unterminated | frontend/ReasoningComparison.tsx:84 | the buffer kept after `pop()` never contains a newline |
| Lines.SplitPop | frontend/ReasoningComparison.tsx:83-84 | split followed by pop separates the complete lines from the unterminated tail |
| Lines.UnterminatedTailNeverProcessed | frontend/ReasoningComparison.tsx:78-84 | the processed lines, each with its newline, followed by the buffer, are exactly the text read |
| Lines.UnterminatedEmpty | frontend/ReasoningComparison.tsx:84 | the buffer is empty iff the text is empty or ends in a newline |
| Lines.TerminatedRoundTrip | frontend/ReasoningComparison.tsx:83-84 | newline-terminated lines plus a newline-free tail split back into those lines and that tail |
| Lines.FragmentAddsNoLines | frontend/ReasoningComparison.tsx:79-84 | a newline-free fragment after terminated text completes no line and becomes the buffer |
| Lines.AppendLines | frontend/ReasoningComparison.tsx:82-84 | appending text only changes the lines from the old buffer onwards |
| Lines.Feed | frontend/ReasoningComparison.tsx:82-84 | one turn of the read loop only adds lines, each newline-free, and leaves a newline-free buffer |
| Lines.FeedStep | frontend/ReasoningComparison.tsx:82-84 | one turn of the read loop moves the reader state from text `a` to text `a + c` |
| Lines.FeedAll | frontend/ReasoningComparison.tsx:78-84 | the read loop only adds newline-free lines, and after any chunk the buffer holds no newline |
| Lines.FeedAllFrom | frontend/ReasoningComparison.tsx:78-84 | the read loop over any chunks reaches the state of the concatenated text |
| Lines.ChunkIndependence | frontend/ReasoningComparison.tsx:78-84 | the lines processed and the final buffer depend only on the concatenation of the chunks |
| Lines.SameTextSameLines | frontend/ReasoningComparison.tsx:78-84 | two chunkings of the same text give the same lines and the same buffer |
| Records.Payload | frontend/ReasoningComparison.tsx:87-88 | a line is a record iff it starts with `data: `, and then its body is the rest of the line |
| Records.PayloadOfRecordLine | frontend/ReasoningComparison.tsx:87-88 | `data: ` followed by a body is read back as that body |
| Records.NonRecordLineIgnored | frontend/ReasoningComparison.tsx:86-87 | a line not starting with `data: ` adds nothing to the response |
| Records.ParseFailureSkipped | frontend/ReasoningComparison.tsx:89-111 | a record body that does not parse adds nothing |
| Records.ErrorRecordSwallowed | frontend/ReasoningComparison.tsx:106-111 | an `{error}` record without content is thrown and caught inside the loop, adding nothing |
| Records.ContentRecordAppends | frontend/ReasoningComparison.tsx:91-92 | a record with truthy content adds exactly that content |
| Records.Contents | frontend/ReasoningComparison.tsx:86-92 | the contents collected are non-empty and at most one per line |
| Records.Accumulate | frontend/ReasoningComparison.tsx:86-92 | the record loop only appends to the response it starts from |
| Records.AccumulateIsConcat | frontend/ReasoningComparison.tsx:86-92 | the response is the old text followed by every truthy content in arrival order |
| Records.StreamTextChunkIndependent | frontend/ReasoningComparison.tsx:78-92 | the streamed response depends only on the complete lines of the concatenated chunks |
| Records.TrailingFragmentIgnored | frontend/ReasoningComparison.tsx:79-84 | a final fragment with no newline never reaches the response, since the buffer is not flushed after `done` |
| Records.Progress | frontend/ReasoningComparison.tsx:100 | the streaming progress lies in [10, 90] and is 90 exactly from 1000 characters on |
| Records.ProgressMonotone | frontend/ReasoningComparison.tsx:100 | a longer response never shows less progress |
| Entries.Loading | src/ReasoningComparison.tsx:138-183 | a new card has its id, an empty response, is loading and has no error |
| Entries.ApplyWrite | frontend/ReasoningComparison.tsx:70-76 | no state write changes a card's id, title or prompt |
| Entries.ApplyAllAppend | frontend/ReasoningComparison.tsx:70-135 | applying two runs of writes is applying the first run, then the second |
| Entries.StreamingWritesKeepRest | frontend/ReasoningComparison.tsx:93-104 | streaming writes change only the response, the loading flag and the progress |
| Entries.Ids | frontend/ReasoningComparison.tsx:93-104 | the id list has one entry per card, in order |
| Entries.UpdateById | frontend/ReasoningComparison.tsx:93-104 | the list keeps its length; exactly the cards with the given id are rewritten, every other card is unchanged |
| Entries.Find | frontend/ReasoningComparison.tsx:93-104 | a card is found iff its id is in the list, and the found card has that id |
| Entries.UpdateAbsentId | frontend/ReasoningComparison.tsx:93-104 | a write addressed to an id no card has changes nothing |
| Entries.UpdateFind | frontend/ReasoningComparison.tsx:117-135 | a write keeps the ids, rewrites the card it names and leaves every other id's card as it was |
| Entries.UpdatesCommute | frontend/ReasoningComparison.tsx:93-104 | writes to two different cards can be applied in either order |
| Entries.WritesFor | frontend/ReasoningComparison.tsx:93-104 | every write gathered for an id is one the schedule addresses to that id, no more writes than the schedule has entries, none when no entry is addressed to it, and an entry at the front comes first |
| Entries.ApplySchedule | frontend/ReasoningComparison.tsx:93-104 | writes addressed by id keep the list's length and every card's id in place |
| Entries.ScheduleProjection | frontend/ReasoningComparison.tsx:93-135 | however writes to different cards interleave, each card ends as its own writes applied in order and the list keeps its length |
| StreamConsumer.HttpErrorMessage | src/ReasoningComparison.tsx:45-48 | a non-ok response's message is the body's non-empty `detail`, `Unknown error` for an unreadable body, or `HTTP error! status: N`; it is never empty |
| StreamConsumer.HttpErrorMessageNamesStatus | src/ReasoningComparison.tsx:47 | the fallback message is the fixed prefix followed by the decimal status, which reads back as the status |
| StreamConsumer.PartialWrites | frontend/ReasoningComparison.tsx:91-104 | one progress update per truthy content, each showing more than the starting text, with the progress the formula gives for its length |
| StreamConsumer.PartialWritesIncreasing | frontend/ReasoningComparison.tsx:91-104 | each progress update shows strictly more text than the one before |
| StreamConsumer.PartialWritesLast | frontend/ReasoningComparison.tsx:91-104 | the last progress update shows the whole accumulated response |
| StreamConsumer.StreamWrites | frontend/ReasoningComparison.tsx:33-137 | every call makes at least one write to its card |
| StreamConsumer.PartialWritesOrdered | frontend/ReasoningComparison.tsx:91-104 | progress never decreases across updates and every shown text is a prefix of the final response |
| StreamConsumer.ProgressTrace | frontend/ReasoningComparison.tsx:73-120 | a normal stream shows progress 10, then non-decreasing values in [10, 90] with prefixes of the final text, then 100 with the full text |
| StreamConsumer.CompletedStreamEntry | frontend/ReasoningComparison.tsx:106-123 | a normal stream leaves the card not loading, at 100, holding the contents of the complete record lines, with its error untouched even after `{error}` records |
| StreamConsumer.FailedCallEntry | src/ReasoningComparison.tsx:114-125 | a call that fails before streaming leaves the card not loading with the failure's message and nothing else changed |
| StreamConsumer.InterruptedStreamEntry | frontend/ReasoningComparison.tsx:124-135 | a read failure mid-stream records the failure, stops loading and keeps a prefix of the response |
| StreamConsumer.LastStreamingWrite | frontend/ReasoningComparison.tsx:93-104 | after streaming writes, the card shows the text of the last one |
| RequestGuard.Step | frontend/ModelComparison.tsx:64-123 | a guarded event whose id is not current changes nothing, and no guarded event changes the current id |
| RequestGuard.Relevant | frontend/ModelComparison.tsx:64-123 | the events kept are the submits and the guarded events carrying the given id |
| RequestGuard.StaleEventsIgnored | frontend/ModelComparison.tsx:64-123 | between submits, running all writes is running only those of the current batch |
| RequestGuard.SupersededBatchInert | frontend/ModelComparison.tsx:180-239 | once a newer submit replaced a batch's id, nothing the old batch does has any effect |
| RequestGuard.CurrentBatchUnaffected | frontend/ModelComparison.tsx:64-123 | while its batch is current, the guarded writes act exactly as unguarded per-id updates |
| RequestGuard.SubmitContract | frontend/ModelComparison.tsx:255-264 | a submit on a blank prompt or while processing is ignored; otherwise it installs its id, clears the results and sets processing |
| RequestGuard.FinishContract | frontend/ModelComparison.tsx:293-295 | only the batch whose id is still current clears the processing flag |
| RequestGuard.ProcessingPinsId | frontend/ModelComparison.tsx:255-258 | while processing, no submit gets through, so the current id cannot change |
| RequestGuard.WriteEvents | frontend/ModelComparison.tsx:64-123 | one guarded write event per scheduled write, carrying the batch id, in order |
| RequestGuard.BatchEvents | frontend/ModelComparison.tsx:255-296 | a batch is its submit, the guarded card creation, its guarded writes and the guarded finish |
| RequestGuard.UnguardedWrites | frontend/ModelComparison.tsx:64-123 | unguarded writes are the per-id updates of the schedule in the same order |
| RequestGuard.UnguardedAppend | frontend/ModelComparison.tsx:64-123 | unguarded writes of two runs compose |
| RequestGuard.RunFinishes | frontend/ModelComparison.tsx:293-295 | a current batch's events ending in its finish leave processing cleared |
| RequestGuard.UninterruptedBatch | frontend/ModelComparison.tsx:255-296 | an uninterrupted batch on a non-blank prompt ends idle, with its id current and its cards updated by exactly its writes |
| ModelComparison.StreamBody | frontend/ModelComparison.tsx:34-40 | both calls send the prompt followed by the LaTeX instruction, max_tokens 1000, and a system prompt exactly when a non-empty one is given |
| ModelComparison.MainRouteSendsOneTurn | main.py:58-64 | the root backend's stream route sends that body upstream as one user turn |
| ModelComparison.RouterMessages | backend/routers/chat.py:33-65 | the router puts the system prompt first when sent, then the one user turn, and keeps max_tokens 1000 |
| ModelComparison.UninterruptedComparison | frontend/ModelComparison.tsx:255-296 | an uninterrupted comparison ends idle with two cards, each holding exactly its own call's writes in order, whatever the interleaving |
| BackendMessages.SystemPart | backend/routers/chat.py:37-38 | there is a leading system message iff the system prompt is truthy, and it carries that prompt |
| BackendMessages.AssembleMessages | main.py:58-67 | with messages, the list is the optional system message followed by the whole history; with only a prompt, one user message; with neither, a 400 |
| BackendMessages.CaughtByGenericHandler | main.py:116-118 | the generic handler turns any exception into a 500 whose detail starts with `Internal server error: ` and ends with the original detail |
| BackendMessages.AssembleMessagesAsWritten | main.py:65-118 | as written the success cases agree with the intended assembly and the 400 comes out re-raised by the generic handler |
| BackendMessages.MissingInputAnswered500 | main.py:65-118 | a request with neither prompt nor messages gets status 500 instead of the 400 raised for it |
| BackendMessages.AsWrittenAgreesOnValidInput | main.py:58-64 | on every request with a prompt or messages the code as written and the corrected assembly agree |
| BackendMessages.ReplyText | main.py:167-173 | the reply is the first choice's content exactly when choices are present and non-empty, else a 500 |
| BackendMessages.LastUserContent | backend/routers/chat.py:47-51 | finds a user message iff one exists, and then the content of the last one |
| BackendMessages.UserContent | backend/routers/chat.py:40-63 | a truthy prompt wins; neither prompt nor messages gives the 400 naming both; a missing user turn gives the 400 `No user message found`; a kept turn is never empty |
| BackendMessages.PrepareMessages | backend/routers/chat.py:25-65 | on success one or two messages, system first iff given, ending with exactly one user message; every failure is a 400 |
| BackendMessages.UserTurnChoice | backend/routers/chat.py:47-55 | without a prompt the kept turn is the last user message when its content is truthy, else the last message's content |
| BackendMessages.LastUserUnique | backend/routers/chat.py:47-51 | the search from the end stops at the last user message |
| BackendMessages.PrepareIgnoresEarlierHistory | backend/routers/chat.py:59-65 | earlier history in front of a final user message does not change the messages sent |
| BackendMessages.TemperatureOr | backend/routers/chat.py:75 | the requested temperature when given, else the route's default |
| BackendMessages.MaxTokensOr | backend/services/deepseek_api.py:42 | Python `or`: a missing or zero limit falls back to the default, any other value is kept |
| BackendMessages.PromptLine | backend/services/llama_api.py:113-120 | a message gives a prompt line exactly when its role is system, user or assistant, and the line ends with `: ` and the content |
| BackendMessages.PromptLines | backend/services/llama_api.py:111-120 | at most one prompt line per message |
| BackendMessages.LlamaPrompt | backend/services/llama_api.py:122 | the flattened prompt always ends with the `Assistant:` cue |
| BackendMessages.PartsAreTerminatedLines | backend/services/llama_api.py:111-122 | the prompt parts are the known-role lines, each followed by a newline |
| BackendMessages.LlamaPromptReadsBack | backend/services/llama_api.py:111-122 | with newline-free contents, the prompt splits back into one `Role: content` line per known-role message and the unterminated cue |
| BackendMessages.PromptLinesNoNewline | backend/services/llama_api.py:111-120 | newline-free contents give newline-free prompt lines |
| BackendMessages.UnknownRoleSkipped | backend/services/llama_api.py:111-120 | a message of another role adds nothing to the prompt |
| BackendMessages.GeneratedText | backend/routers/llama.py:107-119 | a list gives its first element's `generated_text`; a dict gives `generated_text`, else `text`; anything else gives "" |
| BackendMessages.StripPromptAsWritten | backend/routers/llama.py:122-125 | as written: when the messages text occurs anywhere, that many leading characters are dropped and the rest stripped |
| BackendMessages.ContainsFits | backend/routers/llama.py:124 | an occurring needle is no longer than the text |
| BackendMessages.StripCutsByLength | backend/routers/llama.py:122-125 | an echo after the start removes the wrong characters: `A user: q` becomes `q` |
| BackendMessages.StripPrompt | backend/routers/llama.py:122-125 | the echo is removed only when the output starts with it, the remainder stripped |
| BackendMessages.StripKeepsInnerEcho | backend/routers/llama.py:122-125 | an output with the echo not at its start is left alone |
| BackendMessages.StripPromptRemovesEcho | backend/routers/llama.py:122-125 | an output starting with the echo is reduced to the stripped remainder |
| BackendMessages.LlamaReply | backend/routers/llama.py:121-134 | as written: an empty generated text gives a note quoting at most 500 characters of the raw data; a text without the echo is returned unchanged; a text holding the echo anywhere loses as many leading characters as the echo has and is stripped |
| BackendMessages.UnexpectedNote | backend/routers/llama.py:132-133 | the fallback reply is the bracketed `Unexpected format` note, at most 521 characters long |
| BackendMessages.LlamaReplyCorrected | backend/routers/llama.py:121-134 | corrected: the echo is removed only when the generated text starts with it, otherwise the text is returned unchanged |
| BackendMessages.LlamaReplyDropsEcho | backend/routers/llama.py:122-125 | an output that is the messages text followed by an answer is replied to with the stripped answer alone, by both the written and the corrected reply |
| BackendMessages.LlamaRepliesAgree | backend/routers/llama.py:124-125 | the written and corrected replies agree whenever the output starts with the echo or does not contain it |
| StreamProducers.ReframeLine | backend/services/deepseek_api.py:100-112 | one upstream line yields at most one record: a line without the `data: ` prefix yields nothing, `[DONE]` stops with nothing, a continuing line yields only non-empty content, and only an error stops the stream with a record |
| StreamProducers.Reframe | backend/services/deepseek_api.py:99-115 | every content record carries non-empty content, and only the last record can be an error |
| StreamProducers.DeepSeekStream | backend/services/deepseek_api.py:72-74 | without an API key exactly one error record and no request; otherwise the re-framed upstream |
| StreamProducers.OutContentsAppend | backend/services/deepseek_api.py:99-115 | the contents of two runs of records are the two runs' contents in order |
| StreamProducers.ReframeForwardsDeltas | backend/services/deepseek_api.py:100-110 | without malformed records, every non-empty delta content up to `[DONE]` is forwarded, in order |
| StreamProducers.DoneEndsStream | backend/services/deepseek_api.py:102-103 | nothing after a `[DONE]` line is read, and no later failure is reported |
| StreamProducers.DoneEndsStreamFrom | backend/services/deepseek_api.py:99-103 | the same after any prefix of emitting lines |
| StreamProducers.Pieces | backend/services/llama_api.py:165-168 | the chunks concatenate back to the text, all have length 10 except possibly a shorter non-empty last one, and there are ceil(n/10) of them |
| StreamProducers.LlamaStream | backend/services/llama_api.py:106-179 | without a key one error record; generated text is emitted as its 10-character pieces; any other reply is one record |
| StreamProducers.AsContent | backend/services/llama_api.py:166-168 | one content record per piece, carrying that piece |
| StreamProducers.EmptyTextNoRecords | backend/services/llama_api.py:166-168 | empty generated text emits no record |
| StreamProducers.FrameLines | backend/routers/chat.py:78-80 | framing gives two lines per record: the record line and a blank separator |
| StreamProducers.FramedIsTerminated | backend/routers/chat.py:78-80 | the framed stream is exactly the frame lines, each followed by a newline |
| StreamProducers.FrameLinesNoNewline | backend/routers/chat.py:78-80 | single-line encodings give newline-free frame lines |
| StreamProducers.FrameLinesContents | backend/routers/chat.py:78-80 | the page reads from the frame lines exactly the emitted contents; blank separators and error records add nothing |
| StreamProducers.RoundTrip | backend/routers/chat.py:78-80 | however the framed stream is cut into chunks, the page's response is the concatenation of the contents the backend emitted |
| StreamProducers.LlamaEndToEnd | backend/services/llama_api.py:162-168 | the page shows exactly the generated text |
| StreamProducers.DeepSeekEndToEnd | backend/services/deepseek_api.py:99-112 | the page shows the upstream delta contents up to `[DONE]` |
| Compression.LabelledOnly | backend/routers/compression.py:37-46 | the messages kept are exactly those with a user, assistant or system role |
| Compression.TranscriptAppend | backend/routers/compression.py:37-46 | the transcript of two runs of messages is the two transcripts in order |
| Compression.OtherRolesSkipped | backend/routers/compression.py:37-46 | messages of any other role contribute nothing to the transcript |
| Compression.TranscriptOfOne | backend/routers/compression.py:37-46 | one message's block is its Russian role label, its content and a blank line |
| Compression.SummaryPrompt | backend/routers/compression.py:26-56 | the summary prompt is the fixed heading, the transcript and the fixed tail, and the transcript can be cut back out of it |
| Compression.Summarize | backend/routers/compression.py:59-97 | no messages give "" without a call; otherwise the first choice, and every failure is a 500 whose detail starts with `Error summarizing messages: ` |
| Compression.CompressHistory | backend/routers/compression.py:100-126 | below the threshold the identity; otherwise one placeholder system message followed by the messages from the threshold on |
| Compression.CompressionPoint | backend/routers/compression.py:173 | the largest multiple of ten not above n, at least ten once n is |
| Compression.SummaryMessage | backend/routers/compression.py:185-188 | the stand-in for the summarised messages is a system message whose content ends with the summary after `:` and a newline |
| Compression.Compress | backend/routers/compression.py:159-193 | compression happens iff there are at least ten messages; the first ⌊n/10⌋·10 are summarised into one system message and the list has 1 + n mod 10 messages ending with the rest |
| Compression.UsageOf | backend/routers/compression.py:210-215 | each usage count is the reported one, or 0 when missing |
| Compression.ChatWithHistory | backend/routers/compression.py:149-227 | reports original = n and compressed = the sent list's length, with original − compressed = ⌊n/10⌋·10 − 1 when compressed; a summary exactly when compressed; summary errors pass through, any other failure is a 500 |
| Compression.StreamInfo | backend/routers/compression.py:231-275 | the streaming route succeeds up to its first frame iff compression succeeds, and makes the same upstream call |
| Compression.StreamAgreesWithChat | backend/routers/compression.py:249-273 | the streaming route's first frame reports exactly what the plain route reports |
| Compression.CompressAgreesWithCompressHistory | backend/routers/compression.py:100-189 | for 10 to 19 messages the route cuts where `compress_history` cuts |
| Compression.CompressionPartition | backend/routers/compression.py:173-177 | the summarised part and the kept part partition the history, and the summary call sees exactly the summarised part |
| Compression.EmptySummaryNoCall | backend/routers/compression.py:69-70 | summarising no messages costs no call and gives "" |
| CompressionPage.Submit | frontend/CompressionTest.tsx:107-124 | a blank input or a request in flight changes nothing; otherwise the trimmed user message and a typing placeholder are appended, the input cleared and loading set |
| CompressionPage.TrimBlank | frontend/CompressionTest.tsx:107-112 | a non-blank input trims to a non-empty message |
| CompressionPage.VisibleAsWritten | frontend/CompressionTest.tsx:133-135 | every message the code's filter keeps is neither the welcome, nor typing, nor hidden |
| CompressionPage.VisibleAsWrittenKeeps | frontend/CompressionTest.tsx:133-135 | the code's filter keeps exactly the messages that are not welcome, not typing and not hidden |
| CompressionPage.Visible | frontend/CompressionTest.tsx:133-135 | the corrected filter also leaves out the summary message |
| CompressionPage.VisibleKeeps | frontend/CompressionTest.tsx:133-135 | the corrected filter keeps exactly the shown messages that are not the summary |
| CompressionPage.VisibleAppend | frontend/CompressionTest.tsx:133-135 | the corrected filter distributes over concatenation |
| CompressionPage.VisibleAsWrittenAppend | frontend/CompressionTest.tsx:133-135 | the filter as written distributes over concatenation |
| CompressionPage.VisibleWithoutSummaries | frontend/CompressionTest.tsx:133-135 | without summary messages on screen both filters agree |
| CompressionPage.SummaryPrefix | frontend/CompressionTest.tsx:139-144 | at most one summary is put in front |
| CompressionPage.HistoryAsWritten | frontend/CompressionTest.tsx:133-158 | the code's history is the summary, if any, then every shown message, then the new user turn |
| CompressionPage.History | frontend/CompressionTest.tsx:133-158 | the corrected history starts with the summary when there is one, ends with the user turn, and holds no other summary |
| CompressionPage.ToWire | frontend/CompressionTest.tsx:147-158 | one wire message per history message, with its role and content |
| CompressionPage.Request | frontend/CompressionTest.tsx:133-169 | as written: the request carries one wire message per entry of the code's history, the summary first when there is one and the trimmed user turn last, at temperature 0.7 with no token limit |
| CompressionPage.RequestCorrected | frontend/CompressionTest.tsx:133-169 | corrected: the same request built from the corrected history, one message per shown non-summary message between the summary and the user turn |
| CompressionPage.SummarySentTwice | frontend/CompressionTest.tsx:133-152 | once a summary is on screen the code sends it twice, in front and among the shown messages |
| CompressionPage.SummarySentOnce | frontend/CompressionTest.tsx:133-158 | with the summary filter the summary is sent exactly once, first |
| CompressionPage.SliceTo | frontend/CompressionTest.tsx:210 | JavaScript `slice(0, k)`: a prefix, clamped, with a negative end counting from the back |
| CompressionPage.IdsOf | frontend/CompressionTest.tsx:211 | the set holds exactly the messages' ids |
| CompressionPage.WelcomeIndex | frontend/CompressionTest.tsx:220 | the index of the first welcome message, or the length when there is none |
| CompressionPage.WithoutSummaries | frontend/CompressionTest.tsx:217 | exactly the non-summary messages, in order |
| CompressionPage.SummarySlot | frontend/CompressionTest.tsx:220-228 | the new summary's slot is right after the first welcome message, or first when there is none |
| CompressionPage.PlaceSummary | frontend/CompressionTest.tsx:217-228 | all old summaries are dropped and exactly one new one is inserted at the slot, the rest in order |
| CompressionPage.Settle | frontend/CompressionTest.tsx:247-267 | only the placeholder with the given id is rewritten, with its final text and not typing |
| CompressionPage.AddUsage | frontend/CompressionTest.tsx:235-241 | token totals add componentwise |
| CompressionPage.CompactedHiding | frontend/CompressionTest.tsx:179-229 | a compressing reply installs the new summary, leaves exactly one summary in the list, adds the given ids to the hidden ones and records the reported counts |
| CompressionPage.Compacted | frontend/CompressionTest.tsx:179-229 | as written: the same, hiding the first `original − compressed` messages shown after the submit |
| CompressionPage.CompactedCorrected | frontend/CompressionTest.tsx:179-229 | corrected: the new summary is installed and the hidden ids grow by all the shown messages the backend summarised |
| CompressionPage.ExchangeHiding | frontend/CompressionTest.tsx:104-271 | a whole exchange for a given choice of hidden ids: a refused submit changes nothing; a failure only rewrites the placeholder to `Ошибка: …`; without compression info is cleared and nothing is restructured; a compressing reply hides the chosen ids; the hidden ids only grow and totals add the reported usage |
| CompressionPage.Exchange | frontend/CompressionTest.tsx:104-271 | as written: the same whole exchange, where a compressing reply hides the first `original − compressed` messages shown after the submit |
| CompressionPage.ExchangeCorrected | frontend/CompressionTest.tsx:104-271 | corrected: a refused submit changes nothing, and a compressing reply hides every shown message the backend summarised |
| CompressionPage.ExchangesAgree | frontend/CompressionTest.tsx:209-214 | the written and corrected exchanges leave the same page apart from the hidden ids, and the very same page when the reply does not compress |
| CompressionPage.Clear | frontend/CompressionTest.tsx:280-293 | clear leaves only the welcome message, zero totals and counter, no hidden ids, no summary and no info |
| CompressionPage.ClearForgetsHistory | frontend/CompressionTest.tsx:280-293 | after a clear the next request carries only the new user turn, in the written and the corrected history alike |
| CompressionPage.ShownAfterSubmit | frontend/CompressionTest.tsx:122-204 | the new user message is shown after the submit and the placeholder is not |
| CompressionPage.FirstCompressionLeavesOneVisible | frontend/CompressionTest.tsx:209-214 | on the first compression the code hides one message fewer than the backend summarised, so the last summarised message stays on screen |
| CompressionPage.FirstExchangeKeepsLastShown | frontend/CompressionTest.tsx:209-214 | after the first compressing exchange as written, the last message the backend summarised is still not hidden |
| CompressionPage.HiddenAreSummarised | frontend/CompressionTest.tsx:209-214 | with the corrected count the hidden ids are exactly those of the messages the backend summarised, apart from the summary |
| CompressionPage.HistoryTail | frontend/CompressionTest.tsx:133-204 | after the submit, the shown non-summary messages are the history without its summary prefix |
| CompressionPage.HideCountValue | frontend/CompressionTest.tsx:209 | for the counts the backend reports, the count as written is one less than the compression point, and the corrected count is the compression point less the summary sent in front |
| CompressionPage.RequestCounts | frontend/CompressionTest.tsx:160-169 | the page's request of at least ten history messages comes back compressed with original − compressed = ⌊n/10⌋·10 − 1 |
| Reasoning.Batch | src/ReasoningComparison.tsx:138-183 | a submit creates exactly six loading cards with ids direct, stepwise, prompt-engineering, expert-1, expert-2, expert-3, each carrying the task |
| Reasoning.MethodIdsDistinct | src/ReasoningComparison.tsx:138-183 | the six ids are pairwise distinct and none is the summarizer's |
| Reasoning.Submit | src/ReasoningComparison.tsx:129-183 | a blank task or a batch in progress changes nothing; otherwise processing starts with the six loading cards |
| Reasoning.MethodCall | src/ReasoningComparison.tsx:189-253 | each of the six ids makes one call; all but prompt-engineering send the task with the LaTeX instruction; prompt-engineering sends the generated prompt; only direct and stepwise send no system prompt |
| Reasoning.PromptBody | frontend/ReasoningComparison.tsx:40-45 | the newer page sends the prompt, and `system_prompt` exactly when it is truthy |
| Reasoning.MessagesBody | src/ReasoningComparison.tsx:28-42 | the older page sends an optional system message followed by exactly one user message holding the prompt |
| Reasoning.MainKeepsMessagesBody | main.py:58-62 | the root backend forwards the older page's messages as sent |
| Reasoning.MainDropsSystemOfPromptBody | main.py:63-64 | the root backend drops the newer page's system prompt and sends only the user turn |
| Reasoning.RouterKeepsPromptBody | backend/routers/chat.py:37-65 | the chat router puts the newer page's system prompt before the user turn |
| Reasoning.RouterDropsSystemOfMessagesBody | backend/routers/chat.py:40-65 | the chat router ignores the older page's system message and keeps only the user turn |
| Reasoning.BannerHead | src/ReasoningComparison.tsx:226 | the banner is the fixed opening, the generated prompt quoted, and the fixed `Решение:` heading; the prompt can be cut back out |
| Reasoning.GeneratorMessagesBody | src/ReasoningComparison.tsx:202-214 | the older page asks the generator with exactly two messages: the generator's instructions as system, then the filled template as user, and no other field |
| Reasoning.GeneratorPromptBody | frontend/ReasoningComparison.tsx:207-217 | the newer page asks the generator with `system_prompt` and the filled template as `prompt`, and no other field |
| Reasoning.SrcGeneratorPrompt | src/ReasoningComparison.tsx:202 | the older page's template is its fixed request text followed by the task, and the task can be cut back out |
| Reasoning.MainKeepsGeneratorMessages | main.py:58-62 | the root backend sends the older page's generator instructions and filled template upstream as they are |
| Reasoning.MainDropsGeneratorSystem | main.py:63-64 | the root backend drops the newer page's generator instructions and sends only the filled template |
| Reasoning.RouterKeepsGeneratorSystem | backend/routers/chat.py:37-65 | the chat router puts the newer page's generator instructions before the filled template |
| Reasoning.MethodWrites | src/ReasoningComparison.tsx:197-265 | a method's card gets its stream's writes; prompt-engineering then gets the banner in front, or only the generator's failure |
| Reasoning.EngineeredEntry | src/ReasoningComparison.tsx:218-230 | a completed engineered stream shows the banner followed by the streamed answer |
| Reasoning.MissingGeneratedPrompt | src/ReasoningComparison.tsx:214-218 | a generator reply without `response` runs on the text `undefined` |
| Reasoning.BatchOutcome | src/ReasoningComparison.tsx:269 | whatever the interleaving of the six calls, each card ends as its own writes applied in order |
| Reasoning.Candidates | frontend/ReasoningComparison.tsx:283 | the cards compared are exactly those with a response, no error and an id other than summarizer, in list order |
| Reasoning.CandidatesAppend | frontend/ReasoningComparison.tsx:283 | the comparison filter distributes over concatenation |
| Reasoning.Numbered | frontend/ReasoningComparison.tsx:303-307 | one block per compared card, numbered consecutively |
| Reasoning.BlockNumbering | frontend/ReasoningComparison.tsx:303-307 | block i names method i + 1 with its title and ends with its answer |
| Reasoning.WithSummarizer | frontend/ReasoningComparison.tsx:283-300 | the summarizer card is appended iff some card is comparable |
| Reasoning.SummarizerNotCompared | frontend/ReasoningComparison.tsx:283 | the summarizer's own card never takes part in a comparison |
| Reasoning.SummarizerCall | frontend/ReasoningComparison.tsx:302-317 | the summarizer is called with the comparer system prompt, and its prompt ends with the LaTeX instruction |
| Reasoning.SummarizerCallIgnoresOwnCard | frontend/ReasoningComparison.tsx:283-317 | adding the summarizer's own card to the list does not change the call it makes |
| Reasoning.NoAnswersNoSummarizer | frontend/ReasoningComparison.tsx:283-300 | a batch where every card failed or answered empty gets no summarizer |
| Latex.OrderedCons | src/ReasoningComparison.tsx:291-297 | a match ahead of an ordered run that starts after it keeps the run ordered |
| Latex.OrderedTail | src/ReasoningComparison.tsx:300-319 | after the first match, the rest of the matches lie after its end |
| Latex.OrderedChain | src/ReasoningComparison.tsx:291-297 | in the matches a global search collects, a later match starts after every earlier one ends |
| Latex.Raws | src/ReasoningComparison.tsx:300-324 | one raw text per piece, in order |
| Latex.Cut | src/ReasoningComparison.tsx:300-324 | cutting the text at its matches never produces an empty plain piece |
| Latex.RawsAppend | src/ReasoningComparison.tsx:300-324 | the raw texts of two runs of pieces are the raw texts of each, in order |
| Latex.CutReconstructs | src/ReasoningComparison.tsx:300-324 | the plain pieces and the matches' raw text put back together give exactly the text from the starting point |
| Latex.CutWithoutMatches | src/ReasoningComparison.tsx:321-326 | a text with no match is one plain piece, or none when it is empty |
| Latex.FindPair | src/ReasoningComparison.tsx:285 | the scan stops at the first `$$` at or after its start, or at the end when there is none |
| Latex.BlockSpans | src/ReasoningComparison.tsx:285-297 | the block matches are ordered, each runs from a `$$` to the next `$$`, and no `$$` comes before the first |
| Latex.BlockSpansComplete | src/ReasoningComparison.tsx:285-297 | no block match means no two non-overlapping `$$` occur in the text |
| Latex.NextDollar | src/ReasoningComparison.tsx:335 | the scan stops at the first `$` at or after its start, or at the end |
| Latex.InlineEnd | src/ReasoningComparison.tsx:335 | a reported end is a match of the inline pattern at that start |
| Latex.InlineEndIff | src/ReasoningComparison.tsx:335 | the scanner reports end e at p exactly when the inline pattern matches [p, e) |
| Latex.InlineSpans | src/ReasoningComparison.tsx:335-354 | the inline matches are ordered, each is a match of the pattern, and no position before the first starts one |
| Latex.KeepIsolated | src/ReasoningComparison.tsx:345-353 | the neighbour check never adds a match |
| Latex.IsolationCheckRedundant | src/ReasoningComparison.tsx:335-353 | the check on the characters around a match drops nothing, because the pattern's look-arounds already exclude a neighbouring `$` |
| Latex.InlineMatches | src/ReasoningComparison.tsx:340-354 | the matches of the inline renderer are ordered and each is a match of the pattern |
| Latex.InlineMatchesComplete | src/ReasoningComparison.tsx:340-354 | when no match is found, no position of the text starts a match |
| Latex.InlineSpansNone | src/ReasoningComparison.tsx:343-354 | a search that finds nothing from a position passes over every later position |
| Latex.FormulaParts | src/ReasoningComparison.tsx:306-367 | a match gives one formula holding its trimmed content exactly when that content is not blank |
| Latex.InlineParts | frontend/ModelComparison.tsx:371-397 | inline rendering adds at most one part per piece and never a block formula; the newer pages drop blank gaps |
| Latex.InlinePartsAppend | src/ReasoningComparison.tsx:357-378 | the parts of two runs of pieces are the parts of each, in order |
| Latex.RenderInline | src/ReasoningComparison.tsx:329-381 | empty text renders as nothing, any other text as at least one part |
| Latex.NoInlineMatchIsText | src/ReasoningComparison.tsx:376-380 | a text with no inline match renders as itself |
| Latex.KeptGapsAreThePlainPieces | src/ReasoningComparison.tsx:357-378 | the older page's text parts are exactly the plain pieces, in order |
| Latex.GapsKeptVerbatim | src/ReasoningComparison.tsx:357-380 | the pieces give back the text, and the older page's text parts are its plain pieces |
| Latex.TextsAppend | src/ReasoningComparison.tsx:357-378 | the text parts of two runs of parts are those of each, in order |
| Latex.RenderMath | src/ReasoningComparison.tsx:274-327 | empty text renders as one empty text part, and every text as at least one part |
| Latex.FormulasAppend | src/ReasoningComparison.tsx:300-319 | the block formulas of two runs of parts are those of each, in order |
| Latex.BlockFormulasInOrder | src/ReasoningComparison.tsx:300-319 | the block formulas rendered are the trimmed non-blank block contents, in order |
| LatexCommands.NameEnd | frontend/ReasoningComparison.tsx:423-425 | the command name runs over letters and `@` and stops at the first other character |
| LatexCommands.ArgScan | frontend/ReasoningComparison.tsx:433-470 | the argument scan only moves forward and can end one past the text |
| LatexCommands.RightExtend | frontend/ReasoningComparison.tsx:483-494 | the right extension only moves forward, and past the text only when it started there |
| LatexCommands.LeftExtend | frontend/ReasoningComparison.tsx:473-480 | the left extension takes exactly the run of mathematical characters before the command |
| LatexCommands.CommandRange | frontend/ReasoningComparison.tsx:418-494 | a command's range covers the backslash and at least one name letter, and may end one past the text |
| LatexCommands.CommandOvershoots | frontend/ReasoningComparison.tsx:452-462 | in the three-character text `\a^` the scan as written reports the match [0, 4) |
| LatexCommands.CommandMatch | frontend/ReasoningComparison.tsx:418-504 | the corrected match lies inside the text and differs from the written one only in an end clamped to the text |
| LatexCommands.CommandsInside | frontend/ReasoningComparison.tsx:496-504 | every corrected command match is a non-empty range inside the text |
| LatexCommands.CommandScan | frontend/ReasoningComparison.tsx:412-509 | the corrected scan yields only command matches inside the text |
| LatexCommands.ClampedPointwise | frontend/ReasoningComparison.tsx:412-509 | two scans that agree up to the clamp agree match by match, with the ends clamped |
| LatexCommands.ScanAgreesUpToClamp | frontend/ReasoningComparison.tsx:412-509 | the corrected scan is the written scan with each end clamped to the text |
| LatexCommands.Insert | frontend/ReasoningComparison.tsx:512 | insertion adds exactly the one match |
| LatexCommands.InsertSorted | frontend/ReasoningComparison.tsx:512 | inserting into matches sorted by start keeps them sorted |
| LatexCommands.SortByStart | frontend/ReasoningComparison.tsx:512 | sorting is a permutation of the matches |
| LatexCommands.SortByStartSorted | frontend/ReasoningComparison.tsx:512 | the sorted matches are ordered by start |
| LatexCommands.SortSortedIsIdentity | frontend/ReasoningComparison.tsx:526 | sorting already sorted matches changes nothing, so the second sort is redundant |
| LatexCommands.SortedTail | frontend/ReasoningComparison.tsx:516-523 | the rest of a sorted run is sorted and starts no earlier than its head |
| LatexCommands.AppendKept | frontend/ReasoningComparison.tsx:520-522 | keeping a match that overlaps none kept and starts last keeps the kept ones sorted and disjoint |
| LatexCommands.KeepDisjointSound | frontend/ReasoningComparison.tsx:515-523 | the overlap filter over sorted matches keeps a sorted, pairwise disjoint run that extends what was kept |
| LatexCommands.KeepDisjointSelects | frontend/ReasoningComparison.tsx:515-523 | the filter keeps only given matches, and drops a match only when it overlaps a kept one |
| LatexCommands.KeepDisjointGrows | frontend/ReasoningComparison.tsx:515-523 | the filter only appends to what it has kept |
| LatexCommands.SortedDisjointOrdered | frontend/ReasoningComparison.tsx:526-549 | sorted, disjoint, non-empty matches inside the text can be cut like the dollar matches |
| LatexCommands.FoundInside | frontend/ReasoningComparison.tsx:512 | every dollar and command match found is a non-empty range inside the text |
| LatexCommands.KeptSound | frontend/ReasoningComparison.tsx:512-526 | the matches rendered are ordered, each was found, and every found match is kept or overlaps a kept one |
| LatexCommands.KeptClamps | frontend/ReasoningComparison.tsx:412-526 | the page's own kept matches are the corrected kept matches with each end clamped to the text |
| LatexCommands.ClampedInsert | frontend/ReasoningComparison.tsx:512 | clamping ends does not change where a match is inserted by start |
| LatexCommands.ClampedSort | frontend/ReasoningComparison.tsx:512 | sorting by start commutes with clamping the ends |
| LatexCommands.ClampedOverlaps | frontend/ReasoningComparison.tsx:517-519 | for matches starting inside the text, clamping the ends changes no overlap test |
| LatexCommands.ClampedKeep | frontend/ReasoningComparison.tsx:515-523 | the overlap filter commutes with clamping the ends of matches that start inside the text |
| LatexCommands.LoopStep | frontend/ReasoningComparison.tsx:529-548 | one turn of the loop shows at most the non-blank stretch before the match and its formula, never a block formula or a blank text |
| LatexCommands.Loop | frontend/ReasoningComparison.tsx:528-555 | the page's loop emits no block formula and no blank text part |
| LatexCommands.LoopClamp | frontend/ReasoningComparison.tsx:528-555 | the loop renders the same parts when the ends are clamped to the text, because `slice` clamps and the last-index tests compare the same |
| LatexCommands.LoopIsCut | frontend/ReasoningComparison.tsx:528-555 | over ordered matches inside the text, the loop renders exactly the cut pieces: non-blank gaps and non-blank formulas, in order |
| LatexCommands.RenderInline | frontend/ReasoningComparison.tsx:381-559 | as written, over the page's own matches whose last end may lie past the text: nothing for empty text, otherwise at least one part, no block formula, and no blank text part unless the text is returned whole |
| LatexCommands.RenderWith | frontend/ReasoningComparison.tsx:550-558 | the loop's parts, or the whole text when the loop emitted nothing |
| LatexCommands.RenderInlineCorrected | frontend/ReasoningComparison.tsx:381-559 | the same renderer over the clamped matches, with the same shape |
| LatexCommands.RenderInlinesAgree | frontend/ReasoningComparison.tsx:381-559 | the renderer as written and the clamped one give exactly the same parts for every text, so the overshooting end is invisible |
| Temperature.Batch | frontend/TemperatureComparison.tsx:221-226 | a submit creates three loading cards, one per temperature 0, 0.7 and 1.2, in that order, with empty responses |
| Temperature.BatchIds | frontend/TemperatureComparison.tsx:222 | the card ids are `temp-0`, `temp-0.7` and `temp-1.2`, pairwise distinct |
| Temperature.CardRequest | frontend/TemperatureComparison.tsx:35-42 | card k's call sends the page's prompt and card k's temperature, and no system prompt, history or token limit |
| Temperature.RequestsDifferOnlyInTemperature | frontend/TemperatureComparison.tsx:26-38 | the three calls agree on everything except the temperature, where any two differ |
| Temperature.BatchOutcome | frontend/TemperatureComparison.tsx:236 | whatever the interleaving of the three concurrent calls, each card ends as its own writes applied in order |
| Temperature.Answered | frontend/TemperatureComparison.tsx:244 | the analysed cards are exactly the cards with a response and no error, none added |
| Temperature.AnsweredAppend | frontend/TemperatureComparison.tsx:244 | the filter distributes over concatenation |
| Temperature.AnalysisRunsIff | frontend/TemperatureComparison.tsx:252-254 | the analysis runs exactly when some card answered without an error |
| Temperature.AnsweredIdempotent | frontend/TemperatureComparison.tsx:244 | filtering the already-filtered cards again changes nothing |
| Temperature.Block | frontend/TemperatureComparison.tsx:137-140 | a card's block opens with its printed temperature and ends with its answer and a rule |
| Temperature.Blocks | frontend/TemperatureComparison.tsx:136-141 | one block per analysed card, in order |
| Temperature.AnalysisPrompt | frontend/TemperatureComparison.tsx:144-169 | the analysis prompt is the fixed head, the answers' text, and the fixed tail, and the answers' text can be cut back out |
| Temperature.FailedCardsLeftOut | frontend/TemperatureComparison.tsx:134-142 | inserting a card without an answer, or with an error, leaves the answers' text unchanged |
| Temperature.Lines3 | frontend/TemperatureComparison.tsx:195-197 | a metric starts with the `Temp 0: ` line |
| Temperature.Extract | frontend/TemperatureComparison.tsx:190-203 | if any temperature's pattern fails, every metric is the whole analysis; otherwise each metric starts with `Temp 0: ` |
| Temperature.TrimNoNewline | frontend/TemperatureComparison.tsx:195-197 | trimming a line-free capture keeps it free of line breaks |
| Temperature.Lines3ReadsBack | frontend/TemperatureComparison.tsx:195-197 | three line-free values laid out as a metric split back into exactly the three labelled lines |
| Temperature.MetricReadsBack | frontend/TemperatureComparison.tsx:195-197 | three line-free captures, trimmed and laid out, split back into the three labelled trimmed captures |
| Temperature.MetricsAreThreeLines | frontend/TemperatureComparison.tsx:190-197 | when all three patterns match, each metric is exactly three lines, one per temperature in order, holding that temperature's trimmed capture |
| Temperature.Analyze | frontend/TemperatureComparison.tsx:171-208 | metrics result exactly when the call returned a decoded body with `response`; then they are that text's extraction |
| Temperature.Submit | frontend/TemperatureComparison.tsx:211-228 | a blank prompt or a batch in progress changes nothing; otherwise processing starts, the comparison clears and three loading cards appear |
| Temperature.Finish | frontend/TemperatureComparison.tsx:236-256 | processing ends, the cards hold the schedule's writes, and the comparison changes only if some card answered |
| Temperature.NoAnswersNoComparison | frontend/TemperatureComparison.tsx:252-254 | a submitted batch in which no card answered ends with no comparison |
| TokenBudget.Estimate | frontend/TokenComparison.tsx:33-39 | the estimate is the least positive count that allows four characters and 1.3 words per token |
| TokenBudget.OneCharacter | frontend/TokenComparison.tsx:36-38 | a one-character text is estimated at no more than two tokens, and a visible one at exactly two |
| TokenBudget.Expanded | frontend/TokenComparison.tsx:64-67 | repeating the seed after the separator keeps the seed as a prefix |
| TokenBudget.Shrink | frontend/TokenComparison.tsx:50-60 | a seed at or over the target becomes a non-empty prefix of itself, no longer than the first cut (the target's share of the length, at least 40 characters), that fits the target unless the loop hit one character or ran all 200 rounds |
| TokenBudget.CutDown | frontend/TokenComparison.tsx:56-59 | the 10-character trimming loop ends on a prefix within the target, on one character, or exactly 2000 characters below the first cut |
| TokenBudget.Grow | frontend/TokenComparison.tsx:63-70 | the growing loop stops at the first number of copies whose estimate reaches the target, or once the text passes two million characters |
| TokenBudget.Cap | frontend/TokenComparison.tsx:72-79 | the capped text is a non-empty prefix within the token cap, and a text already within the cap is left alone |
| TokenBudget.BuildPrompt | frontend/TokenComparison.tsx:41-82 | a blank input gives the empty prompt with estimate 0; a seed at or over the target is cut to a prefix of itself no longer than the first cut, which fits the target unless one character is left or all 200 cuts ran; a smaller seed is repeated up to the first count of copies that reaches the target (or passes two million characters), then cut to a prefix within the cap, and kept whole when it already fits; the reported estimate is the prompt's own |
| TokenBudget.CapNeedsTwo | frontend/TokenComparison.tsx:73-75 | every prefix the cap loop can reach is estimated at 2 or more, so a cap below 2 never ends |
| TokenBudget.WordsOfVisibleStart | frontend/TokenComparison.tsx:37 | a text starting with a visible character counts at least one word |
| TokenBudget.BuildVariants | frontend/TokenComparison.tsx:84-98 | the short, long and limit prompts are built for 200, 8000 and 34000 tokens, each with the same number as its cap |
| TokenBudget.CallBody | frontend/TokenComparison.tsx:124-127 | each call sends the prompt and a 1000-token answer limit and nothing else |
| TokenBudget.CallSendsPrompt | frontend/TokenComparison.tsx:124-127 | the backend turns a call's body into exactly one user turn holding the prompt |
| TokenBudget.Outcome | frontend/TokenComparison.tsx:130-167 | an answer writes its response, or the empty text when it is missing, and its usage; a refusal writes the status message; a throw writes its message |
| TokenBudget.Cards | frontend/TokenComparison.tsx:188-219 | the cards are short, long and limit in that order, each loading with its variant's prompt and no answer, usage or error |
| TokenBudget.WritesForAppend | frontend/TokenComparison.tsx:224-229 | a card's writes over two consecutive runs of calls are the writes of each run, in order |
| TokenBudget.CallWrites | frontend/TokenComparison.tsx:111-166 | a call writes a restart and then its outcome to its own card, and nothing to any other |
| TokenBudget.UninterruptedTest | frontend/TokenComparison.tsx:170-235 | a test that no newer test interrupts ends idle, with its id still current and each card settled by its own reply |
| TokenBudget.ScheduleWritesFor | frontend/TokenComparison.tsx:224-229 | the sequential calls give the k-th card exactly its own call's two writes |
| TokenBudget.CallSettles | frontend/TokenComparison.tsx:111-166 | a loading card after its call's writes is no longer loading and shows the answer with its usage, or the error |
| TokenBudget.IgnoredTestInert | frontend/TokenComparison.tsx:171-172 | a test started while one runs, or on a blank prompt, leaves the page as it was |
| ChatPages.ReplyText | src/Chat.tsx:150-172 | the placeholder ends with the reply's text, or with a message that starts `Ошибка: ` when the call failed |
| ChatPages.Settle | src/Chat.tsx:152-172 | only the placeholder's content and typing flag change; every other message stays as it was |
| ChatPages.SettleLast | src/Chat.tsx:112-172 | settling a fresh placeholder appended last leaves every earlier message and the user's message as they were |
| ChatPages.LastN | src/Chat.tsx:123 | `slice(-10)` keeps the last ten messages, or all of them when there are fewer |
| ChatPages.Filter | src/Chat.tsx:122 | the filter never adds a message |
| ChatPages.FilterKeeps | src/Chat.tsx:122 | a message survives the filter exactly when it was present and passes the test |
| ChatPages.FilterAppend | src/Chat.tsx:122 | the filter distributes over concatenation |
| ChatPages.ToWire | src/Chat.tsx:124-127 | each message becomes one role-and-content turn, in order |
| ChatPages.ChatHistory | src/Chat.tsx:121-132 | the history is at most eleven turns and ends with the new user message; it is full exactly when ten or more non-welcome messages exist |
| ChatPages.ChatBody | src/Chat.tsx:139-142 | the chat sends its fixed system prompt and the history, and no bare prompt |
| ChatPages.ChatBodyKeepsHistory | main.py:127-132 | the root backend forwards the system prompt first and then the chat's whole history |
| ChatPages.ChatExchange | src/Chat.tsx:94-176 | a blank input or a pending request changes nothing; otherwise two messages are added, the input cleared, and loading ends |
| ChatPages.ChatExchangeAppends | src/Chat.tsx:99-172 | with fresh ids the exchange adds exactly the trimmed user message and the settled reply |
| ChatPages.NextTurnRemembers | src/Chat.tsx:121-132 | the next request's history ends with the previous user message, the reply shown for it, and the new message |
| ChatPages.HistoryEndsWith | src/Chat.tsx:121-132 | a list ending with two non-welcome messages gives a history ending with those two and the new message |
| ChatPages.FilterTwo | src/Chat.tsx:122 | two messages that both pass survive the filter together |
| ChatPages.MarkCopied | src/Chat.tsx:77-88 | copying sets the flag on the message with that id and on no other |
| ChatPages.CopyThenResetRestores | src/Chat.tsx:77-88 | a copy followed by its reset gives back the list, unless the message was already marked |
| ChatPages.ApplyPrompt | src/SystemPromptTest.tsx:79-95 | a draft that equals the applied prompt after trimming does nothing; otherwise one marker with the draft is appended, the draft becomes the applied prompt, and the change is flagged |
| ChatPages.ApplyTwiceIsOnce | src/SystemPromptTest.tsx:79-95 | applying the same draft a second time changes nothing |
| ChatPages.LabHistory | src/SystemPromptTest.tsx:125-136 | the lab's history is at most eleven turns, every turn is a user or assistant turn, and the last is the new message |
| ChatPages.LabBody | src/SystemPromptTest.tsx:143-146 | the lab sends the applied prompt and its history |
| ChatPages.DraftSentOnlyOnceApplied | src/SystemPromptTest.tsx:79-146 | editing the draft does not change the request; applying a differing draft makes it the system prompt sent |
| ChatPages.LabExchange | src/SystemPromptTest.tsx:97-180 | a blank input or a pending request changes nothing; otherwise two messages are added, the input cleared, loading ends, and the prompts stay |
| ChatPages.Clear | src/SystemPromptTest.tsx:196-200 | clearing empties the list, unflags the change, and makes the draft the applied prompt |
| ChatPages.ClearThenApplyIsNoOp | src/SystemPromptTest.tsx:79-82 | right after a clear, applying the draft does nothing |
| ChatPages.LastChangeIndex | src/SystemPromptTest.tsx:202-209 | the result is the greatest index of a change marker, or -1 exactly when there is none |
| ChatPages.FreshChangeFlagsNothing | src/SystemPromptTest.tsx:302 | right after a prompt is applied, its marker is last and no message is flagged |
| ChatPages.ReactionsFlagged | src/SystemPromptTest.tsx:302 | the exchange after an applied prompt has both its user message and its reply flagged, and the marker is not |
| ChatPages.LastChangeAfterAppend | src/SystemPromptTest.tsx:202-209 | a marker followed by two other messages is the last change |
| Weather.DigitsEnd | backend/routers/weather_chat.py:51 | the digit run of the days pattern covers exactly the digits from its start |
| Weather.SpacesEnd | backend/routers/weather_chat.py:51 | the whitespace run between the number and the unit never moves backwards and stays inside the text |
| Weather.FindDays | backend/routers/weather_chat.py:51 | the search finds nothing exactly when no position from its start begins a number followed by a day unit, and otherwise finds the leftmost such number |
| Weather.Days | backend/routers/weather_chat.py:44-53 | the days asked for are at most 7, and 3 when the prompt names no number of days |
| Weather.FromPatterns | backend/routers/weather_chat.py:65-72 | the place from the patterns is the first capture that, stripped, is longer than two characters and not a filler word; there is none exactly when no capture qualifies |
| Weather.FirstPassing | backend/routers/weather_chat.py:78-83 | the fallback picks a word of the prompt that passes the test, and none exactly when no word passes |
| Weather.ExtractIntentAsWritten | backend/routers/weather_chat.py:25-85 | as written: no intent exactly when the lowered prompt has no weather word; a forecast exactly when it has a forecast word; at most 7 days, and 3 for the current weather; the place is a pattern's accepted capture whenever one exists, and otherwise a capitalised word of the prompt, longer than two, that is not a weather word, with no place exactly when no word qualifies |
| Weather.ExtractIntent | backend/routers/weather_chat.py:25-85 | corrected: the same intent, except that a place found by the fallback is also not one of the filler words the patterns reject |
| Weather.FirstPassingAgree | backend/routers/weather_chat.py:78-83 | the fallback's pick depends only on how its test judges the words of the prompt |
| Weather.IntentsAgree | backend/routers/weather_chat.py:62-83 | the written and corrected intents are equal whenever a pattern found the place or no capitalised word of the prompt is a filler word |
| Weather.FillerWordTakenAsPlace | backend/routers/weather_chat.py:62-83 | the fallback as written takes `Какая` as the place in `Какая погода?` and sends it to the tool as the location, although the same word is rejected when a pattern captures it; the corrected intent does not pick it |
| Weather.ToolCall | backend/routers/weather_chat.py:106-116 | a forecast calls the forecast tool with its days; otherwise the current-weather tool without days; the place is sent only when one was found |
| Weather.TextParts | backend/routers/weather_chat.py:131-136 | the parts are at most one per item, and exactly one per item when every item is a text object or a string |
| Weather.TextPartsAppend | backend/routers/weather_chat.py:132-136 | the parts of two runs of items are those of each, in order |
| Weather.ToolText | backend/routers/weather_chat.py:123-142 | an error gives no text; text parts give their blank-line join |
| Weather.JoinAppend | backend/routers/weather_chat.py:139 | joining two non-empty runs of parts puts exactly one blank line between them |
| Weather.WeatherData | backend/routers/weather_chat.py:97-145 | weather text comes back only from a tool answer to the intent's own tool call that is not an error, and is that answer's text |
| Weather.Route | backend/routers/weather_chat.py:153-209 | as written: without an intent the model answers with the general system prompt; without weather text it answers with the apology prompt; weather text for a non-question is answered with the text behind the fixed heading, and for a question with the model's follow-up wording when it gives one and that text otherwise |
| Weather.RouteCorrected | backend/routers/weather_chat.py:153-209 | corrected: the route on the corrected intent; without an intent the general reply, and weather text always gives an answer |
| Weather.RoutesAgree | backend/routers/weather_chat.py:160-209 | the written and corrected routes give the same answer whenever a pattern found the place or no capitalised word of the prompt is a filler word |
| CliArgs.FirstEq | interact_mcp_9001.py:86-87 | the split point is the first `=`, and there is none exactly when the token has no `=` |
| CliArgs.Unquote | interact_mcp_9001.py:90-91 | removing quotes never lengthens a value |
| CliArgs.Convert | interact_mcp_9001.py:92-95 | a boolean exactly when the value is `true` or `false` in any letter case, true exactly for `true`; otherwise a number exactly when it is a non-empty run of digits; otherwise the text itself |
| CliArgs.ConvertNumber | interact_mcp_9001.py:94-95 | a natural written in decimal converts back to that number |
| CliArgs.ParseToken | interact_mcp_9001.py:86-98 | a token without `=` is a flag set to true under its own name; otherwise the key holds no `=` |
| CliArgs.CollectKeys | interact_mcp_9001.py:96 | the dictionary's keys are exactly the keys entered |
| CliArgs.CollectLastWins | interact_mcp_9001.py:96 | each key holds the value of the last pair that names it |
| CliArgs.Tokens | interact_mcp_9001.py:85-98 | one parsed pair per token, in order |
| CliArgs.ParseArgsLastWins | interact_mcp_9001.py:82-99 | the arguments' keys are exactly the tokens' keys, and a later token overwrites an earlier one with the same key |
| CliArgs.SplitAtFirstEq | interact_mcp_9001.py:86-89 | only the first `=` splits: the key is stripped and the value keeps any later `=` |
| CliArgs.NumberRoundTrip | interact_mcp_9001.py:92-95 | a natural written as `key=<digits>` reads back as that number |
| CliArgs.FlagRoundTrip | interact_mcp_9001.py:92-93 | `key=true` and `key=false`, in any letter case, read back as that boolean |
| CliArgs.QuotesRemoved | interact_mcp_9001.py:90-91 | a double-quoted value loses exactly its two quotes before it is converted |
| Users.SliceTo | backend/services/users.py:24 | the slice is a prefix of the list, with the length Python's `[:stop]` gives for a positive or a negative stop |
| Users.GetUsers | backend/services/users.py:13-26 | the users returned are a prefix of the stored list |
| Users.PrefixOfLimit | backend/services/users.py:24 | a non-negative limit returns the first `min(limit, 3)` users |
| Users.DefaultAndZero | backend/services/users.py:13-24 | the default limit returns every user, and a limit of zero none |
| Users.NegativeDropsFromEnd | backend/services/users.py:24 | a negative limit drops that many users from the end |
| Users.Monotone | backend/services/users.py:24 | raising a non-negative limit never removes a user |

## Left out

- Network and decoding: `fetch`, `httpx`, `TextDecoder`, and the DeepSeek and Hugging Face endpoints are not modelled. Chunks arrive as decoded strings, and a call's outcome is a datatype: a rejection, a status with its body, or the decoded reply.
- JSON: parsing and encoding are abstract functions passed in as parameters. The round trip from a record to the page is stated under the assumption that the parser reads back what the encoder writes.
- React: rendering, hooks, JSX, KaTeX, ReactMarkdown, routing, scrolling and textarea resizing are not modelled. The `catch` around each KaTeX element is never reached while the element is being built, so it is left out.
- Timers: the `setTimeout` delays and the `setInterval` typewriter are not modelled. A settled placeholder holds its final text directly.
- Concurrency: `Promise.all` is an arbitrary interleaving of the cards' write sequences.
- Ids: two submits within the same millisecond would share a `Date.now()` id. The lemmas that need distinct ids require them instead.
- Other parts of the repository: SQLite persistence, the MCP SDK and subprocess wiring, the command-line client's `_request`/`main` and printing, `backend/main.py`, configuration, and the health route.
- Floats: temperatures are opaque labels. Progress is a `real`.
- Strings: a string is a sequence of Unicode code points. JavaScript's `.length` and `slice` count UTF-16 code units, so text outside the Basic Multilingual Plane, such as an emoji, is one character here and two units on the page.
- Logging: the users service's log line, and the log lines throughout, are not modelled.
- TokenBudget.BuildPrompt: requires a cap of at least 2 on the growing branch, because with a smaller cap the page's cap loop never ends (`CapNeedsTwo`). Its length bounds are in code points, not in the UTF-16 units the page counts.
- TokenBudget.Estimate: the character count is in code points, while the page divides the UTF-16 length, so an emoji counts once here and twice on the page.
- TokenBudget.Shrink: the first cut `Math.floor(seed.length * ratio)` is taken as exact integer division. Floating-point rounding of the ratio is not modelled. The cut is in code points, so it cannot split a surrogate pair as the page's `slice` can.
- TokenBudget.Grow: the growth is measured in code points, not in the UTF-16 units the page counts.
- TokenBudget.Cap: the second, 50-character trimming loop is not modelled. It never runs, because the 1000-character loop already ends within the cap. The cap is in code points, not in the UTF-16 units the page counts.
- Records.Progress: the length is in code points, while the page passes the UTF-16 length of the text, and the progress is an exact `real` rather than a double.
- Temperature.Extract: the three metric regular expressions are an abstract matcher. Only the layout built from their captures is stated.
- Weather.ExtractIntentAsWritten: Python's Unicode `lower()` and `isupper()` and the three location regular expressions are abstract. The days pattern is written out as a leftmost scan over ASCII digits. `0 дней` gives 0 days, as in the code.
- Weather.ToolText: the fallback to the tool answer's `str()` is abstract (`shown`, `isEmpty`), because Python's printing of a dict is not modelled.
- Weather.Route: the tool listing that `_get_weather_data` makes before the call is folded into the tool answer: `tool` gives no answer when the server reports an error or the call raises. The `except` clauses that re-raise an `HTTPException` or wrap any other exception into a 500 are left out.
- CliArgs.ParseArgs: the result is a map, so the dictionary's insertion order is not modelled.
- CliArgs.Convert: only ASCII digits count as digits. Python's `isdigit()` also accepts other digit characters such as `²`, on which `int()` raises. `lower()` is taken as ASCII lower-casing, which decides `true`/`false` the same way.

## Findings

| source | as written | input that shows it | evidently intended | confidence | as-written member | corrected member |
|---|---|---|---|---|---|---|
| main.py:65-118 | the 400 for a body with neither `prompt` nor `messages` is raised inside the `try` whose generic `except Exception` re-raises it as a 500 | a body with neither field gets status 500, detail `Internal server error: …` | status 400 | not executed; high | BackendMessages.MissingInputAnswered500 | BackendMessages.AssembleMessages |
| backend/routers/llama.py:122-125 | the echo of the messages is tested anywhere in the output, but then removed by cutting that many leading characters | output `A user: q` with messages text `user: q` becomes `q` | remove the echo only where it occurs, at the start | not executed; high | BackendMessages.StripCutsByLength | BackendMessages.StripPromptRemovesEcho |
| frontend/CompressionTest.tsx:133-158 | the history sends the summary in front and again among the shown messages, because the summary message is itself shown | the first request after a compression carries the summary twice | the summary once, in front | not executed; high | CompressionPage.SummarySentTwice | CompressionPage.SummarySentOnce |
| frontend/CompressionTest.tsx:209-214 | on the first compression the page hides `original − compressed` messages, but the backend summarised one more | ten messages sent: nine hidden, the tenth stays on screen and is sent again next time | hide every summarised message | not executed; high | CompressionPage.FirstCompressionLeavesOneVisible | CompressionPage.HiddenAreSummarised |
| frontend/ReasoningComparison.tsx:452-469 | after `^` or `_` the command scan steps past the end of the text | the three-character text `\a^` gives the match [0, 4) | matches stay inside the text | not executed; high, though nothing visible changes (`RenderInlinesAgree`) | LatexCommands.CommandOvershoots | LatexCommands.ScanAgreesUpToClamp |
| backend/routers/weather_chat.py:75-83 | the fallback takes the first capitalised word that is not a weather keyword, so a capitalised filler word becomes the place | `Какая погода?` gives the place `Какая`, which the pattern path rejects as a filler word | apply the same filler-word filter in the fallback | not executed; moderate | Weather.FillerWordTakenAsPlace | Weather.ExtractIntent |
