# Health-Buddy core in Dafny

This project models the core of Health-Buddy, an Android voice assistant for health and workouts, and proves properties of the model. The core covers:

- **The conversation layer in front of Gemini** (`GeminiApiWrapper.kt`):
  - the generateContent request body built from the chat history;
  - the reply read out of the response;
  - one voice turn;
  - the compaction of the history into a summary;
  - the tool calls (`make_workout`, `end_conversation`) embedded in the model's reply.
- **The two tools** (`LlmTools.kt`).
- **Persistence of the history** in the app's private files (`ChatHistoryManager.kt`).
- **The Opus recorder's life cycle and file naming** (`AudioRecorder.kt`).
- **The PCM WAV writer** with its header patch (`PcmWavRecorder.java`).
- **The `.env` reader of the Gradle build script** (`app/build.gradle.kts`).

## Modules

The modules follow the source files:

- **`results.dfy`** (`Results`): `Option` and `Result`.
- **`text.dfy`** (`Text`): the Kotlin string functions the core relies on, stated for `string = seq<char>`.
  - `trim` and `isBlank` use Kotlin's whitespace: `Character.isWhitespace` or `isSpaceChar`, by code point.
  - `split(',')`, `replace(s, "")` and the decimal conversions.
  - `Join`, the inverse of `split`, which the source does not call: it only states `JoinSplit` and `SplitJoin`.
- **`chat.dfy`** (`Chat`):
  - `ChatMessage(role, text)` and its roles;
  - `filter`;
  - the `MutableList<ChatMessage>` history as class `ChatHistory`, with `+=`, `clear` and `removeIf`.
- **`gemini_api_wrapper.dfy`** (`GeminiApiWrapper`):
  - the request and response as datatypes;
  - `buildGeminiChatRequestBody`, `generateGeminiReply`, `clearHistory`, `SendAudioWithHistory` and `summarizeHistory`.
- **`llm_tools.dfy`** (`LlmTools`): `makeWorkout` and `endConversation`.
- **`tool_calls.dfy`** (`ToolCalls`): `handleToolCalls`.
  - It lives in `GeminiApiWrapper.kt`, but it calls `LlmTools`, which calls back into `GeminiApiWrapper`.
  - Dafny modules cannot import each other in a cycle, so the handler has a module of its own that imports both.
- **`chat_history_manager.dfy`** (`ChatHistoryManager`):
  - the private file directory is a class `Context` with a `map` from file name to contents;
  - `saveChatHistory` and `loadChatHistory`.
- **`audio_recorder.dfy`** (`AudioRecording`):
  - the class `AudioRecorder` with its `state`, `recorder` and `outputFile` fields;
  - a value-level state machine (`Step` for a call's outcome, `Next` for the machine it leaves, `Run`); every method of the class ends in the machine `Next` gives, a failed setup in `start` included;
  - the `rec_yyyyMMdd_HHmmss.opus` name.
- **`pcm_wav_recorder.dfy`** (`PcmWav`):
  - Java `int`/`short` arithmetic and byte orders, written out;
  - a `RandomAccessFile` class with a file pointer;
  - the streaming loop and header patch of `writeWavFile`;
  - a reader of the canonical RIFF/WAVE header, used to judge what is written.
- **`build_script.dfy`** (`BuildScript`):
  - `rootEnv`, with `File.readLines` and `split("=", limit = 2)`;
  - what `defaultConfig` does with `GEMINI_API_KEY`.

The network is a parameter. `GeminiServer` is a function from the request body the app sends to the response it receives, so every call is a pure function of the request. The speech-to-text result of `transcribeSpeech` is given to `SendAudioWithHistory` as a `Result`. Exceptions become `Err` values. The microphone, the clock and the file system are parameters or fields:

- `AudioRecord.read` results are a sequence `mic`;
- `Date()` is `now`;
- `MediaRecorder` setup success is a boolean;
- save faults are a `SaveFault`.

## Model

Source cells give paths from the repository root.

| member | source | states |
|---|---|---|
| Chat.Filter | app/src/main/java/com/terrabull/healthbuddy/GeminiApiWrapper.kt:220 | every entry `filter` returns satisfies the predicate, and the result is no longer than the list |
| Chat.FilterMembers | app/src/main/java/com/terrabull/healthbuddy/GeminiApiWrapper.kt:220 | an entry is in the filtered list exactly when it is in the list and satisfies the predicate |
| Chat.FilterConcat | app/src/main/java/com/terrabull/healthbuddy/GeminiApiWrapper.kt:220 | filtering distributes over concatenation, so relative order is kept |
| Chat.FilterAllKept | app/src/main/java/com/terrabull/healthbuddy/GeminiApiWrapper.kt:224 | filtering a list whose entries all pass changes nothing |
| Chat.FilterPartition | app/src/main/java/com/terrabull/healthbuddy/GeminiApiWrapper.kt:220-224 | a predicate and its complement split the list: lengths add up and the two multisets sum to the list's |
| Chat.ChatHistory.constructor | app/src/main/java/com/terrabull/healthbuddy/GeminiApiWrapper.kt:27-28 | the shared history starts empty |
| Chat.ChatHistory.Add | app/src/main/java/com/terrabull/healthbuddy/GeminiApiWrapper.kt:61 | `history += m` appends exactly `m` |
| Chat.ChatHistory.Clear | app/src/main/java/com/terrabull/healthbuddy/GeminiApiWrapper.kt:31 | `clear()` empties the list |
| Chat.ChatHistory.RemoveIf | app/src/main/java/com/terrabull/healthbuddy/GeminiApiWrapper.kt:224 | `removeIf(p)` leaves exactly the entries not satisfying `p`, in order (proved by a loop against `Filter`) |
| GeminiApiWrapper.BuildGeminiChatRequestBody | app/src/main/java/com/terrabull/healthbuddy/GeminiApiWrapper.kt:107-130 | a `system_instruction` with role "system" and the prompt as its one part exists iff the prompt is non-null and not blank; `contents` has one entry per message with its role and text, in order |
| GeminiApiWrapper.RequestMirrorsHistory | app/src/main/java/com/terrabull/healthbuddy/GeminiApiWrapper.kt:120-129 | the history can be read back from the request's `contents` |
| GeminiApiWrapper.RequestDeterminesHistory | app/src/main/java/com/terrabull/healthbuddy/GeminiApiWrapper.kt:120-129 | two histories that give the same request are equal |
| GeminiApiWrapper.ReplyText | app/src/main/java/com/terrabull/healthbuddy/GeminiApiWrapper.kt:149-166 | a transport failure, an unsuccessful status (with code and message) and a missing `candidates` array are the three distinct errors; a `candidates` array without a first candidate holding a first part gives `MalformedJson`; with one, the reply is that part's text ("" without one) trimmed |
| GeminiApiWrapper.ReplyIsFirstPartTrimmed | app/src/main/java/com/terrabull/healthbuddy/GeminiApiWrapper.kt:153-165 | a reply exists exactly when there is a first candidate with a first part, and it is then that part's text (or "" without one) trimmed |
| GeminiApiWrapper.GenerateGeminiReply | app/src/main/java/com/terrabull/healthbuddy/GeminiApiWrapper.kt:136-167 | the reply to the request built from the history is trimmed |
| GeminiApiWrapper.ClearHistory | app/src/main/java/com/terrabull/healthbuddy/GeminiApiWrapper.kt:31 | the shared history is empty afterwards |
| GeminiApiWrapper.SendAudioWithHistory | app/src/main/java/com/terrabull/healthbuddy/GeminiApiWrapper.kt:55-66 | a failed transcription changes nothing; otherwise the user turn is appended, the model is asked with the history ending in it, and on success its reply is appended and both texts returned; a failed request keeps the user turn |
| GeminiApiWrapper.SummaryInstruction | app/src/main/java/com/terrabull/healthbuddy/GeminiApiWrapper.kt:217-218 | the summary instruction is never blank, so the request always carries it |
| GeminiApiWrapper.Compacted | app/src/main/java/com/terrabull/healthbuddy/GeminiApiWrapper.kt:224-225 | after compaction no user or model turn remains |
| GeminiApiWrapper.CompactedKeepsNonTurns | app/src/main/java/com/terrabull/healthbuddy/GeminiApiWrapper.kt:224 | `removeIf` deletes nothing but turns: every other entry is still there |
| GeminiApiWrapper.Summarize | app/src/main/java/com/terrabull/healthbuddy/GeminiApiWrapper.kt:209-228 | an empty history yields "" and stays empty, whatever the server; a failed request leaves the history as it was; a successful one leaves no user or model turn and ends with the summary under the role "system summary" |
| GeminiApiWrapper.SummarizeHistory | app/src/main/java/com/terrabull/healthbuddy/GeminiApiWrapper.kt:209-228 | result and new history are those of `Summarize`: "" for an empty history; otherwise the reply to the turns-only request under the instruction, with the turns replaced by the summary; a failed request leaves the history untouched |
| GeminiApiWrapper.SummaryRequestShape | app/src/main/java/com/terrabull/healthbuddy/GeminiApiWrapper.kt:217-221 | the summary request holds exactly the user and model turns, in order, and a system instruction |
| GeminiApiWrapper.SummaryPartitionsHistory | app/src/main/java/com/terrabull/healthbuddy/GeminiApiWrapper.kt:220-225 | the turns sent and the entries kept together make up the whole history (as multisets) |
| GeminiApiWrapper.SummariesAccumulate | app/src/main/java/com/terrabull/healthbuddy/GeminiApiWrapper.kt:224-225 | a second summary keeps the first one: summaries pile up after the non-turn entries |
| LlmTools.WorkoutStep | app/src/main/java/com/terrabull/healthbuddy/LlmTools.kt:15-17 | succeeds exactly when the workout-summary request does; then the history gains exactly one entry, the reply under the role "workout summary", after the unchanged history; otherwise the request's error is returned |
| LlmTools.MakeWorkout | app/src/main/java/com/terrabull/healthbuddy/LlmTools.kt:9-20 | the history becomes `WorkoutStep`'s on success and is unchanged on failure; the tool's arguments do not reach the history |
| LlmTools.EndConversation | app/src/main/java/com/terrabull/healthbuddy/LlmTools.kt:22-25 | the shared history becomes that of `Summarize` with the default 120 words, and the outcome follows the summary's |
| LlmTools.WorkoutSummarySurvivesEnd | app/src/main/java/com/terrabull/healthbuddy/LlmTools.kt:17-24 | a workout summary in the history is still there after `endConversation` |
| ToolCalls.TrimEach | app/src/main/java/com/terrabull/healthbuddy/GeminiApiWrapper.kt:186 | `map { it.trim() }` trims each element and keeps the count |
| ToolCalls.WorkoutCall | app/src/main/java/com/terrabull/healthbuddy/GeminiApiWrapper.kt:185-187 | the name and description passed to `makeWorkout` are trimmed, and there is at least one day |
| ToolCalls.WorkoutCallShape | app/src/main/java/com/terrabull/healthbuddy/GeminiApiWrapper.kt:185-187 | the hours of a call are below 100; its days are the comma-separated pieces of the day group, each trimmed, none holding a comma |
| ToolCalls.HourBound | app/src/main/java/com/terrabull/healthbuddy/GeminiApiWrapper.kt:175 | a one- or two-digit group reads as a number below 100 |
| ToolCalls.WorkoutCalls | app/src/main/java/com/terrabull/healthbuddy/GeminiApiWrapper.kt:184-187 | one call per match, in match order |
| ToolCalls.Workouts | app/src/main/java/com/terrabull/healthbuddy/GeminiApiWrapper.kt:184-189 | the history after the first `n` calls of the loop, with the failure that stopped it; its properties are `WorkoutsAppendSummaries` and `WorkoutsFailureSticks` |
| ToolCalls.WorkoutsAppendSummaries | app/src/main/java/com/terrabull/healthbuddy/GeminiApiWrapper.kt:184-189 | `n` workout calls only append, only workout summaries, all `n` when none fails |
| ToolCalls.WorkoutsFailureSticks | app/src/main/java/com/terrabull/healthbuddy/GeminiApiWrapper.kt:184-189 | after a failed call, later matches change nothing |
| ToolCalls.StripMatches | app/src/main/java/com/terrabull/healthbuddy/GeminiApiWrapper.kt:188 | deleting the matches' texts never lengthens the reply |
| ToolCalls.SkipSpaces | app/src/main/java/com/terrabull/healthbuddy/GeminiApiWrapper.kt:179 | `\s*` consumes exactly the maximal run of regex spaces |
| ToolCalls.EndConversationAt | app/src/main/java/com/terrabull/healthbuddy/GeminiApiWrapper.kt:179 | a recognised token starts with `{`, ends with `}` and is at least 20 characters long |
| ToolCalls.ContainsEndConversation | app/src/main/java/com/terrabull/healthbuddy/GeminiApiWrapper.kt:192 | `containsMatchIn` holds only of a text at least 20 characters long holding `{` and `}` |
| ToolCalls.EndConversations | app/src/main/java/com/terrabull/healthbuddy/GeminiApiWrapper.kt:179 | the token recogniser is a matcher: every match it reports is non-empty and ends inside the text |
| ToolCalls.RemoveMatchesFrom | app/src/main/java/com/terrabull/healthbuddy/GeminiApiWrapper.kt:194 | the left-to-right replacement of a matcher's matches never lengthens the text |
| ToolCalls.RemoveEndConversations | app/src/main/java/com/terrabull/healthbuddy/GeminiApiWrapper.kt:194 | `replace(endConvRe, "")` never lengthens the text |
| ToolCalls.RemoveNothing | app/src/main/java/com/terrabull/healthbuddy/GeminiApiWrapper.kt:194 | text in which no match starts is kept unchanged |
| ToolCalls.KeepUnmatched | app/src/main/java/com/terrabull/healthbuddy/GeminiApiWrapper.kt:194 | a character where no match starts is kept and the scan moves on by one |
| ToolCalls.RemoveLeftmost | app/src/main/java/com/terrabull/healthbuddy/GeminiApiWrapper.kt:194 | the replacement keeps everything before the leftmost match, deletes it whole and continues after it |
| ToolCalls.RemoveShortens | app/src/main/java/com/terrabull/healthbuddy/GeminiApiWrapper.kt:192-194 | when a token is present, the replacement removes at least one token's length |
| ToolCalls.LeftmostMatch | app/src/main/java/com/terrabull/healthbuddy/GeminiApiWrapper.kt:192 | a text in which a match starts has a leftmost one, with no match before it |
| ToolCalls.TokenAt | app/src/main/java/com/terrabull/healthbuddy/GeminiApiWrapper.kt:179 | the shortest token `{end_conversation()}` is recognised wherever it stands, and ends 20 characters later |
| ToolCalls.NoTokenWithoutBrace | app/src/main/java/com/terrabull/healthbuddy/GeminiApiWrapper.kt:179 | no token starts at a character other than `{` |
| ToolCalls.RemovalCanRebuildToken | app/src/main/java/com/terrabull/healthbuddy/GeminiApiWrapper.kt:194 | a token split inside its name and wrapped around a second token leaves, after the one-pass `replace`, exactly a token, which `containsMatchIn` then finds |
| ToolCalls.RebuiltTokenExample | app/src/main/java/com/terrabull/healthbuddy/GeminiApiWrapper.kt:194 | `"{end_"`, a token and `"conversation()}"` reduce to a text still holding a token |
| ToolCalls.CleanedReply | app/src/main/java/com/terrabull/healthbuddy/GeminiApiWrapper.kt:181-197 | the returned text is trimmed and no longer than the raw reply; without tool calls it is just the trimmed reply |
| ToolCalls.RunWorkouts | app/src/main/java/com/terrabull/healthbuddy/GeminiApiWrapper.kt:184-189 | one `makeWorkout` per match in order, with the arguments `WorkoutCalls` gives; the history becomes that of `Workouts`; a failure stops the run with the summaries so far and is returned; otherwise every match's text is deleted from the reply |
| ToolCalls.HandleToolCalls | app/src/main/java/com/terrabull/healthbuddy/GeminiApiWrapper.kt:172-198 | the workout run of `RunWorkouts`; a failure there is returned; then `endConversation` iff the raw reply holds an end token, its failure returned; on success the cleaned reply |
| ChatHistoryManager.HistoryFile | app/src/main/java/com/terrabull/healthbuddy/ChatHistoryManager.kt:23-36 | the back-end file is chosen exactly when `isBackend`, the front-end file exactly otherwise, so the two histories never share a file |
| ChatHistoryManager.RecentHistory | app/src/main/java/com/terrabull/healthbuddy/ChatHistoryManager.kt:18-20 | at most 20000 messages, a suffix of the history, the whole history when it fits and exactly 20000 otherwise |
| ChatHistoryManager.RecentHistoryIdempotent | app/src/main/java/com/terrabull/healthbuddy/ChatHistoryManager.kt:18-20 | truncating twice is truncating once |
| ChatHistoryManager.SaveChatHistory | app/src/main/java/com/terrabull/healthbuddy/ChatHistoryManager.kt:15-28 | a successful save replaces the chosen file with the recent history and touches no other file; a failed open changes nothing; a failed write leaves an unreadable file |
| ChatHistoryManager.LoadedHistory | app/src/main/java/com/terrabull/healthbuddy/ChatHistoryManager.kt:30-42 | the stored list, or the empty list when the file is missing, null or unreadable |
| ChatHistoryManager.LoadChatHistory | app/src/main/java/com/terrabull/healthbuddy/ChatHistoryManager.kt:30-42 | the load returns `LoadedHistory` of the directory |
| ChatHistoryManager.LoadAfterSave | app/src/main/java/com/terrabull/healthbuddy/ChatHistoryManager.kt:15-42 | a load after a successful save returns the recent history |
| ChatHistoryManager.SaveKeepsOtherSide | app/src/main/java/com/terrabull/healthbuddy/ChatHistoryManager.kt:22 | saving one side does not change what the other side loads |
| ChatHistoryManager.SaveReplacesContents | app/src/main/java/com/terrabull/healthbuddy/ChatHistoryManager.kt:22 | a save overwrites: the previous contents have no influence on the next load |
| ChatHistoryManager.LoadAfterFailedWrite | app/src/main/java/com/terrabull/healthbuddy/ChatHistoryManager.kt:22-41 | after a save that failed while writing, the load returns the empty list |
| AudioRecording.Pad | app/src/main/java/com/terrabull/healthbuddy/AudioRecorder.kt:38-39 | the zero-padded field is all digits, reads back as the number, and has exactly the field width when the number fits |
| AudioRecording.FormatStamp | app/src/main/java/com/terrabull/healthbuddy/AudioRecorder.kt:38-39 | for fields that fit their widths the stamp has 15 characters with `_` after the eight date digits |
| AudioRecording.OutputName | app/src/main/java/com/terrabull/healthbuddy/AudioRecorder.kt:38-39 | the name is the stamp between "rec_" and ".opus" |
| AudioRecording.StampRoundTrip | app/src/main/java/com/terrabull/healthbuddy/AudioRecorder.kt:38-39 | `yyyyMMdd_HHmmss` has 15 characters and parses back to the time it was made from |
| AudioRecording.OutputNameShape | app/src/main/java/com/terrabull/healthbuddy/AudioRecorder.kt:35-40 | the name is "rec_", the stamp, ".opus" (24 characters), and it gives the start time back |
| AudioRecording.Step | app/src/main/java/com/terrabull/healthbuddy/AudioRecorder.kt:33-75 | `start` succeeds exactly from Idle when the platform recorder can be set up, and throws the setup failure from Idle otherwise; `stop` succeeds exactly from Recording with a file; `cancel` and `release` always succeed; on success only `start` changes the output file, to the one it names; `stop` finishes with the output file |
| AudioRecording.Next | app/src/main/java/com/terrabull/healthbuddy/AudioRecorder.kt:33-81 | after a successful call the machine is `Step`'s; a `start` whose setup throws leaves Idle holding the new file name; every other exception leaves the machine unchanged |
| AudioRecording.StepKeepsConsistent | app/src/main/java/com/terrabull/healthbuddy/AudioRecorder.kt:33-67 | every call, failing or not, keeps Recording and Finished tied to the output file, so `outputFile!!` never fails |
| AudioRecording.Run | app/src/main/java/com/terrabull/healthbuddy/AudioRecorder.kt:33-81 | a run of calls whose exceptions are caught, each leaving the machine `Next` gives, keeps Recording and Finished tied to the output file |
| AudioRecording.FinishedUntilCancel | app/src/main/java/com/terrabull/healthbuddy/AudioRecorder.kt:33-74 | once Finished, any run of calls without `cancel` leaves the machine unchanged and every `start` in it is rejected |
| AudioRecording.CancelResets | app/src/main/java/com/terrabull/healthbuddy/AudioRecorder.kt:71-75 | `cancel` succeeds from every state and returns to Idle |
| AudioRecording.FailedStartThenStop | app/src/main/java/com/terrabull/healthbuddy/AudioRecorder.kt:33-64 | after a `start` whose setup throws, the name is kept, the state stays Idle and a following `stop` is rejected |
| AudioRecording.StartThenStop | app/src/main/java/com/terrabull/healthbuddy/AudioRecorder.kt:32-68 | from Idle, `start` then `stop` ends Finished with the started file |
| AudioRecording.AudioRecorder.constructor | app/src/main/java/com/terrabull/healthbuddy/AudioRecorder.kt:12-24 | a new recorder is Idle with no platform recorder and no output file |
| AudioRecording.AudioRecorder.Start | app/src/main/java/com/terrabull/healthbuddy/AudioRecorder.kt:32-60 | outside Idle: the IllegalState message and nothing changes; otherwise the time-stamped file is named, and on setup success recording starts, the file exists and is returned; on setup failure the name is kept but state stays Idle; in every case the result is `Step`'s and the new machine `Next`'s |
| AudioRecording.AudioRecorder.Stop | app/src/main/java/com/terrabull/healthbuddy/AudioRecorder.kt:63-68 | outside Recording: the IllegalState message and nothing changes; otherwise the platform recorder is stopped and the state is Finished with the output file, which is returned |
| AudioRecording.AudioRecorder.Cancel | app/src/main/java/com/terrabull/healthbuddy/AudioRecorder.kt:71-75 | from any state: the recorder is stopped if present, the output file deleted if known, the state Idle |
| AudioRecording.AudioRecorder.Release | app/src/main/java/com/terrabull/healthbuddy/AudioRecorder.kt:78-81 | the platform recorder is dropped and the state is unchanged |
| PcmWav.ToInt32 | app/src/main/java/com/terrabull/healthbuddy/PcmWavRecorder.java:62 | Java `int` addition wraps: the result is congruent to the exact sum modulo 2^32 |
| PcmWav.WrapAdd | app/src/main/java/com/terrabull/healthbuddy/PcmWavRecorder.java:62 | wrapping after every addition equals wrapping once at the end |
| PcmWav.BigEndian32 | app/src/main/java/com/terrabull/healthbuddy/PcmWavRecorder.java:71 | `writeInt`'s four bytes, high first, decode back to the number |
| PcmWav.LittleEndian32 | app/src/main/java/com/terrabull/healthbuddy/PcmWavRecorder.java:71 | the RIFF byte order, low first, decodes back to the number |
| PcmWav.BigEndianOfValue | app/src/main/java/com/terrabull/healthbuddy/PcmWavRecorder.java:71 | any four bytes are the big-endian form of their value |
| PcmWav.UnsignedOfSmall | app/src/main/java/com/terrabull/healthbuddy/PcmWavRecorder.java:71 | a number below 2^32 comes back unchanged from a round trip through a Java `int` |
| PcmWav.ReverseBytes32 | app/src/main/java/com/terrabull/healthbuddy/PcmWavRecorder.java:71-78 | `writeInt(Integer.reverseBytes(x))` writes `x` little-endian |
| PcmWav.ReverseBytes16 | app/src/main/java/com/terrabull/healthbuddy/PcmWavRecorder.java:79-80 | `writeShort(Short.reverseBytes(x))` writes `x` little-endian |
| PcmWav.Pcm | app/src/main/java/com/terrabull/healthbuddy/PcmWavRecorder.java:58-64 | reads without samples contribute nothing, and every read's bytes fit in the PCM data |
| PcmWav.PcmConcat | app/src/main/java/com/terrabull/healthbuddy/PcmWavRecorder.java:58-64 | the PCM data of two runs of reads is their concatenation |
| PcmWav.Overwrite | app/src/main/java/com/terrabull/healthbuddy/PcmWavRecorder.java:70-80 | a positioned write replaces exactly the bytes it covers and grows a short file |
| PcmWav.RandomAccessFile.Seek | app/src/main/java/com/terrabull/healthbuddy/PcmWavRecorder.java:70 | moves the pointer, leaves the bytes |
| PcmWav.RandomAccessFile.WriteInt | app/src/main/java/com/terrabull/healthbuddy/PcmWavRecorder.java:71 | writes the big-endian bytes at the pointer and advances it by 4 |
| PcmWav.RandomAccessFile.WriteShort | app/src/main/java/com/terrabull/healthbuddy/PcmWavRecorder.java:79 | writes the big-endian bytes at the pointer and advances it by 2 |
| PcmWav.StreamPcm | app/src/main/java/com/terrabull/healthbuddy/PcmWavRecorder.java:54-64 | 44 zero bytes then the bytes of every positive read, in order; `totalPcmLen` is their number as a Java `int` |
| PcmWav.PatchHeaderAsWritten | app/src/main/java/com/terrabull/healthbuddy/PcmWavRecorder.java:68-81 | the six patched fields get the `AsWrittenHeader` bytes; every other byte of the file is left alone |
| PcmWav.AsWrittenHeader | app/src/main/java/com/terrabull/healthbuddy/PcmWavRecorder.java:54-80 | 44 bytes, zero at every offset the patch does not write |
| PcmWav.PatchHeader | app/src/main/java/com/terrabull/healthbuddy/PcmWavRecorder.java:68-81 | corrected patch: the first 44 bytes become the canonical header, the rest is untouched |
| PcmWav.PcmWavRecorder.constructor | app/src/main/java/com/terrabull/healthbuddy/PcmWavRecorder.java:21-34 | a new recorder holds an initialized platform recorder, is not recording, has no writer thread, and `outputWav` is the file it was given (its contents unchanged) |
| PcmWav.PcmWavRecorder.Start | app/src/main/java/com/terrabull/healthbuddy/PcmWavRecorder.java:36-41 | raises `isRecording`, starts capture and the writer thread, unless the platform recorder was released |
| PcmWav.PcmWavRecorder.Stop | app/src/main/java/com/terrabull/healthbuddy/PcmWavRecorder.java:43-48 | lowers `isRecording`, ending the writer's loop, and releases the platform recorder |
| PcmWav.PcmWavRecorder.WriteWavFile | app/src/main/java/com/terrabull/healthbuddy/PcmWavRecorder.java:50-85 | the file is `AsWrittenHeader(totalPcmLen)` followed by the PCM data |
| PcmWav.PcmWavRecorder.WriteCanonicalWavFile | app/src/main/java/com/terrabull/healthbuddy/PcmWavRecorder.java:50-85 | corrected writer: the file is the canonical header followed by the PCM data |
| PcmWav.AsWrittenFields | app/src/main/java/com/terrabull/healthbuddy/PcmWavRecorder.java:54-80 | length 44 + PCM; bytes 4-7 hold 36 + PCM length and 40-43 the PCM length, modulo 2^32; 24-35 hold 16000, 32000, 2, 16, little-endian; every other header byte is zero; PCM from offset 44 |
| PcmWav.AsWrittenIsNotWav | app/src/main/java/com/terrabull/healthbuddy/PcmWavRecorder.java:54-80 | no RIFF/WAVE reader accepts the file as written |
| PcmWav.CanonicalKeepsPatchedFields | app/src/main/java/com/terrabull/healthbuddy/PcmWavRecorder.java:70-80 | the corrected header agrees with the source's on every byte the source writes |
| PcmWav.CanonicalHeaderReads | app/src/main/java/com/terrabull/healthbuddy/PcmWavRecorder.java:17-80 | the canonical header reads as PCM, mono, 16000 Hz, 32000 bytes/s, block 2, 16 bits, with the two size fields |
| PcmWav.CanonicalIsWav | app/src/main/java/com/terrabull/healthbuddy/PcmWavRecorder.java:50-85 | the corrected file reads back as that format, holding exactly the recorded bytes, for any size WAVE can express |
| BuildScript.LineLength | app/build.gradle.kts:9 | the first line ends at the first line break |
| BuildScript.ReadLines | app/build.gradle.kts:9 | no line holds a line break, and only the empty text has no lines |
| BuildScript.ReadTerminated | app/build.gradle.kts:9 | `readLines` of a file of "\n"-terminated lines gives the lines back |
| BuildScript.SplitLimit2 | app/build.gradle.kts:10 | two parts iff the line has '=', split at the first '=' and rejoining to the line; otherwise the line itself |
| BuildScript.SplitLimit2At | app/build.gradle.kts:10 | the split happens at the first '=' even when the value holds more |
| BuildScript.SplitAtKey | app/build.gradle.kts:10-11 | the split's first part is the key and a second part exists exactly when the line is the key, '=', then the value |
| BuildScript.LineValue | app/build.gradle.kts:10-11 | a line gives a value exactly when it is the key (holding no '='), '=', then the value, and the value is that rest trimmed |
| BuildScript.FirstValue | app/build.gradle.kts:9-12 | a found value is that of one of the lines |
| BuildScript.RootEnv | app/build.gradle.kts:5-14 | "" without a `.env` file; the result is always trimmed |
| BuildScript.FirstValueTrimmed | app/build.gradle.kts:11 | a found value is trimmed |
| BuildScript.FirstMatchWins | app/build.gradle.kts:9-12 | the first matching line decides; later duplicates are ignored |
| BuildScript.NoMatchNoValue | app/build.gradle.kts:9-13 | no value is found iff no line matches |
| BuildScript.ValueMayContainSeparator | app/build.gradle.kts:10 | `KEY=a=b` yields `a=b` trimmed |
| BuildScript.LineWithoutSeparator | app/build.gradle.kts:10-11 | a line without '=' never matches |
| BuildScript.KeyNotTrimmed | app/build.gradle.kts:11 | `" KEY=v"` does not match `KEY` |
| BuildScript.RootEnvOfFile | app/build.gradle.kts:5-14 | for a saved file, `rootEnv` is the value of the first matching line, or "" |
| BuildScript.DefaultConfig | app/build.gradle.kts:35-39 | without a `.env` file the build warns and the field is `""` |
| BuildScript.WarnsIffEmpty | app/build.gradle.kts:35-38 | the build warns exactly when the key is empty |
| BuildScript.LiteralNotEscaped | app/build.gradle.kts:39 | the field holds the key verbatim between quotes, so a quote in the key ends the Java literal early |
| Text.IsWhitespace | app/build.gradle.kts:36 | Kotlin's `Char.isWhitespace` on the JVM: the controls U+0009..U+000D and U+001C..U+001F and the Unicode space, line and paragraph separators |
| Text.IsBlank | app/src/main/java/com/terrabull/healthbuddy/GeminiApiWrapper.kt:111 | `isBlank` (and the non-null half of `isNullOrBlank`): every character is whitespace, so the empty string is blank |
| Text.Trim | app/src/main/java/com/terrabull/healthbuddy/GeminiApiWrapper.kt:163 | `trim()` is no longer than its input and neither end is whitespace |
| Text.TrimOfPadded | app/src/main/java/com/terrabull/healthbuddy/GeminiApiWrapper.kt:163 | trimming removes exactly blank margins around an unpadded middle |
| Text.TrimEmptyIffBlank | app/build.gradle.kts:36 | a string trims to "" iff it is blank |
| Text.TrimIsInfix | app/src/main/java/com/terrabull/healthbuddy/GeminiApiWrapper.kt:197 | the trimmed string is a contiguous piece of the input |
| Text.TrimKeepsCharacters | app/src/main/java/com/terrabull/healthbuddy/GeminiApiWrapper.kt:186 | trimming adds no characters |
| Text.TrimIdempotent | app/src/main/java/com/terrabull/healthbuddy/GeminiApiWrapper.kt:197 | trimming twice is trimming once |
| Text.IntToString | app/src/main/java/com/terrabull/healthbuddy/GeminiApiWrapper.kt:217 | the decimal form of `maxWords` reads back as the number, with a minus sign when negative |
| Text.ParseNatDigits | app/src/main/java/com/terrabull/healthbuddy/GeminiApiWrapper.kt:187 | `toInt` of a number's decimal digits gives the number |
| Text.ParseDigits | app/src/main/java/com/terrabull/healthbuddy/GeminiApiWrapper.kt:187 | `toInt` of `w` decimal digits is a number below 10^w |
| Text.NatDigits | app/src/main/java/com/terrabull/healthbuddy/GeminiApiWrapper.kt:217 | a number's decimal form is at least one digit, all digits, with no leading zero |
| Text.Split | app/src/main/java/com/terrabull/healthbuddy/GeminiApiWrapper.kt:186 | `split(',')` gives at least one piece and no piece holds a comma |
| Text.JoinSplit | app/src/main/java/com/terrabull/healthbuddy/GeminiApiWrapper.kt:186 | joining the pieces gives the string back |
| Text.SplitJoin | app/src/main/java/com/terrabull/healthbuddy/GeminiApiWrapper.kt:186 | splitting a join of comma-free pieces gives the pieces back |
| Text.RemoveAll | app/src/main/java/com/terrabull/healthbuddy/GeminiApiWrapper.kt:188 | `replace(v, "")` never lengthens the text |
| Text.RemoveAllAbsent | app/src/main/java/com/terrabull/healthbuddy/GeminiApiWrapper.kt:188 | text without an occurrence is unchanged |
| Text.RemoveAllLeading | app/src/main/java/com/terrabull/healthbuddy/GeminiApiWrapper.kt:188 | a leading occurrence is deleted |

## Left out

- The HTTP exchanges are not modelled: `transcribeSpeech`, `buildSttRequestBody` and the OkHttp half of `generateGeminiReply`. They depend on a foreign client and cloud services.
  - The speech-to-text outcome is an input of `SendAudioWithHistory`.
  - The Gemini response is the value of the `GeminiServer` parameter.
  - The endpoint URL, model name and API key formatting are not represented.
- JSON and Base64 (org.json, Gson, `android.util.Base64`) are foreign libraries.
  - Requests and responses are datatypes.
  - A stored history file is a `StoredFile`: the list it holds, null, or unreadable.
- The general regex engine is not modelled.
  - Each `make_workout` match from `findAll` is an input: its span, text and groups. It is constrained only by what `IsMatchList` states.
  - The `end_conversation()` regex is hand-matched. `IGNORE_CASE` is modelled as ASCII folding, and `\s` as Java's ASCII class. On the JVM, Kotlin's `IGNORE_CASE` also turns on `UNICODE_CASE`, so the source also accepts "ſ" (U+017F) for "s" and "ı" (U+0131) or "İ" (U+0130) for "i"; the model rejects them.
- Concurrency is modelled sequentially. This covers `Collections.synchronizedList`, `withContext(Dispatchers.IO)`, and the recording thread with its non-volatile `isRecording` handshake. The reads in `mic` are the ones made while `isRecording` held.
- Logging (`Log.d`, `logger.warn`, `printStackTrace`) is output only. The warning is modelled as a boolean.
- Platform behaviour is left out because it is hardware and OS behaviour:
  - `MediaRecorder`'s own failures beyond a setup boolean;
  - `MediaRecorder.stop` throwing on a very short recording;
  - `AudioRecord.getMinBufferSize`;
  - the blocking of `read`;
  - the IOExceptions of the WAV writer, whose files are assumed to open;
  - the time zone of `Date()`.
- AudioRecording.AudioRecorder: the `state` setter is private. Dafny has no private setters, so the model does not enforce that only these four methods assign the field; each method's contract states every field it leaves.
- `readLines` charset decoding is not modelled: the `.env` text is a `string`. Everything in `build.gradle.kts` other than `rootEnv` and the `GEMINI_API_KEY` lines is configuration: plugins, SDK levels, dependencies.
- GeminiApiWrapper.ReplyText: the `else ""` of `if (parts.length() > 0) cleaned else ""` cannot run, because `parts.getJSONObject(0)` throws first on an empty array. The model gives `MalformedJson` there, as the code does.
- ToolCalls.RemoveEndConversations: `replace(endConvRe, "")` is modelled as the single left-to-right pass it is. Each token that starts at the scan position is deleted whole and the scan resumes after it (`RemoveLeftmost`); a character where none starts is kept (`KeepUnmatched`). The output is not rescanned, so the contract does not promise a token-free result: `RemovalCanRebuildToken` shows a token rebuilt from the text around a deleted one. A repeat-until-clean replacement is not modelled.
- GeminiApiWrapper.SummarizeHistory follows the code where its comment disagrees with it. The comment promises `history == ["system" → summary]`. The code keeps every non-turn entry and appends the summary under the role "system summary".
- The other Android files are not part of this model: UI, TTS, whisper wrapper, notifications, alarms. Neither is the unused `ChatMessage.kt` type.

## Findings

| source | as written | input that shows it | evidently intended | confidence | as-written member | corrected member |
|---|---|---|---|---|---|---|
| app/src/main/java/com/terrabull/healthbuddy/PcmWavRecorder.java:54-80 | the header patch writes only ChunkSize, SampleRate, ByteRate, BlockAlign, BitsPerSample and Subchunk2Size. The "RIFF", "WAVE", "fmt " and "data" tags, Subchunk1Size (16), AudioFormat (1) and NumChannels (1) stay zero | any recording, e.g. no reads at all: bytes 0-3 are 00 00 00 00, not "RIFF" | the canonical 44-byte PCM WAVE header that the comments and the patched offsets follow | high (not executed) | PcmWav.AsWrittenIsNotWav | PcmWav.CanonicalIsWav |
