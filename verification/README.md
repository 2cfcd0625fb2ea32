# voxtral-dictate, modelled in Dafny

voxtral-dictate is a dictation daemon. A toggle command on a unix socket starts
a session that records microphone audio as 16-bit mono PCM chunks. A
voice-activity segmenter cuts the stream into speech bursts. Each burst is
streamed through a 64-chunk drop-oldest relay buffer into a transcription
backend, and the text fragments the backend returns are typed. The backend is
chosen by name: a Mistral realtime or vLLM WebSocket backend, two batch
backends (llama.cpp and the Mistral batch API) that accumulate audio and post
it as WAV files, and a mock.

This project models that core sequentially. Channels are sequences. The end
of a sequence stands for a closed channel or a cancelled context. Everything
the program gets from outside becomes a parameter: loudness, servers, the
environment, whether pw-record is installed.

| file | module | models |
|---|---|---|
| common.dfy | `Common` | bytes and chunks, `Option`/`Result`, concatenation (`Flatten`), most-recent-n (`LastN`), subsequences, Go's truncating division |
| vad.dfy | `Vad` | the segmenter of `vadBursts`: a step function with lemmas, the `Segmenter` class over the pre-buffer ring `array`, the mirror burst, and the sample decoding of `rmsEnergy` |
| relay.dfy | `Relay` | the drop-oldest relay buffer of `handleBurst`, as a ring-buffer class and as an event-level function |
| retry.dfy | `Retry` | the attempt/backoff loop of `handleBurst` and the burst loop of `runSession` |
| control.dfy | `Control` | `handleConn`, `startDictation`, `stopDictation` and the session cleanup on the `Daemon` class |
| wav.dfy | `Wav` | `pcmToWAV` and a parser of its header |
| batching.dfy | `Batching` | the accumulate-and-flush loop shared by the two batch backends |
| llamacpp.dfy | `LlamaCpp` | the llama.cpp backend: defaulting, `Transcribe`, first-choice selection |
| mistral_batch.dfy | `MistralBatch` | the Mistral batch backend: defaulting, `Transcribe`, text forwarding, API key resolution |
| mock.dfy | `Mock` | the mock backend's byte counter and word emission |
| audio.dfy | `Audio` | `NewRecorder` chunk size and `buildArgs` |
| backends.dfy | `Backends` | the `NewBackend` dispatch |
| test_driver.dfy | `TestDriver` | the chunk size and file-splitting loop of `runTest` |

Two details of the code are easy to misread, and the model follows the code
in both:

- **Trailing countdown.** A burst closes on the
  `(max(TrailChunks, 1) + 1)`-th consecutive quiet chunk after the last loud
  one (vad.go:143-161). Entering trailing sets the counter without
  decrementing it, and a counter of 0 or less still needs one more quiet
  chunk. The default configuration's comment (config.go:72) describes its 21
  trailing chunks as about 10 s of trailing silence, which is 21 chunks of
  480 ms. The code waits for 22 quiet chunks, 10.56 s. This is `Vad.Hangover`,
  used in `Vad.TrailingClosesBurst`.
- **Backoff reset.** The retry backoff returns to 500 ms only when a text
  fragment is relayed to the typist (daemon.go:230). Sending audio does not
  reset it, and neither does an attempt that ends without text.

## Model

| member | source | states |
|---|---|---|
| Vad.Segmenter.constructor | vad.go:56-63 | a new segmenter is silent, with no open burst, no bursts, an empty ring of `PreBufferN` slots and cursor 0 |
| Vad.Segmenter.WriteRing | vad.go:65-72 | writing at the cursor keeps the ring's valid view, and the quiet chunks it holds become the last `PreBufferN` of those before plus the new one; nothing else changes |
| Vad.Segmenter.PushRingAsWritten | vad.go:61-72 | `pushRing` as written panics exactly when `PreBufferN = 0`; otherwise the ring keeps the most recent `PreBufferN` quiet chunks |
| Vad.Segmenter.PushRing | vad.go:65-72 | for every `PreBufferN`, including 0, the buffered quiet chunks become the last `PreBufferN` of the old ones plus the new chunk; phase, countdown and bursts are unchanged |
| Vad.Segmenter.StartBurst | vad.go:74-101 | a new burst is appended holding the buffered quiet chunks oldest first; afterwards the ring is empty with `ringPos = 0` and `ringFull = false` |
| Vad.Segmenter.FlushRing | vad.go:83-97 | the flush reads the ring from the oldest slot and yields exactly the buffered quiet chunks, oldest first; afterwards every slot it read is nil and every other slot holds what it held before |
| Vad.Segmenter.FlushFrom | vad.go:90-96 | reading `n` slots from `start`, wrapping at the ring's end, hands out the chunks they hold in that order and leaves the ring `Cleared` |
| Vad.Segmenter.TakeSlot | vad.go:93-96 | one slot is handed out as it was and is nil afterwards; no other slot changes |
| Vad.ClearedAt | vad.go:90-96 | after a flush of `n` slots from `start`, exactly the slots read are nil and every other slot is unchanged |
| Vad.Segmenter.Emit | vad.go:103-111 | a chunk goes to the end of the open burst; with no burst open, nothing changes |
| Vad.Segmenter.Step | vad.go:128-162 | one chunk moves the segmenter exactly as the step function `StepSpec` says, and the ring invariant is kept |
| Vad.Segmenter.OnSilent | vad.go:131-142 | silent: a loud chunk opens a burst (after the pre-buffer flush) and goes into it; a quiet chunk only goes into the ring |
| Vad.Segmenter.OnSpeaking | vad.go:143-148 | speaking: every chunk is emitted; a quiet one switches to trailing with `trailLeft = TrailChunks` |
| Vad.Segmenter.OnTrailing | vad.go:149-161 | trailing: every chunk is emitted; a loud one resumes speaking; a quiet one decrements, and at `trailLeft <= 0` the burst closes and the segmenter is silent |
| Vad.Segmenter.Close | vad.go:113-126 | end of input or cancellation closes the open burst, if any, and changes nothing else |
| Vad.MirrorBurst | vad.go:19-43 | with VAD disabled there is exactly one burst, holding every input chunk unchanged and in order |
| Vad.VadBursts | vad.go:16-168 | the bursts are those of the step function; disabled gives `[chunks]`; enabled loses no loud chunk, and the bursts' chunks are a subsequence of the input |
| Vad.SegmentKeepsEveryLoudChunk | vad.go:128-162 | with VAD enabled the loud chunks of all bursts are the loud chunks of the input in order, nothing is invented or reordered, and every burst contains a loud chunk |
| Vad.QuietWhileSilentBuffersRecent | vad.go:131-142 | quiet chunks while silent change only the pre-buffer, which becomes the most recent `PreBufferN` quiet chunks |
| Vad.SpeechOnsetFlushesPreBuffer | vad.go:74-101 | at speech onset after any run of quiet chunks, the new burst is the last `min(pushes, PreBufferN)` quiet chunks, oldest first, then the loud chunk, and the ring is emptied |
| Vad.TrailingClosesBurst | vad.go:143-161 | from speaking, every quiet chunk goes into the open burst; the burst stays open through `Hangover` of them and closes on the next one |
| Vad.RunConsistent | vad.go:128-162 | every run keeps the open flag agreeing with the phase (a burst is open exactly when not silent) and an open burst existing |
| Vad.OpenBurstReceivesEveryChunk | vad.go:143-161 | while a burst stays open, every chunk, loud or quiet, is appended to it in arrival order and no other burst is opened |
| Vad.ClosedBurstsAreFrozen | vad.go:131-161 | bursts never overlap: earlier bursts are never changed, a closed burst is never reopened, and a new burst is only ever added at the end |
| Vad.Int16 | vad.go:178 | a little-endian byte pair read as a signed 16-bit value lies in `[-32768, 32768)` |
| Vad.Samples | vad.go:172-178 | a chunk holds `len/2` samples, each a signed 16-bit value |
| Vad.SamplesRoundTrip | vad.go:178 | decoding the little-endian two's-complement encoding of any signed 16-bit samples gives them back |
| Vad.SamplesDropOddByte | vad.go:172-178 | re-encoding the decoded samples gives the chunk without its odd trailing byte |
| Vad.SampleAt | vad.go:177-178 | sample `i` is read from bytes `2i` and `2i+1` |
| Vad.SumSquaresZeroIffSilence | vad.go:176-181 | the sum of squared samples is never negative, and it is zero exactly when every sample is zero |
| Vad.SquareSum | vad.go:171-180 | the loop counts `len/2` samples and sums their squares; the sum is zero exactly for digital silence, including a chunk shorter than 2 bytes |
| Relay.RelayBuffer.constructor | daemon.go:173 | a new relay buffer is empty |
| Relay.RelayBuffer.Take | daemon.go:181-184 | a receive removes and returns the oldest pending chunk, or nothing from an empty buffer |
| Relay.RelayBuffer.Offer | daemon.go:177-186 | a chunk is dropped exactly when the buffer is full; then exactly the oldest pending chunk goes; the new chunk is always appended; pending becomes the last 64 of old pending plus the chunk |
| Relay.RelayBuffer.RelayAll | daemon.go:174-188 | with no reader, the buffer ends with the most recent 64 of everything offered, in order, and the number of drops is the excess over 64 |
| Relay.DropOldestKeepsRecent | daemon.go:179-185 | dropping the oldest of a full buffer and appending keeps exactly the 64 most recent chunks |
| Relay.Relay | daemon.go:173-187 | over any interleaving of arrivals and reads, at most 64 chunks are pending |
| Relay.RelayEvents | daemon.go:172-188 | the buffer class, created empty and driven by the events (an arrival is `Offer`, a read is `Take`), receives exactly what `Relay` says and ends holding exactly `Relay`'s pending chunks |
| Relay.PendingAreRecentArrivals | daemon.go:173-187 | the pending chunks are always a suffix of the arrivals: the most recent ones |
| Relay.RelayKeepsOrder | daemon.go:173-187 | what the backend received, followed by what is pending, is a subsequence of the arrivals: chunks are lost but never duplicated or reordered |
| Relay.NoReaderRetainsRecent | daemon.go:173-187 | with no reader, nothing is delivered and the most recent 64 arrivals are pending in order |
| Retry.BackoffAfter | daemon.go:243-250 | the backoff after any number of failures lies between 500 ms and 10 s |
| Retry.BackoffClosedForm | daemon.go:250 | the backoff after `n` failures with no text between them is `min(500 * 2^n, 10000)` ms |
| Retry.BackoffSchedule | daemon.go:169-170 | the waits are 500, 1000, 2000, 4000 and 8000 ms, then 10000 ms from the sixth on |
| Retry.BackoffMonotone | daemon.go:250 | the backoff never shrinks while failures continue |
| Retry.WaitsAre | daemon.go:243-250 | the `k`-th wait of a burst is the backoff for the failure streak at the end of attempt `k` |
| Retry.HandleBurst | daemon.go:168-251 | there are no attempts if the factory fails; every fragment of every attempt is typed in order; there is one wait after each failed attempt and it equals the backoff for the current failure streak; the burst ends as the first non-failed attempt says |
| Retry.TypeFragments | daemon.go:217-232 | every fragment received is typed, in order, and the backoff is reset to 500 ms if any fragment arrived, otherwise kept |
| Retry.OnlyFailuresRetry | daemon.go:235-241 | an attempt is followed by another only if it returned an error under a live context |
| Retry.QuietFailuresDouble | daemon.go:243-250 | with no text in between, the `k`-th wait of a burst is the backoff for `k` failures |
| Retry.TextResetsBackoff | daemon.go:224-230 | the wait after an attempt that relayed text is 500 ms, however many failures came before |
| Retry.Handled | daemon.go:160-165 | bursts are handled one at a time, in order, until the first one that returns because the context was cancelled |
| Retry.RunSession | daemon.go:138-166 | a failed recorder start handles no burst; otherwise exactly the bursts up to the cancellation are handled and their fragments typed in order |
| Control.ParseCommand | daemon.go:75-84 | a read of no bytes gives no command; otherwise the command is the first at most 64 bytes with exactly one trailing newline removed if present, and is at most 64 long |
| Control.ParseCommandExamples | daemon.go:81-84 | only one newline is removed: `"toggle\n\n"` is the unknown command `"toggle\n"` |
| Control.InitialControllable | daemon.go:25-29 | the daemon starts idle with no session, in the controllable state |
| Control.StartKeepsControllable | daemon.go:114-124 | starting from idle sets the flag, stores the new session's cancel function, and keeps every session controllable |
| Control.StopCancelsEverything | daemon.go:126-136 | after a stop the flag is clear, no cancel function is stored, and every running session has been cancelled |
| Control.EndKeepsControllable | daemon.go:139-146 | with the ownership check, a session's end clears the flag and cancel function only when it is the current session, and keeps every session controllable |
| Control.EndAgreesWhenOwned | daemon.go:139-146 | the cleanup as written and the corrected one agree whenever the ending session is the current one or there is none |
| Control.StaleEndLosesSession | daemon.go:139-146 | counterexample: start, stop, start, then the first session ends; as written, session 1 keeps running uncancelled while the daemon reports idle; the corrected cleanup keeps it current |
| Control.HandleSpec | daemon.go:86-111 | `toggle` flips the flag and replies `started`/`stopped` for the old flag; `status` replies `active`/`idle` and changes nothing; every other command changes nothing; an empty read gets no reply; the state stays controllable |
| Control.UnknownCommandEchoed | daemon.go:109-110 | an unknown command is echoed in `unknown command: <cmd>\n` and changes nothing |
| Control.Daemon.constructor | daemon.go:25-29 | a new daemon is idle, with no cancel function stored |
| Control.Daemon.StartDictation | daemon.go:114-124 | the flag is set and the new session's cancel function is stored |
| Control.Daemon.StopDictation | daemon.go:126-136 | the stored session, if any, is cancelled, and the flag and cancel function are cleared |
| Control.Daemon.SessionEndedAsWritten | daemon.go:139-146 | the deferred cleanup as written clears the flag and the cancel function, whichever session they belong to |
| Control.Daemon.SessionEnded | daemon.go:139-146 | the corrected cleanup clears them only for the current session, and keeps every session controllable |
| Control.Daemon.HandleConn | daemon.go:72-112 | in every state the daemon reaches, uncontrollable ones included, one connection changes the daemon and replies as `Handle` says; a controllable daemon stays controllable |
| Control.StaleEndScenario | daemon.go:72-146 | the start, stop, start, stale-end sequence run on the daemon object leaves it uncontrollable; `status` then replies `idle`, and `toggle` replies `started` and starts another session while session 1 still runs uncancelled |
| Control.RacingTogglesLoseSession | daemon.go:86-123 | counterexample: two toggles on an idle daemon that both read the flag before either acts both start a session; one alone keeps the daemon controllable, but together session 0 runs uncancelled and can no longer be stopped |
| Wav.U32 | backend_llamacpp.go:137 | Go's conversion to `uint32` is below 2^32 and is the identity on values that fit |
| Wav.LE16RoundTrip | backend_llamacpp.go:142-147 | a 16-bit field written little-endian reads back to its value |
| Wav.LE32RoundTrip | backend_llamacpp.go:139-145 | a 32-bit field written little-endian reads back to its value |
| Wav.PcmToWav | backend_llamacpp.go:134-151 | the output is `44 + len(pcm)` bytes with the audio copied verbatim from offset 44 |
| Wav.ParseWav | backend_llamacpp.go:134-151 | a parsed file is at least 44 bytes long and its audio is everything after byte 44 |
| Wav.RiffRoundTrip | backend_llamacpp.go:137-139 | the RIFF header reads back as its tags and the RIFF size `36 + len`, truncated to 32 bits |
| Wav.FmtRoundTrip | backend_llamacpp.go:139-146 | the `fmt ` chunk reads back as size 16, PCM, mono, the rate, twice the rate, block align 2 and 16 bits, each truncated to its width |
| Wav.DataRoundTrip | backend_llamacpp.go:147-148 | the `data` chunk header reads back as its tag and the audio length |
| Wav.WavRoundTrip | backend_llamacpp.go:134-151 | for any audio and any rate, the header parses back to RIFF, `36+len`, WAVE, `fmt `, 16, 1, 1, rate, `2*rate`, 2, 16, data, `len` (each truncated to its width) and the audio follows unchanged |
| Wav.HeaderConsistent | backend_llamacpp.go:136-148 | below 4 GiB and a rate below 2^31, the RIFF size is the file size less 8, the data size is the audio length, and byte rate = rate * block align = rate * channels * bits / 8 |
| Batching.Fold | backend_llamacpp.go:54-58 | the closed groups and the open group together are the chunks received; every closed group reached the threshold only with its last chunk; the open group is below it |
| Batching.BatchesKeepAudio | backend_llamacpp.go:47-58 | the sent batches, concatenated, are exactly the received audio in order |
| Batching.BatchSizes | backend_llamacpp.go:41-58 | every batch but the last reached the threshold; the last reached it or is a non-empty remainder; with a positive threshold no batch is empty |
| Batching.RelayedShape | backend_llamacpp.go:122-130 | when a send relays at most one non-empty fragment, the whole run relays at most one per batch and none empty |
| Batching.Transcribe | backend_llamacpp.go:34-61 | the loop sends exactly the threshold batches and then the non-empty remainder, relays their fragments in order, and returns nil |
| LlamaCpp.NewLlamaCppBackend | backend_llamacpp.go:23-32 | URL and rate are kept; the batch length is positive, the given one if positive, else 3 |
| LlamaCpp.NewIdempotent | backend_llamacpp.go:23-32 | defaulting is idempotent, and a non-positive length gives 3 |
| LlamaCpp.FirstChoiceText | backend_llamacpp.go:122-130 | a fragment is relayed exactly when the reply has a choice with non-empty content, and it is the first choice's content |
| LlamaCpp.Transcribe | backend_llamacpp.go:34-61 | batches are cut at `sampleRate*2*chunkSeconds` bytes and carry exactly the received audio; at most one non-empty fragment is relayed per batch; the error is nil |
| MistralBatch.NewMistralBatchBackend | backend_mistral_batch.go:25-38 | key and rate are kept; a non-positive length becomes 5 and an empty model `voxtral-mini-latest`; other values are kept |
| MistralBatch.NewIdempotent | backend_mistral_batch.go:25-38 | defaulting is idempotent and gives the two defaults |
| MistralBatch.ForwardText | backend_mistral_batch.go:112-117 | a transcription is relayed exactly when its text is non-empty, unchanged |
| MistralBatch.Transcribe | backend_mistral_batch.go:40-65 | batches are cut at `sampleRate*2*chunkSeconds` bytes and carry exactly the received audio; at most one non-empty fragment is relayed per batch; the error is nil |
| MistralBatch.UploadsCarryAudio | backend_mistral_batch.go:58-68 | every uploaded file is its batch behind a header that parses back, and the batches together are the received audio |
| MistralBatch.MustGetMistralApiKey | backend_mistral_batch.go:120-130 | the key is the configured one if non-empty, else the environment's; the failure (the exit) happens exactly when both are empty |
| Mock.DueMonotone | backend_mock.go:41-44 | more audio never makes a due word undue, and a later word is never due before an earlier one |
| Mock.EmittedFrom | backend_mock.go:44-54 | words are emitted in order while the next one is due, at most 17 of them, stopping at the first word not due |
| Mock.EmittedIffDue | backend_mock.go:41-54 | word `k` has been emitted exactly when `totalBytes > (k+1)*sampleRate` (for a positive rate) |
| Mock.EmittedMonotone | backend_mock.go:40-54 | more audio never takes back a word |
| Mock.EmitDue | backend_mock.go:44-54 | the inner loop emits exactly the words from `wordIdx` up to the emitted count for the bytes so far |
| Mock.Transcribe | backend_mock.go:21-65 | the words relayed are the first `Emitted(total bytes)` words, in list order, each once; after the 17th the rest is drained; the error is nil |
| Mock.DrainedLen | backend_mock.go:56-62 | once every word is out, the rest of the input changes nothing |
| Mock.MockPacing | backend_mock.go:41-44 | at 16 kHz, 16000 bytes emit no word, 16001 bytes emit one, and 272001 bytes emit all 17 |
| Audio.NewRecorder | audio.go:21-29 | the chunk size is even (whole samples) and is twice the truncated `SampleRate*ChunkMs/1000` |
| Audio.DefaultChunk | audio.go:23-26 | at 16000 Hz and 480 ms a chunk is 15360 bytes |
| Audio.IntRoundTrip | audio.go:83 | the decimal rate written by `%d` reads back as the rate |
| Audio.BuildArgs | audio.go:77-107 | pw-record gets 5 arguments and arecord 11, plus the device ones; element 0 is the program name and the last is `-` |
| Audio.DeviceOnlyInserts | audio.go:87-105 | a device inserts `--target=<dev>` or `-D <dev>` at index 1, and removing it gives the list without a device, element for element |
| Audio.RateArgument | audio.go:79-102 | the rate argument is at its fixed place and reads back as the sample rate |
| Audio.DefaultPwRecordArgs | audio.go:79-86 | at 16000 Hz with no device the pw-record list is `pw-record --format=s16 --rate=16000 --channels=1 -` |
| Audio.DefaultArecordArgs | audio.go:94-106 | at 16000 Hz with device `hw:1` and no pw-record, the list is `arecord -D hw:1 -f S16_LE -r 16000 -c 1 -t raw -q -` |
| Backends.NewBackend | backend.go:15-49 | an unknown name, and only that, gives an error naming it; a missing API key fails exactly for the two Mistral backends |
| Backends.EachNameItsVariant | backend.go:16-45 | each of the five names gets its own kind of backend, built for the configured sample rate |
| Backends.RealtimeUrl | backend.go:17-23 | the realtime URL is the fixed prefix followed by the configured model, with the resolved key |
| Backends.BatchIgnoresModel | backend.go:24-30 | mistral-batch always uses `voxtral-mini-latest` and 5 s batches, whatever model is configured |
| Backends.LocalBackends | backend.go:31-43 | vllm-realtime gets the configured URL and an empty key; llamacpp gets the configured batch length, defaulted |
| TestDriver.TestChunkBytes | test.go:30 | the chunk size is `SampleRate*2*ChunkMs/1000`, truncated |
| TestDriver.TestChunkCanBeOdd | test.go:30 | the test chunk size can be odd: 441 bytes at 22050 Hz and 10 ms, where the recorder uses 440; at the defaults they agree |
| TestDriver.SplitChunks | test.go:34-44 | empty data gives no chunks; a zero size never ends; a negative size panics; a positive size gives exactly `ChunksOf` |
| TestDriver.ChunksCoverData | test.go:34-41 | the chunks concatenated are the data |
| TestDriver.ChunkSizes | test.go:34-41 | no chunk is empty and all but the last have exactly `chunkBytes` bytes |
| TestDriver.ChunkCount | test.go:34 | there are `ceil(len/chunkBytes)` chunks, so none for empty data |
| TestDriver.ChunkAt | test.go:35-40 | chunk `j` is the slice `[j*chunkBytes, min((j+1)*chunkBytes, len))` |

## Left out

- Goroutines, channels, `select`, the mutex and cancellation timing. Every component is sequential. Channels are sequences and cancellation is the end of a sequence. Races between the relay writer and a reader are interleavings of `Relay.Event`.
- `rmsEnergy`'s mean, square root and float threshold comparison are not modelled. Loudness is an abstract predicate on chunks. Only the integer sum of squares is modelled.
- The mock's `audioSec` float division is read in exact arithmetic (`Mock.Due`). This includes the +Inf or NaN that a zero sample rate gives, and the never-due case of a negative rate.
- Time is not modelled: backoff waits are returned as durations and never slept; the mock's 50 ms pause and the test driver's pacing and timeout are left out.
- backend_ws.go (the WebSocket client) is not part of this model. `NewBackend` only records the arguments the WebSocket backend is built with.
- HTTP, JSON, base64 and multipart encoding are not modelled. A server is a function from the WAV bytes sent to the decoded reply, and `None` stands for every failure that `sendChunk` only logs.
- typist.go, indicator.go, config.go, main.go and mock_server.go are not part of this model. The typist is the sequence of fragments it receives. Log lines and stderr output are dropped.
- `Recorder.Start` (the capture subprocess and its pipe) is not modelled. `exec.LookPath` becomes the `pwRecord` parameter of `Audio.BuildArgs`.
- Control.ParseCommand: bytes are modelled as characters, and the connection's single read as the string it returned. Read errors are the empty read.
- Backends.NewBackend: the error message's `%q` quoting is not modelled; the error carries the name. `mustGetMistralAPIKey`'s `os.Exit(1)` is a `MissingApiKey` failure carrying the message it prints.
- Vad.Segmenter.StartBurst: the 16-slot burst channel and `startBurst`'s cancellation branch are not modelled. A burst is a sequence that is always accepted.
- Retry.HandleBurst: an attempt is given by what it relayed and how the loop saw it end, not by a backend run. The relay buffer between the burst and the attempts is modelled separately, in `Relay`.
- Control.Daemon.HandleConn: `toggle` is one atomic step here, but in the code it is two: the flag is read under the lock and acted on after the lock is released (daemon.go:87-100). `Controllable` is therefore proved only for connections handled one at a time. The race between two toggles is exhibited separately, in `Control.RacingTogglesLoseSession`.
- Vad.Segment: a negative `pre_buffer_chunks` makes `make` panic when the segmenter starts (vad.go:60). The type of `Vad.VadConfig`'s `preBufferN`, a `nat`, excludes that case.
- TestDriver.SplitChunks: a zero chunk size is reported as `NeverEnds` rather than modelled as a loop that does not terminate.

## Findings

| source | as written | input that shows it | evidently intended | confidence | as-written member | corrected member |
|---|---|---|---|---|---|---|
| vad.go:61-72 | `pushRing` stores into `ring[ringPos]` of a ring of `PreBufferN` slots | `PreBufferN = 0` and one quiet chunk while silent: index 0 of an empty slice panics | with no pre-buffer, quiet chunks are simply not kept | not executed | Vad.Segmenter.PushRingAsWritten | Vad.Segmenter.PushRing |
| daemon.go:139-146 | a session's deferred cleanup clears `active` and `cancel` whichever session they belong to | toggle, toggle, toggle before the first session's recorder has exited: the first session's cleanup clears the second's cancel function, so the second keeps recording and typing while `status` says idle and no toggle can stop it | a session clears the flag and the cancel function only while they are still its own | not executed | Control.StaleEndLosesSession | Control.Daemon.SessionEnded |
| daemon.go:86-100 | `toggle` reads `active` under the lock, releases it, and only then stops or starts a session, and `startDictation` does not look at the flag again | two `toggle` connections on an idle daemon that both read the flag before either acts: both start a session, the second overwrites the first's cancel function, and the first keeps recording and typing with nothing left to stop it | the flag is read and acted on under one lock, so a toggle either stops the current session or starts the only one | not executed | Control.RacingTogglesLoseSession | Control.HandleSpec |
