# VidSnap: a verified model

VidSnap turns a local video into a grounded, audited answer. A kernel drives one of three policies
against a model, tools, a verifier and a clock, keeps every budget, and writes a ledger of what it
did; readers later reconstruct durations and counts from that ledger. Around the kernel sit several
algorithms that must be exact: cutting WAV audio, decoding PNG screenshots, edit distance, plugin
resolution, frame selection, motion windows, removal-only editing, question matching and the
append-only run index.

This project models those parts and proves what they promise. `dafny verify dfyconfig.toml` checks
all of it.

## How it is organised

- `Contracts`, `Characters`, `EvidenceIds`, `Verifier`: the values a run works on, and the verdict on an output.
- `Ledger`, `LedgerShape`, `TraceRecorder`: the append-only bundle, and the spans recorded in it. One
  pass over a ledger (`AuditOf`) gives its span state and everything countable in it.
- `RunContext`, `Environment`, `Tools`, `Kernel`, `Policies`, `Run`: a run. The environment answers
  every question with an arbitrary value or exception, so each theorem holds over all runs.
- `TraceReader`, `EventText`, `RunIndex`, `CompletedRuns`: what the readers recover from a ledger.
- `Plugins`, `PluginRegistries`, `Sampling`, `Sorting`: plugin resolution and frame selection.
- `Wav`, `Png`, `Bytes`, `Multiples`: the byte codecs.
- `Levenshtein`, `Questions`, `Editorial`, `MotionWindowing`, `IndexFiles`: the remaining algorithms.

Seconds, scores and rates are exact reals; milliseconds, bytes and tokens are integers. Loops and
objects that change state keep that form, and each is proved against a function or predicate whose
own properties are the theorems.

## Where the code differs from what one might expect

- A run is finalized exactly when no exception outside the kernel's handlers was raised. A
  `KeyboardInterrupt`, a `SystemExit`, or a cancellation out of the result writer passes through and
  leaves the bundle open (`Runs.Run`).
- An agentic model call is counted before its request is built, and building it generates the JSON
  schemas of every visible tool and of the output, which nothing catches. A tool whose schema cannot be
  generated passes registration; the run then ends uncleanly with one model call that neither the
  ledger nor any budget snapshot shows (`CompletedRuns.CountsAgreeIff`, `CompletedRuns.UndescribedRequest`,
  `CompletedRuns.UndescribedRun`).
- In a fixed run on a video analysis, the verifier's targeted windows never survive the policy's
  filter, so a repair round samples the whole range again (`Policies.RepairNeverTargets`). If the
  round before added no frame, that call would repeat an earlier one: it is refused, as a duplicate
  unless a budget refuses the round first (`Policies.Gather`), and the run ends failed or exhausted
  (`Runs.Settle`).
- A task of another kind may target windows outside the media; the sampling call of a fixed
  run's repair, once admitted, is rejected by the tool exactly when a window that survives the filter
  leaves the duration (`Policies.Gather`, `Policies.ExecuteFixed`).
- A WAV file whose byte rate, or whose first piece's size, does not fit in 32 bits makes header
  packing raise instead of giving a provider error (`Wav.SplitRefusals`, `Wav.OverflowInput`).
- A PNG whose last row is up to one pixel short still decodes, with fewer bytes, when that row's
  filter leaves it alone (`Png.RowsReadIff`, `Png.ShortRowInput`).
- `motion_windows` gives an inverted window for a high-motion candidate more than half a second past
  the end (`MotionWindowing.MotionWellFormedIff`, `MotionWindowing.InvertedInput`). Its only caller
  clamps candidates to the duration (src/vidsnap/video/probe.py:491-494 and 518-522), so the program does
  not reach it.
- A span whose base type leaves room for `started` but not for `completed` in an event type of 128
  characters can be opened; closing it as completed is rejected, yet counts as finishing it
  (`TraceRecording.TraceRecorder.Finish`, `Ledger.LongBaseInput`). The kernel's own base types are short.
- `read_index` counts a line as invalid only for a JSON decode error. A line nested too deep for the
  library, or holding an integer of more digits than Python converts, raises something else: then no
  record can be read, and appending does not mend it (`IndexFiles.ReadRaisesIff`,
  `IndexFiles.AppendReadsBackIff`, `IndexFiles.NestedLineRaises`).
- An index record without a run id is appended but counted as invalid when read
  (`IndexFiles.AppendReadsBackIff`, `IndexFiles.NamelessRecordIsLost`).
- First-fit question matching can find half of the pairs a best matching has, and no less
  (`Questions.HalfIsReached`, `Questions.MaximalIsHalf`).

## Model

| member | source | states |
|---|---|---|
| `Runs.Run` | src/vidsnap/runtime/kernel.py:85-169 | For every policy, plugin set and environment the run returns if and only if no exception it does not catch was raised. A returned run is concluded: bundle and ledger are closed with the returned state, every counter is within its policy limit and equals the ledger's own count but for a model call whose request could not be built, a clean state is true of the output, evidence and verdict on record (and a successful analysis grounded, its output kept), and any other state names the except clause behind it. It is explained: a run exhausted by a call, iteration or frame budget has that counter at its policy limit, or its frames at or over the cap, and an agentic run that counted no model call had nothing probed, no time, no call or no model left for its first request. It is conducted: an unbuilt request exists at most once, only in an agentic run that then does not end cleanly, every other counted call reached the model, and a fixed run with the built-in tools stayed within their bounds |
| `Runs.Settle` | src/vidsnap/runtime/kernel.py:103-169 | The run span closes and the bundle is finalized with exactly the state the except clauses give: a budget ends the run as exhausted, an unavailable provider as blocked, anything else as failed, unless the output could not be kept, which fails it |
| `Runs.EndingFits` | src/vidsnap/runtime/kernel.py:106-144 | A returned state is exhausted if and only if a budget ended the run and the output was kept, and blocked if and only if a provider was unavailable and it was kept |
| `Runs.Persist` | src/vidsnap/runtime/kernel.py:138-144 | A failing writer turns any end into a failure and keeps an earlier reason; with no output or no writer nothing is written and nothing changes |
| `Runs.SucceededIsGrounded` | src/vidsnap/runtime/kernel.py:444-464 | Success at video analysis means claims exist and every reference resolves to uniquely identified evidence inside the duration, with every required section covered |
| `CompletedRuns.ReturnedRunReads` | src/vidsnap/trace/run_index.py:434-453 | After any returned run the index's request count and the last budget snapshot each fall short of the kernel's model calls by exactly the requests that could not be built; tool-start events equal the tool calls, snapshots never fall, and the reader recovers the recorded items and the run's duration |
| `CompletedRuns.CountsAgreeIff` | src/vidsnap/runtime/kernel.py:377-391 | The recomputed request count is the kernel's if and only if every request was built: always in a fixed or direct run, and in an agentic run with steady schemas exactly when all of them can be generated or no request was due |
| `CompletedRuns.UndescribedResolves` | src/vidsnap/plugins/registry.py:75-97 | A registry accepts and resolves a visible tool whose input schema can never be generated |
| `CompletedRuns.UndescribedRequest` | src/vidsnap/runtime/kernel.py:359-390 | With such a tool, a model, a probe and a call left, a started run's decision request is refused by the wall clock, or counts one call whose request cannot be built, with nothing in the ledger |
| `CompletedRuns.UndescribedRun` | src/vidsnap/runtime/kernel.py:377-391 | An agentic run over that registry never asks a model, never ends cleanly and leaves no model call in the ledger; it counts exactly one whenever a model is configured, the media was probed, the policy grants a call and the wall clock did not end it |
| `CompletedRuns.BudgetsNeverFall` | src/vidsnap/runtime/kernel.py:540-553 | Every budget snapshot is at most every later one, position by position |
| `CompletedRuns.ToolStartsCounted` | src/vidsnap/runtime/kernel.py:272-281 | The audited number of tool starts is the number of positions that hold one |
| `Policies.ExecuteFixed` | src/vidsnap/runtime/policies.py:46-72 | The fixed policy ends whatever is answered. A run that ends on its own made one sampling call and one model call in each iteration (no model call on a no-op's), one transcription if there is audio, and one repair between two iterations, and is partial only when repairs or iterations are used up. With the built-in tools frames never exceed the cap, every sampling call is well formed and inside the media, no argument or overflow error occurs, a duplicate-call refusal follows only a sampling round that added no frame, and a call escapes the media only when a kept window of the last, failed verdict does, which for a video analysis never happens |
| `Policies.Gather` | src/vidsnap/runtime/policies.py:74-94 | One acquisition round counts one iteration, one sampling call and, in the first round with audio, one transcription; it keeps the frame cap, the bounds of the arguments and the record of what the last round added. An admitted call escapes if and only if a kept window leaves the media, and after a round that added no frame a video analysis's round is refused, as a duplicate or by a budget, without a call |
| `Policies.Sample` | src/vidsnap/runtime/policies.py:85-94 | One sampling call: with the built-in tools its arguments are accepted, frames stay within the cap, it escapes if and only if it is admitted and a kept window leaves the media, and it is refused as a repetition only if the last sampling round added no frame |
| `Policies.Transcribe` | src/vidsnap/runtime/policies.py:83-84 | The first round's transcription adds no frame and only transcripts of the whole range, and no error about its arguments occurs |
| `Policies.RepairNeverTargets` | src/vidsnap/loop/verifier.py:37-46 | Around evidence the built-in tools collect, no window the verifier targets is positive, so none survives the policy's filter: a fixed repair round always samples the whole range again |
| `Policies.ValidOnlyAccepted` | src/vidsnap/runtime/policies.py:97-103 | Whatever windows are targeted, those kept are at most three and acceptable to the sampling schema |
| `Policies.Produce` | src/vidsnap/runtime/policies.py:58-63 | A round that gathers and synthesizes either leaves an output to judge after exactly one model call, or ends the run as a no-op without one |
| `Policies.ExecuteDirect` | src/vidsnap/runtime/policies.py:106-124 | The direct policy ends with a true terminal state; all its evidence is the uncapped baseline with a registered subtitle last, and it makes exactly one model call unless it is a no-op |
| `Policies.ExecuteAgentic` | src/vidsnap/runtime/policies.py:127-163 | The agentic loop ends whatever the model decides, absorbs at most one decision-format error, is partial only when no repair is left, and sets a true terminal state |
| `Policies.JudgeOrRepair` | src/vidsnap/runtime/policies.py:58-72 | A passed verdict ends the run as succeeded; a failed one ends it as partial exactly when no repair is available, and otherwise exactly one repair round is recorded and its feedback returned |
| `Policies.RunCalls` | src/vidsnap/runtime/policies.py:153-157 | A decision's tool calls are made in order until one raises: the results on record name them in order, and each is counted |
| `Policies.AgentStep` | src/vidsnap/runtime/policies.py:135-163 | One decision step: a rejected output is discarded and its feedback kept for the next request, tool calls leave the output alone, and only the first badly formatted decision is tolerated |
| `Kernels.HarnessKernel.RunProbe` | src/vidsnap/runtime/kernel.py:171-202 | A probe either fills in the media facts and closes its span as completed, or leaves the context as it was with the span, if opened, closed as failed |
| `Kernels.HarnessKernel.RunTool` | src/vidsnap/runtime/kernel.py:245-316 | A refused call leaves no mark on evidence, counters, fingerprints, results or ledger; an admitted one is counted and remembered whatever its outcome, its arguments were new and valid, its span closes with what the tool reported or as failed, and its frames are within the cap or it is reported as an overflow |
| `Kernels.HarnessKernel.AdmitCall` | src/vidsnap/runtime/kernel.py:251-268 | A call is admitted only with a resolved tool and new, valid arguments inside the tool-call budget; it is refused for the first of these that fails, by the wall clock, or by whatever another author's input model raises |
| `Kernels.SettledRan` | src/vidsnap/runtime/kernel.py:283-303 | The frame cap is checked after every completed call, so an accepted result never leaves more frames than the cap |
| `Kernels.HarnessKernel.SettleCall` | src/vidsnap/runtime/kernel.py:283-316 | The tool span closes as failed on an exception or overflow and with the tool's own status otherwise, only an accepted answer is kept as a result, and the counters are recorded next |
| `Kernels.HarnessKernel.Synthesize` | src/vidsnap/runtime/kernel.py:318-357 | Without evidence a probed run is a no-op and no model is asked. Otherwise the model is asked exactly once when, at the clock reading taken, something was probed, time is left and the counter is below its limit; a refusal names the first check that fails and leaves no mark, the call's span closes as completed or failed, and the output is set only on success |
| `Kernels.HarnessKernel.RequestAgentDecision` | src/vidsnap/runtime/kernel.py:359-433 | A call is counted exactly when, at the clock reading taken, something was probed, time is left, the counter is below its limit and a model is configured; otherwise the first check that fails is the exception. It is counted before its request is built, and when that raises nothing reaches the model or the ledger. Otherwise the request is made once, the span's status says whether a decision came back, feedback is consumed by exactly one successful request, and a format error is recorded as one |
| `Kernels.HarnessKernel.BuildRequest` | src/vidsnap/runtime/kernel.py:378-390 | Building a request asks every visible tool and then the task for a schema: it succeeds when all can be generated and raises when one never can |
| `Kernels.HarnessKernel.AcceptAgentFinal` | src/vidsnap/runtime/kernel.py:435-442 | A final answer is accepted exactly when the task's schema parses it; otherwise whatever ordinary exception the task raises passes through and changes nothing |
| `Kernels.HarnessKernel.Verify` | src/vidsnap/runtime/kernel.py:444-464 | The recorded verdict is the task's verdict on the current output and evidence; a raising verifier records nothing |
| `Kernels.HarnessKernel.RecordIteration` | src/vidsnap/runtime/kernel.py:466-472 | At the clock reading it took, an iteration is counted, with a budget snapshot, exactly when time is left and the counter is below its limit; otherwise the check that fails is the exception |
| `Kernels.HarnessKernel.EnsureFrameHeadroom` | src/vidsnap/runtime/kernel.py:474-478 | It passes if and only if the wall clock does and frames are below the cap |
| `Kernels.HarnessKernel.RemainingFrames` | src/vidsnap/runtime/kernel.py:480-482 | The remaining budget and the frames held add up to the cap unless the cap is already exceeded |
| `Kernels.HarnessKernel.RecordRepair` | src/vidsnap/runtime/kernel.py:491-506 | A repair round is counted and recorded once, with the failed gates and targeted windows of the verdict, or refused by the wall clock |
| `Kernels.HarnessKernel.PrepareDirectBaseline` | src/vidsnap/runtime/kernel.py:204-243 | The baseline adds one frame for each timeline frame at its own time, then a registered subtitle over the whole range; its frames are counted in the snapshot it records, and nothing caps them |
| `Kernels.HarnessKernel.DepositBaseline` | src/vidsnap/runtime/kernel.py:215-237 | Frames are stored in the timeline's order at their own times, then the subtitle if one is registered, or an exception stops it with what was stored so far kept |
| `Kernels.EmitBudget` | src/vidsnap/runtime/kernel.py:540-553 | A snapshot of the four counters is appended and nothing else in the audit moves |
| `Kernels.CloseSpan` | src/vidsnap/runtime/kernel.py:273-303 | Closing the open span leaves the run span alone open, records base and status, and counts a finished model request |
| `Kernels.HarnessKernel.EnforceWall` | src/vidsnap/runtime/kernel.py:569-574 | At the clock reading it took, it raises if and only if the run has not started or has outlived its seconds |
| `RunContexts.RunContext.NextId` | src/vidsnap/runtime/context.py:73-79 | Each allocated id was never allocated before |
| `RunContexts.RunContext.Add` | src/vidsnap/runtime/context.py:81-98 | An item is added exactly when its id was allocated, is unused and its artifact exists; then it is stored and recorded once, and otherwise nothing changes |
| `RunContexts.AllocatedIsFileName` | src/vidsnap/runtime/context.py:73-98 | Every allocated id is usable as a file name, so storing it cannot be refused |
| `EvidenceIds.FormatIdInjective` | src/vidsnap/runtime/context.py:73-79 | Zero-padded ids of different prefixes or numbers differ, for numbers of any length |
| `Verifier.VerifyClaimsExact` | src/vidsnap/loop/verifier.py:19-78 | The verdict passes if and only if the duration is non-negative, the summary is not blank, ids are distinct, evidence is in bounds, claims exist and every reference resolves, and every required section is covered |
| `Verifier.TargetedWindowsExact` | src/vidsnap/loop/verifier.py:37-46 | The windows targeted for resampling are exactly the clamped ranges of the out-of-bounds evidence, each listed once |
| `Verifier.FailedGatesMembers` | src/vidsnap/loop/verifier.py:28-78 | A gate is reported failed exactly when one of its checks fails |
| `Ledger.RunBundle.AppendEvent` | src/vidsnap/loop/run_bundle.py:163-204 | A finalized bundle refuses and changes nothing; otherwise the next sequence number is used and the event is appended with it, its phase stripped, exactly when its phase and type have an accepted length and its times are not negative |
| `Ledger.ToolNamePlain` | src/vidsnap/contracts/agent.py:12-16 | Every tool name the decision schema lets through is a phase the event schema accepts unchanged |
| `Ledger.RunBundle.WriteEvidence` | src/vidsnap/loop/run_bundle.py:206-213 | Evidence is stored under its id exactly when the bundle is open and the id is its own last path component |
| `Ledger.RunBundle.Finalize` | src/vidsnap/loop/run_bundle.py:222-230 | A bundle is finalized once; a second attempt is refused and keeps the recorded state |
| `LedgerShape.ClosedLedger` | src/vidsnap/runtime/kernel.py:97-162 | A closed ledger is numbered 1 to n, is opened and closed by its one run span, and every inner span is closed before anything but evidence is recorded |
| `LedgerShape.ClosedOnce` | src/vidsnap/loop/trace_recorder.py:82-111 | The event that closes a span is unique |
| `LedgerShape.SpanStateMeaning` | src/vidsnap/runtime/kernel.py:171-202 | The audit's span state describes the positions of the ledger, for every sequence of events |
| `Ledger.PairingMeaning` | src/vidsnap/loop/trace_recorder.py:43-111 | A ledger the recorder kept is paired position by position: ids appear on span events only, each is opened once and closed at most once, and a close measures its own start |
| `TraceRecording.TraceRecorder.Start` | src/vidsnap/loop/trace_recorder.py:43-80 | A start event opens a new span under an unused id exactly when the base type matches the pattern, which also lets one final line feed through, the bundle is open and the event acceptable; otherwise nothing is recorded |
| `TraceRecording.TraceRecorder.Finish` | src/vidsnap/loop/trace_recorder.py:82-111 | Any span is finished at most once, by an event with the difference of the two offsets, exactly when that is not negative and the event acceptable; for this recorder's own spans it never is negative, and the ledger stays paired |
| `Ledger.LongBaseInput` | src/vidsnap/loop/trace_recorder.py:82-110 | For a base type of 119 characters the started event fits the event schema and the completed one does not |
| `TraceRecording.TraceRecorder.CurrentOffsetMs` | src/vidsnap/loop/trace_recorder.py:113-117 | The first offset is zero and later ones never decrease, rounding half to even |
| `TraceRecording.RoundMonotone` | src/vidsnap/loop/trace_recorder.py:113-117 | Rounding to whole milliseconds keeps the order of times |
| `TraceReading.ReadStepEvents` | src/vidsnap/trace/reader.py:101-168 | The reading loop computes the fold its theorems are about |
| `TraceReading.ReadingUndoesRecording` | src/vidsnap/trace/reader.py:101-168 | For any recorded ledger, spans interleaved in any way, the reader pairs each close with its own start and yields item for item what was recorded, durations included |
| `TraceReading.RunDurationRead` | src/vidsnap/trace/reader.py:101-168 | When the last event closes the run span, the reported run duration is that event's |
| `TraceReading.UsageIsSum` | src/vidsnap/trace/reader.py:105-112 | The usage total is the sum over every event that carries usage, and is reported only if all of those are |
| `EventText.BaseTypeOfSpan` | src/vidsnap/trace/reader.py:563-565 | Cutting a span event's type at its last dot recovers the base it was recorded under |
| `EventText.LaneIgnoresStatus` | src/vidsnap/trace/reader.py:556-560 | A span's start and close fall in the same lane |
| `RunIndexing.RecomputeUsage` | src/vidsnap/trace/run_index.py:434-453 | The counting loop computes the fold its theorems are about |
| `RunIndexing.LastBudget` | src/vidsnap/trace/run_index.py:383-387 | Reading backwards finds the last snapshot of the ledger |
| `RunIndexing.IndexedExact` | src/vidsnap/trace/run_index.py:434-453 | Among the kernel's own events the index counts exactly the completed and failed model requests |
| `RunIndexing.IndexAgrees` | src/vidsnap/trace/run_index.py:434-453 | So its request count is the ledger's |
| `Plugins.DefaultPluginsHaveBuiltins` | src/vidsnap/runtime/policies.py:36-43 | The default registry's tool names resolve to the built-in tools |
| `Tools.SampleEvidence` | src/vidsnap/plugins/builtin/sample_evidence.py:33-78 | A call raises for a window outside the duration if and only if there is one, before any frame is taken. Otherwise every frame added lies in a requested window, in time order, is allocated and recorded; a completed call adds and reports the lesser of its limit and the distinct hashes among the requested candidates |
| `Tools.SelectRequested` | src/vidsnap/plugins/builtin/sample_evidence.py:40-53 | The frames extracted for a selection lie in the requested windows, in time order, one per distinct hash up to the limit, and none is selected only if no candidate is requested |
| `Environments.FramesOrdered` | src/vidsnap/video/probe.py:280-309 | The media port's frames are those of the selected candidates in some order, one for each at its own time, and in time order |
| `Tools.TranscribeAudio` | src/vidsnap/plugins/builtin/transcribe_audio.py:57-113 | The k-th transcript added is that of the k-th requested window, or of the whole range, each allocated and recorded; a completed call covers every window and a skipped one adds nothing |
| `Tools.RunCustomTool` | src/vidsnap/runtime/context.py:81-98 | Whatever another tool asks of the evidence sink, in any order, evidence stays sound and every addition is recorded |
| `Sampling.KeepEndsAndStrongest` | src/vidsnap/video/sampling.py:154-163 | Beyond the two ends, the strongest of the rest are kept |
| `Sampling.Select` | src/vidsnap/video/sampling.py:138-163 | The result has as many frames as the limit and the distinct hashes allow, hashes are distinct, order is by time, each frame is the best for its hash, both ends survive a limit of two or more, and no dropped frame outranks a kept interior one |
| `Sampling.Deduplicate` | src/vidsnap/video/sampling.py:165-171 | One frame per hash, the best of its hash, and every hash is represented |
| `Sampling.InteriorRanked` | src/vidsnap/video/sampling.py:156-161 | The ranked interior holds every frame between the two ends, each hash once, best first |
| `Wav.ParsePcmWav` | src/vidsnap/providers/asr.py:61-102 | The chunk walk computes the recursive walk its theorems are about, with every rejection |
| `Wav.ParseMeans` | src/vidsnap/providers/asr.py:61-102 | A file is accepted, with a given format and audio region, if and only if it is a RIFF/WAVE file that consists of acceptable leading chunks, then a data chunk there; the last format chunk decides, and an unknown or overlong size is clamped to the end |
| `Wav.ParsedLocates` | src/vidsnap/providers/asr.py:83-100 | An accepted region lies in the file and its format has whole-byte frames |
| `Wav.MaxPayload` | src/vidsnap/providers/asr.py:107-111 | The piece size is the largest whole number of frames that fits a file with header and pad byte, or no frame fits |
| `Wav.SplitPcmWav` | src/vidsnap/providers/asr.py:105-122 | For the largest payload that fits, the cutting loop yields exactly the standalone files of the successive slices, or the refusal that applies |
| `Wav.StandaloneReparses` | src/vidsnap/providers/asr.py:125-142 | A written file parses back to the same format with exactly its PCM bytes at [44, 44 + n) |
| `Wav.SplitIsLossless` | src/vidsnap/providers/asr.py:105-142 | Every piece is within the limit and parses back to the input's format; all but the last carry the full payload, and their audio joins to exactly the input's whole frames, in order |
| `Wav.SplitIsMinimal` | src/vidsnap/providers/asr.py:105-122 | No frame-aligned division into files under the limit has fewer pieces |
| `Wav.SplitRefusals` | src/vidsnap/providers/asr.py:105-142 | A split is refused if and only if not one frame fits, or there is audio and the byte rate or the first piece's size does not fit in 32 bits |
| `Wav.OverflowInput` | src/vidsnap/providers/asr.py:125-142 | There is a readable PCM file whose split raises because its byte rate needs more than 32 bits |
| `Wav.Encode` | src/vidsnap/providers/asr.py:164-188 | What is sent: nothing for no audio, the file whole when it fits or is not WAV, the pieces otherwise, and each refusal exactly where the code raises |
| `Levenshtein.EditDistance` | src/vidsnap/eval/text.py:91-105 | The two-row loop returns the length of a shortest insert, delete and substitute script: one of that length exists and none is shorter |
| `Levenshtein.DistanceIsShortest` | src/vidsnap/eval/text.py:91-105 | The recurrence is the shortest script length, for every pair of sequences |
| `Levenshtein.TriangleInequality` | src/vidsnap/eval/text.py:91-105 | Two scripts compose into one that costs no more than both |
| `Levenshtein.DistanceSymmetric` | src/vidsnap/eval/text.py:91-105 | The distance is symmetric |
| `Levenshtein.ZeroIffEqual` | src/vidsnap/eval/text.py:91-105 | The distance is zero exactly for equal sequences |
| `Levenshtein.DistanceBounds` | src/vidsnap/eval/text.py:91-105 | The distance lies between the difference of the lengths and the longer length |
| `Levenshtein.ErrorRate` | src/vidsnap/eval/text.py:108-120 | No rate without reference tokens; otherwise the shortest script length over the aligned reference's length, zero exactly when the aligned tokens agree, and the flag says whether either side was cut |
| `Png.UnfilterLine` | src/vidsnap/eval/render.py:388-410 | Reversing one line's filter in place gives the reconstructed line, and raises exactly when a short line is indexed past its end |
| `Png.FilterRoundTrip` | src/vidsnap/eval/render.py:393-409 | Reconstruction undoes every filter type of RFC 2083 section 6, first pixel and first row included |
| `Png.RestoreRoundTrip` | src/vidsnap/eval/render.py:393-409 | Filtering a reconstructed line gives the filtered line back, so the two are inverse bijections |
| `Png.PaethNearest` | src/vidsnap/eval/render.py:404-408 | The predictor is the neighbour nearest the linear estimate, ties going to left, then up |
| `Png.AloneIsSame` | src/vidsnap/eval/render.py:393-409 | Type 0 and unknown types leave a line as it is |
| `Png.DecodeRows` | src/vidsnap/eval/render.py:383-411 | The row loop computes the recursion its theorems are about |
| `Png.RowsRoundTrip` | src/vidsnap/eval/render.py:383-411 | For any pixel rows and any filter type per row, decoding the filtered stream returns the rows exactly |
| `Png.RowsReadIff` | src/vidsnap/eval/render.py:387-411 | Decoding raises if and only if the stream is too short, where a last line that its filter leaves alone may lack up to one pixel |
| `Png.ShortRowInput` | src/vidsnap/eval/render.py:387-411 | A second row of which only an unfiltered type byte is left decodes to nothing, and a filtered one raises |
| `Png.PngPixels` | src/vidsnap/eval/render.py:366-411 | The chunk walk and checks compute the decoder its theorems are about, errors included |
| `Png.DecodeUndoesEncode` | src/vidsnap/eval/render.py:366-411 | A file of any chunks whose joined image data inflates to an image's filtered rows decodes to exactly that image |
| `Png.ScanGathers` | src/vidsnap/eval/render.py:369-380 | The walk gathers the last header and all image data joined, and stops at the end chunk |
| `PluginRegistries.PluginRegistry.Register` | src/vidsnap/plugins/registry.py:20-29 | Exactly the unresolved registry accepts an allow-listed plugin under a new id; a refusal changes nothing |
| `PluginRegistries.PluginRegistry.Resolve` | src/vidsnap/plugins/registry.py:31-60 | It succeeds if and only if every check passes and some order meets every dependency; the first failing check names the refusal, and a resolved registry returns the same list again |
| `PluginRegistries.ResolveLayers` | src/vidsnap/plugins/registry.py:39-60 | The layered loop returns the plugins ordered by dependency depth and id, each need offered strictly earlier, or no dependency order exists at all |
| `PluginRegistries.ResolvesUnique` | src/vidsnap/plugins/registry.py:31-60 | A set of plugins has one resolution, however it was registered |
| `PluginRegistries.ChainWithinDepth` | src/vidsnap/plugins/registry.py:42-58 | No dependency chain is longer than the depth of the plugin it ends at |
| `PluginRegistries.ChainReachesDepth` | src/vidsnap/plugins/registry.py:42-58 | Some chain is as long as that depth |
| `PluginRegistries.CheckToolProtocolConformance` | src/vidsnap/plugins/registry.py:90-97 | Every declared tool satisfies the tool protocol |
| `PluginRegistries.CapabilityProviders` | src/vidsnap/plugins/registry.py:99-109 | Providers are found exactly when no capability is offered twice, even by one plugin, and each capability is mapped to a plugin that offers it |
| `PluginRegistries.CheckRequirements` | src/vidsnap/plugins/registry.py:111-117 | Every required capability is offered by some plugin |
| `PluginRegistries.CheckToolNames` | src/vidsnap/plugins/registry.py:119-132 | No two visible tools share a name |
| `PluginRegistries.PluginRegistry.ToolNamed` | src/vidsnap/plugins/registry.py:62-73 | In a resolved registry a name finds the one visible tool that has it, if any |
| `IndexFiles.IndexFile.AppendIndexRecord` | src/vidsnap/trace/run_index.py:150-171 | Whatever bytes the file holds, an append adds the record on a line of its own: reading then gives what was readable before and the record, or raises exactly if it raised before |
| `IndexFiles.IndexFile.ReadIndex` | src/vidsnap/trace/run_index.py:174-209 | The reading loop gives the records and the number of invalid lines, or raises, as the function its theorems are about |
| `IndexFiles.AppendIsExact` | src/vidsnap/trace/run_index.py:150-209 | For any existing bytes, reading after an append is reading before it and then the record; a file that cannot be read stays so |
| `IndexFiles.ReadRaisesIff` | src/vidsnap/trace/run_index.py:186-198 | Reading raises if and only if some line that is not blank and holds no replacement character makes the JSON library fail other than by a decode error |
| `IndexFiles.AppendReadsBackIff` | src/vidsnap/trace/run_index.py:200-208 | A file that raises before an append raises after it, and only then. The appended record is read back, after all earlier ones, if and only if the file could be read and the record's schema and kind are current and it has a run id |
| `IndexFiles.NestedLineRaises` | src/vidsnap/trace/run_index.py:190-198 | With one line nested too deep for the library, reading raises before any append and after every series of appends |
| `IndexFiles.NamelessRecordIsLost` | src/vidsnap/trace/run_index.py:200-208 | A record without a run id, appended to an empty index, reads back as one invalid line |
| `IndexFiles.CutAppendLosesNothing` | src/vidsnap/trace/run_index.py:150-209 | An append cut at any byte loses no record of a file that can be read, costs at most one invalid line, and raises exactly if the file did before |
| `IndexFiles.AppendAfterCut` | src/vidsnap/trace/run_index.py:150-209 | The next append after a cut one is exact, over a file that can be read or not |
| `IndexFiles.IndexRoundTrip` | src/vidsnap/trace/run_index.py:150-209 | An index written by appends alone reads back as its records, in order |
| `IndexFiles.FaithfulCodecExists` | src/vidsnap/trace/run_index.py:161-203 | Some codec renders every record as printable ASCII, reads it back, finds it malformed when cut short and fails on deep nesting, so these theorems are not empty |
| `IndexFiles.ReadSplits` | src/vidsnap/trace/run_index.py:186-208 | A line feed separates what is read before it from what is read after it, whatever undecodable bytes or line breaks are near; reading raises if either side does |
| `IndexFiles.DecodeSplits` | src/vidsnap/trace/run_index.py:186 | Decoding with replacement splits at every plain byte, even inside an unfinished sequence |
| `Questions.GradeQuestions` | src/vidsnap/eval/graders.py:65-117 | The greedy loop yields an injective, maximal matching that takes the first fitting unused question, and a report that counts exactly it |
| `Questions.MaximalIsHalf` | src/vidsnap/eval/graders.py:77-92 | The matched count is at least half of any matching's |
| `Questions.HalfIsReached` | src/vidsnap/eval/graders.py:77-92 | That bound is met: there are questions where first-fit finds one pair and two exist |
| `Questions.CountsWithinMatched` | src/vidsnap/eval/graders.py:82-103 | Answer, mistake and time counts never exceed the matched count |
| `Questions.MatchedWithinBoth` | src/vidsnap/eval/graders.py:109-117 | The matched count exceeds neither list, so recall and precision are at most one |
| `Questions.GradedLast` | src/vidsnap/eval/graders.py:76-110 | Every reference id is graded, by its last reference |
| `Editorial.EditorialTokens` | src/vidsnap/recipes/interview.py:26-59 | The flushing loop computes the token recursion its theorems are about |
| `Editorial.JoinedTokens` | src/vidsnap/recipes/interview.py:26-59 | Tokens of two texts joined by separators are the tokens of each, in order |
| `Editorial.RunIsOneToken` | src/vidsnap/recipes/interview.py:33-59 | Word characters and the marks that follow them form one folded token |
| `Editorial.IsRemovalOnlyEdit` | src/vidsnap/recipes/interview.py:62-75 | True if and only if the rendered tokens are non-empty and embed, in order, into the source tokens |
| `Editorial.RemovalComposes` | src/vidsnap/recipes/interview.py:62-75 | A removal-only edit of a removal-only edit is one of the source |
| `Editorial.RemovalAntisymmetric` | src/vidsnap/recipes/interview.py:62-75 | Texts that are removal-only edits of each other have the same tokens |
| `Editorial.RemovalJoins` | src/vidsnap/recipes/interview.py:62-75 | Removal-only edits of two passages, joined, are one of the joined passages |
| `MotionWindowing.MotionWindows` | src/vidsnap/video/probe.py:66-87 | The merging loop computes the fold its theorems are about |
| `MotionWindowing.MotionUnion` | src/vidsnap/video/probe.py:66-87 | For candidates in range the list is sorted, strictly separated, inside [0, duration], and covers exactly the points of the half-second windows |
| `MotionWindowing.CanonicalUnique` | src/vidsnap/video/probe.py:66-87 | A set of points has one such list |
| `MotionWindowing.MotionOrderFree` | src/vidsnap/video/probe.py:66-87 | So the list does not depend on the order or repetition of the candidates |
| `MotionWindowing.InvertedInput` | src/vidsnap/video/probe.py:73-87 | A candidate a second past a ten-second video gives the window from 10.5 to 10 |
| `MotionWindowing.MotionWellFormedIff` | src/vidsnap/video/probe.py:73-87 | The list is made of proper intervals if and only if every qualifying candidate is at most half a second outside the video |

## Left out

- Network clients, HTTP parsing and retries, FFmpeg, Chrome and zlib: their answers are arbitrary values or exceptions, and inflation is a parameter of the PNG decoder.
- JSON text: a line is a value, malformed, or makes the library fail otherwise; the index works with any codec that renders a record as printable ASCII, reads it back, and finds it malformed when cut short. Records the library cannot render or read back, such as values nested too deep, are not appended.
- Tasks' own synchronous code: parsing and verifying may raise any ordinary exception, and no `KeyboardInterrupt` or cancellation in the middle of it.
- SHA-256 fingerprints and UUIDs: fingerprints are the call itself, and ids are drawn from a counter.
- Floating point: reals are exact, and the rounding of reported ratios is not modelled.
- Unicode tables and case folding: characters come in the tokenizer's five classes, folding and text matching are parameters.
- Base64 text, MIME type parsing and asynchronous upload: `Wav.Encode` returns the files to be sent.
- Redaction, provider and recipe identity, failure categories and records, and the payloads of failed spans: they change no count or state.
- Failures of the disk under the ledger: an append or a finalization is refused only for the reasons given, never by the operating system.
- Manifest fields and file hashes written at finalization: only the terminal state and the write-once rule are modelled.
- The contents of an agent decision request: whether it can be built is modelled, and the decision that comes back is arbitrary.
- An agent-decision format error raised by a plugin's or a task's own schema code: generating a schema raises any other exception.
- Values of a type their protocol does not declare, such as a tool that returns no tool result.
- Wording of error messages: errors are kinds.
- `_run_duration_ms`, pricing, tables and reviews of the run index: single-branch readers of the same ledger.
- The legacy `VideoHarness._execute` loop: no accepted mode reaches it.
- The command line, the API, the review page and report rendering: wiring and presentation.
- Tools.TranscribeAudio: the segments one recognizer call returns are one answer of the environment, so their sanitising and joining are not modelled.
- Wav.Encode: whether a MIME type names WAV audio is a given truth value.
- Questions.GradeQuestions: counts are reported, not their rounded quotients.
- Levenshtein.ErrorRate: it starts from tokens; splitting text into them needs Unicode categories.
- Kernels.HarnessKernel.RunTool: the code inside the trace span is a method of its own, as are the tails of other long operations; the steps and their order are the program's.
