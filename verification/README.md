# Yeoun-AI in Dafny

Yeoun-AI is one asyncio worker that turns a person's photo and voice into a talking persona and
holds conversations with it. The model calls, ffmpeg and HTTP are opaque here; what is modelled is
the code around them, and what is proved is what that code promises: nothing is admitted twice or
released twice, nothing renders twice at a time, an ended session leaves nothing behind, retries
converge, history stays clean, ranges are slices.

| file | models |
|---|---|
| `Scheduling.dfy`, `SchedulingSafety.dfy`, `SchedulingOutcomes.dfy`, `EventLoop.dfy` | message, end and persona tasks interleaving between awaits; invariants and progress; how each task ends and what it does on the way; the await-free sections as methods |
| `SessionStore.dfy` | the session dictionary and its expiry |
| `Conversation.dfy` | one message: trimming, events, history, media files; the configured guards |
| `Keywords.dfy`, `Guards.dfy` | keyword matching and the two safety guards |
| `PersonaPipeline.dfy`, `PersonaSafety.dfy`, `PersonaUploads.dfy`, `PersonaOutcome.dfy`, `PersonaJob.dfy` | persona creation over durable files, with failure, cancellation, a killed worker, retries, and uploads that change between them; the pipeline as methods |
| `HttpRange.dfy`, `Decimal.dfy` | the `Range` header, chunked bodies, the response |
| `Storage.dfy`, `Upload.dfy`, `Deletion.dfy`, `DeletionRace.dfy` | path guard, streaming upload, deletion from disk and tables, deletions interleaved with writers |
| `Text.dfy` | string idioms |

How to read the models:

- **Tasks.** A step of `Scheduling` is what a task does from one await or yield to the next, and its
  `Choice` says how that await came back: normally, with an exception, cancelled (or the generator
  closed), or by the other normal path. A state holds any finite number of tasks of any kind. Every
  lock is explicit, the counter lock included, so the interleavings proved safe include all real ones.
- **Generators.** `ProcessMessage` takes the number of events the consumer pulls before it closes the
  generator; asking for more than there are means running to the end. An outcome can also cancel the
  message at any of its awaits.
- **Persona runs.** A `Plan` says how each step of one run ends. `Drive` runs the state machine under
  a plan, and `PersonaJob.Job.ProcessPersona` is proved to end exactly where `Drive` ends. The models
  (`trim`, `transcribe`, `render`) are arbitrary functions.
- **Guards.** The conversation is proved for any pair of guards whose fallback sentence passes its own
  output guard; `SafeConversation` shows that for the keywords and the sentence of this service.

Several results are about what the code does *not* do, each with an input and the exact condition:

- The documentation says that a persona run is idempotent and safe to call again. A run that starts
  without `ref_audio.wav` does repair a stale transcript, but a run cancelled inside ffmpeg leaves a
  partial `ref_audio.wav` beside the stale `ref_text.txt`, and the next run keeps both and ends READY
  (`CancelledTrimDefeatsRepair`). Even without a stale text, the old mp3 that such a run did not get to
  remove comes first in order and is what synthesis reads (`CancelledTrimHidesReference`).
  `SynthesisGetsMatchedPair` gives the exact condition, on text and on older references.
- A FAILED persona accepts new uploads, but the next run keeps what an earlier one had made, so it can
  end READY with the voice or the photo that was replaced (`NewVoiceIsIgnored`), or with an older
  reference beside it (`OldReferenceIsKept`). `ReadyReflectsUploads` says exactly when the files are
  those of a clean run, `FirstVoiceWins` and `FirstPhotoWins` which upload prevails.
- When the speak directory cannot be made, the cleanup of `process_message` names a variable that is
  not bound yet, and the exception leaves the generator instead of becoming an `error` event
  (`MkdirFailureEscapes`, with `CompletedTraceInLanguage` for the exact condition).
- A message cancelled while it waits for the video renderer leaves its wav behind, because the cleanup
  catches `Exception` only; `StrayFiles` says exactly which files stay. In the same way a cancelled
  upload leaves its temporary file, and in the directory the pipeline chooses from (`CandidatesAfter`).
- A request cancelled after its admission and before its generator starts is never released
  (`LossHappens`); `QuiescentCounter` shows that the counter ends at exactly the number of these, and
  `LossesCloseTheService` that five of them shut the service.
- Of the headers `unit=range` with one valid range, the `Range` parser treats exactly these otherwise than
  section 14 of RFC 9110 (`ParseRangeMeetsStandard`): satisfiable ones with the unit not in lower case,
  of an empty file, or with numerals longer than `int()` converts, which it refuses; and other units,
  which it refuses instead of ignoring. Several ranges are refused too (`RefusedOutright`). On the other
  hand it accepts numbers without a dash, with signs, underscores and white space around them, which the
  grammar does not have (`NumberWithoutDashAccepted`; `AcceptedExactly` describes all that it accepts).
- Deletion empties the disk before the tables, but an upload or a message that stores after that leaves
  files without a row (`UploadOutlivesPersona`); `OrphansExactly` shows that nothing else does.
- A run that has failed shows the step FAILED before its status is FAILED. The status keeps every door
  shut until then, and for good if the worker dies or the write is lost (`CutOffIsStuck`).

Where documentation and code differ the code is followed: the run extracts the reference before it
transcribes (the module text has it the other way round), and deletion answers `FS_DELETE_FAILED` or
`DB_DELETE_FAILED` (the route description has `DELETE_FAILED`).

## Model

| member | source | states |
|---|---|---|
| SchedulingSafety.StepInv | app/routers/sessions.py:149-245 | every step of every task, session start, sweep and persona deletion keeps the three invariants: owners of locks and semaphores match program points, the counter is exact and bounded, a session is removed once |
| SchedulingSafety.CounterIsExact | app/routers/sessions.py:149-188 | in every reachable state the counter is between 0 and 5 and equals the number of requests admitted and not yet released |
| SchedulingSafety.CountedInAndOutOnce | app/routers/sessions.py:149-188 | in any run a request increments at most once and decrements at most once, never before incrementing; a finished request has done both or neither, except that one cancelled between its admission and the start of its generator never decrements |
| SchedulingSafety.QuiescentCounter | app/routers/sessions.py:162-192 | when a run has finished all its tasks, the counter is the number of requests cancelled in it between admission and the start of their generator: 0 exactly when there was none |
| SchedulingSafety.LossHappens | app/routers/sessions.py:162-192 | a run with one request, cancelled while its upload is saved, after which every task has finished, every lock is free and the counter is 1 |
| SchedulingSafety.LossesCloseTheService | app/routers/sessions.py:149-159 | the counter never falls below the requests lost this way, so after five of them every request that reaches it is refused |
| SchedulingSafety.OneAtATimePerSession | app/routers/sessions.py:178-181 | on one session no two messages overlap, no message overlaps the pop and rmtree of an end request, and no two end requests overlap there |
| SchedulingSafety.RemovalUndisturbed | app/routers/sessions.py:225-238 | while an end request is popping or removing, nothing else makes that session's directory, and only the deletion of its persona, which takes no session lock, removes it |
| SchedulingSafety.EndSucceedsClean | app/routers/sessions.py:225-245 | at the step in which an end request succeeds, its session is not in the store and its speak directory is absent |
| SchedulingSafety.RemovedAtMostOnce | app/routers/sessions.py:225-232 | of all end requests for a session at most one removes it, none if the sweeper did, and the others answer not-found |
| SchedulingSafety.ExclusiveModels | app/pipeline/conversation.py:176-197 | over all message and persona tasks at most one Ditto render, and at most one of speech synthesis and persona transcription, is in progress |
| SchedulingSafety.LockOrder | app/pipeline/conversation.py:176-197 | session lock before either semaphore, never both semaphores, the counter lock alone; an unfinished task can step once it has what it waits for |
| SchedulingSafety.SomebodyCanRun | app/pipeline/persona_creation.py:278-283 | whoever blocks an unfinished task can make its normal step, or is blocked by one that can |
| SchedulingSafety.DeadlockFree | app/routers/sessions.py:149-245 | in every reachable state with an unfinished task some task can make its normal step |
| SchedulingSafety.RunsAreBounded | app/routers/sessions.py:149-245 | the task steps of any run, failing and cancelled ones included, are bounded by a sum fixed at the start |
| SchedulingSafety.MaximalRunsFinish | app/routers/sessions.py:149-245 | a run that no normal step can continue has finished every task and freed every lock |
| SchedulingOutcomes.MessageFate | app/routers/sessions.py:141-192 | a message is answered not-found if and only if its session was not stored when it looked, busy if and only if it found the counter full, with a failure if and only if its upload could not be saved, lost if and only if it was cancelled before its generator started, and served otherwise |
| SchedulingOutcomes.EndFate | app/routers/sessions.py:215-245 | an end request is answered not-found if and only if its session was not stored at the lookup or at the pop under the lock; found both times and not cancelled, it has ended the session once it has finished |
| SchedulingOutcomes.EndTakesSession | app/routers/sessions.py:215-245 | an end request for a stored session that nobody else pops and no sweep takes, finished and not cancelled, has succeeded and the session is out of the store |
| SchedulingOutcomes.PopDecides | app/routers/sessions.py:225-238 | under the lock a missing session is answered not-found, one without a directory is ended at once, and the removal of a directory is awaited |
| SchedulingOutcomes.Uninterruptible | app/routers/sessions.py:149-188 | the sections that contain no await cannot fail or be cancelled in the middle |
| SchedulingOutcomes.SessionsConserved | app/sessions/store.py:59-120 | every session ever started is in exactly one place: the store, the sweeper, or an end request that took it |
| SchedulingOutcomes.UndisturbedMessage | app/pipeline/conversation.py:71-225 | a message that nothing disturbs and that is served takes its own session lock once and no other, the speech model once, the renderer once, the counter lock twice, and one step for every token besides sixteen others |
| SchedulingOutcomes.MisfortuneEndsTheWork | app/pipeline/conversation.py:71-225 | once a step of a message fails or is cancelled it takes no session lock and no model any more, and a cancellation leaves it holding nothing at once |
| SchedulingOutcomes.SpeakDirectoryMade | app/pipeline/conversation.py:161-165 | the speak directory is made when the message goes on from its text, and at no other step |
| SchedulingOutcomes.UnharmedPersona | app/pipeline/persona_creation.py:118-286 | a persona run that nothing harms transcribes once unless the text is there, and renders every clip that is not there, once |
| SchedulingOutcomes.HarmEndsPersona | app/pipeline/persona_creation.py:358-385 | a failure or a cancellation ends a persona run at once, with nothing held |
| EventLoop.Loop.Admit | app/routers/sessions.py:149-159 | the section under the counter lock is the admission step; the variables still form a reachable state, with the counter at most 5 |
| EventLoop.Loop.Release | app/routers/sessions.py:170-188 | both decrement sections are the release steps; the counter does not go below 0 |
| EventLoop.Loop.EndUnderLock | app/routers/sessions.py:225-238 | the section from the session lock to the next await is the popping step, and answers not-found exactly when the session is not stored |
| EventLoop.Loop.EndAfterRemoval | app/routers/sessions.py:237-245 | what follows rmtree is the removing step, after which neither session nor directory is there |
| EventLoop.Loop.Sweep | app/sessions/store.py:111-120 | finding and deleting the sessions idle for longer than the time to live is the sweep step for exactly those ids |
| EventLoop.Loop.StartSession | app/routers/sessions.py:106-116 | registering a session under a new id is the begin step |
| EventLoop.Loop.RecordActivity | app/pipeline/conversation.py:158 | a recorded message moves the activity time of its session if that is still in the store, and nothing else |
| SessionStore.Store.Create | app/sessions/store.py:59-61 | files the session under its id and changes no other entry |
| SessionStore.Store.Touch | app/sessions/store.py:67-73 | updates exactly the activity time of a stored session, or reports it missing |
| SessionStore.Store.AddMessage | app/sessions/store.py:75-86 | appends one message, and the activity time becomes the later of the two, never earlier |
| SessionStore.Store.End | app/sessions/store.py:88-90 | removes exactly that id and returns what was there, nothing for a later call |
| SessionStore.Store.ExpiredIds | app/sessions/store.py:113-117 | finds exactly the sessions idle for longer than the time to live |
| SessionStore.Store.SweepOnce | app/sessions/store.py:111-120 | deletes exactly the expired sessions, keeps the others as they are, returns how many went |
| Conversation.TrimHistory | app/pipeline/conversation.py:40-55 | the loop returns the longest suffix of the history, in order, within both bounds |
| Conversation.TrimmedIsLongest | app/pipeline/conversation.py:40-55 | for every history and all bounds, no longer suffix fits |
| Conversation.LongestFitUnique | app/pipeline/conversation.py:40-55 | there is only one longest fitting suffix, so the description determines the result |
| Conversation.AnswerOf | app/pipeline/conversation.py:71-147 | an answer that is stored belongs to a user text that is no crisis and carries the final text of the tokens sent |
| Conversation.FinalText | app/pipeline/conversation.py:125-147 | the announced text never matches the output guard |
| Conversation.StreamTokens | app/pipeline/conversation.py:111-119 | the token loop sends the tokens in order, stops where it is closed, and collects them all otherwise |
| Conversation.SynthesiseMedia | app/pipeline/conversation.py:160-225 | last event, spoken text and files for every way synthesis can end, cancellation at each of its awaits included |
| Conversation.StrayFiles | app/pipeline/conversation.py:176-216 | the wav of a message stays exactly when the message is cancelled after speech synthesis had written it; its mp4 exactly when it is announced, or when the placeholder for the renderer was cancelled after writing it; no other message loses or gains a file |
| Conversation.Deliver | app/pipeline/conversation.py:149-225 | announces the text, records the pair only if resumed after that, then synthesises, up to the last event or a cancellation |
| Conversation.ProcessMessage | app/pipeline/conversation.py:58-225 | for every outcome, closing and cancellation: a crisis gets exactly the crisis event with its keyword and nothing is recorded; each failure gets its own reason, exactly when it happens; the tokens come first and in order; the text is announced exactly when there is one, the video exactly when it was rendered; what was heard and announced is recorded, and spoken, exactly when the message goes on after its text; no spoken text is forbidden |
| Conversation.ReplyIsUnique | app/pipeline/conversation.py:36-55 | the reply is the one to the longest suffix of the history within 4000 characters and 20 messages |
| Conversation.AnswerOfFits | app/pipeline/conversation.py:71-147 | which of the kinds of answer a message gets, from what was heard, said by the guards and streamed |
| Conversation.CompletedTraceInLanguage | app/pipeline/conversation.py:71-225 | a trace taken as far as it goes is error, or crisis, or token* error, or token* text_done (media_ready or error), exactly when it was not cancelled and the speak directory could be made |
| Conversation.EveryTraceIsAPrefix | app/pipeline/conversation.py:71-225 | however early the generator is closed or cancelled, the events sent begin a word of that language |
| Conversation.MkdirFailureEscapes | app/pipeline/conversation.py:161-210 | for every text and reply that get that far, a failing mkdir ends the trace with text_done, which is no word of the language |
| Conversation.TextDonePosition | app/pipeline/conversation.py:125-152 | everything before text_done is a token, and text_done carries the text of exactly those tokens |
| Conversation.AnnouncedText | app/pipeline/conversation.py:125-152 | the announced text is the fallback for a forbidden reply, and otherwise the joined tokens without the white space around them and with nothing else removed |
| Conversation.GrowthFollowsTextDone | app/pipeline/conversation.py:149-158 | history grows only after text_done was sent, by one user/assistant pair with that text |
| Conversation.ConversationStaysClean | app/pipeline/conversation.py:154-158 | over any sequence of messages and closings the history alternates in whole pairs and no stored text trips its guard |
| SafeConversation.FallbackClean | app/pipeline/conversation.py:145 | the fallback sentence passes the output guard |
| SafeConversation.NothingUnsafeIsStored | app/pipeline/conversation.py:79-158 | from an empty history, no crisis text of the user and no forbidden answer is ever stored |
| Keywords.FirstMatchSpec | app/safety/keywords.py:62-68 | the scan finds the first keyword, in tuple order, whose normal form is a contiguous part of the normalised text, and nothing only when there is none |
| Keywords.OccursIffSplits | app/safety/input_guard.py:43-44 | the substring test agrees with splitting the text around the keyword |
| Keywords.NormalizeByConcat | app/safety/keywords.py:62-68 | normalize is a homomorphism for concatenation, whatever lower-casing makes of a letter |
| Keywords.NormalizeByIdempotent | app/safety/keywords.py:62-68 | normalising twice is normalising once, for every lower-casing of letters that makes no blanks and leaves alone what it has made |
| Keywords.NormalizeIsAscii | app/safety/keywords.py:62-68 | the function the guards use here is one of these |
| Keywords.ScanIgnoresBlanks | app/safety/keywords.py:62-68 | inserting or deleting spaces and tabs anywhere changes neither verdict nor keyword |
| Keywords.ScanSurvivesContext | app/safety/keywords.py:62-68 | a match survives any text put before and after |
| Keywords.AnyLoweringAgrees | app/safety/keywords.py:62-68 | the scan of Hangul keywords finds the same keyword for every lower-casing of the text that keeps Hangul and makes none, Python's context-dependent one included |
| Keywords.ScanIgnoresCase | app/safety/keywords.py:62-68 | upper and lower case of ASCII letters make no difference to the scan |
| InputGuard.CheckCrisisSpec | app/safety/input_guard.py:32-45 | the guard reports the first crisis keyword that occurs, or that none does |
| InputGuard.CrisisIgnoresBlanks | app/safety/input_guard.py:32-45 | the whole result is unchanged by spaces and tabs |
| InputGuard.CrisisSurvivesContext | app/safety/input_guard.py:32-45 | a crisis match survives any added prefix or suffix |
| InputGuard.CrisisIgnoresLowering | app/safety/input_guard.py:32-45 | the crisis keyword reported is the one for any such lower-casing |
| InputGuard.CrisisKeywordBlocks | app/safety/keywords.py:20-38 | each of the fifteen keywords blocks, wherever it stands in the text |
| OutputGuard.FilterResponseSpec | app/safety/output_guard.py:34-48 | the guard reports the first forbidden keyword that occurs, or that none does |
| OutputGuard.FilterIgnoresBlanks | app/safety/output_guard.py:34-48 | verdict, keyword and category are unchanged by spaces and tabs |
| OutputGuard.FilterSurvivesContext | app/safety/output_guard.py:34-48 | a forbidden match survives any added prefix or suffix |
| OutputGuard.FilterIgnoresLowering | app/safety/output_guard.py:34-48 | the forbidden keyword reported is the one for any such lower-casing |
| OutputGuard.ForbiddenKeywordCaught | app/safety/keywords.py:46-59 | each of the eight keywords is caught, wherever it stands in the answer |
| PersonaSafety.PairedFromEmpty | app/pipeline/persona_creation.py:128-196 | from an empty voice_ref, after every step of every sequence of runs, stopped anywhere, a non-empty ref_text is the transcript of the ref_audio that is there |
| PersonaSafety.ReadyRunFillsGaps | app/pipeline/persona_creation.py:312-357 | a run that ends READY, from any files, had usable uploads and leaves what was there with the gaps filled: audio, transcript and clips kept or made anew, a new audio replacing text and old audio |
| PersonaSafety.ReadyRunRepairsPair | app/pipeline/persona_creation.py:322-334 | after a run that ends READY ref_text is the transcript of ref_audio.wav exactly when the run did not keep a stale text; starting without ref_audio.wav it always is, with no other ref_audio.* left |
| PersonaSafety.SynthesisGetsMatchedPair | app/pipeline/conversation.py:168-182 | after any run that ends READY, synthesis is handed ref_audio.wav with its own transcript if and only if the run made that file, or kept one beside which there was neither a stale text nor an older ref_audio.* that comes first in order |
| PersonaSafety.CancelledTrimDefeatsRepair | app/pipeline/persona_creation.py:197-208 | a cancelled trim followed by a run in which nothing fails ends READY with a mismatched pair and an old mp3 first in order |
| PersonaSafety.CancelledTrimHidesReference | app/pipeline/persona_creation.py:242-248 | with no text to go stale the pair matches after such runs, and synthesis still reads the old mp3 with the transcript of the wav |
| PersonaSafety.RetriesConverge | app/pipeline/persona_creation.py:312-385 | however many runs fail anywhere, once one succeeds the files are those of one clean run; audio trimmed once, a non-empty transcript stored at most once, each non-empty clip rendered at most once |
| PersonaSafety.CleanRunSucceeds | app/pipeline/persona_creation.py:312-357 | with usable uploads and nothing going wrong a new persona becomes READY with exactly those files |
| PersonaSafety.CoupledStep | app/pipeline/persona_creation.py:57-72 | every step keeps status and progress step coupled, moves the step in order or to FAILED, sets error_reason exactly with FAILED, and moves the status only along DRAFT or FAILED, PROCESSING, READY or FAILED |
| PersonaSafety.CoupledThroughout | app/pipeline/persona_creation.py:312-385 | that coupling holds along every run through the route, and READY is never left |
| PersonaSafety.OccupiedStretch | app/pipeline/persona_creation.py:312-385 | that stretch is entered by the PROCESSING write only and left by a terminal write, a killed worker or a lost FAILED write only; a failing run is still PROCESSING while its step already shows FAILED |
| PersonaSafety.DoorsShutWhileOccupied | app/routers/personas.py:68-83 | from the PROCESSING write to the terminal write, the way from a failure to its FAILED write included, start, upload and deletion all answer conflict |
| PersonaSafety.CutOffIsStuck | app/routers/personas.py:318-332 | a run cut off in that stretch, by a killed worker or a lost FAILED write, leaves a persona that the route never starts again |
| PersonaSafety.ProcessingMeansCutOff | app/pipeline/persona_creation.py:359-385 | between runs the status is PROCESSING if and only if some run was cut off in that stretch |
| PersonaSafety.IdleDoor | app/routers/personas.py:318-332 | between runs the route starts a persona exactly when none of its runs was cut off between the PROCESSING write and the terminal write, and it is not READY |
| PersonaOutcome.RunOutcome | app/pipeline/persona_creation.py:312-385 | a run ends READY if and only if nothing it needs is missing or fails: status write, voice, reference kept or made, transcript kept or made, photo, each clip kept or rendered, each row, READY write; otherwise it shows FAILED with a reason and its status is FAILED, or what it was when even that write was lost |
| PersonaOutcome.ReadyRunRegistersClips | app/pipeline/persona_creation.py:342-352 | any run appends a first part of the rows 0, 1 and a run that ends READY appends both |
| PersonaOutcome.FailureReason | app/pipeline/persona_creation.py:358-385 | a failed run that nobody cancelled gives the error as its reason, one that could only be cancelled the cancellation |
| PersonaOutcome.KillLeaves | app/pipeline/persona_creation.py:178-286 | what a killed worker leaves of the file it was writing, every other file being as it was |
| PersonaOutcome.TornClipIsKept | app/pipeline/persona_creation.py:272-286 | a clip torn by a killed worker passes for a finished one: the next run, with nothing failing, is READY with it |
| PersonaOutcome.FailedRenderLeavesNone | app/models/talkinghead_ditto.py:195-208 | a render that fails or is cancelled leaves no file at its index |
| PersonaOutcome.FailedTrimLeavesNone | app/pipeline/persona_creation.py:202-237 | a trim that fails or makes less than a second leaves no reference |
| PersonaOutcome.Admission | app/routers/personas.py:68-83 | a missing persona gets not-found; uploads and deletion are refused exactly while it is PROCESSING; a start is accepted exactly for DRAFT and FAILED with no step in progress |
| PersonaUploads.ReadyReflectsUploads | app/pipeline/persona_creation.py:312-357 | a run that ends READY leaves exactly the files of a clean run over the uploads it found if and only if nothing it kept differs from what it would make, no older ref_audio.* was beside a kept one, and there was no further clip |
| PersonaUploads.OldReferenceIsKept | app/pipeline/conversation.py:168-182 | an older mp3 beside an up-to-date ref_audio.wav survives a run in which nothing fails, and synthesis reads it |
| PersonaUploads.AttemptsKeep | app/pipeline/persona_creation.py:128-286 | over any attempts, with any uploads in between, a voice reference, a non-empty transcript of it and a clip with content are never replaced |
| PersonaUploads.FirstVoiceWins | app/pipeline/persona_creation.py:178-196 | the voice reference is the one that the first attempt to get that far made, by trimming the voice it found, whatever was uploaded since |
| PersonaUploads.FirstPhotoWins | app/pipeline/persona_creation.py:272-286 | each clip with content is the one that the first attempt to render it made, from the photo it found |
| PersonaUploads.NewVoiceIsIgnored | app/routers/personas.py:68-83 | an attempt that fails while transcribing, a new voice, and an attempt in which nothing fails: READY with the old voice |
| PersonaPipeline.StepDescends | app/pipeline/persona_creation.py:312-385 | every step brings a run closer to its end, whatever happens in it |
| PersonaPipeline.DriveIsARun | app/pipeline/persona_creation.py:289-385 | a driven run is a run of the state machine and ends |
| PersonaJob.Job.Show | app/pipeline/persona_creation.py:57-72 | sets step and error_reason together |
| PersonaJob.Job.TrimReference | app/pipeline/persona_creation.py:183-237 | the trim and its checks follow the state machine for every way they can end |
| PersonaJob.Job.PrepareVoiceRef | app/pipeline/persona_creation.py:178-248 | reference and invalidation of the old text follow the state machine |
| PersonaJob.Job.TranscribeVoice | app/pipeline/persona_creation.py:118-142 | transcription, skipped or stored, follows the state machine |
| PersonaJob.Job.RenderIdleClips | app/pipeline/persona_creation.py:256-286 | the clip loop follows the state machine |
| PersonaJob.Job.InsertRows | app/pipeline/persona_creation.py:342-352 | the row loop follows the state machine |
| PersonaJob.Job.ProcessPersona | app/pipeline/persona_creation.py:289-385 | a call ends in exactly the state that the state machine reaches under the same misfortunes |
| HttpRange.ParseRange | app/storage/filesystem.py:37-70 | a slice lies within the file; the whole file is meant exactly when there is no header |
| HttpRange.ParseRangeMeetsStandard | app/storage/filesystem.py:45-70 | for every unit, every valid single range and every file size, section 14.1.2 of RFC 9110 is met, the slice of exactly the selected positions or a refusal of what is not satisfiable, if and only if the unit means bytes and a satisfiable range comes with the unit in lower case, a file that has content and numerals of at most 4300 digits; no other unit is ignored, as section 14.2 asks |
| HttpRange.EmptyFileSuffixRefused | app/storage/filesystem.py:55-67 | a non-empty suffix of an empty file is satisfiable by that section and refused by the code |
| HttpRange.LongNumeralRefused | app/storage/filesystem.py:54-65 | asking for the whole file with a numeral of more than 4300 zeros is satisfiable by that section and refused by the code |
| HttpRange.InvalidRangeRefused | app/storage/filesystem.py:66-67 | a range that ends before it begins, which that section calls invalid, is always refused |
| HttpRange.RefusedOutright | app/storage/filesystem.py:47-52 | every header that does not begin with the unit in lower case, or has a comma, is refused |
| HttpRange.RefusedHeaders | app/storage/filesystem.py:47-52 | three of these: the unit in another case, an unknown unit, two satisfiable ranges |
| HttpRange.SatisfiableSelects | app/storage/filesystem.py:66-69 | of a file with content, exactly the ranges that select some position are satisfiable |
| HttpRange.AcceptedExactly | app/storage/filesystem.py:45-70 | every header that is accepted, and as which slice: lower-case unit, no comma, and around the first dash numbers in the sense of `int()` that name a slice beginning inside the file |
| HttpRange.OddCharacterRefused | app/storage/filesystem.py:63-65 | a character after the unit that is no digit, sign, underscore or white space makes the header refused |
| HttpRange.NumberWithoutDashAccepted | app/storage/filesystem.py:53-62 | a number without a dash is taken for an open range |
| HttpRange.PrintThenParse | app/storage/filesystem.py:45-70 | `bytes=a-b` in decimal gives a to b, cut off at the end of the file, or is refused when b has more than 4300 digits |
| HttpRange.AcceptedRangeIsFixpoint | app/storage/filesystem.py:45-70 | printing the result of any accepted header and parsing it again changes nothing, exactly when the printed end has at most 4300 digits |
| HttpRange.IterFileRange | app/storage/filesystem.py:86-105 | the chunks concatenate to the requested bytes, each of 1 to chunk_size, only the last one short |
| HttpRange.IterWholeFile | app/routers/media.py:49-55 | the unranged body is the whole file |
| HttpRange.Serve | app/routers/media.py:48-73 | body, status, Content-Range and Content-Length of a selection agree with one another |
| HttpRange.StreamResponse | app/routers/media.py:36-73 | 200, 206 or 416 as the header parses, with exactly the selected bytes |
| HttpRange.TilesCoverFile | app/storage/filesystem.py:86-105 | for any k, the bodies of consecutive k-byte ranges concatenate to the file exactly when the last number asked for has at most 4300 digits |
| Decimal.ParsePrint | app/storage/filesystem.py:54-64 | reading a printed natural number gives it back, or fails when it has more than 4300 digits |
| Decimal.ParseIntReads | app/storage/filesystem.py:54-65 | `int()` reads exactly white space, a sign or none, groups of at most 4300 digits with single underscores between them, white space, and as the number they spell |
| Decimal.DigitsValueConcat | app/storage/filesystem.py:54-65 | the value of digits is positional, to base ten |
| Decimal.SingleDigitValue | app/storage/filesystem.py:54-65 | a single digit counts for itself |
| Decimal.OddCharacterUnread | app/storage/filesystem.py:63-65 | a text with any other character is refused |
| Storage.SafeResolve | app/storage/filesystem.py:24-34 | an accepted path lies at or below the root |
| Storage.JoinAllStaysPlain | app/storage/filesystem.py:24-34 | an accepted path has no dot components or separators left in it |
| Storage.PlainPartsResolve | app/storage/filesystem.py:24-34 | plain parts name the entry one expects |
| Storage.DotDotGoesBack | app/storage/filesystem.py:24-34 | `..` takes back the entry before it |
| Storage.DotDotRefused | app/storage/filesystem.py:24-34 | a part that goes up from the root is refused, unless the next one comes back into it |
| Storage.AbsolutePartStartsOver | app/storage/filesystem.py:30-31 | an absolute part leaves nothing of the root or of the parts before it |
| Storage.AbsolutePathAccepted | app/storage/filesystem.py:30-34 | an absolute path is accepted exactly when it leads below the root |
| Storage.BaseNameIsLast | app/routers/personas.py:156 | the last component of a file name is kept, whatever stands before it |
| Storage.SanitizeName | app/routers/personas.py:154-159 | the stored name is a plain entry name without a null character, or the generated one |
| Storage.OrdinaryNameKept | app/routers/personas.py:154-159 | a name is kept as it is exactly when it is a plain entry name without a null character |
| Storage.PathNameKept | app/routers/personas.py:154-159 | of a path the last component is kept exactly when it can be used |
| Storage.FileTree.StoreAtomically | app/routers/personas.py:169-181 | the target gets the whole content, or the tree is as it was after a failure, or has the temporary file and nothing else more after a cancellation |
| Upload.LooksLikeSpec | app/routers/personas.py:86-93 | the scan agrees with "some magic number is in its place", ftyp also at offset 4 |
| Upload.PhotoMagicIs | app/routers/personas.py:49-53 | the photo formats, byte by byte |
| Upload.VoiceMagicIs | app/routers/personas.py:54-62 | the sound formats, byte by byte |
| Upload.PassesAsBoth | app/routers/personas.py:49-62 | a head passes as photo and as voice exactly when it begins with RIFF, or like a JPEG with ftyp at offset 4 |
| Upload.VerdictIs | app/routers/personas.py:111-149 | the three verdicts in terms of magic numbers and length |
| Upload.ReadChecked | app/routers/personas.py:121-149 | the streaming verdict is the verdict on the whole content, and the buffer never exceeds the limit by more than a chunk |
| Upload.TargetResolves | app/routers/personas.py:156-167 | a sanitised name always passes the path guard, so the 400 answer cannot occur |
| Upload.StoreUpload | app/routers/personas.py:154-183 | a successful write adds exactly the upload, a failed one leaves the tree as it was, a cancelled one leaves its temporary file beside the target |
| Upload.SaveUpload | app/routers/personas.py:96-183 | 415 if and only if the type is not allowed or at least four bytes lack every magic number in the first sixteen, 413 if and only if it passes these and is longer than the limit, otherwise the result of the write; a stored upload is the whole content under the sanitised name; rejected and failed uploads change no file, a cancelled write touches only its temporary file; the part is always closed |
| Upload.CandidatesAfter | app/pipeline/persona_creation.py:103-116 | a stored upload is among the files the pipeline chooses from, and so is the temporary file of a cancelled one |
| Deletion.Repository.UpdatePersonaStatus | app/db/repository.py:115-124 | changes the status of that row only, and nothing when it is missing |
| Deletion.Repository.InsertPersonaIdleClip | app/db/repository.py:291-310 | appends one row and changes no other table |
| Deletion.Repository.DeletePersonaTx | app/db/repository.py:138-157 | the five tables without the persona |
| Deletion.WithoutPersonaSpec | app/db/repository.py:148-157 | no table tells anything about the persona, all tell the same as before about every other |
| Deletion.RowsOfSpec | app/db/repository.py:148-157 | the rows of a persona are those that carry its id |
| Deletion.SafeRmtree | app/storage/filesystem.py:73-83 | removes exactly the persona's subtree, or part of it when it fails |
| Deletion.DeletePersona | app/routers/personas.py:446-508 | answer, disk and tables after the guarded deletion |
| Deletion.WhichAnswer | app/routers/personas.py:450-508 | which answer is given: not-found to a missing persona, conflict to one that is PROCESSING, FS_DELETE_FAILED when files are there and rmtree breaks, DB_DELETE_FAILED when the transaction fails after that, success otherwise |
| Deletion.AnswerTellsWhatIsLeft | app/routers/personas.py:470-508 | success leaves nothing of the persona and everything of the others; FS_DELETE_FAILED leaves the tables, DB_DELETE_FAILED the tables without files |
| Deletion.OtherFilesUntouched | app/storage/filesystem.py:73-83 | no answer touches a file outside the persona's directory |
| Deletion.DeletionLeavesNoOrphans | app/routers/personas.py:470-508 | a deletion with nobody else writing never leaves files whose persona row is gone |
| DeletionRace.OrphansExactly | app/routers/personas.py:450-508 | over any interleaving of deletions, uploads and messages, files are left without their row if and only if the persona was deleted from the tables and somebody stored files of it after its directory was emptied for the last time |
| DeletionRace.DeletionsAloneLeaveNoOrphans | app/routers/personas.py:470-508 | any number of interleaved deletions, failing or not, leave no such files while nobody writes |
| DeletionRace.LateRequestsRefused | app/routers/personas.py:68-75 | uploads and deletions that begin after the persona has left the tables change nothing |
| DeletionRace.EarlyRequestsPass | app/routers/personas.py:68-83 | one that begins while the row is there, and does not fail, passes its guard |
| DeletionRace.UploadOutlivesPersona | app/routers/personas.py:68-83 | an upload that passes its guard, a deletion, and the store of the upload leave such files |

## Left out

- Model inference, ffmpeg, the Ditto subprocess, SQL, HTTP plumbing, authentication, health and prompt text: opaque, or functions and outcomes chosen arbitrarily.
- Keywords.AnyLoweringAgrees: that Python's `lower()` keeps Hangul syllables and makes none is a fact of Unicode that is not proved here.
- Decimal.ParseInt: covers ASCII signs, digits, single underscores, white space around, and the limit of 4300 digits that Python 3.11 sets by default; Unicode digits are not modelled.
- Storage.SafeResolve: lexical, without symbolic links.
- SchedulingSafety.ExclusiveModels: counts tasks inside a model call; a thread or subprocess that outlives a cancelled task is not modelled.
- SchedulingSafety.RemovalUndisturbed: a persona's deletion takes the directories of its sessions away in one step; that rmtree removes a tree file by file, and the guards of the deletion, are not part of the interleaving. Nor is the rmtree thread of a cancelled end request, or a speech or render thread of a cancelled message, which can touch the directory after the session lock is free.
- SchedulingSafety.OneAtATimePerSession: is about tasks; a thread that outlives its cancelled task is not one.
- SchedulingSafety.EndSucceedsClean: says nothing about later instants, because a message queued behind the end request still runs on the popped session and may make the directory again, and so may a speech or render thread that outlives its cancelled message.
- PersonaSafety.RetriesConverge: excludes cancellation inside ffmpeg and a killed worker, which can leave a partial ref_audio.wav or clip that later runs keep.
- PersonaSafety.CoupledStep: one admitted run at a time; two start requests can both pass their check before the first run shows PENDING.
- Cancellation while waiting for the counter lock: its holders never await, so no task is ever suspended there.
- Fairness of locks: any waiter may get a free lock, so the order in which waiters are served is not modelled.
- The expiry test inside the interleaving: the sweep step may remove any stored sessions; `SessionStore` has the exact test.
- Start of a session for a persona that is not READY, the status and listing routes: read-only checks.
- Uniqueness of idle-clip rows: a retry inserts them again, so it does not hold.
- EventLoop.Loop: has the sections that change the counter, the store and the directories as methods; the sections that only move a task between its awaits are in the transition system alone.
- Conversation.StrayFiles: `written` is what is on disk once the thread that was cancelled has ended.
- Upload.SaveUpload: the reads of the part are not cancelled; nothing has been written by then.
- DeletionRace.OrphansExactly: a persona once deleted is not inserted again, and a directory is a matter of having files or not; which files are there is in `Deletion`.
- Deletion.DeletePersona: not cancelled between its deletions from disk and from the tables.
- Cleanup unlinks and the rmtree of an end request are taken to succeed, and a file replace to be atomic.
- Deletion.SafeRmtree: the tree is a map from file paths, so empty directories are not seen.
