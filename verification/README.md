# Verified model of the recording server's hard parts

A Dafny project that models the behaviour of a TypeScript recording server, its media worker and its
Python lifecycle tool, and proves properties of the model. `dafny verify dfyconfig.toml` checks it.

| part | modules |
|---|---|
| A question that a running AI turn asks its user, stored in a kv row, answered by any process, polled by its owner, dropped when the turn ends | JsonKeys, PendingQuestions, PendingInvariants, PendingTheorems, PendingVerdicts, QuestionRegistry, AnswerResult |
| The streaming float-WAV reader | Division, FloatWav, FloatWavChunking, FloatWavWriter |
| Planning a merge of recorded chunks, and its seam offsets | Sorting, MergePlan, MergeKeys, MergeOrder, MergeSeams, MergeAccept |
| The legacy import: COPY text, canonical row text, table digest, buffered emission | Decimal, LegacyValues, CopyText, CanonicalRow, Digest, ImportEmitter, ImportStream, ImportCells |
| The create-only installer and its undo | Adopt, AdoptInstall, AdoptTemplate, AdoptUndo |
| Applying media results, with the boot sweep | MediaApply, MediaApplyOutcomes, MediaApplyInvariants, MediaApplySafety, MediaApplyRaces |
| One AI turn: relay, timeout and disconnect | AiChatRelay, AiTurn |
| One media job under leases, and its files | WorkerLease, WorkerLeaseOutcomes, WorkerLeaseSafety, WorkerLeaseRaces, AttemptFiles |
| Globs, MP4 boxes, CSV, disk space | Glob, GlobMeaning, Mp4Boxes, Csv, SpaceReservation |

Code that runs between awaits is a state machine: a step ends where the code awaits, runs are sequences
of steps, and the results hold for every run. Loops are methods proved against a function; what the
source promises is proved of that function.

## Where the code and its promises differ

- A register suspended in its put for more than a minute can arm a question for a turn that is over
  (`PendingTheorems.LateRegisterArms`; exactly when: `DeadKept`).
- Two questions with the same text keep one answer, and a question whose text is `__proto__` keeps none
  (`AnswerResult.SameTextLosesAnswer`, `ProtoAnswerIsLost`; exactly when: `EveryAnswerKept`).
- The WAV reader depends on the cuts for `fmt ` chunks under 16 bytes, and the header cap counts whole
  chunks (`FloatWavChunking.ShortFmtExample`, `CapCountsChunks`; exactly when: `CutAlikeExactly`,
  `CutAnywhereExactly`).
- A start skip longer than its input makes merged seams go back (`MergeSeams.LongSkipGoesBack`; exactly
  when: `OffsetsForwardExactly`).
- An install that is cut between a create and its record, or whose outside tool fails after adding paths,
  leaves paths that undo does not know of (`AdoptUndo.CutWriteOutlivesUndo`, `ToolFailureOutlivesUndo`;
  exactly when: `InstallThenUndo`).
- A merge whose read saw other segments is not copied, but its transaction looks only at the segments of
  that moment and may swap it in (`MediaApplyRaces.MergeCanSwapUncopied`; exactly when:
  `MediaApplySafety.SwapKeepsRowsExactly`).
- The boot sweep runs beside the apply loop and spares only merges, so it can take the FLAC copy of an
  ingest that is retried, or the blob of an upload that takes an hour to insert its row, before or after a
  row names it (`MediaApplyRaces.SweepCanOvertakeIngest`, `SweepCanTrailIngest`, `SweepCanOvertakeUpload`,
  `SweepCanTrailUpload`; exactly when: `MediaApplySafety.RowLosesItsBlobExactly`, and over whole runs
  `AlwaysStockedExactly`).
- The turn's cleanup is not run on every exit path: not when the relay throws and terminating throws
  (`AiTurn.CleanupSkippedExactly`). A timeout or disconnect after the last event answers otherwise than
  the client saw (`AiTurn.ChatCanAnswerOtherwise`; exactly when: `ChatAnswersAsTold`).
- The queue's fence names the worker and not the attempt, so two lanes of one worker can lose an accepted
  result's files (`WorkerLeaseRaces.TwoLanesLoseTheResult`; exactly when:
  `WorkerLeaseSafety.ResultLosesItsFilesExactly`); a release may go out after the loss was seen
  (`IssuedAfterLossExactly`).
- An output extension of two parts can be removed by another attempt (`AttemptFiles.RemovesExactly`).
- A glob's `**` does not cross a newline (`GlobMeaning.AnyTakesExactly`, `DirsTakeExactly`).
- The CSV reader takes a line feed for a line end inside quotes too (`Csv.TableReadsBack`).

## Model

| member | source | states |
|---|---|---|
| JsonKeys.UnquoteQuoted | packages/ai-runtime/src/aiV2PendingQuestions.ts:94-109 | A JSON string literal reads back as the text it was written from, whatever characters it holds (section 7 of RFC 8259). |
| JsonKeys.KeyOfInjective | packages/ai-runtime/src/aiV2PendingQuestions.ts:94-97 | Different (session, turn, request) triples never share a key. |
| JsonKeys.TurnKeyOfInjective | packages/ai-runtime/src/aiV2PendingQuestions.ts:111-113 | Different turns never share a turn key. |
| PendingTheorems.SettlesAtMostOnce | packages/ai-runtime/src/aiV2PendingQuestions.ts:252-288 | In every interleaving of register, answer, poll, abandon and expiry a question's promise settles at most once, never while it is pending, and exactly when it has a verdict. |
| PendingTheorems.OneAcceptedAnswer | packages/ai-runtime/src/aiV2PendingQuestions.ts:318-343 | At most one answer call for a question is answered `accepted`; `PendingVerdicts.AcceptedExactly` says which, and `AnswerIsAccepted` that one is. |
| PendingTheorems.AllowIsTheAnswer | packages/ai-runtime/src/aiV2PendingQuestions.ts:318-343 | An allow carries exactly one call's answers, given by the turn's own user, one answer a question; no other call for the question was accepted. |
| PendingTheorems.PollerExactlyWhilePending | packages/ai-runtime/src/aiV2PendingQuestions.ts:366-392 | A turn with pending questions always has a poller; a poller at rest always has a pending question. |
| PendingTheorems.NextTickDelivers | packages/ai-runtime/src/aiV2PendingQuestions.ts:394-435 | An answer stored for a question that has not expired, of a turn that is not over, is delivered by the next tick that starts after it and runs to its end, whatever its kv calls for other questions do, unless its own kv call for this question throws. |
| PendingTheorems.DeadKept | packages/ai-runtime/src/aiV2PendingQuestions.ts:252-288 | A step leaves the ended turns without entries and pollers if and only if it is not the resumption of a register past the memory of abandoned turns. |
| PendingTheorems.LateIsPastTheMemory | packages/ai-runtime/src/aiV2PendingQuestions.ts:103-104 | Such a resumption comes at least `ABANDONED_MEMORY_MS` after the turn was abandoned. |
| PendingTheorems.AbandonedStaysAbandoned | packages/ai-runtime/src/aiV2PendingQuestions.ts:345-364 | With puts that resume in time, an abandoned turn never again has an entry or a poller, and each row it left has a delete issued or came from a put that threw. |
| PendingTheorems.LateRegisterArms | packages/ai-runtime/src/aiV2PendingQuestions.ts:252-288 | The run that breaks it: a register suspended in its put for longer than the registry remembers arms a question and a poller for a turn that is over. |
| PendingVerdicts.SwapsExactly | packages/ai-runtime/src/aiV2PendingQuestions.ts:328-334 | A call that has read a row goes on to swap if and only if the row has no answers, its user is this call's, and it asks as many questions as there are answers; else it is answered `not-found`, as it is without a row. |
| PendingVerdicts.AcceptedExactly | packages/ai-runtime/src/aiV2PendingQuestions.ts:318-343 | In every run a call that has answered and did not throw was accepted if and only if it is the one whose swap took effect on its question. |
| PendingVerdicts.AnswerIsAccepted | packages/ai-runtime/src/aiV2PendingQuestions.ts:318-343 | From any state with a fitting row, a call with nothing between its four steps is accepted, and the row then holds exactly its answers and is otherwise as it was. |
| PendingVerdicts.AnswerIsNotFound | packages/ai-runtime/src/aiV2PendingQuestions.ts:318-334 | Without a fitting row such a call is answered `not-found` and writes nothing. |
| PendingVerdicts.DeniedOnlyFor | packages/ai-runtime/src/aiV2PendingQuestions.ts:252-435 | In every run a question is denied only if its turn was ended, its row expired, or a kv call that took its row threw: an unanswered question is left alone. |
| PendingVerdicts.NextTickDenies | packages/ai-runtime/src/aiV2PendingQuestions.ts:394-435 | A question whose row is gone is denied by the next tick that starts and runs to its end, unless its own kv call throws. |
| PendingVerdicts.RefusedExactly | packages/ai-runtime/src/aiV2PendingQuestions.ts:252-264 | In every run a register is refused if and only if its turn was ended within the last minute. |
| PendingVerdicts.RegistrationArms | packages/ai-runtime/src/aiV2PendingQuestions.ts:252-288 | Undisturbed, a question of a turn that is not remembered as over is stored with its user and its number of questions, and is then pending with a poller. |
| PendingVerdicts.EndedMeanwhileArmsNothing | packages/ai-runtime/src/aiV2PendingQuestions.ts:265-271 | A turn that ended while its question's row was being stored arms nothing and has the row deleted. |
| PendingVerdicts.AbandonEndsTheTurn | packages/ai-runtime/src/aiV2PendingQuestions.ts:345-357 | Ending a turn denies each of its pending questions and has its row deleted, stops the poller and remembers the turn for a minute; no other question, poller or row is touched. |
| PendingVerdicts.FailedPollLeaves | packages/ai-runtime/src/aiV2PendingQuestions.ts:404-432 | A poll whose kv call throws leaves its question pending. |
| PendingVerdicts.FailedCallRejects | packages/ai-runtime/src/aiV2PendingQuestions.ts:318-343 | A call that throws rejects; when its swap had gone through all the same, the row holds its answers. |
| PendingInvariants.StepKeeps | packages/ai-runtime/src/aiV2PendingQuestions.ts:226-435 | Every step of the protocol keeps the invariant behind these results. |
| QuestionRegistry.AiV2PendingQuestionRegistry.PruneAbandoned | packages/ai-runtime/src/aiV2PendingQuestions.ts:359-364 | The loop forgets exactly the turns whose memory has run out. |
| QuestionRegistry.AiV2PendingQuestionRegistry.RegisterBegin | packages/ai-runtime/src/aiV2PendingQuestions.ts:252-264 | Refuses exactly the turns still remembered as abandoned, after pruning. |
| QuestionRegistry.AiV2PendingQuestionRegistry.RegisterResume | packages/ai-runtime/src/aiV2PendingQuestions.ts:265-288 | After the put: a turn abandoned meanwhile is denied and its row deleted, else the entry and the poller are there, as the protocol step says. |
| QuestionRegistry.AiV2PendingQuestionRegistry.AbandonTurn | packages/ai-runtime/src/aiV2PendingQuestions.ts:345-357 | The registry's three maps become those of the protocol's abandon step. |
| QuestionRegistry.AiV2PendingQuestionRegistry.TickBegin | packages/ai-runtime/src/aiV2PendingQuestions.ts:394-404 | A tick starts only on an idle poller, with the turn's entries of that moment. |
| QuestionRegistry.AiV2PendingQuestionRegistry.TickGot | packages/ai-runtime/src/aiV2PendingQuestions.ts:404-413 | A missing row denies the entry, a pending one leaves it, an answered one is to be taken, and an entry abandoned meanwhile is left. |
| QuestionRegistry.AiV2PendingQuestionRegistry.TickTook | packages/ai-runtime/src/aiV2PendingQuestions.ts:404-420 | A taken row settles the entry it belongs to. |
| QuestionRegistry.AiV2PendingQuestionRegistry.TickFinish | packages/ai-runtime/src/aiV2PendingQuestions.ts:420-435 | The poller is idle again, and stops when its turn has no entry left. |
| AnswerResult.BuildAnswerPermissionResult | packages/ai-runtime/src/aiV2PendingQuestions.ts:149-178 | The loops file the answers by question text, into an object whose `__proto__` takes no string, and keep the last free text. |
| AnswerResult.LastWins | packages/ai-runtime/src/aiV2PendingQuestions.ts:149-178 | Under each question text but `__proto__` the last answer filed stays. |
| AnswerResult.EveryAnswerKept | packages/ai-runtime/src/aiV2PendingQuestions.ts:149-178 | Every answer reaches the tool if and only if no two questions with the same text have different answers and no question is `__proto__`. |
| AnswerResult.ProtoAnswerIsLost | packages/ai-runtime/src/aiV2PendingQuestions.ts:149-178 | One question whose text is `__proto__`, and its answer is lost. |
| AnswerResult.ToolGetsAnswers | packages/ai-runtime/src/aiV2PendingQuestions.ts:149-178 | The tool's input holds a text if and only if an answered question has it, or its number stands for a missing one as `question_<i>`, and it is not `__proto__`; its value is what the last such question's answer says. |
| AnswerResult.ResponseIsLast | packages/ai-runtime/src/aiV2PendingQuestions.ts:149-178 | The response is the last free text, and there is none if and only if no answer is one. |
| FloatWav.Feed | media-worker/src/peaks.ts:38-47 | What is handed over and what is carried add up to what came in; the carry is a torn frame, the count that of the whole frames. |
| FloatWav.WalkChunks | media-worker/src/peaks.ts:61-84 | The header loop computes the walk over the header read so far, with the format kept from walk to walk. |
| FloatWav.ReadFloatWav | media-worker/src/peaks.ts:28-94 | The streaming reader computes the outcome of the recursive reader of the chunks, of which `FloatWavWriter.WrittenIsRead` says what it makes of a written file. |
| FloatWav.WalkAgain | media-worker/src/peaks.ts:61-84 | Walking again over more bytes from the kept format is walking once from none. |
| FloatWavChunking.ChunkingIndependent | media-worker/src/peaks.ts:28-94 | Two ways of cutting one stream give the same format, frame count, samples or error, given no short `fmt ` chunk and the same verdict on the header cap. |
| FloatWavChunking.ReadsTheWhole | media-worker/src/peaks.ts:28-94 | Whatever the cuts, the outcome is that of the whole stream, or the header ran over the cap. |
| FloatWavChunking.CutAlikeExactly | media-worker/src/peaks.ts:28-94 | Any stream, of any length, reads the same in every cutting on which the header cap says the same if and only if, within the cap, no `fmt ` chunk is too short for its fields or the walk gets past none of them. |
| FloatWavChunking.CutAnywhereExactly | media-worker/src/peaks.ts:28-94 | Any stream reads the same however it is cut if and only if that holds and, for a stream longer than the cap, its header does not come to an end within the cap. |
| FloatWavChunking.StableExactly | media-worker/src/peaks.ts:61-84 | Exactly which streams every prefix of which walks like the whole. |
| FloatWavChunking.SmallChunksDoNotOverflow | media-worker/src/peaks.ts:55-57 | A header that ends within n bytes does not overflow in chunks that leave room for it. |
| FloatWavChunking.ShortFmtExample | media-worker/src/peaks.ts:71-84 | A stream with an empty `fmt ` chunk that gives two different errors in two cuttings. |
| FloatWavChunking.CapCountsChunks | media-worker/src/peaks.ts:55-57 | The header cap counts whole chunks: a stream refused in one piece is read when it is cut. |
| FloatWavChunking.FramesFill | media-worker/src/peaks.ts:38-94 | A torn tail is refused exactly when the data is not a whole number of frames; else frames times frame size is the data's length. |
| FloatWavWriter.WrittenIsRead | media-worker/src/peaks.ts:28-94 | Of every float WAV that an independent writer of the format makes (any rates, block aligns and chunks before and behind the format, tag 3 or extensible with sub-format 3), in every cutting, the reader gives exactly the written channels and rate and the whole frames of the data, and refuses a torn frame; nothing is read if and only if the cap runs out in the chunks that complete the header. |
| FloatWavWriter.RefusedExactly | media-worker/src/peaks.ts:71-84 | Within the cap a written file is refused as no float PCM if and only if its tag, sub-format, bits or channels say so. |
| FloatWavWriter.CutOffIsRefused | media-worker/src/peaks.ts:91-91 | A float file cut off anywhere in its header is refused for its missing data chunk, in every cutting. |
| FloatWavWriter.DataFirstIsRefused | media-worker/src/peaks.ts:65-66 | A data chunk before any format is refused as such, whatever chunks come before it. |
| FloatWavWriter.NotWavExactly | media-worker/src/peaks.ts:57-60 | A stream of twelve bytes or more is refused as no WAV if and only if it does not begin with RIFF, a size and WAVE. |
| LegacyValues.CheckedRowFits | server/scripts/importLegacy.ts:183-195 | A row that passes the checks fits its columns: no NULL where none may be, no NUL in a text; that its values are the source's cells is `ImportCells.ValuesAreCells`. |
| ImportCells.ValuesAreCells | server/scripts/importLegacy.ts:183-194 | A row passes if and only if no column refuses its cell, which is the importer's own for a derived column and else the row's; then each value is that cell (NULL for a missing one, a text, a bigint or safe integer as an integer, a number or a bigint's exact double as a real), and else the error names the first refused cell's column and why. |
| ImportCells.TableIsItsSources | server/scripts/importLegacy.ts:441-517 | A table's checked rows are its sources' rows in order, session after session, a seeded row last, each value its cell; it is refused if and only if a cell is. |
| ImportCells.ImportRefusedExactly | server/scripts/importLegacy.ts:402-526 | The import is refused if and only if a cell of some table's rows is. |
| ImportCells.ImportReadsCells | server/scripts/importLegacy.ts:402-526 | A reader of the stream finds under each table that has rows, in order, one line a source row and in it the text of each column's own raw cell, and last the number of rows that each table was given. |
| ImportCells.HeaderReadsBack | server/scripts/legacyImportSql.ts:337-339 | A table's header reads back as its target and its columns' names, in order. |
| Decimal.IntTextExactly | server/scripts/legacyImportSql.ts:321-331 | The text of an integer is the one numeral without leading zeros that reads as it. |
| CopyText.UnescapeInverts | server/scripts/legacyImportSql.ts:306-311 | Reading an escaped text gives the text back. |
| CopyText.EscapedIsNotNull | server/scripts/legacyImportSql.ts:306-331 | No text is written as the NULL marker. |
| CopyText.RowReads | server/scripts/legacyImportSql.ts:333-335 | One written line is read as one row and is not the end marker. |
| CopyText.RowsReadBack | server/scripts/legacyImportSql.ts:297-335 | A reader of the format finds exactly the rows written, in order, and stops at the end marker: no value ends its field, its line or its block. |
| CanonicalRow.FieldReadsBack | server/scripts/legacyImportSql.ts:348-363 | A field is found whatever text, separators and colons included, is in it or after it. |
| CanonicalRow.CanonicalRowInjective | server/scripts/legacyImportSql.ts:348-371 | Equal row texts mean equal rows. |
| CanonicalRow.RowReadsBack | server/scripts/legacyImportSql.ts:348-371 | A row's text reads as the row, its fields in order. |
| CanonicalRow.LengthCountsBytes | server/scripts/legacyImportSql.ts:348-354 | The length before a text is the number of its bytes in UTF-8 (section 3 of RFC 3629), by an encoder whose bytes decode to the text. |
| Digest.TableDigest.Add | server/scripts/legacyImportSql.ts:375-382 | Adds one row to the table the digest stands for. |
| Digest.TableDigest.Digest | server/scripts/legacyImportSql.ts:383-387 | The digest of the rows added so far. |
| Digest.SameRowsSameDigest | server/scripts/legacyImportSql.ts:375-387 | Any order of adding the same rows gives the same digest. |
| Digest.DigestDecides | server/scripts/legacyImportSql.ts:375-387 | Two digests are equal if and only if the tables hold the same rows, each as often, given a hash of fixed width and no two texts with one hash among those compared. |
| Digest.DigestIs | server/scripts/legacyImportSql.ts:383-387 | The digest is the hash of the rows' hashes, smallest first by their characters, written one behind the other. |
| ImportEmitter.EmitCatalog | server/scripts/importLegacy.ts:441-460 | A catalog table's block, buffered: the stream grows by exactly the block of its checked rows, wherever the 1 MiB flushes fall, and the digest by those rows. |
| ImportEmitter.EmitSession | server/scripts/importLegacy.ts:479-517 | A session table's rows, from all sessions, in one block, or none when there is no row. |
| ImportEmitter.EmitExpected | server/scripts/importLegacy.ts:519-526 | The expected counts are the numbers of rows the digests were given. |
| ImportEmitter.FileReadsBack | server/scripts/importLegacy.ts:441-526 | A reader of a stream of tables finds every table that has rows, in order, and in it exactly the rows written. |
| ImportStream.EmitImport | server/scripts/importLegacy.ts:402-526 | Catalog tables, session tables and expected counts, written to one sink: the stream grows by exactly the text of the checked rows (the sources' cells, by `ImportCells.ImportReadsCells`) and of their counts, the first bad row is the outcome, and every count that a reader finds is the number of rows it finds for that table; the parity file gets the counts and digests of the same rows. |
| ImportStream.ImportReadsBack | server/scripts/importLegacy.ts:441-526 | A reader of that stream finds every table that has rows with exactly its rows, and last the counts. |
| ImportStream.CountsReadBack | server/scripts/importLegacy.ts:519-526 | Each count read is the number of rows read for its table, under the importer's own table names. |
| ImportStream.ParityReadsBack | server/scripts/importLegacy.ts:553-568 | The parity file's lines read back: each table with the number of rows that a reader of the import finds for it and the digest of those rows. |
| ImportEmitter.HeaderIsClean | server/scripts/legacyImportSql.ts:337-339 | A table's header is one line. |
| MergePlan.PlanMerge | media-worker/src/jobs/merge.ts:68-124 | The planner computes the plan: interleaved rows are rebuilt from their originals or refused; which audio each input reads is `MergeKeys.PlainInputs` and `RebuiltInputs`. |
| MergePlan.PlanConserves | media-worker/src/jobs/merge.ts:68-124 | Whenever the plan appends, plainly or rebuilt, its ids are the rows' ids and its windows exactly the rows' effective windows: none lost, doubled or made up. |
| MergeKeys.PlainInputs | media-worker/src/jobs/merge.ts:75-111 | A plain plan takes the rows by start and ordinal; input i reads the blob of row i and carries that row's own seams in media order with their offsets, or its own window at 0. |
| MergeKeys.RebuiltInputs | media-worker/src/jobs/merge.ts:112-123 | Each input of a rebuilt plan carries one seam at offset 0 and reads the row's blob if that is the row's only seam and its source, and else what the trash holds for the seam's source. |
| MergeKeys.RebuiltHasEach | media-worker/src/jobs/merge.ts:112-123 | And every seam of every row has such an input. |
| MergeKeys.InterleavedExactly | media-worker/src/jobs/merge.ts:68-123 | There is no plan if and only if a row has no start, or another row begins between a row's first and last seam and the original of some chunk is missing; a plan is rebuilt if and only if there is such a row. |
| MergeOrder.RebuiltInOrder | media-worker/src/jobs/merge.ts:112-124 | A rebuilt plan is in wall-clock order, whatever the rows and seams were. |
| MergeOrder.SplitExactly | media-worker/src/jobs/merge.ts:99-104 | The test for a split row finds exactly the rows that are not apart. |
| MergeOrder.PlainInOrderExactly | media-worker/src/jobs/merge.ts:68-111 | For well-timed rows the plain plan is in wall-clock order if and only if no row is split. |
| MergeOrder.PlanInOrder | media-worker/src/jobs/merge.ts:68-124 | Every plan for well-timed rows that appends is in wall-clock order. |
| MergeSeams.OffsetSeams | media-worker/src/jobs/merge.ts:255-261 | The loops push the result's seams: each input's, shifted by its start. |
| MergeSeams.NoDrift | media-worker/src/jobs/merge.ts:133-261 | Each input starts within half a millisecond of its exact position, however many come before, and never below 0. |
| MergeSeams.FirstStartsAtZero | media-worker/src/jobs/merge.ts:193-261 | With the first skip as lead, the first offset is 0. |
| MergeSeams.StartsForward | media-worker/src/jobs/merge.ts:255-261 | With no skip longer than its input, offsets never go back. |
| MergeSeams.OffsetsTellExactly | media-worker/src/jobs/merge.ts:133-261 | One rounded offset is less than another if and only if rounding turns between their sample positions. |
| MergeSeams.OffsetsForwardExactly | media-worker/src/jobs/merge.ts:133-261 | The next input's rounded offset is not before this one's if and only if the skip is made good by what follows, or falls within the lead, or rounding does not turn in what it is short of. |
| MergeSeams.LongSkipGoesBack | media-worker/src/jobs/merge.ts:193-261 | With the first skip as lead, a second chunk shorter than its own skip starts after the third: offsets 0, 20 and 16. |
| MergeSeams.MillisecondApart | media-worker/src/jobs/merge.ts:133-261 | Inputs a millisecond apart get strictly increasing offsets. |
| MergeAccept.AcceptWindows | packages/session-core/src/audioStore.ts:675-685 | The store's test: as many different starts as windows, exactly the expected ones, and offsets that strictly increase in window order within the duration. |
| MergeAccept.MergePassesExactly | packages/session-core/src/audioStore.ts:639-685 | For well-timed rows, the store accepts the seams of a planned merge if and only if the windows' starts differ, each input's offsets rise, each input's last window lies before the later inputs' first ones as rounded, and all lie within the duration. |
| MergeSeams.MergeConserves | media-worker/src/jobs/merge.ts:68-261 | From rows to result: the merged segment's seams carry exactly the rows' windows. |
| MergeSeams.PositionIsHeard | media-worker/src/jobs/merge.ts:186-261 | What is heard of the merged audio from an input's position on is that input's audio from its own skip on: the merged samples are the inputs', played from the lead. |
| MergeSeams.StartsWithinLead | media-worker/src/jobs/merge.ts:258-258 | An input that starts within the lead has offset 0. |
| MergeSeams.SeamIsMoved | media-worker/src/jobs/merge.ts:255-261 | Each input's seam is in the result once, in its place and with its window, its offset moved by the input's start, and nothing else is. |
| Adopt.Installer.MakeParents | scripts/lib/adopt.py:177-191 | Missing parents are made and recorded outermost first; below a file it fails with nothing changed, and cut short it leaves a directory unrecorded if and only if the cut is between making and recording it. |
| Adopt.Installer.Write | scripts/lib/adopt.py:177-196 | Create-only: an existing path is skipped, a written file is recorded with every directory made for it, and a write that raises leaves an unrecorded path if and only if it was cut between a create and its record. |
| AdoptInstall.WriteKeeps | scripts/lib/adopt.py:177-196 | Every whole write keeps the tree and the manifest in step. |
| AdoptInstall.ToolKeepsExactly | scripts/lib/adopt.py:242-249 | An outside tool's additions are in step with the manifest if and only if all of them are under the watched directories. |
| AdoptInstall.ThroughExactly | scripts/lib/adopt.py:177-241 | The template is written through if and only if no file is in the way of an entry and the changes last for all of it. |
| AdoptTemplate.TemplateLands | scripts/lib/adopt.py:177-241 | After a template that no file blocks, a path that was there is as it was, a new one is the file of the first entry that names it, with its data and mode, or a directory that an entry lies in, and there is nothing else. |
| AdoptTemplate.BlockedTemplateExactly | scripts/lib/adopt.py:177-196 | A template is blocked if and only if a file lies above one of its paths: one that was there, or one that an earlier entry put there. |
| AdoptInstall.RunTool | scripts/lib/adopt.py:242-249 | The tool may fail after adding paths, which then stay unrecorded; else exactly as many of its watched additions are recorded as the changes last for, and nothing is left unrecorded if and only if it added nothing, or succeeded, kept to the watched directories and all was recorded. |
| AdoptInstall.Install | scripts/lib/adopt.py:212-264 | Install refuses over an existing adoption folder; else the tree, the template, the tool and the changes that go through decide where it ends, and tree and manifest are in step if and only if they are such that no create is cut from its record and the tool leaves nothing unrecorded. |
| AdoptInstall.WatchedIsAll | scripts/lib/adopt.py:232-249 | When the template writes below every watched directory, a tool that adds only in them leaves nothing unrecorded. |
| AdoptUndo.Undo | scripts/lib/adopt.py:375-398 | Undo refuses without a manifest or with a line it does not accept and then changes nothing; else it leaves exactly the undone tree. |
| AdoptUndo.RemoveDirs | scripts/lib/adopt.py:389-396 | Of the listed directories, deepest first, exactly those that end up empty go. |
| AdoptUndo.UndoLeaves | scripts/lib/adopt.py:375-398 | Undo leaves the original tree, what was not recorded, and the directories that hold it. |
| AdoptUndo.UndoInverts | scripts/lib/adopt.py:375-398 | Undo gives the original tree back if and only if nothing was left unrecorded. |
| AdoptUndo.InstallThenUndo | scripts/lib/adopt.py:212-398 | Install, whole or cut short anywhere, and then undo: undo accepts the manifest if and only if no recorded addition of the outside tool has a name that undo never touches, and then the tree is the original one if and only if the inputs are such that install records all it creates. |
| AdoptUndo.ToolFailureOutlivesUndo | scripts/lib/adopt.py:242-249 | A tool that fails after making a directory: undo leaves the directory. |
| AdoptUndo.CutWriteOutlivesUndo | scripts/lib/adopt.py:192-195 | A write cut after its exclusive open: undo leaves the file. |
| AdoptUndo.UndoKeepsUsersFiles | scripts/lib/adopt.py:375-398 | With a user's later additions, undo leaves the original tree and those, and of the created directories exactly the ones that contain them. |
| MediaApplyInvariants.BaseKeeps | server/src/mediaApply.ts:234-310 | Every step of the machine, in whatever order, keeps who may name which key and that the sweep sees every merge that is not over as pending or young. |
| MediaApplySafety.RowLosesItsBlobExactly | server/src/startupPurge.ts:372-427 | At any moment of any run in which every row has its blob, the next step costs a row its blob if and only if it is an insert, an ingest commit or a merge swap that names a key without a blob, or a sweep look that moves a key which a row has come to name since the sweep read the session. |
| MediaApplySafety.AlwaysStockedExactly | server/src/mediaApply.ts:234-310 | Over a whole run, all that rows name and that uploads and applies are about to name is there at every moment if and only if the sweep never moves such a key and no uncopied merge is swapped in. |
| MediaApplySafety.RowsAlwaysHaveBlobs | server/src/mediaApply.ts:234-310 | In every run with crashes, throws, retries, uploads, deletions and sweeps between any two steps, every segment row names a blob that is there, if no blob about to be named is an hour old under a running sweep and no uncopied merge is swapped in. |
| MediaApplySafety.StepKeeps | server/src/mediaApply.ts:234-310 | Every step but those two keeps the invariant behind that. |
| MediaApplySafety.TrashTouchesNoRow | server/src/mediaApply.ts:223-232 | In every run, what an apply trashes no row names, and no row, upload or merge will. |
| MediaApplySafety.SweepSparesRowsAndMerges | server/src/startupPurge.ts:372-427 | In every run the sweep spares the copies of merges that are not over; the blobs of rows it spares in the runs of `RowsAlwaysHaveBlobs`, and not in all. |
| MediaApplySafety.SwapKeepsRowsExactly | packages/session-core/src/audioStore.ts:624-736 | The merge transaction leaves every row its blob if and only if it is not a swap whose read had seen other segments (so that nothing was copied), or the copy is there from before. |
| MediaApplySafety.LookThenCommitExactly | server/src/startupPurge.ts:395-420 | A sweep look before an ingest commits costs the row its blob if and only if it moves the very copy the row is about to name. |
| MediaApplySafety.CommitThenLookExactly | server/src/startupPurge.ts:395-420 | So does a look after the commit, by a sweep that read the session before it. |
| MediaApplySafety.LookThenInsertExactly | server/src/startupPurge.ts:395-420 | A sweep look before an upload inserts its row costs the row its blob if and only if it moves that upload's blob. |
| MediaApplySafety.InsertThenLookExactly | server/src/startupPurge.ts:395-420 | So does a look after the insert, by a sweep that read the session before it. |
| MediaApplySafety.RetryFinishes | server/src/mediaApply.ts:234-265 | After a crash between copy and commit, the retry copies nothing again, the row names the FLAC, and the replaced key goes to the trash. |
| MediaApplyOutcomes.MergeFinishes | server/src/mediaApply.ts:266-306 | A merge that is due, with its file or its copy there, finishes when nothing comes between: the merged row in its inputs' place, the copy under a key with the first input's ordinal, the job applied, and of the blobs exactly those that the inputs named gone. |
| MediaApplyOutcomes.MergeEnds | server/src/mediaApply.ts:286-310 | How the transaction ends that puts no row in place: deferred under a run lease, cancelled when the segments are others, failed when the windows are, with a copy that was made trashed, or nothing for a job that is over. |
| MediaApplyOutcomes.CopiesExactly | server/src/mediaApply.ts:276-285 | The result is copied if and only if the segments read are the job's inputs, under the first segment's ordinal, or 1. |
| MediaApplyOutcomes.IngestFinishes | server/src/mediaApply.ts:234-261 | An ingest with a FLAC, undisturbed: the row names the FLAC and is otherwise as it was, the copy is there, the blob it named is gone, the job is applied. |
| MediaApplyOutcomes.IngestWithoutFlac | server/src/mediaApply.ts:234-261 | Without a FLAC, or with one that the row names already, nothing is copied, renamed or trashed, and the job is applied. |
| MediaApplyOutcomes.IngestEnds | server/src/mediaApply.ts:251-263 | A row that is gone cancels the job and trashes the copy; a job that is over changes nothing. |
| MediaApplyOutcomes.TrashEmpties | server/src/mediaApply.ts:223-231 | The trash loop, when every move succeeds, takes exactly the keys' blobs. |
| MediaApplyOutcomes.SweepMovesOrphans | server/src/startupPurge.ts:372-427 | An undisturbed sweep of a session moves exactly the blobs that none of its rows names, that no pending merge made, and that are an hour old. |
| MediaApplyRaces.MergeCanSwapUncopied | server/src/mediaApply.ts:281-299 | A run without crash or sweep: a chunk deleted between the apply's read and its transaction makes the row name a blob that was never copied. |
| MediaApplyRaces.SweepCanOvertakeIngest | server/src/startupPurge.ts:376-420 | A run in which the boot sweep takes an hour-old FLAC copy that the retried ingest then names. |
| MediaApplyRaces.SweepCanTrailIngest | server/src/startupPurge.ts:395-420 | A run in which the retried ingest names the copy and the sweep, which read the session before, then takes it. |
| MediaApplyRaces.SweepCanOvertakeUpload | server/src/startupPurge.ts:376-420 | A run in which the boot sweep takes the hour-old blob of an upload that then inserts its row. |
| MediaApplyRaces.SweepCanTrailUpload | server/src/startupPurge.ts:395-420 | A run in which such an upload inserts its row and the sweep then takes the blob. |
| AiChatRelay.Emitter.Emit | packages/ai-runtime/src/aiTurnOrchestrator.ts:111-124 | Nothing is sent after a terminal event. |
| AiChatRelay.ProcessLine | packages/ai-runtime/src/aiChatRelay.ts:73-130 | One line: what it emits, the session id it leaves, and the outcome of a result line. |
| AiChatRelay.RelayTurn | packages/ai-runtime/src/aiChatRelay.ts:139-184 | The line loop tells the client exactly the script, of which `ScriptTells` says what it is, and answers its outcome. |
| AiChatRelay.SpokenIsPublic | packages/ai-runtime/src/aiChatRelay.ts:89-105 | Whatever is spoken is the text of a non-empty text block, or the name of a tool block without the server's prefix, of some assistant line. |
| AiChatRelay.SpokenInOrder | packages/ai-runtime/src/aiChatRelay.ts:89-105 | Every text and tool block of the assistant lines is spoken, each once and in order, and nothing else. |
| AiChatRelay.ScriptTells | packages/ai-runtime/src/aiChatRelay.ts:89-184 | The client is told those blocks of the lines before the first result, and then the session of a success or the fixed detail of a failure. |
| AiChatRelay.HiddenIsPrivate | packages/ai-runtime/src/aiChatRelay.ts:100-103 | The content of hidden blocks changes nothing of what the client is told, nor of the outcome. |
| AiChatRelay.RefusedExactly | packages/ai-runtime/src/aiChatRelay.ts:107-184 | A turn fails as not logged in if and only if its child ended without a result or a spawn error and with a login message; as upstream failed if and only if the first result is an error, or without one the child started, gave no login message and did not exit with 0; every other failure is internal. |
| AiChatRelay.ScriptEndsOnce | packages/ai-runtime/src/aiChatRelay.ts:107-184 | The relay emits one terminal event, its last. |
| AiChatRelay.AfterResultIsMuted | packages/ai-runtime/src/aiChatRelay.ts:154-172 | Nothing after the first result line changes what the client sees or the outcome. |
| AiChatRelay.SucceedsExactly | packages/ai-runtime/src/aiChatRelay.ts:107-125 | A turn succeeds if and only if its first result line is no error and there is a non-empty session id: that of the last init line before it, or without one its own. |
| AiTurn.NothingAfterTheEnd | packages/ai-runtime/src/aiTurnOrchestrator.ts:111-124 | In every race of relay, timeout and disconnect, at every moment, at most one terminal event has been sent and nothing after it. |
| AiTurn.FinishedInOrder | packages/ai-runtime/src/aiTurnOrchestrator.ts:142-193 | An ended turn sent what it sent, then terminated the subprocess side once, then cleaned up once. |
| AiTurn.CleanupSkippedExactly | packages/ai-runtime/src/aiTurnOrchestrator.ts:187-193 | In a turn whose relay was started, the cleanup is skipped if and only if the relay threw and so did terminating. |
| AiTurn.CleanupCanBeSkipped | packages/ai-runtime/src/aiTurnOrchestrator.ts:187-193 | A run in which the relay throws, terminating throws, and the cleanup is skipped. |
| AiTurn.AllowListHolds | packages/ai-runtime/src/aiV2SdkSpawn.ts:446-464 | Through the design turn's scrub an error reaches the client as one of the fixed details and nothing else, whatever detail and other data the relay gave it. |
| AiTurn.TurnClientSees | packages/ai-runtime/src/aiTurnOrchestrator.ts:111-193 | What any turn that ended has told its client: the relay's events of before the race was decided, in order up to the first done or error, each as its scrub shows it, and then the timeout if that won before an end was told. |
| AiTurn.ScrubExactly | packages/ai-runtime/src/aiV2SdkSpawn.ts:446-464 | The allow-list leaves every event but an error as it is; an error keeps one of its four details alone, and any other is an internal error. |
| AiTurn.ChatClientSees | packages/ai-runtime/src/aiChatRunner.ts:424-436 | A chat client sees the relay's script up to the moment the race was decided, all of it when the relay won, and the timeout exactly when it won over an unfinished relay. |
| AiTurn.ChatEndsOnce | packages/ai-runtime/src/aiChatRunner.ts:424-436 | A chat client is told the end exactly once, unless it had left before the relay was done, and then not at all. |
| AiTurn.AnswerExactly | packages/ai-runtime/src/aiTurnOrchestrator.ts:142-193 | The answer is the relay's outcome, a timeout or an abort by who won, and none if and only if terminating threw. |
| AiTurn.RelayIsAwaited | packages/ai-runtime/src/aiTurnOrchestrator.ts:142-193 | A turn that awaits its relay is not over before the relay is, unless terminating threw. |
| AiTurn.ClientCanLeave | packages/ai-runtime/src/aiTurnOrchestrator.ts:142-193 | Every chat turn has a run in which the client leaves before it hears anything: it is told nothing, and the answer is an abort. |
| AiTurn.TimerCanFire | packages/ai-runtime/src/aiTurnOrchestrator.ts:142-193 | Every chat turn has a run in which the timer fires first: the client is told the timeout alone, and that is the answer. |
| AiTurn.ChatCanFinish | packages/ai-runtime/src/aiChatRunner.ts:424-436 | Every chat turn has a run to its end that answers the relay's own outcome. |
| AiTurn.ChatAnswersAsTold | packages/ai-runtime/src/aiChatRunner.ts:424-436 | The turn's answer is what the client was told if and only if the relay won, or the timeout won over an unfinished relay. |
| AiTurn.ChatCanAnswerOtherwise | packages/ai-runtime/src/aiChatRunner.ts:424-436 | Every chat whose result line was told has a run in which the timer fires before the child exits, and the answer is a timeout that the client was never told. |
| WorkerLease.ProcKeeps | media-worker/src/main.ts:179-270 | Every step of an attempt keeps what an attempt keeps by itself. |
| WorkerLeaseSafety.OneStatementAtMost | media-worker/src/main.ts:216-270 | At most one of finish, fail and release is issued by an attempt. |
| WorkerLeaseSafety.IssuedAfterLossExactly | media-worker/src/main.ts:216-270 | A finish is never issued once the lease was seen lost; a fail or release is if and only if the news came while the files were being removed. |
| WorkerLeaseSafety.FilesOutliveOnlyAFinish | media-worker/src/main.ts:216-270 | An attempt's files outlive it only if it died, a removal failed, or its finish was accepted or threw. |
| WorkerLeaseSafety.LateStatementIsRefused | packages/storage/src/mediaJobs.ts:207-271 | A statement issued after the loss was seen changes nothing of the job, when every worker claims alone. |
| WorkerLeaseSafety.ResultLosesItsFilesExactly | media-worker/src/main.ts:179-270 | At any moment of any run, the step that leaves an accepted result without its files is another live attempt with the finisher's number writing or removing a file, whether or not its removal then fails, or the acceptance of a finish whose files were already gone; and no other step is. |
| WorkerLeaseSafety.ResultFilesStay | media-worker/src/main.ts:179-270 | In every run in which no two live attempts share a number, the files of an accepted result are there as the attempt that finished wrote them. |
| WorkerLeaseSafety.AloneMeansDistinct | media-worker/src/main.ts:179-270 | Workers that claim a job only while no attempt of their own is on it never share a number. |
| WorkerLeaseOutcomes.ResultIsFinished | media-worker/src/main.ts:234-243 | An attempt that holds the lease and whose result fits finishes the job, with its files left where they are. |
| WorkerLeaseOutcomes.NoResultIsTold | media-worker/src/main.ts:224-262 | Any other end removes the attempt's files and then tells the job: queued again and not counted for a shutdown or a job given back, failed for a result too big or a final failure, queued again for any other failure. |
| WorkerLeaseOutcomes.LostSaysNothing | media-worker/src/main.ts:219-223 | An attempt that has heard of its lost lease removes its files and tells the queue nothing. |
| WorkerLeaseOutcomes.StatementExactly | packages/storage/src/mediaJobs.ts:207-271 | A statement changes the job's row if and only if it reaches the queue while the worker holds the lease, whether or not its answer arrives, and then as its kind says. |
| WorkerLeaseOutcomes.RenewTellsExactly | media-worker/src/main.ts:183-193 | A renewal tells of a loss if and only if the lease is no longer the worker's, and changes nothing of the job. |
| WorkerLeaseOutcomes.RefusedCleansUp | media-worker/src/main.ts:263-266 | After a refused statement the files go and nothing more is said. |
| WorkerLeaseRaces.TwoLanesMayDiffer | media-worker/src/main.ts:179-270 | A run in which two lanes of one worker are on the job at once, after a lease that ran out, and have two numbers. |
| WorkerLeaseRaces.ReleaseAfterLossHappens | media-worker/src/main.ts:222-233 | A run in which a release goes out after the loss was seen. |
| WorkerLeaseRaces.TwoLanesLoseTheResult | packages/storage/src/mediaJobs.ts:34-34 | A run of one worker's two lanes that ends with a done job whose files are gone: the fence knows the worker, not the attempt, and a release hands its number out again. |
| AttemptFiles.JobDir.RemoveAttemptFiles | media-worker/src/output.ts:64-78 | Removes from the shared directory exactly what is this attempt's. |
| AttemptFiles.NameExactly | media-worker/src/output.ts:30-37 | An output is named by its base, its attempt's mark and its extension if and only if the number is a safe one and the name is of at most 128 letters, digits, `_`, dots and dashes, with no dot or dash in front and no two dots together. |
| AttemptFiles.IsMineIsMarked | media-worker/src/output.ts:64-78 | Deciding at the last dot is what the removal's pattern means. |
| AttemptFiles.RemovesOwnExactly | media-worker/src/output.ts:30-78 | With an extension of letters and digits, attempt j removes attempt i's file if and only if i = j. |
| AttemptFiles.RemovesExactly | media-worker/src/output.ts:30-78 | With any extension the name check lets through: its own attempt when the extension is plain, and whichever attempt the extension is disguised as. |
| AttemptFiles.ScratchExactly | media-worker/src/output.ts:39-41 | A scratch directory is one attempt's only. |
| AttemptFiles.DisguiseHappens | media-worker/src/output.ts:30-37 | A two-part extension that another attempt removes. |
| Glob.GlobRe | scripts/lib/check_change.py:50-65 | The index loop writes the text of the glob's pieces, read left to right. |
| GlobMeaning.CompiledMeansGlob | scripts/lib/check_change.py:50-69 | For every glob and path, the text is a regular expression, and it accepts the path if and only if the glob, read directly, matches it. |
| GlobMeaning.NoDoubleStarKeepsDepth | scripts/lib/check_change.py:50-65 | Without `**` a glob matches only paths with as many slashes. |
| GlobMeaning.DoubleStarTakesExactly | scripts/lib/check_change.py:56-57 | A trailing `**` takes exactly the rests without a newline. |
| GlobMeaning.AnyTakesExactly | scripts/lib/check_change.py:56-57 | A `**` takes anything up to the next newline, and then what follows it in the glob matches. |
| GlobMeaning.DirsTakeExactly | scripts/lib/check_change.py:53-55 | A `**/` takes nothing, or anything up to a slash before the next newline, and then what follows it in the glob matches. |
| Mp4Boxes.Mp4MoovOrder | media-worker/src/sniff.ts:54-83 | The loop ends on any bytes and computes the walk. |
| Mp4Boxes.MoovOrderIsOrder | media-worker/src/sniff.ts:54-83 | On a file that is a list of top-level boxes (section 4.2 of ISO/IEC 14496-12) the answer is the list's, looking at its first 10,000 boxes. |
| Mp4Boxes.AnswerHasBoxes | media-worker/src/sniff.ts:54-83 | On any bytes the answer is that of boxes that stand at the front of the file, one after the other. |
| Mp4Boxes.FileBytesAreFile | media-worker/src/sniff.ts:62-76 | Every list that the format can state is such a file: its own bytes. |
| Csv.SplitCsvLine | server/scripts/blobSegmentRows.ts:27-53 | The loops compute the fields of a line. |
| Csv.SplitUndoesPrint | server/scripts/blobSegmentRows.ts:27-53 | Splitting undoes printing with the quoting of section 2 of RFC 4180, whichever fields are quoted. |
| Csv.PrintableExactly | server/scripts/blobSegmentRows.ts:27-53 | An unquoted field reads back if and only if it has no comma and does not start with a quote. |
| Csv.ParseSegmentsCsv | server/scripts/blobSegmentRows.ts:56-70 | The table loop: header check, empty lines skipped, the first line without three fields reported. |
| Csv.TableReads | server/scripts/blobSegmentRows.ts:56-70 | A printed table without line feeds reads as its rows, with either line ending, but for a carriage return that stands outside quotes before a bare line feed. |
| Csv.TableReadsBack | server/scripts/blobSegmentRows.ts:56-70 | A printed table of any rows reads back whole if and only if no field holds a line feed, quoted or not, and, with bare line feeds, no row ends with a carriage return outside quotes. |
| Csv.BadLineExactly | server/scripts/blobSegmentRows.ts:56-70 | A table is refused for line k if and only if k is its first line behind the header that is neither empty nor of three fields. |
| Csv.BadHeaderExactly | server/scripts/blobSegmentRows.ts:56-63 | A printed header without commas in its names is refused if and only if it is not the three names in their order. |
| SpaceReservation.ConvertCtx.Admit | server/scripts/convertWavToFlac.ts:430-441 | Admits exactly when the minimum, all reservations and the new size fit, and then reserves the size. |
| SpaceReservation.ConvertCtx.Release | server/scripts/convertWavToFlac.ts:463-464 | Gives the size back. |
| SpaceReservation.ReservedIsSum | server/scripts/convertWavToFlac.ts:430-470 | In every interleaving the counter is the sum of the WAV sizes in flight. |
| SpaceReservation.FreeStaysAbove | server/scripts/convertWavToFlac.ts:430-470 | Once any conversion was admitted, free space covers the minimum and all that is still to be written, short only by what FLACs exceed their WAVs. |
| SpaceReservation.RoomToWrite | server/scripts/convertWavToFlac.ts:430-470 | No write within a reservation can find the disk full or take free space below the minimum. |
| SpaceReservation.LargeFlacDips | server/scripts/convertWavToFlac.ts:429-436 | Admitted with no room to spare, a conversion takes free space below the minimum if and only if its FLAC is larger than its WAV, and then by the excess. |

## Left out

- PendingTheorems.AbandonedStaysAbandoned: assumes that a put resumes within the memory of abandoned turns; `DeadKept` says exactly what happens otherwise.
- FloatWavChunking.ChunkingIndependent: assumes that both cuttings get the same verdict on the 1 MiB header cap, since that counts whole chunks.
- MediaApplySafety.RowsAlwaysHaveBlobs: assumes that no race of MediaApplyRaces happens, without which it is false; `RowLosesItsBlobExactly` says exactly which step then costs a row its blob, and `AlwaysStockedExactly` in which runs nothing is ever missing.
- WorkerLeaseSafety.ResultFilesStay: assumes that no two live attempts share a number, without which it is false; `ResultLosesItsFilesExactly` says exactly which step then loses the files.
- Digest.DigestDecides: MD5 is any function to texts of one width; the case that two compared texts share a hash is named, not excluded.
- MergeOrder.PlainInOrderExactly: assumes distinct row starts, each equal to the row's first seam, and seams whose offset order is their time order.
- PendingQuestions: request ids are fresh; keys are triples (JsonKeys shows that their texts do not meet); rows are values, not their JSON text; one registry with any number of answering processes.
- CopyText and CanonicalRow: the decimal text of a real is any text of plain characters, its canonical form its 64 bits; NaN, lone surrogates and the SQL side of both formats are not modelled.
- ImportStream: the SQL around the COPY blocks (scope ids, collision checks, commit), the parity checks and the blob lists.
- MergePlan: timestamps are integers, so that comparing them as text is comparing the instants; peaks and verification of the merged samples are not modelled.
- AiTurn.CleanupSkippedExactly: is about turns whose relay was started: a `runRelay` that throws at once leaves before the `try`, with neither terminate nor cleanup; both callers pass relays that are async functions and cannot.
- Adopt, AdoptInstall and AdoptUndo: trees without symbolic links, so that `allowed` always holds; a name holds no line break; the folder and its empty manifest are made in one step, and a manifest line is written whole or not at all; the dry run; the outside tool only adds paths; modes and contents are opaque values.
- MergeAccept: the windows that the store expects are those of the rows the plan was made from, as long as nothing changed in between; offsets are integers.
- MediaApply: rows made from blob listings (`syncAudioFromBlobs`), result validation, waveforms and the order of a recording's segments; stat and rename of one sweep step are one step; windows are accepted or refused by an arbitrary flag; the pass loop's `busy` and `again` flags.
- AiChatRelay: JSON parsing of a line and the matching of login failures are done before the model; the design turn's own message relay.
- AiTurn: timers and signals may fire at any moment; a transport that throws is a transport that sends.
- WorkerLease: leases expire at any moment, retry counts and backoff are not modelled, and one job is followed at a time; lanes, low disk and heartbeats.
- Mp4Boxes: reads are whole, up to 16 bytes; `sniffContainer` and `opusPreSkip`.
- Csv: `runPool` and the checks of ids and paths.
- SpaceReservation: no other writer on the volume; the existing-FLAC and cleanup paths.
- ffmpeg, yt-dlp, Postgres statements as text, HTTP wiring, the web and Companion modules: foreign processes, plumbing and UI.
