# Verified model of the document render service

This project models three parts of the service in Dafny and proves what they are for.

**The render-job ownership protocol.** Many attempts (threads, restarted processes, workers that stall
and wake up late) share one row per job. `RenderStore` is the store as a class, one method per atomic
conditional write. `RenderExecution` is the slot limiter. `ArchiveHandoff` is the delivery of a
rendered document to an Archive whose commit state may be unknown, `ArchiveMetadata` what is handed
over with it, `ArchiveDetail` the text recorded of how it went. `RenderProtocol` is the state machine
over all of them: any number of attempts, each with a program counter, interleaved step by step with
faults, crashes (an attempt that is never scheduled again), takeovers, an engine whose result is not
determined, and an Archive that answers truthfully or not at all. `RenderInvariant` proves one
inductive invariant over every event, `RenderSafety` derives the safety claims over whole runs, and
`RenderFailClosed` says exactly when an attempt that ends leaves its claim settled. `RenderCourse`
defines where the protocol takes one submission for given clocks, faults, engine, Archive answers and
moves of others; `RenderSubmission` is the service's own code, method by method, each proved to take
exactly that course while other workers move between any two calls. `Timestamps` ties the takeover
test, which compares texts in SQL, to the operator's "stale" verdict and to time.

**The custody lineage and the rows of the composite workbook.** `AmendmentLineage` is the validator of
the hash-linked chain of corrections (both schemes) and the global facts its local checks buy.
`ScalarPointers`, `HistoricalRows` and `EligibilityRows` enumerate JSON leaves and nested occurrences
into tables. `MemberOrder` says when the insertion-ordered listing of `amendment_tables.py` survives a
reordering of object members, exactly when the members that lead to scalars stand in the same order at
every object (`MemberOrder.ListingsAgreeIffSameOrder`), and why a dump in declared field order always
does; `AmendmentRows` carries that to the whole amendment table, which any replay of the dataset leaves
as it was (`AmendmentRows.AnyReplayKeepsTheRows`). `EligibilityPopulation`, `NumericDisplay`,
`WorkbookCapacity` and `WorkbookFingerprint` are the population checks, the rounding, the preflight and
the fingerprint framing.

**Algorithms against a simple specification.** `StructuralCeilings` (the explicit-stack payload walk,
which never looks at a key), `TypstText` (the two escapers and the placeholder substitution),
`Allocation`, `AllocationFolding` and `DonutChart` (figures conserved from rows to ring), `MakeTargets`
(the worklist closure).

`DecimalText`, `Repetition`, `TextSort`, `TextReplace`, `StableSort`, `RowIdentity`, `Utf8`, `Json` and
`Wrappers` hold what several of these share. `dafny verify dfyconfig.toml` checks everything.

How the environment is modelled: a package is identified with its hash, and the digests are
uninterpreted functions (the lineage theorem takes collision freedom of the content digest as a
hypothesis); clocks, faults, engine results, Archive answers and the moves of other workers are
parameters, quantified over by every theorem; angles and allocation figures are reals. What the
theorems assume of Archive is that it answers about the record it holds (`Truthful`) and, where stated,
that a 4xx is a deterministic judgement of the content (`Judged`).

Results where the code and its own text part ways, each with an exact condition:

- Fail-closed has two holes. An attempt that ends leaves the generation it was granted settled or taken
  over unless its claim landed and the claim call then raised, or its failure write never reached a row
  it could have failed: exactly then not (`RenderFailClosed.ExitStrandsExactly`; the runs are
  `RenderFailClosed.LostClaimStrands` and `RenderFailClosed.LostFailureStrands`). The claim call stands
  outside every handler, so an attempt can be granted a generation it never hears of. A job so left is
  freed by a takeover and by nothing else (`RenderFailClosed.OnlyATakeoverFrees`).
- `archive_failed` proves that nothing was committed only under the header's assumption that a
  refusal judges the content. Without it, it does so exactly when no retryable answer preceded the
  refusal (`ArchiveHandoff.FailedProvesAbsenceIff`); a 503 that committed followed by a 429 is the
  counterexample (`ArchiveHandoff.CommittedYetFailed`).
- A custody block never overrides a fact Render states, but it speaks for Render about the template
  digest and the template publication exactly when it names one that the engine does not supply
  (`ArchiveMetadata.CustodyCannotOverride`, with `ArchiveMetadata.UnsuppliedFactsPassThrough`). Both
  shipped engines supply both; the diagnostic they fill declares them optional
  (`src/app/domain/rendering/models.py:21-22`), so the input needs another engine behind that port.
- The text order of stored times is the time order except for two times of one second of which
  exactly one has no fraction; there it is reversed (`Timestamps.TextOrderIsTimeOrder`, with
  `Timestamps.UnevenPair`). The two stale tests then disagree, and by less than a second
  (`Timestamps.TakeoverMatchesVerdict`).
- The detail of a pending outcome ends in the recovery it is waiting for, unless its reason is too long:
  the whole text is there exactly when the reason, told by the call's own deliveries, has at most 467
  characters (`ArchiveDetail.PendingNamesItsRecovery`). One answered 503 with a message of 500 characters
  records a pending outcome whose text says nothing of it (`ArchiveDetail.RecoveryIsCutOff`).
- `resolve_pointer` ignores whatever stands before the first slash
  (`ScalarPointers.TextBeforeTheSlashIsIgnored`) and reads an array index in any decimal digits, so that
  `/1` followed by an Arabic-Indic zero finds the eleventh item (`ScalarPointers.OtherDigitsAreRead`).
  Respelled in ASCII digits and without that prefix, it accepts exactly the spellings of the document's
  paths (`ScalarPointers.ResolvesIffSpelled`, for any reading of digits that agrees on ASCII).
- An escaped value is read in markup as itself, but not always inert: exactly its own quotes, and a full
  stop behind a number that opens a line, stay live (`TypstText.EscapeTypstText`), so nothing is live if
  and only if it has neither (`TypstText.NothingLiveIff`, with `TypstText.SomethingStaysLive`). The
  escaper's text says so of both, next to its claim that the document says what the data said.
- A zero written with a large exponent is refused for size (`NumericDisplay.ZeroCanBeTooLarge`).
- The donut's ring closes exactly when the slices reach a hundred or miss it by more than the drawing
  tolerance (`DonutChart.RingCloses`); one slice of 99.9999999999 leaves it open
  (`DonutChart.RingStaysOpen`).

One fact holds only through a check made elsewhere:

- The population checks take plain dictionaries and by themselves accept a member of a fourth status, whom
  none of the three counts counts (`EligibilityPopulation.FourthStatusIsAccepted`); with the contract's
  three statuses the counts add up (`EligibilityPopulation.KnownStatusesAddUp`). No call in the repository
  passes an unvalidated status: the one call site is
  `src/app/services/composite_workbook/eligibility_source.py:96`, reached only below `validate_dataset`
  (`src/app/services/composite_workbook/source_cells.py:150-191`), after the contract types have read the
  dataset or, for v7, after the JSON Schema that lists the three has
  (`src/app/services/composite_workbook/historical_source.py:43-44`).

## Model

| member | source | states |
|---|---|---|
| RenderStore.Store.CreateOrGet | src/app/infrastructure/render_store.py:182-277 | a new key inserts an accepted job with generation 0 and reports it created; an existing key changes nothing and is returned, or is a conflict when the package or tenant differs |
| RenderStore.Store.Get | src/app/infrastructure/render_store.py:102-127 | reads are tenant scoped: another tenant's job, or an unattributed one, is not found |
| RenderStore.Store.ClaimForRendering | src/app/infrastructure/render_store.py:279-333 | claims exactly an accepted job or a rendering one whose text timestamp is at or before the cutoff, bumping the generation; otherwise nothing changes |
| RenderStore.Store.MarkRendered | src/app/infrastructure/render_store.py:335-355 | lands exactly on a rendering job of the caller's generation; a refusal names a wrong status or a stale claim and changes nothing |
| RenderStore.Store.MarkFailed | src/app/infrastructure/render_store.py:357-382 | lands exactly on an accepted or rendering job of the caller's generation; a refusal changes nothing |
| RenderStore.Store.RecordArchiveOutcome | src/app/infrastructure/render_store.py:384-441 | writes the custody columns exactly when the generation is the row's, whatever the status |
| RenderStore.AnyHistoryIsFenced | src/app/infrastructure/render_store.py:443-529 | over any history of claims and fenced writes by any callers: the generation grows by one per granted claim, settled columns stay, at most one terminal write lands |
| RenderStore.SupersededWritesAreInert | src/app/infrastructure/render_store.py:294-302 | once a newer claim exists, no write of an older generation changes any column, however long it waits |
| RenderExecution.RenderExecutionLimiter.constructor | src/app/services/render_execution.py:8-13 | all slots free, none held, none drained |
| RenderExecution.RenderExecutionLimiter.Acquire | src/app/services/render_execution.py:18-19 | never waits: succeeds exactly when a slot is free, and takes that one |
| RenderExecution.RenderExecutionLimiter.Release | src/app/services/render_execution.py:21-22 | gives one slot back; free, held and drained still sum to the limit |
| RenderExecution.RenderExecutionLimiter.Drain | src/app/services/render_execution.py:24-40 | whatever the rest of the process does meanwhile, a drain succeeds exactly when it took every slot and no render holds one; it gives up only once the shared deadline has passed, with no slot free; while renders only finish, it succeeds whenever all of them do by the deadline |
| RenderExecution.DrainedIsFinal | src/app/services/render_execution.py:24-40 | with every slot drained nothing is held and nothing can be acquired |
| ArchiveHandoff.TagIsTransparent | src/app/services/archive_handoff.py:81-82 | the tagged and the bare spelling normalise to one digest |
| ArchiveHandoff.RequestIdReadsEitherSpelling | src/app/services/archive_handoff.py:85-110 | whoever derives the request id, from either spelling of the digest, derives the same one |
| ArchiveMetadata.CustodyCannotOverride | src/app/services/archive_handoff.py:113-169 | there is metadata exactly when there is a request id; the id, the digest, the document reference and every other fact Render states survive any custody block and the rest of the block passes through; each of the two template facts is Render's exactly when it is supplied or the block does not name it |
| ArchiveMetadata.UnsuppliedFactsPassThrough | src/app/services/archive_handoff.py:165-168 | the block that speaks for Render about both, on an engine that supplies neither |
| ArchiveHandoff.PostUntilSettled | src/app/services/archive_handoff.py:334-379 | the retry loop computes the recursive reading of its deliveries, outcome and number of posts |
| ArchiveHandoff.OutcomeAnatomy | src/app/services/archive_handoff.py:334-379 | which posts were made and what they answered, read off the outcome in both directions: verified, failed, and everything else pending |
| ArchiveHandoff.VerifiedIsHeld | src/app/services/archive_handoff.py:454-482 | `archive_verified` names a record Archive holds, for every sequence of never-sent, unobserved and answered posts |
| ArchiveHandoff.FailedMeansAbsent | src/app/services/archive_handoff.py:21-38 | with refusals that judge the content, `archive_failed` proves that no post of the call committed and Archive is unchanged |
| ArchiveHandoff.FailedProvesAbsenceIff | src/app/services/archive_handoff.py:334-379 | without that assumption, it proves so exactly when no retryable answer preceded the refusal |
| ArchiveHandoff.CommittedYetFailed | src/app/services/archive_handoff.py:33-38 | the concrete run that shows the assumption is needed |
| ArchiveHandoff.RecordsOnlyGainTheRequest | src/app/services/archive_handoff.py:334-379 | the posts of a call change no other record and none that was there |
| ArchiveHandoff.ReplaysConverge | src/app/services/archive_handoff.py:33-36 | any number of replayed calls leaves at most one new record |
| ArchiveDetail.RecordedDetailFits | src/app/services/archive_handoff.py:485-514 | whatever a call's deliveries, the detail it records fits the column's limit, and only a verified outcome has none |
| ArchiveDetail.PendingNamesItsRecovery | src/app/services/archive_handoff.py:485-514 | a pending call records its reason, read off the posts it made, followed by the recovery and cut at the limit; the recovery stands there whole exactly when the reason leaves room for it |
| ArchiveDetail.RecoveryIsCutOff | src/app/services/archive_handoff.py:485-514 | the run whose pending detail has lost it |
| RenderInvariant.ClaimSteps | src/app/services/render_submission.py:216-226 | a claim keeps the row facts and its attempt's facts: the generation it holds is recorded as its own |
| RenderInvariant.CompleteSteps | src/app/services/render_submission.py:283-327 | a completion keeps them: it lands only for the holder, or leaves the attempt to adopt the stored truth |
| RenderInvariant.FailSteps | src/app/services/render_submission.py:350-385 | a failure write keeps them: it settles the row, or finds it settled or taken over |
| RenderInvariant.DeliverSteps | src/app/services/archive_handoff.py:334-379 | a post keeps them: it is the winner's, under the one request id, and its outcome claims no more than is so |
| RenderInvariant.HandoffBreaksSteps | src/app/services/archive_handoff.py:382-451 | an unexpected delivery error keeps them: the outcome is pending under the same request id |
| RenderInvariant.RecordSteps | src/app/services/archive_handoff.py:382-441 | the custody write keeps them |
| RenderInvariant.StepKeeps | src/app/infrastructure/render_store.py:294-302 | no step of one attempt disturbs what holds of another |
| RenderSafety.NextKeeps | src/app/services/render_submission.py:91-385 | every event of the shared world keeps the invariant |
| RenderSafety.RunKeeps | src/app/services/render_submission.py:91-385 | every run keeps it, and only moves the row forward |
| RenderSafety.GenerationsAreExclusive | src/app/infrastructure/render_store.py:294-302 | in every reachable state two attempts never hold one generation |
| RenderSafety.SettledStaysSettled | src/app/infrastructure/render_store.py:335-382 | along every run generations never fall, settled columns stay, grants stay, and exactly one terminal write has landed once the row is settled |
| RenderSafety.SupersededStaysInert | src/app/infrastructure/render_store.py:294-302 | after a takeover the superseded attempt, whenever it wakes, changes no column, sends nothing and records nothing |
| RenderSafety.OnlyTheWinnerHandsOff | src/app/services/render_submission.py:283-327 | every post is by the attempt whose completion landed, under its generation, with the id derived from the stored digest |
| RenderSafety.OnlyTheWinnerRecords | src/app/services/archive_handoff.py:382-441 | custody recorded, with or without any post, is recorded once and by the attempt whose completion landed |
| RenderSafety.CustodyWriteIsNeverStale | src/app/infrastructure/render_store.py:424-437 | an attempt about to record custody holds the row's own generation, so the stale refusal cannot be hit |
| RenderSafety.ReturnedBytesHashToTheirDigest | src/app/services/render_submission.py:299-348 | a response with bytes carries the digest those bytes hash to, for the winner and for an adopting loser |
| RenderSafety.CustodyTellsTheTruth | src/app/services/archive_handoff.py:454-482 | while custody columns stand, verified means the record is in Archive under that id, failed means nothing was committed |
| RenderSafety.AtMostOneRecord | src/app/services/archive_handoff.py:85-95 | a whole run adds at most the one record its stored digest names, and none if custody says failed |
| RenderFailClosed.ExitedGrantIsSettled | src/app/services/render_submission.py:227-281 | whoever was granted a generation and ended without a raised claim or failure call leaves the row settled or taken over |
| RenderFailClosed.ExitStrandsExactly | src/app/services/render_submission.py:216-281 | an exit leaves its granted generation neither settled nor taken over exactly when its claim landed but raised, or its failure write was lost before a row it could fail |
| RenderFailClosed.OnlyATakeoverFrees | src/app/infrastructure/render_store.py:294-302 | however the run goes on, such a job stays rendering until a later claim is granted, and only then is it free |
| RenderFailClosed.LostClaimStrands | src/app/infrastructure/render_store.py:318-333 | the run in which the claim commits and its call raises: the submission is over, the row still rendering |
| RenderFailClosed.LostFailureStrands | src/app/services/render_submission.py:376-385 | the run in which the failure write never arrives |
| RenderFailClosed.CapacityRejectionIsTheEnd | src/app/services/render_submission.py:209-214 | a submission refused for want of a slot changes no column, and in every continuation holds no slot and no generation, writes no terminal state, posts nothing and records nothing |
| RenderFailClosed.RefusedPackageIsNeverClaimed | src/app/services/render_submission.py:177-208 | a package refused at admission stays at generation 0 and no attempt ever claims it |
| RenderFailClosed.UnclaimedFailureIsARefusal | src/app/services/render_submission.py:177-208 | a failure written before any claim is such a package's, so it cannot hit a job being rendered |
| RenderSafety.DrainedForGood | src/app/services/render_execution.py:24-40 | a drained process stays drained in every continuation |
| RenderSafety.DrainedMeansIdle | src/app/services/render_execution.py:24-40 | after a full drain, and in every continuation, no attempt of the process is rendering or can start |
| RenderCourse.SubmissionLeads | src/app/services/render_submission.py:91-152 | for all clocks, faults, engine results, Archive answers and moves of others, the course of a submission is a run of the protocol |
| RenderCourse.CourseExplained | src/app/services/render_submission.py:216-281 | over a whole course only the claim call and the failure write can leave a granted generation behind, and only by raising |
| RenderSubmission.RenderSubmissionService.Submit | src/app/services/render_submission.py:91-152 | the code ends in exactly the world the protocol's course ends in, slot given back; a conflicting key raises the conflict and a settled one is answered as it stands; bytes hash to the digest beside them; without the two losing faults every generation it was granted is settled or taken over |
| RenderSubmission.RenderSubmissionService.ExecuteRender | src/app/services/render_submission.py:154-214 | exactly the course from admission to the end; a refused package takes no slot and no claim; the slot is always given back |
| RenderSubmission.RenderSubmissionService.ClaimAndRender | src/app/services/render_submission.py:216-281 | exactly the course from the slot on; a claim not granted answers the job as admitted |
| RenderSubmission.RenderSubmissionService.RecordRenderResult | src/app/services/render_submission.py:283-327 | exactly the course from the engine's bytes on; when the store answers, those bytes are returned or the stored row is, without bytes that do not hash to it |
| RenderSubmission.RenderSubmissionService.AdoptStoredTruth | src/app/services/render_submission.py:329-348 | the loser answers with the stored job, and with its bytes exactly when they hash to the stored digest |
| RenderSubmission.RenderSubmissionService.FailSubmit | src/app/services/render_submission.py:350-385 | the failure is in the row and raised, or the row of a faster writer is answered as it stands; a lost write raises the store's fault |
| RenderSubmission.RenderSubmissionService.HandOffAndRecord | src/app/services/archive_handoff.py:382-441 | delivery and custody never fail the render; without a hand-off the stored job comes back, with one and a working store the row's custody is recorded and returned |
| RenderSubmission.RenderSubmissionService.DeliverUntilSettled | src/app/services/archive_handoff.py:334-379 | amid other workers' moves the loop reaches the outcome that its own deliveries, and no others, spell |
| RenderSubmission.RenderSubmissionService.CreateKey | src/app/services/render_submission.py:107-142 | the store's insert-or-get, faults included, is the protocol's admission step on the shared row |
| RenderSubmission.RenderSubmissionService.TakeSlot | src/app/services/render_submission.py:209-210 | the semaphore's acquire is the protocol's |
| RenderSubmission.RenderSubmissionService.TakeClaim | src/app/services/render_submission.py:219-226 | the store's conditional claim is the protocol's claim step, whether granted, refused or lost to a fault |
| RenderSubmission.RenderSubmissionService.MarkRendered | src/app/services/render_submission.py:299-319 | the store's fenced completion is the protocol's, and which ending follows is decided by it |
| RenderSubmission.RenderSubmissionService.MarkFailed | src/app/services/render_submission.py:376-381 | the store's fenced failure write is the protocol's; when it lands the row says so |
| RenderSubmission.RenderSubmissionService.RecordOutcome | src/app/services/archive_handoff.py:415-441 | the store's custody write is the protocol's; a write that does not fault lands |
| Timestamps.TextOrderIsTextLe | src/app/infrastructure/render_store_rows.py:70-71 | comparing two stored texts decides exactly the stated order on instants |
| Timestamps.TextOrderIsTimeOrder | src/app/infrastructure/render_store_rows.py:70-71 | that order is chronological exactly on the pairs that are not spelled unevenly |
| Timestamps.UnevenPair | src/app/infrastructure/render_store_rows.py:70-71 | a concrete pair of instants whose texts sort the other way |
| Timestamps.VerdictIsTheCutoff | src/app/services/render_job_views.py:74-89 | under the positive threshold the settings demand, whole seconds of age against it are the cutoff test; under any other the verdict is always stale |
| Timestamps.TakeoverMatchesVerdict | src/app/infrastructure/render_store.py:304-326 | the takeover guard and the operator's verdict are one window except on unevenly spelled pairs, where the row is within a second of the cutoff |
| AmendmentLineage.Validate | src/app/services/composite_workbook/amendment_lineage.py:31-56 | the loops accept exactly the lineages that satisfy every local check, in both schemes |
| AmendmentLineage.CheckReceipts | src/app/services/composite_workbook/amendment_lineage.py:59-102 | the first loop accepts exactly when every receipt meets its pin, and collects the revisions |
| AmendmentLineage.CheckLinks | src/app/services/composite_workbook/historical_lineage.py:40-54 | the second loop accepts exactly when every link binds its predecessor and the last proposal is a root |
| AmendmentLineage.OnlyTheLastIsTheRoot | src/app/services/composite_workbook/historical_lineage.py:31-48 | in an accepted lineage every receipt but the last is a correction and the last is the root |
| AmendmentLineage.SequencesStrictlyDecrease | src/app/services/composite_workbook/amendment_lineage.py:97-102 | publication sequences strictly decrease at every pair of positions, so no receipt recurs |
| AmendmentLineage.PublicationIsLatest | src/app/services/composite_workbook/amendment_lineage.py:218-225 | the selected publication comes after every receipt below it |
| AmendmentLineage.ConservedAtEveryPair | src/app/services/composite_workbook/amendment_lineage.py:37-56 | definition, approved policy and expected population agree at every two positions while evaluation revisions differ |
| AmendmentLineage.LinkFixesPredecessor | src/app/services/composite_workbook/amendment_lineage.py:147-180 | with a collision-free digest one link admits one predecessor receipt |
| AmendmentLineage.LineageIsUnique | src/app/services/composite_workbook/amendment_lineage.py:31-56 | two accepted lineages of one head proposal are equal lists of receipts |
| AmendmentLineage.SomeLineageIsAccepted | src/app/services/composite_workbook/amendment_lineage.py:31-56 | whatever the digests, both schemes accept a correction of a correction of an original |
| ScalarPointers.EscapeRoundTrip | src/app/services/composite_workbook/historical_rows.py:14-16 | an escaped key is one clean token and is read back as the key |
| ScalarPointers.UnescapeOrderMatters | src/app/services/composite_workbook/source_values.py:17 | undoing the two replacements in the other order loses the key `~1` |
| ScalarPointers.SpelledPathResolves | src/app/services/composite_workbook/source_values.py:11-28 | the pointer that spells a path of a document evaluates to the value at that path |
| ScalarPointers.ResolvesIffSpelled | src/app/services/composite_workbook/source_values.py:11-28 | for any reading of characters as digits that agrees on ASCII: a pointer evaluates to a value if and only if, past whatever stands before its first slash and with its index tokens respelled in ASCII digits, it spells a path to that value |
| ScalarPointers.OtherDigitsAreRead | src/app/services/composite_workbook/source_values.py:19-21 | the pointer that evaluates to the eleventh item and spells no path |
| ScalarPointers.TextBeforeTheSlashIsIgnored | src/app/services/composite_workbook/source_values.py:14 | a prefix without a slash changes nothing about what a spelled path evaluates to |
| ScalarPointers.SpellingIsUnique | src/app/services/composite_workbook/historical_rows.py:9-24 | within one document two paths never share a pointer |
| ScalarPointers.ListsExactlyTheLeaves | src/app/services/composite_workbook/historical_rows.py:9-24 | a pointer is listed if and only if it spells the path of a scalar leaf, for both listings |
| ScalarPointers.ListsEachLeafOnce | src/app/services/composite_workbook/historical_rows.py:9-24 | the listed pointers are pairwise distinct |
| ScalarPointers.ListedPointersResolve | src/app/services/composite_workbook/source_values.py:11-28 | a listed pointer evaluated on the whole document gives back its own leaf |
| ScalarPointers.SortedListingIgnoresMemberOrder | src/app/services/composite_workbook/historical_rows.py:9-17 | reordering object members at any depth leaves the sorted listing as it was |
| ScalarPointers.ListingsArePermutations | src/app/services/composite_workbook/amendment_tables.py:32-45 | the insertion-ordered listing holds the same pointers, each as often |
| ScalarPointers.InsertionOrderIsVisible | src/app/services/composite_workbook/amendment_tables.py:32-45 | but one reordered pair of documents lists them in another order |
| MemberOrder.ListingsAgreeIffSameOrder | src/app/services/composite_workbook/amendment_tables.py:32-45 | two documents equal up to member order are listed alike if and only if at every object the members that lead to scalars stand in the same order |
| MemberOrder.TypedIsTheSame | src/app/services/composite_workbook/amendment_tables.py:84-88 | the dump in declared order is the document it was made from, up to member order |
| MemberOrder.TypedForgetsOrder | src/app/services/composite_workbook/amendment_tables.py:84-88 | for any contract type, documents equal up to member order are admitted alike and dumped as one document |
| MemberOrder.ListedInDeclaredOrder | src/app/services/composite_workbook/amendment_tables.py:84-88 | whatever order the fields of a record came in, its listing is that of its fields one after the other as the class declares them |
| MemberOrder.DeclaredListing | src/app/services/composite_workbook/amendment_tables.py:84-88 | the listing of the dump holds every scalar leaf of the document once and nothing else |
| AmendmentRows.MonthlyAmendmentIsDeclared | src/app/contracts/composite_amendment.py:28-58 | the amendment's contract type, field by field, is one of those types |
| AmendmentRows.TypedByIsFaithful | src/app/services/composite_workbook/amendment_tables.py:84-88 | whatever a contract checks of the values, its validated dump forgets the order of members and nothing else |
| AmendmentRows.AmendmentTable | src/app/services/composite_workbook/amendment_tables.py:48-88 | the loops over months and retained receipts give exactly the months' pointers in order, numbered through the whole table with no identity twice, or refuse exactly when a part is missing or the contract refuses an amendment, whatever the contract |
| AmendmentRows.AnyReplayKeepsTheRows | src/app/services/composite_workbook/amendment_tables.py:84-88 | whatever order a replay puts object members in, at any depth, it is refused alike and gives the same rows under the same ordinals |
| AmendmentRows.MonthListsExactly | src/app/services/composite_workbook/amendment_tables.py:48-88 | a month lists every scalar of its amendment and of its receipts' lineages, four facts of each receipt, and nothing else |
| AmendmentRows.MonthListsOnce | src/app/services/composite_workbook/amendment_tables.py:48-88 | a month lists no pointer twice: not within the amendment, not within or across its receipts |
| AmendmentRows.ScalarsResolve | src/app/services/composite_workbook/amendment_tables.py:52-75 | where the proposal is read from the place its pointers spell, every amendment scalar's pointer evaluates on the dataset to a scalar |
| HistoricalRows.HistoricalTables | src/app/services/composite_workbook/historical_rows.py:71-103 | the two tables are the months' paths in order, each row numbered by its table's length, no identity used twice |
| HistoricalRows.OrdinalsIdentifyRows | src/app/services/composite_workbook/historical_rows.py:84-101 | a running ordinal identifies a row across all months |
| HistoricalRows.LeavesLeadToScalars | src/app/services/composite_workbook/historical_rows.py:27-57 | every leaf pointer in a row evaluates on the dataset to a scalar |
| HistoricalRows.AmendmentPathsAreDistinct | src/app/services/composite_workbook/historical_rows.py:27-41 | a month lists no amendment pointer twice: not within the amendment, not within or across its lineage receipts |
| HistoricalRows.AdmissionPathsAreDistinct | src/app/services/composite_workbook/historical_rows.py:44-68 | a month lists no admission pointer twice, under one role or under two, for its own proposal and every retained receipt |
| HistoricalRows.SortedReplayKeepsTheRows | src/app/services/composite_workbook/historical_rows.py:71-103 | a sorted replay of the dataset gives the same rows under the same ordinals |
| EligibilityRows.RowTextIsInjective | src/app/services/composite_workbook/eligibility_rows.py:41-156 | different occurrences never spell the same row identity |
| EligibilityRows.EveryTableIsExact | src/app/services/composite_workbook/eligibility_rows.py:11-156 | each table lists each occurrence it is for exactly once and nothing else; a month has a not-applicable reason row exactly when it has no reason |
| EligibilityRows.ReasonRowsAreCounted | src/app/services/composite_workbook/eligibility_rows.py:41-95 | the reason rows number the failures and unknowns of all assessments plus one per month without any |
| EligibilityRows.ReasonCodeResolves | src/app/services/composite_workbook/eligibility_rows.py:74-95 | a reason row's code pointer evaluates to the very occurrence it stands for |
| EligibilityRows.EligibilityTables.constructor | src/app/services/composite_workbook/eligibility_rows.py:12 | every table starts empty |
| EligibilityRows.EligibilityTables.ReasonRows | src/app/services/composite_workbook/eligibility_rows.py:74-95 | appends the rows of one assessment's failures, then of its unknowns, in order |
| EligibilityRows.EligibilityTables.MemberRows | src/app/services/composite_workbook/eligibility_rows.py:41-71 | appends a month's member, assessment and reason rows, and the not-applicable row when no reason was added |
| EligibilityRows.EligibilityTables.HistoryRows | src/app/services/composite_workbook/eligibility_rows.py:98-124 | appends the unavailable row, or the decisions of the parent membership and then of the membership |
| EligibilityRows.EligibilityTables.LineageRows | src/app/services/composite_workbook/eligibility_rows.py:127-156 | appends one row for an evaluated month and five for a published one |
| EligibilityRows.EligibilityTables.Build | src/app/services/composite_workbook/eligibility_rows.py:11-38 | after the loop over months every table is the rows of its identities, in order |
| EligibilityPopulation.AcceptedPopulationIff | src/app/services/composite_workbook/eligibility_population.py:22-54 | the checks accept exactly the populations that meet the stated conditions |
| EligibilityPopulation.AcceptedPopulationAddsUp | src/app/services/composite_workbook/eligibility_population.py:22-54 | then the flagged members number the observations, and included, excluded and pending add up to the expected count exactly when no member has a fourth status |
| EligibilityPopulation.KnownStatusesAddUp | src/app/contracts/composite_eligibility_evaluation.py:21 | with the contract's three statuses included, excluded and pending add up to the expected count |
| EligibilityPopulation.FourthStatusIsAccepted | src/app/services/composite_workbook/eligibility_population.py:43-54 | a population the checks accept though its counts fall short |
| EligibilityPopulation.AcceptedMonthsAreTheRun | src/app/services/composite_workbook/eligibility_population.py:11-19 | the accepted month lists are exactly the unbroken runs from the period's first month to its last |
| EligibilityPopulation.AcceptedMonthsAreDistinct | src/app/services/composite_workbook/eligibility_population.py:11-19 | so no month is selected twice and their number is the length of the horizon |
| NumericDisplay.DisplayIsExactRounding | src/app/services/composite_workbook/numeric_display.py:10-33 | for every finite decimal the digit-string operations either refuse for size or show the value rounded exactly, ties away from zero; they never find the number invalid |
| NumericDisplay.QuantizeIsNearest | src/app/services/composite_workbook/numeric_display.py:22-29 | the chosen precision leaves room for every digit and a carry, so `quantize` cannot refuse and rounds exactly |
| NumericDisplay.CutIsNearest | src/app/services/composite_workbook/numeric_display.py:27-29 | deciding by the first dropped digit is rounding to nearest, ties away |
| NumericDisplay.TinyStaysTiny | src/app/services/composite_workbook/numeric_display.py:26 | a number below the context's exponent range is moved by the shift only to something too small to show |
| NumericDisplay.RoundingIsUnique | src/app/services/composite_workbook/numeric_display.py:27-29 | one number and no other is within half a unit, ties away |
| NumericDisplay.DisplayIsMonotone | src/app/services/composite_workbook/numeric_display.py:10-33 | a larger value never shows as a smaller number |
| NumericDisplay.ShownDigitsSpellTheUnits | src/app/services/composite_workbook/numeric_display.py:27-29 | the digits shown, point removed, spell the rounded number |
| NumericDisplay.ZeroCanBeTooLarge | src/app/services/composite_workbook/numeric_display.py:17-21 | the size refusal looks at the exponent, so a zero can be refused |
| WorkbookCapacity.Capacity.constructor | src/app/services/composite_workbook/capacity.py:22-28 | all counters start at nought |
| WorkbookCapacity.Capacity.AddValues | src/app/services/composite_workbook/capacity.py:30-39 | counts every cell and byte, and refuses exactly on a bad literal or a counter over its limit |
| WorkbookCapacity.Capacity.AddSheet | src/app/services/composite_workbook/capacity.py:41-45 | counts a sheet and its headers, and refuses exactly when one of the three counters is over |
| WorkbookCapacity.Capacity.RetainTable | src/app/services/composite_workbook/capacity.py:61-74 | keeps the whole table unchanged, or refuses exactly when it is misshapen or does not fit |
| WorkbookCapacity.CountersHaveAClosedForm | src/app/services/composite_workbook/capacity.py:61-74 | what the counters reach is per table max(1, ceil(n/M)) sheets, w(sheets+n) cells and the matching bytes |
| WorkbookCapacity.Preflight | src/app/services/composite_workbook/capacity.py:48-58 | accepts exactly the admissible workbooks, keeps every row in order and counts what the closed form says |
| WorkbookFingerprint.FramesAreUniquelyDecodable | src/app/services/composite_workbook/fingerprint.py:23-28 | equal framed streams are equal lists of names and payloads |
| WorkbookFingerprint.ContainerOrderIsIgnored | src/app/services/composite_workbook/fingerprint.py:19-28 | any reordering of the container feeds the hash the same bytes |
| WorkbookFingerprint.StreamIdentifiesTheMembers | src/app/services/composite_workbook/fingerprint.py:10-29 | two archives feed the hash the same bytes if and only if they hold the same members |
| WorkbookFingerprint.Fingerprint | src/app/services/composite_workbook/fingerprint.py:10-29 | the loop feeds the hash exactly that stream, and refuses exactly a repeated name |
| Utf8.EncodeIsInjective | src/app/services/composite_workbook/fingerprint.py:24 | no two names have one encoding |
| StructuralCeilings.AssertWithinStructuralCeilings | src/app/contracts/render_package.py:27-63 | the stack walk accepts exactly the payloads whose node count, depths, list and string lengths are within the ceilings, whatever order it visits (the strings are values; keys are not looked at); a refusal names a ceiling that is exceeded |
| StructuralCeilings.KeysAreNotMeasured | src/app/contracts/render_package.py:27-40 | payloads that differ only in object keys, at any level and of any length, are accepted or refused alike |
| StructuralCeilings.PopPush | src/app/contracts/render_package.py:52-63 | one turn moves one node out of the pending weight and loses no violation |
| TypstText.EscapeTypstText | src/app/services/typst_values.py:39-59 | the token-by-token loop is one per-character map; read in markup it is the value character by character, with exactly the value's own quotes and line-opening enumerators live |
| TypstText.MarkupIsTheOnlySpelling | src/app/services/typst_values.py:39-59 | only the escaped text reads as the value: no token is left bare and nothing is escaped for no reason |
| TypstText.NothingLiveIff | src/app/services/typst_values.py:48-53 | nothing of an escaped value is live if and only if it holds no quote and no full stop behind a number that opens a line |
| TypstText.SomethingStaysLive | src/app/services/typst_values.py:48-53 | two values escaped to themselves in which a quote and a full stop stay live |
| TypstText.SequentialIsPerCharacter | src/app/services/typst_values.py:62-74 | the five whole-text replacements are one per-character map |
| TypstText.LiteralReadsBack | src/app/services/typst_values.py:62-74 | the literal ends at its own closing quote and holds exactly the value, whatever follows |
| TypstText.LiteralIsOneLine | src/app/services/typst_values.py:62-74 | the emitted argument holds no line break or tab |
| TypstText.ValuesAreNeverRescanned | src/app/services/typst_rendering.py:235-257 | wherever a placeholder stands, its value appears verbatim between the substituted surroundings, and an unknown name stays as it was |
| TypstText.NothingSuppliedNothingChanged | src/app/services/typst_rendering.py:253-257 | with no values the template comes out as it went in |
| TypstText.QuotedValueSurvives | src/app/services/typst_rendering.py:244-257 | a value escaped for a literal and substituted into a quoted placeholder is read back as itself, up to the template's own quote |
| TypstText.MarkupValueSurvives | src/app/services/typst_rendering.py:244-257 | a value escaped for markup and substituted anywhere is read, from wherever the reader stands, as its own characters; when the page before it has a reading, the page reads as that, then the value, then the rest |
| Allocation.QualifiedSum | src/app/services/allocation_values.py:28-34 | the loop computes the qualified sum |
| Allocation.MissingAbsorbs | src/app/services/allocation_values.py:28-34 | the sum is missing exactly when a contributor is |
| Allocation.AllocationBuckets | src/app/services/allocation_values.py:48-63 | one bucket per name in first-met order, each the qualified sum of exactly its own rows |
| Allocation.BucketsConserveTotals | src/app/services/allocation_values.py:48-63 | bucketing moves no total, missing included |
| AllocationFolding.FoldingKeepsTheLimit | src/app/services/allocation_values.py:66-82 | never more rows than the limit or one more than the unknowns |
| AllocationFolding.FoldingKeepsEveryUnknown | src/app/services/allocation_values.py:66-82 | every unknown is kept, in order and first, and nothing after them is unknown |
| AllocationFolding.FoldingConservesTotals | src/app/services/allocation_values.py:66-90 | what is shown after the unknowns sums to what was known, in both columns |
| AllocationFolding.FoldingTakesTheSmallest | src/app/services/allocation_values.py:66-90 | what is folded is the tail of the known by weight, and the count says how many |
| StableSort.SortIsStable | src/app/services/allocation_values.py:71-75 | equal weights keep their order |
| DonutChart.ParsedEntries | src/app/services/portfolio_charts.py:180-191 | the chartable buckets, sorted largest first |
| DonutChart.NamedExactly | src/app/services/portfolio_charts.py:194-213 | which of the sorted entries keep their own slice, in both directions |
| DonutChart.GroupedWithOther | src/app/services/portfolio_charts.py:216-241 | at most six slices, every one positive, the leading entries untouched, totals unchanged |
| DonutChart.AllocationItems | src/app/services/portfolio_charts.py:157-177 | the palette index and the slice guard cannot fail, and the slices sum to the charted buckets |
| DonutChart.DonutSegments | src/app/services/chart_geometry.py:222-260 | each wedge starts where the last ended, sweeps its own share of the turn and is not empty; the remainder is drawn exactly when over the tolerance; the wedges never pass the turn and fill it exactly at a hundred |
| DonutChart.WedgesStayInTheTurn | src/app/services/chart_geometry.py:243-252 | the wedges never pass the full turn and reach it exactly when the slices reach a hundred |
| DonutChart.RingCloses | src/app/services/chart_geometry.py:243-260 | what is drawn tiles the whole turn exactly when the slices' total reaches a hundred or misses it by more than the tolerance; otherwise the gap is within the tolerance |
| DonutChart.RingStaysOpen | src/app/services/chart_geometry.py:252-260 | the slice whose ring stays open |
| MakeTargets.ReachableTargets | scripts/ci_gate_inventory.py:21-34 | on any graph, cyclic or with undeclared targets, the worklist returns a closed set of reached targets and expands each once |
| MakeTargets.ReachedAndClosedIsLeast | scripts/ci_gate_inventory.py:21-34 | that set is exactly the targets some dependency path leads to, and the least closed set |

## Left out

- SQLite, HTTP, subprocesses, Typst compilation, metrics, logging, routes and schema plumbing: a store call is one atomic step, the engine a result whose digest is the hash of its bytes.
- `in_flight_summaries`, schema creation and readiness of the store, the read-only response builders (`get_status`, `get_artifact_metadata`, `get_diagnostics`): one-branch lookups over the row.
- RenderStore.Store.CreateOrGet: tenant and package stand for the submitted columns; the remaining columns of a row are carried by the package and never change.
- RenderSubmission.RenderSubmissionService.Submit: a composite package whose tenant contradicts the admitted one is refused before the store is touched; the submission modelled starts after that check.
- A store call reads the clock once; the two readings some calls make are one instant here.
- RenderSafety.CustodyTellsTheTruth: says nothing of a row whose custody columns are empty. A crash between completion and the custody write leaves them empty while Archive may hold the record.
- RenderExecution.RenderExecutionLimiter.Drain: time is the turns of the rest of the process, the deadline one of them, and any number may pass before each acquire is reached.
- RenderSafety.DrainedMeansIdle: a run holds the attempts on one job. A process's semaphore is shared with its other jobs, so what is said of drained and free slots is said of the slots this job's attempts compete for.
- RenderFailClosed.CapacityRejectionIsTheEnd: likewise a slot is refused when this job's attempts hold them all; slots held by other jobs of the process are not in the world.
- ArchiveHandoff.TagIsTransparent: lower-casing and stripping are those of ASCII text.
- ArchiveMetadata.CustodyCannotOverride: the metadata values are texts; which of an error body's nested fields is quoted in a refusal is not modelled.
- Timestamps.VerdictIsTheCutoff: an elapsed time is exact; the binary rounding of `total_seconds` beyond some centuries is not modelled.
- AmendmentLineage.Validate: answers accepted or not; the proof, definition and scope checks of the parts outside the chain are predicates of one receipt or publication, and the recursive policy of the content digest is part of the uninterpreted digest.
- AmendmentRows.TypedByIsFaithful: the contract's checks of single values are one predicate of the dumped amendment; writing a value back in another spelling is not modelled, no pointer depends on it.
- AmendmentRows.AmendmentTable: on a part of another shape than the content contract guarantees the model refuses, where the source raises in one way or another.
- TypstText.EscapeTypstText: the reader knows of Typst's markup what the escaper's own text names; its other shorthands, the ellipsis among them, are not modelled, and a full stop behind a line's opening number counts as live whatever follows it.
- HistoricalRows.HistoricalTables: on a dataset without a part the contract guarantees the source raises; here the part reads as empty.
- EligibilityRows.EligibilityTables.Build: the cells of a row are a function of the occurrence; only the reason pointer is evaluated against the dataset.
- EligibilityPopulation.AcceptedMonthsAreTheRun: dates are year, month and day fields; day numbers beyond a month's length are not excluded.
- NumericDisplay.DisplayIsExactRounding: the grammar of `Decimal(text)` and the literal check of the input text are not modelled; what follows is for every parsed decimal.
- WorkbookCapacity.Preflight: does not say which of the two refusals an inadmissible workbook meets first. The size of the request body is a parameter.
- WorkbookFingerprint.Fingerprint: stops at the bytes fed to the hash; sizes of 2^64 and more, which the framing cannot express, are excluded. Names are texts without lone surrogates.
- `template_digest` and its framing, whose decimal lengths have no terminator.
- Allocation.AllocationBuckets: names and figures arrive already read from their texts, and sums are exact instead of rounded to the decimal context's 28 digits.
- DonutChart.DonutSegments: angles are reals, and the outline of a wedge (arcs and lines) is not modelled.
- The performance axis, gridlines and labels; prose, posture and label emitters; recovery tables; the regular expressions that read Makefiles and workflows.
