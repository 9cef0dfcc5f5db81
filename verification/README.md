# FluentWork backend: a verified model of its stateful core

The FluentWork backend coaches spoken workplace English. This project models the four parts of it that keep
state in ways that are easy to get wrong, and proves what they guarantee over every input, every run and
every reachable state:

1. **The drill ledger, the ladder and appeals** (`internal/drill`, `internal/corpus/schedule.go`). A judged
   attempt moves a phrase block along a spaced-repetition ladder and files a snapshot of the schedule before
   it. An appeal restores that snapshot while the attempt is the newest on its block. `DrillRuns` shows that
   every live schedule, and every stored snapshot, is a replay of the attempts that no appeal rescinded.
2. **Session end, outbox and leases** (`internal/session`, `internal/review`, `internal/materials`). `End`
   commits and then enqueues, a crash may fall in between, and a repeated `End` makes up for it; workers claim
   jobs under leases. `SessionRuns`, `SessionLaws` and `MaterialRuns` treat these as state machines with a log of
   claims, whose workers may be arbitrarily late; `SessionClocks` and `MaterialClocks` add what the leases give
   punctual ones.
3. **The corpus store** (`internal/corpus`). At-most-once credit for hits and check-ins, conservation of
   use counters, keyset paging, and acceptance that merges by normal form.
4. **The hit detector** (`internal/session/voice_hit_detect.go`). Its tokens agree with the corpus's own notion
   of when two expressions are the same.

## Layout

Each area has a *model* (the store and service operations as functions on values), *runs* (sequences of such
operations and what they keep) and *services* (classes with the fields of the Go stores, whose methods change
them in place, with the loops of the source, each proved equal to the model function). *Effects* say what one
call does in the terms of its caller: raw fields and numbers, not the model's own predicates.

| area | model | effects | runs and laws | services |
|---|---|---|---|---|
| ladder, drill | `Schedule`, `DrillModel`, `Rounds` | `DrillEffects` | `DrillRuns` | `DrillService` |
| corpus | `CorpusModel`, `Tables`, `Paging`, `Expressions`, `HitReport`, `BatchAccept` | `CorpusEffects` | `CorpusRuns`, `CorpusRequests` | `CorpusStore`, `CorpusService` |
| sessions | `SessionModel` | `SessionEffects` | `SessionRuns`, `SessionLaws`, `SessionClocks` | `SessionService`, `ReviewEval` |
| materials | `MaterialModel` | `MaterialEffects` | `MaterialRuns`, `MaterialClocks` | `MaterialService` |
| hit detector | `HitDetector` | | | |

`Wrappers`, `Text` and `Ordering` hold shared vocabulary: outcomes, Go string operations, sorting.

## Conventions

- Times and durations are whole nanoseconds as unbounded integers; clock readings, new ids, model answers and
  crashes are parameters.
- Go maps are Dafny maps read in an arbitrary order (`var id :| id in todo`), so every result holds for every
  iteration order.
- Strings are sequences of code points; Go's byte order on UTF-8 strings is the code-point order, and `len` is
  `Utf8Len`.
- Scores are `real` numbers.
- One service call is one atomic step, except that `End` has explicit crash points, that a worker's claim, work
  and settlement are separate steps, which may come at any time and on any clock reading.
- `now.Add(-lease)` comparisons keep the strictness of the source: a lease has run out when its stamp is not
  after the cutoff.

## Where the code and its stated intent differ

- The browse cursor of the memory store rebuilds a block with an empty expression, so its last tie-break lets
  the cursor row itself through. `Paging.MemoryCursorIsExactIffExpressionEmpty` states exactly when the answer
  is right. Browsing one row at a time never leaves the first row (`Paging.MemoryBrowsingByOneNeverEnds`); with
  two or more rows a page the walk stops (`Paging.MemoryBrowsingStops`) and shows every row, those at page
  boundaries on two pages (`Paging.MemoryShowsBoundaryRowsTwice`), so each exactly once if and only if there are
  fewer rows than the limit (`Paging.MemoryShowsEveryRowOnceIff`). The SQL predicate is exact.
- Speaking a stored expression word for word need not hit it: repeated words are counted once above the line
  and every time below it, and an expression without ASCII letters and digits has no tokens to count. It hits if
  and only if it has tokens and at least 65 percent of them are distinct
  (`HitDetector.SpokenExpressionIsDetectedIff`); `HitDetector.RepeatedWordsMiss` is an example that does not.
- `IsLatestForBlock` looks at drill records only, so a hit, an edit or a sweep after a failed attempt can be
  undone together with it. `DrillRuns.AppealUndoesOnlyTheAttemptIff` states exactly when an appeal undoes nothing
  else, `DrillRuns.AppealErasesLaterMoves` that it always brings back the ladder from before the attempt.
- The detector does not see CJK characters, the corpus keeps them. The tokens of a text make up its normal form if and only
  if it has none (`Expressions.TokensAreTheNormalFormIff`), and the corpus merges a text with one free of CJK
  that has the same tokens if and only if it is free of CJK too (`Expressions.CorpusAgreesIff`).
  `Expressions.CjkIsInvisibleToTheDetector` is an example of the difference.
- A refine that writes no block is meant to carry the note `no_chunks_extracted`
  (internal/materials/model.go:35-36). When the model returns blocks that are all blank, the row is ready with
  zero blocks and no note: `MaterialModel.BlankBlocksGoUnnoted`, with the exact condition in
  `MaterialModel.NoChunksIsNotedIff`.
- Asking for a job and enqueueing it are two store calls. The insert keeps the rule of one active job if and only
  if none is active or done at that moment (`SessionLaws.InsertIsSafeIff`); two callers that both ask first break
  it (`SessionLaws.CheckThenActCanDuplicate`).
- A session worker reads the clock before it claims. The lease outlasts the worker's window if and only if that
  reading is younger than 50 seconds for a review and 20 for a scoring job
  (`SessionClocks.LeaseOutlastsTheWindowIff`). What holds without any such limit is proved without it.

## Model

| member | source | states |
|---|---|---|
| `Schedule.Schedule.Normalize` | internal/corpus/schedule.go:43-62 | the result is complete (every field positive), and equals the input exactly when the input was complete |
| `Schedule.NormalizeMeans` | internal/corpus/schedule.go:43-62 | each field that is set stays, each other takes its default of 3 passes, 1 day, 7 days, 30 days or 1 hour |
| `Schedule.LadderOfHistory` | internal/corpus/schedule.go:65-89 | for every history of successes, failures and resets: streak is the current run capped at the promotion streak, automated iff the run reached it, new iff nothing happened since creation or reset, due time by the last event and the run's length |
| `DrillModel.Lookup` | internal/drill/record_store.go:68-77 | finds a record with this id and owner, or there is none |
| `DrillModel.LatestId` | internal/drill/record_store.go:131-147 | the greatest id among a learner's attempts on a block, attained unless there is none |
| `DrillRuns.LedgerReplays` | internal/drill/service.go:139-378 | in every run of attempts, appeals and other writers, each block's ladder is the replay of the log without what appeals struck out, and each snapshot is the replay of what the log held before it |
| `DrillRuns.SchedulesAreReplays` | internal/drill/service.go:139-378 | in every run of Judge and Appeal calls, each block's (state, streak, due) replays its judged records in id order skipping exactly the rescinded ones, and every snapshot replays the records before it |
| `DrillRuns.AppealUndoesOnlyTheAttemptIff` | internal/drill/service.go:291-378 | in every run with other writers, appealing the newest attempt on a live block (failed, not yet appealed) leaves the ladder that replays the log without that attempt iff no other writer stored a ladder on the block since, or the current ladder equals the snapshot |
| `DrillRuns.AppealErasesLaterMoves` | internal/drill/service.go:291-378 | whatever ladder another writer stored after a failed attempt, its appeal brings back the ladder from before the attempt |
| `DrillRuns.RestoreKeeps` | internal/drill/service.go:340-378 | restoring the newest attempt's snapshot equals striking out the attempt and what followed on its block, for all blocks and rows at once |
| `DrillEffects.JudgeTakesIff` | internal/drill/service.go:139-180 | an attempt is taken iff user, block and text are not blank and the block is there, live and the user's; each refusal with its error |
| `DrillEffects.AttemptLeaves` | internal/drill/service.go:139-274 | a taken attempt leaves one more row with its verdict and the ladder before it, moves its block's ladder iff judged and nothing else, and answers just that |
| `DrillEffects.AttemptIsTheNewest` | internal/drill/record_store.go:55-65 | the answered record id is the learner's newest on the block |
| `DrillEffects.AppealRefusedIff` | internal/drill/service.go:291-307 | each refusal with its error; otherwise an owned row with the id is disputed |
| `DrillEffects.DisputeLeaves` | internal/drill/service.go:308-378 | an appeal restores iff the attempt is unappealed, failed, has a snapshot and nothing newer stands on its block; what it then changes, and that it always stamps its row and no other |
| `DrillEffects.DisputeSaysWhy` | internal/drill/service.go:308-340 | which note an appeal is answered with |
| `DrillEffects.AppealIsMadeOnce` | internal/drill/service.go:308-315 | repeating an accepted appeal, at any later time and on any later ledger and blocks, changes nothing and answers that it was made already |
| `DrillEffects.AppealIsMadeOnceInRuns` | internal/drill/service.go:308-315 | after an accepted appeal and any further steps of a run, the same appeal changes no block and no row |
| `DrillService.MemoryRecordStore.Insert` | internal/drill/record_store.go:55-65 | appends the row under the next id |
| `DrillService.MemoryRecordStore.GetRecord` | internal/drill/record_store.go:68-77 | the loop returns the owned row that Lookup names, or not-found |
| `DrillService.MemoryRecordStore.MarkAppealed` | internal/drill/record_store.go:80-96 | stamps exactly the owned row, once; an already stamped row is left alone |
| `DrillService.MemoryRecordStore.IsLatestForBlock` | internal/drill/record_store.go:131-147 | true iff the id is the greatest among the learner's attempts on the block |
| `DrillService.MemoryRecordStore.CountNewReleasesSince` | internal/drill/record_store.go:114-128 | counts the attempts since then whose block was still new before them |
| `DrillService.Service.Judge` | internal/drill/service.go:139-274 | every branch of the checks; past them, ladder, ledger row and answer of the modelled attempt |
| `DrillService.Service.Appeal` | internal/drill/service.go:291-390 | every branch of an appeal: refusal, repeat, note without restore, restore |
| `DrillService.Service.Round` | internal/drill/service.go:63-136 | sweeps overdue blocks, then deals the modelled round, whatever the map's iteration order |
| `DrillService.BudgetLeftIff` | internal/drill/service.go:120-136 | new blocks are dealt while fewer than the limit were tried since midnight, or without a limit |
| `Rounds.RoundDealsFromTheDeck` | internal/drill/scheduler.go:25-56 | a round is the first `size` cards of (due primary, then due automated), re-sorted by due time and id |
| `Rounds.NoAutomatedCardDisplacesAPrimaryOne` | internal/drill/scheduler.go:25-56 | every dealt card is due, and an automated card is dealt only if every due primary card is |
| `Rounds.EarlierDuePrimaryCardsComeFirst` | internal/drill/scheduler.go:25-56 | a primary card is dealt only after all that are due earlier |
| `Rounds.SweepKeepsWhatIsDue` | internal/corpus/memory_store.go:642-659 | a row is queued after the sweep iff it was before, and nothing live stays overdue beyond the window |
| `Rounds.DueListMeans` | internal/corpus/memory_store.go:438-469 | the due list holds exactly the user's live blocks in the states that are due, earliest first and by id |
| `Rounds.PrimaryStatesMean` | internal/drill/scheduler.go:25-40 | training is primary always, new with budget, automated never |
| `Rounds.RoundSizeMeans` | internal/drill/service.go:63-90 | as many cards as requested, else as configured, else ten; at most twenty |
| `CorpusEffects.SweepMeans` | internal/drill/service.go:96-109 | a positive window brings exactly the user's live blocks later than it to now |
| `CorpusRuns.UsesAreConserved` | internal/corpus/memory_store.go:128-234 | after any run of accepts, edits, deletes, revivals, reassignments, hits, check-ins, answers and sweeps, RealUseCount = TotalUses = number of ledger rows naming the block; no check-in row repeats; no hit is credited twice |
| `CorpusRuns.StandingFollowsHistory` | internal/corpus/memory_store.go:369-578 | after any such run, streak, automated and new are determined by the block's successes since its last failure or reset |
| `CorpusRuns.ReportIsARun` | internal/corpus/memory_store.go:369-405 | recording a whole report is the run of its hits, so the run laws cover reports |
| `CorpusRequests.AcceptIsARun` | internal/corpus/service.go:386-449 | an accepted request under new ids is the run of its saves, so the run laws cover it |
| `CorpusRequests.CheckinIsARun` | internal/corpus/memory_store.go:488-511 | a check-in is the run of its uses, so the run laws cover it |
| `HitReport.LatestIgnoresOrder` | internal/corpus/hits_service.go:136-165 | deduplication keeps the same blocks and times for any order of the hits |
| `HitReport.ReportIgnoresOrder` | internal/corpus/hits_service.go:57-78 | the store after a report, and its size, are invariant under any permutation of the hits |
| `HitReport.ReportTwiceIsReportOnce` | internal/corpus/memory_store.go:369-405 | replaying a report changes no block, no provenance row and no hit row |
| `HitReport.UseKeyKeepsBlocksApart` | internal/corpus/memory_store.go:362-364 | within a turn, different blocks have different use keys |
| `CorpusEffects.ReportCredits` | internal/corpus/memory_store.go:369-405 | a report credits exactly the blocks it names that have no hit of the turn yet and are the user's and live: counters up by one, a pass on the ladder at the latest detection, one provenance row; nothing else changes |
| `CorpusEffects.LatestMeans` | internal/corpus/hits_service.go:136-165 | a report names a block iff one of its hits does, and at the latest of them |
| `CorpusEffects.CheckinCredits` | internal/corpus/memory_store.go:488-523 | a check-in credits exactly the blocks it names that are the user's, live and without a row of its reference, once each; nothing else changes |
| `CorpusStore.CheckinTwiceIsCheckinOnce` | internal/corpus/memory_store.go:488-523 | repeating a check-in with the same reference credits nothing and changes nothing |
| `CorpusStore.MemoryStore.RecordHits` | internal/corpus/memory_store.go:369-405 | the loop's store equals recording the hits one after another, with the count of rows written |
| `CorpusStore.MemoryStore.RecordRealUses` | internal/corpus/memory_store.go:488-511 | the loop's store equals recording the uses one after another, with the count of credits |
| `CorpusStore.MemoryStore.ListBlocks` | internal/corpus/memory_store.go:47-103 | the selected rows are the same for every iteration order of the map |
| `CorpusStore.MemoryStore.ListDueBlocks` | internal/corpus/memory_store.go:438-469 | the due rows in order, cut at a positive limit, for every iteration order |
| `CorpusStore.MemoryStore.UpdateSchedule` | internal/corpus/memory_store.go:472-485 | writes the ladder of a live owned block, nothing otherwise |
| `CorpusStore.MemoryStore.ResetSchedule` | internal/corpus/memory_store.go:562-578 | restarts the ladder of a live owned block and returns the block |
| `CorpusStore.MemoryStore.SweepOverdue` | internal/corpus/memory_store.go:642-659 | moves exactly the overdue blocks to now and counts them |
| `CorpusStore.MemoryStore.SaveAcceptedBlocks` | internal/corpus/memory_store.go:128-167 | inserts new blocks and revives or keeps those with the same natural key, one after another; hands back the row each block became, in browse order |
| `CorpusService.KeptIsLatest` | internal/corpus/hits_service.go:136-165 | the hit kept for a block carries its latest detection |
| `CorpusService.DedupeHits` | internal/corpus/hits_service.go:136-165 | one hit per block, the kept one with its turn filled in, in order of first mention |
| `CorpusService.RecordHits` | internal/corpus/hits_service.go:57-78 | the whole service call leaves the store of the canonical report |
| `CorpusService.RecordRealUse` | internal/corpus/service.go:336-366 | refuses exactly blank users and references and more than fifty blocks, each with its error; otherwise the store's check-in |
| `CorpusService.CleanedIdsMean` | internal/corpus/service.go:350-355 | the blocks of a check-in are those it names, trimmed, without blanks |
| `CorpusService.UpdateBlock` | internal/corpus/service.go:147-201 | ownership and field checks with their errors; past them the edit, its history row, the restart when the sentence changed, and the stored block as the answer |
| `CorpusEffects.EditMeans` | internal/corpus/service.go:147-201 | an edit stores the cleaned wording; a changed sentence raises the version, is logged and starts over on the ladder, an unchanged one moves none of them; everything else stays |
| `CorpusEffects.SettersMean` | internal/corpus/memory_store.go:194-220 | favorite, pin and deletion write just what they say |
| `CorpusEffects.MergeMeans` | internal/corpus/memory_store.go:223-234 | a merge hands over exactly the one user's blocks |
| `Paging.AfterMeansStrictlyLater` | internal/corpus/mysql_store.go:96-107 | the four SQL disjuncts, and the incremental predicate, mean "strictly later in the sort order" |
| `Paging.BrowseOrderMeans` | internal/corpus/memory_store.go:245-264 | pinned first, then favorites, then the last changed, then the greatest id |
| `Paging.DeltaOrderMeans` | internal/corpus/memory_store.go:280-293 | the oldest change first, then the least id |
| `Paging.AfterInMemory` | internal/corpus/memory_store.go:295-309 | the memory predicate means "strictly later, or the cursor row itself unless its expression is empty" |
| `Paging.NextRows` | internal/corpus/mysql_store.go:96-107 | a row's cursor is answered with exactly the rows after it |
| `Paging.NextRowsInMemory` | internal/corpus/memory_store.go:295-309 | the memory store's answer starts with the cursor row again, unless its expression is empty |
| `Paging.MemoryCursorIsExactIffExpressionEmpty` | internal/corpus/memory_store.go:245-309 | the memory store's next page is right iff the cursor row's expression is empty |
| `Paging.MemoryBrowsingByOneNeverEnds` | internal/corpus/memory_store.go:295-309 | browsing one row a page returns the first row for ever |
| `Paging.MemoryBrowsingStops` | internal/corpus/memory_store.go:295-309 | browsing the memory store two or more rows a page stops, at a page given by the number of rows |
| `Paging.MemoryShowsBoundaryRowsTwice` | internal/corpus/memory_store.go:295-309 | that walk shows the row at place i on page i / (limit - 1), and exactly those at positive multiples of limit - 1 on the page before as well |
| `Paging.MemoryShowsEveryRowOnceIff` | internal/corpus/memory_store.go:295-309 | that walk shows every row, and each exactly once iff there are fewer rows than the limit |
| `Paging.PagesAreSlices` | internal/corpus/service.go:103-143 | page k is the slice of the sorted list k steps down (limit, or limit - 1 for a source that repeats the cursor row), announces a successor iff it is full, and there is none after one that is not |
| `Paging.FollowingCursorsVisitsEveryRowOnce` | internal/corpus/service.go:103-143 | following next_cursor visits every matching row exactly once, in sort order, and stops |
| `Tables.ListingIgnoresIteration` | internal/corpus/memory_store.go:47-103 | a sorted listing does not depend on the order in which the map was read |
| `Expressions.Tokenize` | internal/session/voice_hit_detect.go:173-192 | the loop computes the maximal alphanumeric runs of the lowered text |
| `Expressions.TokenOfAWord` | internal/session/voice_hit_detect.go:173-192 | a text of letters and digits is one token, in lower case |
| `Expressions.TokensAroundASeparator` | internal/session/voice_hit_detect.go:173-192 | any other ASCII character separates tokens |
| `Expressions.TokensIgnoreCase` | internal/session/voice_hit_detect.go:173-192 | tokens do not depend on the case of letters |
| `Expressions.NormalFormIgnoresCase` | internal/corpus/service.go:314-324 | nor does the normal form |
| `Expressions.NormalizeIsIdempotent` | internal/corpus/service.go:314-324 | normalising twice is normalising once |
| `Expressions.NormalizeKeepsTokens` | internal/session/voice_hit_detect.go:173-192 | tokenize(normalize(x)) = tokenize(x) for every x, CJK included |
| `Expressions.MergedExpressionsHaveTheSameTokens` | internal/corpus/service.go:314-324 | expressions that the corpus merges are indistinguishable to the detector |
| `Expressions.TokensAreTheNormalFormIff` | internal/corpus/service.go:314-324 | a normal form is the joined tokens iff the text has no CJK |
| `Expressions.CorpusAgreesIff` | internal/corpus/service.go:314-324 | for a text and one free of CJK with the same tokens, the corpus merges them iff the first is free of CJK too |
| `Expressions.WithoutCjkTokensDecide` | internal/corpus/service.go:314-324 | without CJK, same normal form iff same tokens |
| `Expressions.CjkIsInvisibleToTheDetector` | internal/session/voice_hit_detect.go:173-192 | a pair with equal tokens and different normal forms |
| `BatchAccept.ScanSeesEveryForm` | internal/corpus/service.go:386-449 | while the live blocks fit in the 500-row scan, the dedupe index has exactly their forms |
| `BatchAccept.PlanIsSound` | internal/corpus/service.go:404-430 | accepted plus merged is the request; accepted forms are new and pairwise different |
| `BatchAccept.MergedKeepTheirForm` | internal/corpus/service.go:404-430 | every merged item comes back as a known or requested block of its own form |
| `BatchAccept.AcceptKeepsFormsApart` | internal/corpus/service.go:386-449 | accepting keeps live blocks pairwise distinct by normal form, with in-request repeats and revived rows, and leaves every requested form live |
| `BatchAccept.AcceptingTwiceIsAcceptingOnce` | internal/corpus/service.go:386-449 | repeating a request of the same items under other ids and at another time accepts zero, merges all and leaves the store unchanged |
| `BatchAccept.SaveOne` | internal/corpus/memory_store.go:128-167 | saving a block of a new form adds exactly that live form, inserted or revived |
| `CorpusEffects.AcceptedItemMeans` | internal/corpus/service.go:563-585 | an item becomes the learner's new, unused block with the cleaned wording, due at the next midnight |
| `CorpusEffects.NewBlocksAreDue` | internal/corpus/service.go:632-635 | the next midnight is the first one after now |
| `CorpusEffects.SaveMeans` | internal/corpus/memory_store.go:128-167 | without a row of the same sentence, place and session the block is added; a live row stays; a deleted one comes back and keeps id, ladder, counters and marks |
| `CorpusEffects.AcceptableIsValid` | internal/corpus/service.go:596-615 | a wording is taken iff none of its texts is blank and both tags are known |
| `CorpusService.Accept` | internal/corpus/service.go:386-449 | rejects exactly the malformed requests, each with its error and an untouched store; otherwise an accepted request as modelled, answered with both counts, the saved rows in browse order and the merged ones |
| `CorpusService.PlanRequest` | internal/corpus/service.go:404-430 | the loop over the request computes the plan |
| `HitDetector.CountMatched` | internal/session/voice_hit_detect.go:198-236 | the loop counts the distinct offered tokens that were spoken |
| `HitDetector.ScoreCandidate` | internal/session/voice_hit_detect.go:198-236 | distinct matches over the smaller token count, zero without tokens |
| `HitDetector.ScoreInUnit` | internal/session/voice_hit_detect.go:198-236 | every score lies in [0,1] |
| `HitDetector.ScoreMeans` | internal/session/voice_hit_detect.go:198-236 | the score times the shorter list's length is the number of shared words, and zero without words |
| `HitDetector.ScoreIsSymmetric` | internal/session/voice_hit_detect.go:231-235 | without an anchor, saying x against a stored y scores as much as saying y against a stored x |
| `HitDetector.PhraseInsideSpeech` | internal/session/voice_hit_detect.go:198-265 | a stored phrase inside longer speech is found iff 65 percent of its tokens are distinct, with score 1 iff all are |
| `HitDetector.PartOfAPhrase` | internal/session/voice_hit_detect.go:198-265 | so is a spoken part of a longer stored phrase or anchor |
| `HitDetector.SpokenExpressionScore` | internal/session/voice_hit_detect.go:198-236 | speaking an expression scores its share of distinct tokens for any anchor; exactly 1 iff no token repeats |
| `HitDetector.SpokenExpressionIsDetectedIff` | internal/session/voice_hit_detect.go:198-265 | a stored expression spoken word for word is detected iff it has tokens and at least 65 percent of them are distinct |
| `HitDetector.TokenlessIsNeverDetected` | internal/session/voice_hit_detect.go:198-265 | a text without tokens is detected against no candidates whatever |
| `HitDetector.RepeatedWordsMiss` | internal/session/voice_hit_detect.go:198-236 | a thrice-repeated word spoken verbatim misses the threshold |
| `HitDetector.TrimKeepsTheShortest` | internal/session/voice_hit_detect.go:159-169 | trimming loses nothing but candidates no shorter than those kept |
| `HitDetector.ScoreAll` | internal/session/voice_hit_detect.go:238-248 | the candidates with a positive score, in order |
| `HitDetector.PickBestIsBest` | internal/session/voice_hit_detect.go:250-265 | a hit is picked iff some candidate reaches the threshold; it is maximal by score, then shortest, then first |
| `HitDetector.Detect` | internal/session/voice_hit_detect.go:114-154 | rejects exactly the invalid requests, otherwise decides as modelled |
| `HitDetector.DetectionMeans` | internal/session/voice_hit_detect.go:114-141 | among up to fifty candidates one is found iff some score reaches 0.65; it has the greatest score and of those the shortest expression |
| `HitDetector.AtMostFifty` | internal/session/voice_hit_detect.go:159-169 | at most fifty candidates are considered |
| `HitDetector.SpokenExpressionHits` | internal/session/voice_hit_detect.go:114-141 | a text that the corpus would merge into a considered block hits when 65 percent of its tokens are distinct, with at least its own score, and with score 1 when all are |
| `SessionModel.BuildVoiceCostLog` | internal/session/voice_cost.go:34-54 | a row iff there is usage; its seconds are the floored sum of the clamped directions |
| `SessionClocks.ClaimWindowsAreDisjoint` | internal/session/review.go:36-107 | in every run of punctual workers, the execution windows of two claims of a job are disjoint, with clock readings younger than 50 (review) or 20 (scoring) seconds; without a settlement between them the later one comes a lease after the reading of the earlier |
| `SessionClocks.LeaseOutlastsTheWindowIff` | internal/session/review.go:48-61 | a claim can be taken from a worker that may still settle it iff its clock reading had reached that age |
| `SessionClocks.SlackMeans` | internal/session/types.go:53-61 | those ages are 50 and 20 seconds |
| `SessionClocks.SettlementsLandOnTheirOwnClaim` | internal/session/review.go:97-107 | in every run of punctual workers, a settlement inside its deadline finds its own lock and is never refused |
| `SessionLaws.JobQueueInvariant` | internal/session/memory_store.go:292-403 | in every run, however late its workers claim, run and settle: pending means unlocked with attempts left, processing iff locked, failed means none left, and attempts count the claims |
| `SessionLaws.SettledJobsAreFinal` | internal/session/memory_store.go:361-403 | done and failed jobs never change again, whatever late workers do |
| `SessionLaws.NextJobIsUnique` | internal/session/memory_store.go:322-358 | the oldest claimable job is unique, whatever the map order |
| `SessionEffects.NextJobMeans` | internal/session/memory_store.go:322-358 | the job claimed next is the available or two-minutes-locked one that was created first, by id among equals |
| `SessionEffects.SomeJobIsNextIff` | internal/session/memory_store.go:322-358 | a job is claimed iff one is pending and available, or processing and locked for the lease |
| `SessionEffects.EveryJobCanBeDone` | internal/session/review.go:36-175 | from any state of any run, a pending or processing job has a continuation that leaves it done, and a review job's session reviewed with that run's document |
| `SessionEffects.FailureMeans` | internal/session/memory_store.go:380-403 | a failed attempt can be claimed again after two seconds iff it was not the second |
| `SessionLaws.OutboxInvariant` | internal/session/service.go:383-532 | over any run with crashes and late workers: at most one non-failed job per session and type, only for ended or reviewed sessions with user speech, and a done review job means a reviewed session |
| `SessionLaws.EndAssuresReview` | internal/session/service.go:383-532 | every End that returns normally, unskipped, on an ended session leaves a non-failed session.finished job |
| `SessionLaws.RepeatedEndCompensates` | internal/session/service.go:841-869 | ending an ended session with speech again succeeds and a review job stands, also after a crash |
| `SessionEffects.FirstEndCloses` | internal/session/service.go:383-532 | a first End with a well-formed transcript succeeds: abandoned iff the trimmed reason is "abandoned", else ended; transcript and duration stored and answered; skipped iff abandoned or nothing said; otherwise a review job stands |
| `SessionEffects.FirstEndEnqueues` | internal/session/service.go:841-869 | its jobs in full: a fresh review job that can be claimed at once, and a fresh scoring job iff scoring is on |
| `SessionEffects.MalformedEndIsRefused` | internal/session/service.go:871-913 | a transcript that is not well-formed is refused without effect |
| `SessionEffects.EndOfNothingIsRefused` | internal/session/service.go:383-400 | so is an End of no session or of an unknown one |
| `SessionEffects.RepeatedEndMeans` | internal/session/service.go:400-460 | a repeated End changes neither session, transcript nor cost, answers what is stored, and skips iff abandoned or ended without speech |
| `SessionEffects.CostRowMeans` | internal/session/voice_cost.go:34-54 | the cost row of a first End: owner, trimmed model, whole seconds, and none without usage |
| `SessionLaws.PollNeverRegresses` | internal/session/service.go:536-616 | between any two points of any run, merges and late workers included, the poll of whoever owns the session only advances: ready, empty and not-found are final, failed can only become ready, nothing returns to pending |
| `SessionLaws.PollAfterMerge` | internal/session/memory_store.go:474-492 | a merge leaves the new owner the old owner's answer; the old owner's answer stays iff nothing was handed over or it was not-found |
| `SessionEffects.PollMeans` | internal/session/service.go:536-616 | whose poll is answered, and when it is ready, empty, failed or pending |
| `SessionEffects.MergeMeans` | internal/session/memory_store.go:474-492 | a merge hands over exactly the one user's sessions |
| `SessionLaws.SessionsOnlyMoveForward` | internal/session/memory_store.go:184-245 | status only moves forward; once closed, duration and transcript are frozen; the review is written at most once |
| `SessionEffects.ActivationMeans` | internal/session/memory_store.go:184-202 | a session becomes active iff it is created or active |
| `SessionEffects.CreationMeans` | internal/session/memory_store.go:47-55 | a created session is open and its owner's; taken ids are refused |
| `SessionLaws.SessionsAreBilledOnce` | internal/session/memory_store.go:206-245 | in every run the sessions billed are pairwise different and closed, and there are no more voice-cost rows than billed sessions |
| `SessionLaws.InsertIsSafeIff` | internal/session/service.go:841-869 | inserting a job keeps the one-active-job rule iff none of its kind is pending, processing or done |
| `SessionLaws.CheckThenActCanDuplicate` | internal/session/service.go:841-869 | of two callers that both check before inserting, the first insert keeps the rule and the second breaks it |
| `SessionRuns.EnsureIsQuiet` | internal/review/service.go:66-89 | ensuring a job keeps the one-active-job rule and leaves a job that has not failed |
| `SessionRuns.RunsOnlyGrow` | internal/session/memory_store.go:184-425 | any continuation of a run, merges and late workers included, keeps frozen transcripts, written reviews and settled jobs |
| `SessionRuns.ClaimKeeps` | internal/session/memory_store.go:322-358 | claiming a claimable job, on any clock reading, keeps the whole invariant |
| `SessionRuns.SettleKeeps` | internal/session/memory_store.go:361-403 | so does a settlement, however late: it is refused without effect, or it leaves a sound job, also when the lock it finds is another worker's |
| `SessionService.MemoryStore.ReassignUser` | internal/session/memory_store.go:474-492 | hands exactly the sessions of one user to another, in any iteration order |
| `SessionService.MemoryStore.MarkSessionActive` | internal/session/memory_store.go:184-202 | created becomes active, active stays, anything else conflicts |
| `SessionService.MemoryStore.EndSession` | internal/session/memory_store.go:206-245 | closes an open session with its transcript and cost row; a closed one is reported unchanged |
| `SessionService.MemoryStore.HasSessionJob` | internal/session/memory_store.go:303-319 | the loop finds a job of the session, type and statuses iff there is one |
| `SessionService.MemoryStore.SelectJob` | internal/session/memory_store.go:322-352 | the running minimum ends at the (created_at, id)-least claimable job, in any iteration order |
| `SessionService.MemoryStore.ClaimNextJob` | internal/session/memory_store.go:322-358 | claims that job and no other, or nothing is claimable |
| `SessionService.MemoryStore.CompleteJob` | internal/session/memory_store.go:361-377 | processing becomes done and unlocked; otherwise refused |
| `SessionService.MemoryStore.FailJob` | internal/session/memory_store.go:380-403 | processing becomes pending with a delay while attempts are left, else failed |
| `SessionService.MemoryStore.MarkSessionReviewed` | internal/session/memory_store.go:406-425 | ended becomes reviewed with the document; reviewed keeps its first one |
| `SessionService.MemoryStore.SaveUtteranceEval` | internal/session/memory_store.go:529-544 | scores the row with the id in whichever transcript holds it, and nothing else |
| `SessionService.NormalizeEndUtterances` | internal/session/service.go:871-913 | accepts exactly well-formed transcripts without repeated sequence numbers, trimmed |
| `SessionService.Service.End` | internal/session/service.go:383-532 | the whole call, first or repeated, equals the modelled step without a crash |
| `SessionService.Service.GetReview` | internal/session/service.go:536-616 | the poll's answer in every state |
| `SessionService.Service.RunJob` | internal/session/review.go:109-175 | an ended session becomes reviewed once, a reviewed one counts as success, any other fails |
| `ReviewEval.RunEvalJob` | internal/review/service.go:92-130 | any run, finished or interrupted, only adds to unscored user rows of its session the scores that the model's answers come to, in [0,1]; a run that returns nil leaves none unscored |
| `ReviewEval.ScoresAreWrittenOnce` | internal/session/memory_store.go:529-544 | over any series of runs a stored score never changes, nor does anything else of the row |
| `ReviewEval.Evaluate` | internal/review/evaluator.go:39-108 | all four numbers lie in [0,1], whatever the model answered |
| `ReviewEval.EvaluateMeans` | internal/review/evaluator.go:39-108 | zeros for blank or unsure text, halves for an unusable answer, else the nearest number in [0,1] to each of the four |
| `ReviewEval.SummaryOf` | internal/review/service.go:133-182 | the loops compute the modelled summary |
| `ReviewEval.SummaryIsCompleteIff` | internal/review/service.go:133-182 | complete iff no user row is unscored; the means of scores in [0,1] lie in [0,1] |
| `ReviewEval.SummaryMeans` | internal/review/service.go:133-182 | each number of a complete summary is the mean of that number over the user rows, and zero without any |
| `ReviewEval.FinishedRunsStayComplete` | internal/review/service.go:92-182 | from the first run that returns nil on, the summary is complete, with its mean in [0,1], and the transcript never changes again |
| `MaterialModel.NoChunksIsNotedIff` | internal/materials/refiner.go:62-91 | "no blocks written iff the no-chunks note" holds iff the model returned no block at all or at least one that is not blank |
| `MaterialModel.BlankBlocksGoUnnoted` | internal/materials/refiner.go:72-88 | one blank block makes the row ready with zero blocks and no note |
| `MaterialRuns.ClaimsAreBounded` | internal/materials/memory_store.go:48-135 | in every run, however late its workers, each material is claimed at most MaxRefineAttempts times, and its attempts count its claims |
| `MaterialRuns.MovesAreSpent` | internal/materials/memory_store.go:48-135 | status changes made plus 2*(Max-attempts)+[processing] is always 2*Max, so every claim, reclaim and settlement lowers the measure by exactly one |
| `MaterialRuns.FinishedMaterialsAreFinal` | internal/materials/memory_store.go:48-135 | ready and failed are absorbing, with block count, error code and attempts |
| `MaterialClocks.ClaimWindowsAreDisjoint` | internal/materials/refiner.go:16-107 | in every run of punctual workers, the 40-second windows of two claims of a material are disjoint, with 80 seconds between them, even with old clock readings |
| `MaterialClocks.SettlementsLandOnTheirOwnClaim` | internal/materials/memory_store.go:68-104 | in every run of punctual workers, a settlement inside the deadline finds its own lock, is never refused, and belongs to the material's last claim |
| `MaterialRuns.RefineIsARun` | internal/materials/refiner.go:33-99 | an uninterrupted Refine is a claim followed by its settlement; a row that is not queued is left alone |
| `MaterialRuns.NoDeadEnds` | internal/materials/refiner.go:111-147 | from any state of any run every material can still become ready or failed |
| `MaterialRuns.SweepsKeepTheInterval` | internal/materials/refiner.go:135-147 | sweeps are at least an interval apart, and after every call the last one is younger than that |
| `MaterialEffects.RefineMeans` | internal/materials/refiner.go:33-99 | a live queued material uses one attempt and ends ready or failed by what model and writer did; anything else is left alone |
| `MaterialEffects.ClaimMeans` | internal/materials/memory_store.go:48-65 | a claim takes queued materials only: one attempt more, locked from its stamp |
| `MaterialEffects.SettlementMeans` | internal/materials/memory_store.go:68-104 | a settlement takes processing materials only, and frees them |
| `MaterialEffects.SweepMeans` | internal/materials/memory_store.go:108-135 | a sweep frees exactly the live materials locked for two minutes: queued again after the first attempt, failed after the second |
| `MaterialEffects.HidingMeans` | internal/materials/memory_store.go:138-169 | deletion and restoration touch exactly the user's live and deleted materials |
| `MaterialEffects.SweepIsDueIff` | internal/materials/refiner.go:135-147 | a sweep is due at first and then every thirty seconds |
| `MaterialEffects.CreationMeans` | internal/materials/memory_store.go:26-34 | a created material is queued, untried and its user's |
| `MaterialService.MemoryStore.MarkProcessing` | internal/materials/memory_store.go:48-65 | claims a queued row; otherwise not-found or conflict, unchanged |
| `MaterialService.MemoryStore.MarkRefined` | internal/materials/memory_store.go:68-85 | settles a processing row as ready; otherwise refused |
| `MaterialService.MemoryStore.MarkRefineFailed` | internal/materials/memory_store.go:88-104 | settles a processing row as failed; otherwise refused |
| `MaterialService.MemoryStore.ReclaimExpired` | internal/materials/memory_store.go:108-135 | in any iteration order: each row as reclaimed on its own, the requeued ids exactly those with an attempt left, strictly sorted, the expired ones counted |
| `MaterialService.MemoryStore.SoftDeleteAllForUser` | internal/materials/memory_store.go:138-153 | stamps exactly the user's live rows and counts them |
| `MaterialService.MemoryStore.RestoreDeletedForUser` | internal/materials/memory_store.go:156-169 | clears exactly the user's deleted rows and counts them |
| `MaterialService.Service.Refine` | internal/materials/refiner.go:33-99 | every branch: blank id, missing, deleted or not queued, and each way a claim is settled |
| `MaterialService.Service.SweepIfDue` | internal/materials/refiner.go:135-147 | reclaims and remembers the time iff the interval has passed |
| `MaterialService.ToPhraseBlocks` | internal/materials/refiner.go:166-197 | the expressions that are not blank, trimmed, in order |

## Left out

- Interleavings inside a service call: each call is one atomic step apart from the crash points of `End`, and the separate steps of workers, whose clock readings may be old. `SessionLaws.CheckThenActCanDuplicate` shows what interleaving would break.
- Clocks: one shared, monotone clock.
- Deadlines: the store ignores contexts, so the laws of `SessionLaws` and `MaterialRuns` let workers settle at any time; only the laws of `SessionClocks` and `MaterialClocks` are about runs in which every worker keeps its deadlines.
- Attempts of session jobs are not bounded: reclaiming a stale lease has no cap in the source (internal/session/memory_store.go:334-352), so only pending and failed jobs are tied to the maximum.
- MySQL stores, apart from the browse keyset predicate and its order: the memory stores carry the semantics.
- HTTP handlers, authentication, tickets, metrics, logging and configuration: plumbing.
- The text encoding of cursors (JSON, base64url as in section 5 of RFC 4648): a cursor is a record.
- The keyword, scene and tag filters of `ListBlocks`: paging holds for any filter on rows.
- Model calls, prompts and JSON parsing of model output: their outcomes are inputs. The retry loop around the review generator is part of that input.
- The payload that decides nothing: response times, recognised text and reasons of drill records, badge labels, suggestions of scores and summaries, rescue events, update stamps of sessions and jobs, material text and tags.
- Suggestion caps of `Summary` and `clampSuggestions`: only easy members would follow.
- Float64 rounding: scores are real numbers. Integer overflow of counters and times.
- SessionService.Service.GetReview: the score summary that a ready answer may carry is left out; `ReviewEval.SummaryOf` computes it, and neither it nor the rendering of the review decides the answer's state.
- ReviewEval.SummaryOf: the suggestions of a summary are left out, and with them the cap on their number.
- MaterialService.ToPhraseBlocks: only the expressions of the rows are modelled, because ids, intents, anchors and tags decide nothing in the refine protocol.
- `EaseFactor` and other block columns that no operation reads.
- Lower-casing outside the characters whose lower case is an ASCII letter, CJK or white space: no reader of a lowered string can see it.
- Account wipe and restore of blocks, sessions and drill records, feedback rows, recent-hit lookback, stuck maps, recommendations, cost roll-ups: small folds or wrappers.
- Ownership reassignment of blocks between a drill attempt and its appeal: blocks keep their owners in `DrillRuns`.
- The item ids that `BatchAccept` returns: with an in-request duplicate of a revived row an id that was never stored can be returned (internal/corpus/service.go:417-429), so only plan and store are stated.
- `MarkSessionReviewedWithCost`: no service calls it.
- Service.Judge: the block is read and written in one step; the source waits for the model in between and writes absolute values.
