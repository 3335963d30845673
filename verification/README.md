# Freshquant: the selection protocol, the structure recogniser, the pre-pool and their kernels

A Dafny model of the parts of the repository in which a mistake is hardest to see, with proofs of what they keep.

**The daily selection protocol** (`Documents`, `Repository`, `Protocol`, `ProtocolInvariant`, `ProtocolTheorems`,
`Runs`, `Leases`, `CommitRuns`). Planners create numbered attempts, executors claim them under an owner, a token and a lease,
compute, and commit an immutable partition; a process whose answer was lost, or that restarts with its token, commits
again. `RepositoryClass.Repository` is the repository as a class over its collections, each method proved to do what a
function of `Documents` says. `Protocol` is the same protocol as a state machine in which every conditional insert,
update or replace is one step: a run is any sequence of steps of any processes, so it covers every interleaving, stall
and crash, and a process may act on a clock value it read long before. `ProtocolInvariant` has the inductive invariant,
`ProtocolTheorems` what it gives over every run, `Runs` how runs are put together. `Leases` lists all that can happen to
an attempt, and when by the clock. `CommitRuns` closes the gap between the two views: a whole `commit_partition` is a run
of the machine.

**Finalizing and publishing** (`Batches`, `BatchProtocol`, `BatchInvariant`, `BatchTheorems`, `Refusals`,
`FinalNumbering`, `Inputs`, `Joining`, `BatchLeases`). A second machine on top of the first: finalizers join the stock and the ETF partition of a
batch into a final batch, or note under a batch why they refuse to; publishers claim its publication record, call the
ready-marker publisher and record the outcome. `Refusals` says what becomes of a refused finalization, `FinalNumbering`
what that means for the attempt numbers, and `Inputs` has runs from the empty start that show it. `Joining` says field by
field what a final batch joins, and `BatchLeases` all that can happen to a finalization and to a publication.

**The Chanlun recogniser** (`Search`, `Bars`, `Candles`, `Pens`, `PenLoop`, `PenMarkets`, `Segments`, `SegmentLaws`,
`Recognise`, `Pivots`). The loops over signal arrays, with the recursive repair, as methods over arrays; what one bar does
to a series is a function, and the lemmas say what it keeps. Tops and bottoms are treated by one definition through
`Reach`; both mirrored branches of the code are proved against it. `PenMarkets` and `SegmentLaws` say from the bars and
signals alone what single bars do and what whole markets are recognised as.

**The pre-pool** (`Sorting`, `PrePool`, `PrePoolLaws`, `PrePoolDetails`, `PrePoolListing`, `PrePoolRuns`,
`PrePoolService`). Rows, their merged view, the sorted listing, and upsert, removal, purge and reconciliation as a class
over the rows. `PrePoolDetails` says what becomes of the single fields.

**Exact kernels** (`Universe`, `FrozenUniverse`, `Counting`, `MovingAverage`, `ComposeKline`). The frozen universe and its
check, the counting over a partition and the signal decoder, the 250-day line in its rolling and direct forms, and k-line
composition.

## Findings

Where a promise one would read into the code is not kept, a lemma gives the input and another the exact condition.

- A purge can lose an unexpired membership when a code has several rows (`PrePoolRuns.PurgeCanLose`); it loses none exactly
  when no row but the last one it acts on holds unexpired memberships (`PrePoolRuns.PurgeLosesNothingWhen`).
- An upsert of a code that has rows starts from the merged view, which does not carry the row's own category, remark and
  extra. It keeps each of them exactly when it is given again or was blank (`PrePoolLaws.UpsertKeepsRowFieldsWhen`); a row
  with all three loses them (`PrePoolLaws.UpsertForgetsRowFields`).
- Two planners that both look before either inserts leave two scheduled attempts of one key
  (`ProtocolTheorems.SplitPlanningTwoActive`). A run keeps every key at one active attempt exactly when no planner in it
  inserts a free number beside an active attempt (`ProtocolTheorems.OneActiveExactly`); planning without interruption never
  does (`ProtocolTheorems.OneActiveAlways`).
- A partition document that a crash left out is repaired by the next lookup (`ProtocolTheorems.LookupRepairs`) or by a
  retried commit with the authorized content (`ProtocolTheorems.RetryRepairs`), exactly when no older document is in the way
  that is not completed itself and yet carries a commit result. No run writes such a document
  (`ProtocolTheorems.NeverBlocked`), so only one from before the run can be in the way.
- A claimed finalization that finds its own batch id is never stopped for drifted partitions or a drifted order. It is
  refused for mismatching partitions exactly when the process that executes it has another schema, switch option,
  condition catalog or line version than the partitions, since the batch id names none of these
  (`Refusals.PlannedMaterialStays`). Left alone it then stores the mismatch as the batch document, unless that is final,
  and fails its attempt (`Refusals.UpgradeFailsFinalization`).
- A refused finalization completes all the same, exactly when a final batch takes the place of its refusal after it first
  looked, while its lease holds and its number is free there (`Refusals.RefusedCompletes`). So an attempt of a publishing
  process can complete while the publication is pending (`Refusals.UpgradeCompletesPending`; a run from the empty start:
  `Inputs.UpgradeInput`), and after a drift an attempt can complete under another batch while the one it was planned for
  is not final (`Refusals.DriftCompletesElsewhere`, `Inputs.DriftInput`). Every other completion is of the planned
  batch, published if the process publishes (`BatchTheorems.FinalizationIsFenced`).
- An attempt that completes under another batch takes its number along. The numbers of all batches stay without gaps
  exactly as long as such an attempt had the last number of its batch and gets the next of the other, and no planner
  inserts a number whose predecessor has left since (`FinalNumbering.NumbersExactly`). After the last number has left, planning of
  the old batch is stuck: the next attempt would have the name of the one that left (`FinalNumbering.PlanInsertsWhen`).
- A raw signal does not tell its model: 1101 is one of model 0 and of model 1 (`Counting.OneValueTwoModels`). A value of one
  model is one of another exactly when the shifted occurrence is in range (`Counting.OtherModels`).
- The conflict of two final contents cannot occur (`BatchTheorems.NoFinalConflict`), and the error of a partition without a
  successful evaluation cannot be raised (`Counting.CalculatePartition`).
- The assignments `i = adjust_bi(...)` and `i = i2` do not move the Python loops they stand in; the model leaves them out.

## Model

| member | source | states |
|---|---|---|
| Search.FindPrevEq | freshquant/basic/comm.py:6-12 | the answer is the last index before i that holds the value, or -1 when there is none |
| Search.FindNextEq | freshquant/basic/comm.py:15-21 | the answer is the first index in the range that holds the value, or -1 when there is none |
| Candles.MergeCandles | freshquant/basic/bi.py:8-36 | the loop that rewrites the last candle in place yields the merge of exactly the bars in range |
| Candles.MergedShape | freshquant/basic/bi.py:8-36 | no merged candle contains its neighbour: adjacent ones are strictly ordered in high and low the same way, and the tracked direction is that of the last pair |
| Candles.MergedValues | freshquant/basic/bi.py:8-36 | every merged high and low is one of an input bar in range, and low <= high is kept |
| Candles.ContainmentRule | freshquant/basic/bi.py:17-35 | bars that contain one another become one candle with the higher high and low in an upward direction, the lower ones in a downward one |
| PenLoop.IsBi | freshquant/basic/bi.py:47-162 | answers yes exactly when the bars form a pen: five merged candles or more, the end not behind the candle before it, no later bar passing it before the market turns, start and end fractals apart |
| PenLoop.FindTurnDown | freshquant/basic/bi.py:86-110 | the running candle that the loop keeps decides exactly whether a later bar passes the top, or turns away from it first |
| PenLoop.AdjustBi | freshquant/basic/bi.py:165-194 | the recursive in-place repair terminates and leaves what the repair function says |
| Pens.MoveKeeps | freshquant/basic/bi.py:165-194 | one correction either ends the repair with nothing left before the moved signal, or hands an equally repairable earlier pen to the next round |
| Pens.AdjustedKeeps | freshquant/basic/bi.py:165-194 | from a last pen whose start a bar may have beaten, the whole repair cascade restores alternation and extremality, and reports the last signal it left |
| Pens.DrawnKeeps | freshquant/basic/bi.py:228-254 | drawing a pen to a bar that breaks out, clearing what lies between and repairing backwards keeps alternation and extremality, whatever is_bi said |
| Pens.BetweenUnbeaten | freshquant/basic/bi.py:218-227 | between the signal a double breakout attaches to and the bar that breaks out, no bar reaches further than these two |
| Pens.DoubleBreakoutKeeps | freshquant/basic/bi.py:218-227 | the back-search of a bar that breaks out both ways keeps alternation and extremality |
| PenLoop.ProcessBar | freshquant/basic/bi.py:204-254 | one pass of the loop body over the array does what the step function says, in all its branches |
| PenLoop.CalcBi | freshquant/basic/bi.py:202-254 | the loop over the array leaves the run of the step function over all bars |
| PenLoop.PenStepKeeps | freshquant/basic/bi.py:204-254 | every bar keeps the invariant: signals alternate and both ends of each pen are extreme over it |
| PenLoop.PensAfterEveryBar | freshquant/basic/bi.py:202-254 | from all zeros, after every bar and for all prices, signals alternate and every adjacent pair is the minimum low and the maximum high of its stretch |
| PenLoop.OneWayMarket | freshquant/basic/bi.py:202-254 | as long as a market has moved one way only, exactly one pen is recognised, from the first bar to the latest |
| PenMarkets.TurningMarket | freshquant/basic/bi.py:202-254 | a market that turns once is recognised as two pens exactly when the second leg spans four bars and ends clear of the bars around the turn, and else as the first pen alone |
| PenMarkets.ZigzagMarket | freshquant/basic/bi.py:202-254 | a market of any number of clear legs is recognised as exactly its legs |
| PenMarkets.LegRun | freshquant/basic/bi.py:47-162 | behind any recognised pen, a further leg adds its end exactly when it is clear, and no bar before its end does anything |
| PenMarkets.OutsideBarEndsNone | freshquant/basic/bi.py:66-73 | a bar that contains a step back before it does not end a pen |
| PenMarkets.BothOrNeither | freshquant/basic/bi.py:218-227 | a bar beyond all since the last top and the last bottom takes the sign against the last signal that stands, clearing what lies between; one beyond neither changes nothing |
| PenMarkets.OnlyAbove | freshquant/basic/bi.py:228-240 | a bar above all since the last bottom takes the place of the top after it, or of none |
| PenMarkets.OnlyBelow | freshquant/basic/bi.py:242-254 | the mirror image |
| PenMarkets.OnlyAboveRepaired | freshquant/basic/bi.py:165-194 | when some bar since the last bottom is below it, the bottom moves to the first lowest one and the new top is dropped again |
| PenMarkets.OnlyBelowRepaired | freshquant/basic/bi.py:165-194 | the mirror image |
| Segments.LegsExist | freshquant/basic/duan.py:41-97 | the chained back-searches g1, d2, g2 (and mirrored) never answer -1 where the pass makes them |
| Segments.SegmentStepKeeps | freshquant/basic/duan.py:22-97 | one signal keeps the segment series alternating, with both signs present and none before the first signal of its kind |
| Segments.SegmentsInOrder | freshquant/basic/duan.py:14-97 | after every bar of the pass the segment series alternates |
| SegmentLaws.SignalMoves | freshquant/basic/duan.py:22-40 | a signal of the last segment's sign moves its end exactly when beyond it; one against it ends a new segment when beyond its start, and does nothing else if it is the first against it |
| SegmentLaws.SignalAgainst | freshquant/basic/duan.py:41-59 | a later one ends a new segment exactly when beyond the first against it, or, by the two pens before it, at the first extreme bar since |
| SegmentLaws.ExpandingSeries | freshquant/basic/duan.py:14-97 | an expanding series of pens is its own segment series |
| SegmentLaws.TrendingSeries | freshquant/basic/duan.py:14-97 | a series of rising, or of falling, tops and bottoms is one segment |
| Segments.CalcDuan | freshquant/basic/duan.py:14-97 | on an alternating series the in-place pass computes the segments, and all zeros when a sign is missing |
| Segments.ProcessSignal | freshquant/basic/duan.py:22-97 | both mirrored branches of the loop body do what the one step function says |
| Segments.EveryLevelAlternates | freshquant/Calc.py:378-388 | every level built from the one below alternates, so the pass can be applied to its own output any number of times |
| Recognise.Recognise | freshquant/signal/strategy4.py:72-77 | pens, segments and higher segments computed in a chain are in order at each level |
| Recognise.SegmentEndsArePenEnds | freshquant/basic/duan.py:14-97 | every segment end lies at the price of a pen end of the same kind, also where the pass moves it to an extreme bar |
| Pivots.FindPivots | freshquant/basic/pivot.py:4-122 | for any end position, also past the series, both directions yield the pivots of the feature elements, and no other direction yields any |
| Pivots.CollectPivots | freshquant/basic/pivot.py:26-62 | appending a pivot and extending it afterwards through the same reference leaves distinct entries that say what the list function says |
| Pivots.Further | freshquant/basic/pivot.py:53-62 | a further element changes the last entry alone, or ends it |
| Pivots.PivotsSound | freshquant/basic/pivot.py:4-122 | each pivot covers a longest run of at least two elements, dd <= zd <= zg <= gg, every absorbed element overlaps its range, and pivots are disjoint and increasing |
| Pivots.PivotsWithin | freshquant/basic/pivot.py:4-122 | all pivots lie inside the two positions they were asked for, and inside the series |
| ComposeKline.TimeFilter | freshquant/ComposeKline.py:14-20 | keeps the records of the closed time range, in order |
| ComposeKline.BetweenJoins | freshquant/ComposeKline.py:14-20 | it can be filtered piece by piece, so order and repetitions are kept |
| ComposeKline.StartsAtNextPeriod | freshquant/ComposeKline.py:31-37 | without a given start the first bar starts at the first multiple of the period after the first record |
| ComposeKline.CalcRecords | freshquant/ComposeKline.py:22-77 | yields one bar per slot that holds a record, each composed of exactly the records of its slot: first open, last close, exact maximum, minimum and volume |
| ComposeKline.OneSlotEach | freshquant/ComposeKline.py:22-77 | a record is in the covered window exactly when it is in some slot, and never in two |
| ComposeKline.VolumeConserved | freshquant/ComposeKline.py:22-77 | the composed bars carry exactly the volume of the records in the covered window |
| MovingAverage.HistoryLine | freshquant/clx_daily_selection/service.py:3594-3650 | the rolling sum states at every bar what the mean of the last 250 closes says, and the two lines that are not computed are unknown at every bar |
| MovingAverage.Ma250State | freshquant/clx_daily_selection/service.py:3662-3675 | the direct sum states what the definition says of the last bar, also below 250 bars |
| MovingAverage.LineWithin | freshquant/clx_daily_selection/service.py:3594-3619 | from the 250th bar on the line lies within the bounds of the last 250 closes and the relation compares it with the close; before there is none |
| MovingAverage.ConstantLine | freshquant/clx_daily_selection/service.py:3594-3619 | a constant series is its own line and not above it |
| MovingAverage.NewHighIsAbove | freshquant/clx_daily_selection/service.py:3594-3619 | a close above the 249 before it is above the line |
| MovingAverage.NewLowIsNotAbove | freshquant/clx_daily_selection/service.py:3594-3619 | a close no higher than the 249 before it is not |
| MovingAverage.BothLines | freshquant/clx_daily_selection/service.py:3594-3675 | for every non-empty series the rolling and the direct computation state the same fact about the last bar |
| RepositoryClass.Repository.NextAttemptNo | freshquant/clx_daily_selection/repository.py:150-154 | one more than the largest number of the key |
| RepositoryClass.Repository.CreateAttempt | freshquant/clx_daily_selection/repository.py:156-171 | inserts unless the number is taken, and answers with the document that is then stored |
| RepositoryClass.Repository.UpdateAttemptIf | freshquant/clx_daily_selection/repository.py:180-189 | changes the attempt exactly when it matches, and says whether it did |
| RepositoryClass.Repository.FindCompletedPartition | freshquant/clx_daily_selection/repository.py:116-137 | finds the completed document or repairs it from the first attempt that authorized one |
| RepositoryClass.Repository.PersistAuthoritativePartition | freshquant/clx_daily_selection/repository.py:372-402 | stores, finds the same identity in place, or refuses; replaces only a document without a commit |
| RepositoryClass.Repository.RecoverAuthorizedPartition | freshquant/clx_daily_selection/repository.py:309-335 | a retried commit of an attempt that has authorized stores what it authorized, or is refused for another token or identity |
| RepositoryClass.Repository.CommitPartition | freshquant/clx_daily_selection/repository.py:191-307 | the whole commit on every path: claim, recovery, resumption, adoption, rows, authorization, document |
| RepositoryClass.Repository.InsertImmutableRows | freshquant/clx_daily_selection/repository.py:708-715 | afterwards the collection holds what it held and all the rows |
| ProtocolInvariant.StepKeeps | freshquant/clx_daily_selection/repository.py:116-402 | every step of every process, each read of a planner and each retried commit included, keeps the invariant, and documents change only as they may |
| ProtocolTheorems.RunKeeps | freshquant/clx_daily_selection/repository.py:116-402 | over every run the invariant holds, attempts only move forward, and completed documents and rows stay |
| ProtocolTheorems.CompletedForever | freshquant/clx_daily_selection/repository.py:191-307 | once a key has a completed partition document, every later state has the very same one |
| ProtocolTheorems.LateWriterRefused | freshquant/clx_daily_selection/repository.py:372-402 | once a key has a completed document, a writer with another identity changes nothing whenever it acts, can be answered by a conflict only, and left alone is answered so |
| ProtocolTheorems.CommitPoint | freshquant/clx_daily_selection/repository.py:191-307 | whatever an attempt authorized, or a document shows as completed, has all its rows stored; and the document is the one its attempt authorized |
| ProtocolTheorems.LookupRepairs | freshquant/clx_daily_selection/repository.py:116-137 | a crash between the commit point and the document is repaired by the next lookup to the authorized document, exactly when no blocked document is in the way |
| ProtocolTheorems.RetryRepairs | freshquant/clx_daily_selection/repository.py:222-335 | the same crash is repaired by a retried commit under the attempt's claim, exactly when it comes with the authorized content and no blocked document is in the way; with another content nothing changes |
| ProtocolTheorems.NeverBlocked | freshquant/clx_daily_selection/repository.py:372-402 | no run writes a document that blocks a repair |
| ProtocolTheorems.OneIdentity | freshquant/clx_daily_selection/repository.py:372-402 | when one key always yields one content, all that is authorized or stored for it has one identity, and a writer conflicts exactly with a blocked document, so never where none is left from before |
| ProtocolTheorems.EndedForever | freshquant/clx_daily_selection/service.py:639-843 | an ended attempt never changes, a token is never replaced, and a claimed attempt is never scheduled again |
| ProtocolTheorems.CompletionIsFenced | freshquant/clx_daily_selection/repository.py:205-306 | an attempt completes only when a completed partition closes it unclaimed, or by the token holder from committing under a lease later than a clock value it read |
| ProtocolTheorems.ExpiredNeverAuthorizes | freshquant/clx_daily_selection/service.py:3686-3690 | an attempt declared expired never authorizes anything afterwards, and no completed document names it |
| Leases.AttemptChanges | freshquant/clx_daily_selection/service.py:639-843 | under every step an attempt stays, is declared expired past its lease, is claimed live for six hours, is adopted unclaimed, or is advanced by its holder |
| Leases.NewAttemptIs | freshquant/clx_daily_selection/service.py:583-625 | a new attempt is scheduled for nine minutes, and only planners create any |
| Leases.LiveAttemptStays | freshquant/clx_daily_selection/service.py:3686-3690 | while the clock has not reached its lease, no step declares an attempt expired |
| Leases.ExpiredOnlyWhenPast | freshquant/clx_daily_selection/service.py:3686-3690 | over every run, each attempt declared expired has a lease that is past |
| Leases.PlannerSeesActive | freshquant/clx_daily_selection/service.py:521-637 | an uninterrupted planner leaves a live active attempt alone, and expires one past its lease and schedules the next |
| Leases.PlannerSeesNone | freshquant/clx_daily_selection/service.py:521-637 | without an active attempt it schedules the next |
| Leases.CanExpireExactly | freshquant/clx_daily_selection/service.py:693-716 | who reads an active attempt can declare it expired exactly when its lease is past |
| Leases.CanClaimExactly | freshquant/clx_daily_selection/service.py:719-757 | a free process can claim an attempt exactly when it is scheduled and its lease is not past |
| Leases.HolderEndsExactly | freshquant/clx_daily_selection/service.py:829-841 | a process fails its claim exactly while it holds it running or committing, and reports a drift while it is running |
| Leases.AdoptedExactly | freshquant/clx_daily_selection/service.py:645-680 | an attempt is adopted exactly when it is unclaimed and its key has a completed partition |
| Leases.LooksAgain | freshquant/clx_daily_selection/service.py:553-580 | a planner whose active attempt ends by itself looks once more, and numbers the next attempt exactly when there is no partition |
| ProtocolTheorems.NumbersWithoutGaps | freshquant/clx_daily_selection/repository.py:150-171 | over every run, with any other steps between the reads and the insert of a planner, the attempt numbers of a key are exactly 1..n |
| ProtocolTheorems.OneActiveAlways | freshquant/clx_daily_selection/service.py:508-637 | with planning uninterrupted, no key ever has two attempts that are scheduled, running or committing |
| ProtocolTheorems.InsertOneActive | freshquant/clx_daily_selection/service.py:592-637 | an insert keeps one active attempt per key exactly when its number is taken or its key has no active attempt |
| ProtocolTheorems.StepOneActive | freshquant/clx_daily_selection/service.py:508-637 | of all steps such an insert alone breaks it |
| ProtocolTheorems.OneActiveExactly | freshquant/clx_daily_selection/service.py:508-637 | a run has at most one active attempt per key throughout exactly when each insert in it meets that condition |
| ProtocolTheorems.SplitPlanningTwoActive | freshquant/clx_daily_selection/service.py:508-637 | two planners of one key that interleave their reads reach, from the empty store, an insert that does not, and two scheduled attempts |
| CommitRuns.CommitIsARun | freshquant/clx_daily_selection/repository.py:191-307 | what a whole commit leaves is what some run of the machine leaves, on every path |
| CommitRuns.CommitSucceeds | freshquant/clx_daily_selection/repository.py:191-307 | a commit that succeeds leaves a completed document of the computed content with all rows stored, and its attempt completed |
| CommitRuns.CommitSucceedsWhen | freshquant/clx_daily_selection/repository.py:191-335 | a commit succeeds exactly when its claim holds and what is in place admits its content, or when its attempt has authorized this identity already and no other document is in the way |
| RepositoryClass.Repository.UpsertBatchStatus | freshquant/clx_daily_selection/repository.py:498-520 | replaces what is not final; a final document stays, and a final one of other content is answered by a conflict |
| RepositoryClass.Repository.UpdateBatchPublicationIf | freshquant/clx_daily_selection/repository.py:535-550 | changes the publication record of a final batch exactly when it matches |
| RepositoryClass.Repository.UpdateFinalizationAttemptIf | freshquant/clx_daily_selection/repository.py:450-463 | changes the finalization attempt exactly when it matches, and fails exactly when it would then share its number under the batch it names |
| RepositoryClass.Repository.CreateFinalizationAttempt | freshquant/clx_daily_selection/repository.py:428-443 | inserts unless number or name is taken, answers with the attempt of that number, and fails exactly when the name alone is taken |
| BatchInvariant.EveryStep | freshquant/clx_daily_selection/service.py:845-1544 | every step of planning, finalizing, refusing and publishing keeps the invariant |
| BatchTheorems.EveryRun | freshquant/clx_daily_selection/service.py:845-1544 | the invariant holds over every run, together with the partition protocol below it |
| BatchTheorems.OneContent | freshquant/clx_daily_selection/service.py:983-992 | any two finalizations of one batch compute the same content, order and publication identity, and those of the stored final batch |
| BatchTheorems.NoFinalConflict | freshquant/clx_daily_selection/repository.py:498-520 | the conflict of two final contents cannot occur |
| BatchTheorems.FinalForever | freshquant/clx_daily_selection/service.py:967-1030 | a final batch never changes except in its publication record; finalizing again never resets that record, and a complete one never changes |
| BatchTheorems.CountStep | freshquant/clx_daily_selection/service.py:1442-1478 | the attempt count of a batch rises by exactly one at a successful claim, and at no other step |
| BatchTheorems.CountIsClaims | freshquant/clx_daily_selection/service.py:1423-1544 | over every run from the start the attempt count of a batch is the number of successful claims |
| BatchTheorems.OnlyTheHolderRecords | freshquant/clx_daily_selection/service.py:1481-1536 | only the claim with the current count, owner, token and lease records an outcome, and it records what its call came to |
| BatchTheorems.SupersededForever | freshquant/clx_daily_selection/service.py:1481-1544 | a publisher whose claim is no longer current never records anything again |
| BatchTheorems.OneCurrentPublisher | freshquant/clx_daily_selection/service.py:1423-1478 | at no time do two processes hold current publication claims of one batch |
| BatchLeases.PublicationChanges | freshquant/clx_daily_selection/service.py:1423-1544 | under every step the publication of a final batch stays, is claimed for two minutes when neither complete nor under a live claim, or is recorded by its holder |
| BatchLeases.LivePublicationStays | freshquant/clx_daily_selection/service.py:1744-1751 | while the clock has not reached its lease, only its holder changes a publication, by recording the outcome |
| BatchLeases.CanPublishExactly | freshquant/clx_daily_selection/service.py:1430-1480 | a publisher that sees the current record takes it exactly when it is neither complete nor under a live claim |
| BatchLeases.LateViewer | freshquant/clx_daily_selection/service.py:1473-1479 | one that sees an older record claims nothing, and ends well exactly when the record is complete by then |
| BatchLeases.LostClaimIsRecorded | freshquant/clx_daily_selection/service.py:1480-1520 | one that has lost its finalization claim does not call, and records a failure |
| BatchLeases.FinalizationChanges | freshquant/clx_daily_selection/service.py:1105-1236 | under every step a finalization stays, is declared expired past its lease, or is claimed, renewed or ended by its holder under a live lease |
| BatchLeases.LiveFinalizationStays | freshquant/clx_daily_selection/service.py:3686-3690 | while the clock has not reached its lease, no step declares a finalization expired |
| BatchLeases.CanExpireFinalExactly | freshquant/clx_daily_selection/service.py:1105-1128 | who reads an active finalization can declare it expired exactly when its lease is past |
| BatchLeases.CanClaimFinalExactly | freshquant/clx_daily_selection/service.py:1135-1162 | a process at rest can claim a finalization exactly when it is scheduled and its lease is not past |
| BatchTheorems.PublishUninterrupted | freshquant/clx_daily_selection/service.py:1423-1544 | left alone, a publisher raises the count by one, records its call's outcome and gives the claim back |
| BatchTheorems.CalledUnderRenewedClaim | freshquant/clx_daily_selection/service.py:1594-1621 | under execute_finalization the publisher is called only after the finalization claim was renewed while unexpired, with the publication already claimed |
| Refusals.PlannedMaterialStays | freshquant/clx_daily_selection/service.py:867-966 | a claimed finalization that finds its batch reads the partitions and the order it was planned with, so no drift check fires; the mismatch check fires exactly when the executing process has other contract versions |
| Joining.FinalBatchJoins | freshquant/clx_daily_selection/service.py:2646-2691 | over every run a final batch joins one stock and one ETF partition of its day and profile, of one QFQ pair and the same four versions, both with their evidence, and has their content and order |
| Joining.DirectJoinsExactly | freshquant/clx_daily_selection/service.py:930-945 | a direct finalization goes on with two completed partitions exactly when they agree in all this and are of its own versions |
| Joining.DirectMismatch | freshquant/clx_daily_selection/service.py:930-945 | otherwise, left alone, it leaves the mismatch as the batch document unless that is final |
| Joining.DirectStores | freshquant/clx_daily_selection/service.py:981-1030 | if they do, it stores their final batch, with its publication pending if it publishes and not required else |
| Joining.FoundFinal | freshquant/clx_daily_selection/service.py:966-980 | one that finds its batch final publishes that if it is to and it is not done, and else is finished; otherwise it goes on to write |
| Joining.WrittenGoesOn | freshquant/clx_daily_selection/service.py:1018-1030 | one that has written its batch publishes what is stored if it is to, and else is finished |
| Refusals.RefusedFails | freshquant/clx_daily_selection/service.py:2125-2129 | left alone, a refused finalization fails, and its refusal becomes the batch document of the batch it found unless that is final |
| Refusals.UpgradeFailsFinalization | freshquant/clx_daily_selection/service.py:930-945 | left alone, a finalization executed under other contract versions fails, and its batch shows the mismatch unless it is final |
| Refusals.RefusedCompletes | freshquant/clx_daily_selection/service.py:1163-1222 | with any steps of others in between, a refused attempt completes exactly when the batch was not final at its first look and is final at the second, its claim and lease hold and its number is free there; it is then recorded under that batch |
| Refusals.UpgradeCompletesPending | freshquant/clx_daily_selection/service.py:930-945 | overtaken by a direct finalization of the old versions, a publishing attempt executed after an upgrade completes while the publication is pending |
| Refusals.DriftCompletesElsewhere | freshquant/clx_daily_selection/service.py:868-883 | overtaken likewise, an attempt that drifted completes under the batch it found while its own is not final, and its number leaves its own |
| Inputs.UpgradeInput | freshquant/clx_daily_selection/repository.py:498-520 | for any two contracts that differ, a run from the empty start ends so |
| Inputs.DriftInput | freshquant/clx_daily_selection/repository.py:498-520 | for any two stock keys of a day, a run from the empty start ends so, with the next attempt's name taken |
| BatchTheorems.FinalizationEnds | freshquant/clx_daily_selection/service.py:1032-1236 | an ended finalization never changes, its token and material are never replaced; it is recorded under the batch planned for until it completes, and then under a final one |
| BatchTheorems.FinalizationIsFenced | freshquant/clx_daily_selection/service.py:1180-1222 | an active finalization is completed by a step exactly when its token holder finishes it before the lease it read about ends, with its number free under the final batch it was answered with; unless it was refused that is the batch planned for, and published if the process publishes |
| FinalNumbering.FinalNumbers | freshquant/clx_daily_selection/repository.py:422-443 | below a planned number every number was planned for the batch too, down to one that came with an attempt planned for another |
| FinalNumbering.NumbersStayUnique | freshquant/clx_daily_selection/repository.py:106-109 | no two attempts ever have one number under one batch |
| FinalNumbering.StepNumbers | freshquant/clx_daily_selection/service.py:1198-1217 | a step keeps the numbers of all batches without gaps exactly when it inserts no number beyond the next and moves only a last number to be the next of the other batch |
| FinalNumbering.NumbersExactly | freshquant/clx_daily_selection/service.py:1032-1236 | a run keeps them so throughout exactly when each of its steps does |
| FinalNumbering.PlanInsertsWhen | freshquant/clx_daily_selection/service.py:1349-1384 | an uninterrupted planner creates the next attempt exactly when no attempt has that name; otherwise one that left the batch has it |
| PrePoolLaws.ViewShowsLatest | freshquant/pre_pool_service.py:506-574 | the merged view shows for each source and category the membership with the greatest time, the last one of equal times, one without a time only where none has any, and nothing else; its list is in key order |
| PrePoolLaws.ViewTimes | freshquant/pre_pool_service.py:506-530 | it shows the earliest creation and the latest update and expiry of the rows |
| PrePoolLaws.ViewName | freshquant/pre_pool_service.py:507 | and the last name that a row has |
| PrePoolLaws.ReadBack | freshquant/pre_pool_service.py:506-574 | a written row is read back as it was written, absent times and order being filled in from its older fields |
| PrePoolLaws.UpsertShows | freshquant/pre_pool_service.py:281-373 | after an upsert the code shows the new membership under its key and what it showed before under every other; no other code is affected |
| PrePoolLaws.UpsertFields | freshquant/pre_pool_service.py:322-373 | after an upsert, of a new code or not, creation is the earlier and update and expiry the later of the old and the given time, and name, symbol and order are the old ones unless given; without any update time the creation time is shown as one |
| PrePoolLaws.UpsertKeepsRowFieldsWhen | freshquant/pre_pool_service.py:350-371 | for each row of the code, its own category, remark and extra each survive an upsert exactly when given again or blank before |
| PrePoolLaws.UpsertForgetsRowFields | freshquant/pre_pool_service.py:350-371 | a row with all three loses them to any upsert that gives none |
| PrePoolDetails.NewMembershipIs | freshquant/pre_pool_service.py:301-338 | the membership an upsert adds, with its remark |
| PrePoolDetails.LegacyOffer | freshquant/pre_pool_service.py:101-113 | a row of the older form offers one membership, dated by its last update |
| PrePoolDetails.LegacySourceIs | freshquant/pre_pool_service.py:66-80 | its source, from remark, category and extra |
| PrePoolDetails.LegacyCategoryIs | freshquant/pre_pool_service.py:83-98 | its category, from extra, category and remark |
| PrePoolDetails.SymbolWhen | freshquant/pre_pool_service.py:22-28 | a blank symbol is made from a six-digit code by its first digit |
| PrePoolLaws.RemoveShows | freshquant/pre_pool_service.py:438-486 | removing takes away exactly the selected memberships of the code; nothing else changes |
| PrePoolLaws.RemoveAnswers | freshquant/pre_pool_service.py:438-486 | it answers whether there were any, and deletes the code exactly when none is left |
| PrePoolDetails.RemoveFields | freshquant/pre_pool_service.py:471-486 | where memberships remain, the other fields stay, and the order does unless the thirty were removed |
| PrePoolDetails.OrderIs | freshquant/pre_pool_service.py:586-598 | then it is the smallest order from zero on that a remaining membership carries |
| PrePoolLaws.SourcesAgree | freshquant/pre_pool_service.py:224-486 | every operation leaves each unified row naming exactly the sources and categories of its memberships |
| PrePoolListing.ListingIs | freshquant/pre_pool_service.py:375-420 | the listing has exactly the codes that are asked for, each once with its merged view, sorted by order, then time, then code |
| PrePoolDetails.ListingOrder | freshquant/pre_pool_service.py:576-584 | codes with an order come first, by it; the others by their last update or creation; ties by code |
| PrePoolListing.ListingOfOne | freshquant/pre_pool_service.py:422-424 | asked for one code it is that code's merged view, or nothing |
| PrePoolStore.PrePoolService.ListCodes | freshquant/pre_pool_service.py:375-420 | grouping the rows as they come and sorting the groups yields that listing |
| PrePoolStore.PrePoolService.GetCode | freshquant/pre_pool_service.py:422-424 | the merged view of the code, and for an empty code that of the first code of the listing |
| PrePoolStore.PrePoolService.UpsertCode | freshquant/pre_pool_service.py:281-373 | refuses an empty code, else replaces the code's rows by the one document it answers with |
| PrePoolStore.PrePoolService.RemoveMembership | freshquant/pre_pool_service.py:438-486 | the loop over the memberships does what the removal function says, with its answer |
| PrePoolStore.PrePoolService.PurgeExpiredMemberships | freshquant/pre_pool_service.py:224-279 | a pass over a snapshot that rewrites the store as it goes, with its three counts |
| PrePoolStore.PrePoolService.ReconcileClxTradeDate | freshquant/pre_pool_service.py:120-222 | both passes together reconcile every code, and the counts are those of missing, outdated, current and surplus codes |
| PrePoolRuns.PurgeLosesNothingWhen | freshquant/pre_pool_service.py:224-279 | a purge keeps every unexpired membership of a code exactly when no row but the last one it acts on has any |
| PrePoolRuns.PurgeOneRowPerCode | freshquant/pre_pool_service.py:224-279 | with one row per code it drops exactly what is expired and deletes exactly the unified rows left empty |
| PrePoolDetails.PurgedFields | freshquant/pre_pool_service.py:232-272 | a purged row keeps what has not expired by now, shows the latest expiry of that, and is otherwise as it was |
| PrePoolRuns.PurgeCanLose | freshquant/pre_pool_service.py:224-279 | with two rows, the first expired and the second not, the code is deleted |
| PrePoolRuns.ReconcileShows | freshquant/pre_pool_service.py:120-222 | afterwards exactly the targets hold the date's membership, and every other membership of every code is as before |
| PrePoolRuns.ReconcileDeletesEmpty | freshquant/pre_pool_service.py:196-213 | a code that held nothing else is deleted |
| PrePoolRuns.SecondRun | freshquant/pre_pool_service.py:120-222 | a second run with the same arguments leaves the very same rows and finds only unchanged targets |
| PrePoolRuns.TargetsCounted | freshquant/pre_pool_service.py:155-222 | added, updated and unchanged add up to the number of targets |
| Universe.NormalizeUniverseCandidates | freshquant/clx_daily_selection/service.py:3111-3130 | the canonical candidates, or the first thing that is wrong with the rows |
| Universe.CanonicalFixed | freshquant/clx_daily_selection/service.py:3015-3016 | a list is its own canonical form exactly when it is sorted, valid, without repetition and named |
| Universe.BaseSymbolFixed | freshquant/util/code.py:73-99 | a six-digit code is its own base code |
| Universe.BaseSymbolForms | freshquant/util/code.py:73-99 | with a market before it, or behind it after a dot, it is the base code too |
| FrozenUniverse.NormalizeSourceExclusions | freshquant/clx_daily_selection/service.py:3132-3143 | the sorted exclusions, or a refusal when one lacks a valid code or a reason |
| FrozenUniverse.FreezeEffectiveUniverse | freshquant/clx_daily_selection/service.py:2836-2998 | the frozen plan, or the first of all the reasons to refuse; the check is passed exactly when some instrument is effective and the credit snapshot has a hash |
| FrozenUniverse.EveryCandidateOnce | freshquant/clx_daily_selection/service.py:2884-2963 | every candidate is effective, source-excluded, policy-excluded or reader-isolated, and only one of these; order is kept and counts add up |
| FrozenUniverse.EffectiveWhen | freshquant/clx_daily_selection/service.py:3322-3370 | a candidate is effective exactly when the source does not exclude it, its credit lookup says 48, it is no LOF among ETFs, and its bars can be read; else it is listed where the first of these fails |
| FrozenUniverse.IsolationSays | freshquant/clx_daily_selection/service.py:2884-2963 | and the listing names its code, the rule and where that comes from |
| FrozenUniverse.ReasonsAre | freshquant/clx_daily_selection/service.py:2884-2900 | a source exclusion lists each of its reasons once |
| FrozenUniverse.FrozenPlanPasses | freshquant/clx_daily_selection/service.py:3000-3109 | the plan passes every check of the validator exactly when it is not empty and the credit snapshot has a hash, and otherwise fails that very check |
| FrozenUniverse.AcceptedWhen | freshquant/clx_daily_selection/service.py:3000-3109 | the validator accepts a plan exactly when it is current, canonical and not empty, names the exclusions there are, has the isolations of the three kinds in order, agrees in all hashes and counts, and has nothing in it twice |
| Counting.DecodeEncode | freshquant/clx_daily_selection/contracts.py:298-327 | decoding gives back every occurrence, entrypoint and direction that can be encoded |
| Counting.EncodeDecode | freshquant/clx_daily_selection/contracts.py:298-327 | a raw value is valid under a model exactly when it encodes something under it, and then re-encodes to itself |
| Counting.OtherModels | freshquant/clx_daily_selection/contracts.py:298-327 | when a value valid under one model is valid under another as well |
| Counting.OneValueTwoModels | freshquant/clx_daily_selection/contracts.py:298-327 | 1101 is valid under model 0 and under model 1 |
| Counting.LatestMemberships | freshquant/clx_daily_selection/service.py:2009-2108 | one membership for every model whose last signal is not zero, in model order, with its condition, its status and its structural evidence |
| Counting.ConfirmedWhen | freshquant/clx_daily_selection/service.py:2027-2050 | a membership is of its symbol, model and signal; its condition is the entrypoint, or the trigger where entrypoint 3 of model 2 needs one; it is confirmed exactly when the signal decodes and the structure it needs is there, and unknown to the decoder exactly when it does not decode |
| Counting.FiredDistinct | freshquant/clx_daily_selection/service.py:1871-1893 | a symbol's distinct model count is its number of memberships |
| Counting.CalculatePartition | freshquant/clx_daily_selection/service.py:1790-1932 | succeeds exactly when the frozen universe is not empty, every instrument evaluates and one mode was used; then every instrument is evaluated and counted |
| Counting.ResonanceDistribution | freshquant/clx_daily_selection/service.py:2279-2294 | for every k the number of symbols hit by k models, and no empty entry |
| Counting.Conservation | freshquant/clx_daily_selection/service.py:1805-1932 | hit counts, memberships, distinct model counts and the weighted resonance distribution add up to one number |
| Counting.HitCount | freshquant/clx_daily_selection/service.py:1922-1931 | a model's hit count is the number of instruments whose last signal of it is not zero |
| Counting.SnapshotsAre | freshquant/clx_daily_selection/service.py:1871-1893 | one snapshot for each instrument in order, with exactly the models whose last signal is not zero |

## Left out

- MongoDB itself: collections are maps or sequences, each document operation is atomic, and unique indexes are map keys.
- Hash bytes and JSON encoding: a hashed value stands for its own hash, so hashes and their truncations are injective.
- ISO timestamps are natural numbers; prices, volumes and averages are reals, so rounding and NaN are not modelled.
- The native engine, the bar readers and the QFQ probe: what they answer is a parameter.
- `update_attempt` and `update_batch_publication`: unconditional writers that the service does not call.
- `_ensure_publication_identity`: every final batch created by the code has its publication identity from the start.
- Which rows, states and counts a batch document shows: they are its body, which the model only shows to be fixed.
- `_partition_mismatches`: compares date, profile, QFQ pair and contract versions; whether a partition agrees with the evidence it carries is one flag of it.
- Tags checked on entry to `execute_partition` and `execute_finalization`: they only refuse calls.
- BatchProtocol.DoRefusal: which keys the day names is open, so a claimed finalization may find another batch, and a direct one an incomplete partition, at any time.
- BatchProtocol.DoFinals: a planner of finalizations goes on whether or not it has seen an active attempt, so the machine has more runs than the code.
- The start of a run may hold incomplete partition documents of earlier versions, but no attempts and no batches.
- PrePoolRuns.SecondRun: the order of rows in the collection, which may change because rewriting a code moves its row to the end.
- Stored codes and texts are taken as already stripped; a value in an extra mapping is its text and its integer, if it has one.
- Universe.BaseSymbolFixed: upper-casing and digits are ASCII only.
- Counting.LatestMemberships: the display labels of a membership, and the part of its evidence that repeats the decoding.
- PenLoop.IsBi: the merged candle that the code keeps after the end is represented by the one value it is compared by.
- PenLoop.CalcBi: `calculate_bi` is the same loop over lists and is not modelled twice.
- Pivots.FindPivots: the two mirrored loops are one with the direction as a parameter, and a position is at least zero, so Python's negative indices are not modelled.
- ComposeKline.CalcRecords: `compose`, which stores the bars.
- Price extremality of segments, `calc_duan_exp`, `split_bi_in_duan`, `FindLastFractalRegion`, `CalcBiList` and divergence: thresholds and wall-clock time without a clean invariant.
- Model co-occurrence, condition and line statistics, queries, exports, runtime batches beyond their storage, command lines and charts: easy members or input and output.
