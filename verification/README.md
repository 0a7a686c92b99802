# The memory store's protocols, verified

This project models the parts of the repository that are protocols or folds over append-only data, and
proves what they keep.

* **Crawler side log** (`Inference`, `SideLog*`, `Patches`, `CrawlerStore`, `LogFile`, `Review`). Agents hand
  updates to `apply_crawler_updates`, which filters them against the index and queues what survives in a log per
  session; `merge_crawler_updates` replays a log into the index and clears it. `SideLog` states both as functions on
  (beads, associations, log), with associations addressed by id. `SideLogRuns` is the state machine over many
  sessions: new beads, applies, merges, and merges that crash between the index write and the log clear.
  `CrawlerStore.Store` is the imperative form, an association list edited in place, a bead table and one log per
  session; each of its methods is tied to one transition. The association validator is modelled too, with the
  relation table as a parameter.
* **Creation rows** (`Creation`, `CreationLaws`, `CreationCommit`): the normaliser of authored beads and the loop
  that hands its output to the store.
* **Edge usage** (`EdgeUsage`, `EdgeUsageRuns`, `EdgeUsageLosses`, `EdgeStore`): the usage log, its fold into
  reinforcement counts, and runs in which records, several folds, crashes and other edits interleave.
* **Claims** (`Claims`, `ClaimKeys`, `ClaimLaws`, `ConflictReview`, `UpdatePolicy`, `ResolutionPipeline`, `SlotReader`,
  `UpdateNumbers`, `ReaderAgreement`, `Epistemic`): the resolver of all slots, the string key slots are bucketed by,
  what a conflict resolution changes, how updates are emitted, the path of a resolution through these, the separate
  reader of one slot with the sequence numbers it goes by, when the two readers agree, and the conflict score.
* **Folds** (`Transcript`, `Quarantine`, `Ratchet`, `Scoring`, `Recall`): transcript pairing and windowing, the
  deduplicating quarantine log, the compatibility ratchet, and the benchmark scores.

`Options`, `Text`, `Sorting` and `Sequences` hold what these share: missing values, strings, orders and lists. Where the
source is a loop or edits state, the model is a method proved against a specification function, and the theorems are
lemmas about that function. Proof scripts use `hide` to keep definitions they do not need out of the solver's sight.

Modelling conventions: instants are integers (claims count from the earliest representable instant), confidences and
scores are reals before rounding, `strip` and `lower` act on ASCII text, and fresh ids, clock readings and the
store's answers are inputs. A missing text field is the empty string where the source treats the two alike.

## What the code does that its documentation does not say

* `fold_edge_usage` promises that a crash replays usage rather than losing it. The read of the log is outside the lock
  and stops at `max_rows`, but the truncation clears the whole file. So with one fold at a time and no replay an
  association keeps its uses if and only if every truncation is clean: nothing behind the lines the fold read names it
  (`EdgeUsageRuns.AtLeastOnceIff`). Records before or after the index write, an overlong log, and a log without usable
  edges break it, each exactly when what is left unread names the association
  (`EdgeUsageLosses.InterruptedFoldKeepsIff`, `EdgeUsageLosses.DiscardKeepsIff`; `EdgeUsageLosses.PromiseCanFail` is one
  such run). Crashes that do replay count twice, by exactly the replayed uses; two overlapping folds count twice without
  any crash (`EdgeUsageLosses.OverlapCountsTwice`).
* Moving a merge matters for one kind of request only: a lifecycle request for an association waiting in the log of the
  same session is ignored, and after a merge it can work (`SideLogTimingLimits.LifecycleTimingMatters`); what other
  sessions wait for is refused before and after. One apply stays in step with immediate application if and only if it
  sees every association named by the requests it would be granted there (`SideLogTiming.ApplySimulatesIff`); in
  schedules that do, timing is irrelevant (`SideLogTiming.MergeTimingIsIrrelevant`).
* The file behind a session's side log has a lossy name, and a merge clears the whole file. Two sessions that share a
  file can lose rows (`LogFile.ClashLosesRows`); `LogFile.MergeSparesOtherIff` says exactly when. The run theorems
  assume every session has its own log.
* Merge validates a queued association again and so forgets the relation the author wrote, unless that was a canonical
  one (`Inference.AuthoredRelationSurvivesIff`).
* A title cut at 200 characters in front of white space is stripped by a second normalisation
  (`CreationLaws.SecondPassIdentityIff`).
* Slots share buckets. A slot has its claim bucket to itself if and only if it has no scope, no colon in the subject
  but in front and none in the slot but at its end (`ClaimKeys.KeyIsOwnIff`); every scoped slot shares its bucket with
  an unscoped one (`ClaimKeys.ScopedKeyIsShared`).
* Where the joined text `subject:slot` contains `::`, or a scoped slot ends in `:`, a bucket is separated from its own
  updates, so `resolve_all_current_state` never sees a resolution there (`ClaimKeys.BaseKeyRecoversIff`,
  `ConflictReview.ResolutionLostOtherwise`).
* In `resolve_all_current_state` a resolution does not remove conflict marks: a slot is in conflict after one exactly
  when it was before (`ConflictReview.ConflictOutlivesResolution`), and "A becomes current" holds exactly when nothing
  contests the slot and A is the last of its current claims other than B (`ConflictReview.PreferAEndsWithAIff`).
* `resolve_current_state` does clear the marks, so the two readers disagree: after a resolution they give the same
  status if and only if the slot showed no conflict before (`ReaderAgreement.ReadersAgreeAfterResolutionIff`). In this
  reader A becomes current exactly when it had not been ended (`ReaderAgreement.PreferAInReaderIff`). Any supersession
  or retraction in the slot that is read after the marks clears them, whichever claim it names
  (`SlotReader.ClearedIff`), and a mark without a sequence number, from the older files, is not cleared by rows the
  store has numbered from 1 on (`UpdateNumbers.LegacyMarksClearedIff`).
* `resolve_current_state` means the claim with the highest `chain_seq` to win. Claims lose that field when they are read
  (core_memory/schema/models.py:564-577), so without an installed replacement the last claim in load order wins.
* The pairing warning named after the final user turn is given for every user turn without a reply.
* Dia ids are deduplicated before they are stripped, so recall stays within 1 if and only if no two different dia ids
  of the ranked beads strip alike (`Recall.ExtractedRecallBoundedIff`, `Recall.UnstrippedTableOvercounts`). The shipped
  loader strips and checks its ids (benchmarks/locomo/loader.py:41-46), so a failing table needs another producer.

## Model

| member | source | states |
|---|---|---|
| Inference.AcceptedIsWellShaped | core_memory/policy/association_inference_v21.py:129-201 | whatever the validator accepts has distinct stripped endpoints, a canonical relation, a normal provenance, and for model inferences a reason and a confidence in range |
| Inference.AcceptsOwnOutput | core_memory/policy/association_inference_v21.py:129-201 | the validator accepts its own output with the same endpoints, relation, reason, confidence and provenance; only the trace of normalisation is dropped |
| Inference.AuthoredRelationSurvivesIff | core_memory/association/crawler_contract.py:524-585 | a merged association shows the relation its author wrote if and only if the author wrote a canonical relation |
| SideLogLaws.RevalidationIsRedundant | core_memory/association/crawler_contract.py:502-600 | on a row that apply queued, merge's own validation and bead checks reject nothing and change nothing but the raw relation |
| SideLogLaws.ActExtends | core_memory/association/crawler_contract.py:489-656 | replaying a good row of any kind removes nothing, keeps every association's endpoints and relation, and never unsets or restamps a promotion mark |
| SideLogLaws.ActKeepsRowOk | core_memory/association/crawler_contract.py:489-656 | a queued row of any session stays fit for replay while another row, of any session, is replayed |
| SideLogEnqueue.QueuedOk | core_memory/association/crawler_contract.py:856-1074 | every row one apply queues is within its session's reach, has a new triple or names indexed associations, and carries a fresh id |
| SideLogReplay.ReplayIsActs | core_memory/association/crawler_contract.py:489-656 | replaying a good log with the validator is replaying it without |
| SideLogReplay.ActsPatch | core_memory/association/crawler_contract.py:601-656 | what a log does to an association that was there before is one patch, determined by the lifecycle rows that name it |
| SideLogReplay.ReplayTwice | core_memory/association/crawler_contract.py:489-668 | crash replay is harmless: replaying an already replayed log leaves appends, promotions, statuses and confidences as they are |
| SideLogReplay.ReplayNeedsNamedTargets | core_memory/association/crawler_contract.py:601-612 | without the invariant that lifecycle rows name indexed associations, replaying twice can differ from replaying once |
| SideLogCommute.RowsCommute | core_memory/association/crawler_contract.py:473-656 | rows of two sessions have the same effect in either order |
| SideLogCommute.LogsCommute | core_memory/association/crawler_contract.py:473-656 | so do whole logs of two sessions |
| SideLogRuns.InitiallyInv | core_memory/association/crawler_contract.py:435-457 | with nothing queued the run invariant holds of any well-formed index |
| SideLogRuns.NextKeepsInv | core_memory/association/crawler_contract.py:435-680 | new beads, applies, merges and crashed merges all keep the run invariant: every queued row of every session is good and no id is queued twice |
| SideLogSafety.RunIsSafe | core_memory/association/crawler_contract.py:491-600 | over every run of many sessions, crashes included: no association is removed or changes endpoints, no promotion mark is unset or restamped, and no association is ever gained that repeats another's source, target and relation |
| SideLogSafety.CrashesLeaveNoTrace | core_memory/association/crawler_contract.py:662-668 | every run with crashed merges ends with the index of the same run in which those merges completed |
| SideLogTiming.DedupeLayersAgree | core_memory/association/crawler_contract.py:564-569 | what enqueue lets through because a duplicate is still in the log, merge drops: deduplicating against the index or against index and backlog has the same effect |
| SideLogRequests.DecidedAlikeIff | core_memory/association/crawler_contract.py:1012-1074 | an apply decides its lifecycle requests before the backlog lands as it would afterwards if and only if it sees every association the granted ones name |
| SideLogRequests.PendingElsewhereIsRefused | core_memory/association/crawler_contract.py:1012-1074 | it does when no request names what waits in its own session's log; what other sessions wait for is out of its reach either way |
| SideLogTiming.ApplySimulatesIff | core_memory/association/crawler_contract.py:871-1074 | one apply keeps the queued state in step with immediate application if and only if it sees those associations |
| SideLogTiming.QueueingRefinesImmediate | core_memory/association/crawler_contract.py:871-1010 | queueing with merges and crashes anywhere, then merging all logs, yields the index that applying every update at once would, if every apply sees the associations named by the requests it would be granted there |
| SideLogTiming.NothingPendingSeesAll | core_memory/association/crawler_contract.py:1012-1074 | every apply of a run, crashes included, sees them when no request names an association waiting in the log of its own session |
| SideLogTiming.MergeTimingIsIrrelevant | core_memory/association/crawler_contract.py:435-668 | under the same condition two schedules of the same applies that both end merged end with the same index up to missing statuses, and with the very same one if none was missing at the start |
| SideLogTimingLimits.LifecycleTimingMatters | core_memory/association/crawler_contract.py:1018-1021 | the restriction is needed: retracting an association the session has queued works after a merge and is ignored before one |
| SideLogLifecycle.LastRowDecidesStatus | core_memory/association/crawler_contract.py:618-656 | the last queued row that names an association, as target or replacement, decides its status |
| SideLogLifecycle.ConfidenceIsMaximum | core_memory/association/crawler_contract.py:625-634 | its confidence becomes the largest of the old value and all reaffirming offers |
| SideLogLifecycle.OutOfScopeUntouched | core_memory/association/crawler_contract.py:477-480 | an association with an endpoint outside the merged session keeps its effective status and every other field |
| SideLogMerge.MergeAddsExactly | core_memory/association/crawler_contract.py:502-600 | a merge adds exactly the association of the first unbanned append of every triple the index did not hold, equal in every field to the one queued, and active |
| SideLogMerge.MergeStampsFirst | core_memory/association/crawler_contract.py:491-501 | an unmarked bead gets the stamp of the first promotion queued for it |
| SideLogMerge.MergeLeavesBead | core_memory/association/crawler_contract.py:491-501 | a bead marked before, or not named by a promotion, is left as it was |
| SideLogMerge.EnqueueComplete | core_memory/association/crawler_contract.py:909-1010 | nothing acceptable is dropped: its key is in the index or queued by the same call |
| CrawlerStore.ListIsCanonical | core_memory/association/crawler_contract.py:663 | the sorted association list merge writes is determined by the associations it holds |
| CrawlerStore.PromotionRows | core_memory/association/crawler_contract.py:888-903 | the loop queues exactly the promotions of visible beads of the session |
| CrawlerStore.AppendRows | core_memory/association/crawler_contract.py:905-1010 | the loop with its two key sets queues exactly the accepted associations whose key is new |
| CrawlerStore.LifecycleRows | core_memory/association/crawler_contract.py:1012-1074 | the loop queues exactly the requests whose target and replacement are indexed and in reach |
| CrawlerStore.Tables | core_memory/association/crawler_contract.py:871-883 | the two tables built from the list are its index by id and the set of the keys, endpoints and relation, without an empty part |
| CrawlerStore.EditTarget | core_memory/association/crawler_contract.py:614-656 | the field edits of each action are the action's patch |
| CrawlerStore.MayEdit | core_memory/association/crawler_contract.py:602-645 | the checks of the lifecycle branch pass exactly for rows that may act |
| CrawlerStore.EditLifecycle | core_memory/association/crawler_contract.py:601-656 | editing target and replacement in place is the specified effect, and nothing is edited when a check fails |
| CrawlerStore.AppendAssociation | core_memory/association/crawler_contract.py:502-600 | the append branch adds the association unless its triple is stored |
| CrawlerStore.ReplayRows | core_memory/association/crawler_contract.py:489-656 | the merge loop computes the specified replay |
| CrawlerStore.FillStatus | core_memory/association/crawler_contract.py:658-660 | exactly the missing statuses become active |
| CrawlerStore.Store.AddBead | core_memory/association/crawler_contract.py:807-826 | a bead committed to the store is the new-bead transition and keeps the invariant, whatever is queued |
| CrawlerStore.Store.ApplyCrawlerUpdates | core_memory/association/crawler_contract.py:829-1074 | one apply is the specified transition and keeps the invariant; the index is untouched and the log grows by the reported rows |
| CrawlerStore.Store.MergeCrawlerUpdates | core_memory/association/crawler_contract.py:435-668 | one merge, completed or crashed, is the specified transition, keeps the invariant and leaves the list sorted |
| LogFile.MergeSparesOtherIff | core_memory/association/crawler_contract.py:429-457 | a merge keeps another session's pending rows if and only if the file names differ or one of the two has nothing pending |
| LogFile.SafeNamesKept | core_memory/association/crawler_contract.py:429-432 | session ids of letters, digits, dashes and underscores are their own file names, so they never clash |
| LogFile.NamesClash | core_memory/association/crawler_contract.py:429-432 | two other ids can share a file |
| LogFile.ClashLosesRows | core_memory/association/crawler_contract.py:446-457 | merging one of two sessions that share a file loses what the other had queued |
| LogFile.AppendedPending | core_memory/association/crawler_contract.py:446-454 | a session reads back exactly the rows it appended, after those it had |
| Review.NormalizeReviewRows | core_memory/association/crawler_contract.py:35-131 | promotions are deduplicated in order of first mention; associations and actions of reviewed beads follow the top-level ones in normal form |
| Review.PromotedIff | core_memory/association/crawler_contract.py:37-92 | a bead is promoted if and only if the list names it or a review gives it a promoting state |
| Review.NestedAreKept | core_memory/association/crawler_contract.py:41-84 | no association of a reviewed bead is lost, and one without a source starts at that bead |
| Review.NormalAgain | core_memory/association/crawler_contract.py:94-117 | the normal form of an association is stable |
| Review.NormalFormIsInvisible | core_memory/association/crawler_contract.py:94-117 | normalising an association first does not change what the validator makes of it |
| Creation.NormalizeCreationRows | core_memory/association/crawler_contract.py:156-299 | the two passes compute the specified rows and diagnostics |
| CreationLaws.RowsHaveNormalForm | core_memory/association/crawler_contract.py:242-299 | either no rows, or one current-turn row with source turns first and at most two derived rows in input order, each naming the current turn and otherwise as its input row reads |
| CreationLaws.EveryRowAccountedOnce | core_memory/association/crawler_contract.py:166-299 | every input row is kept or has exactly one drop diagnostic, never both, and no other position is named; the kept rows are the ones returned, unless the current turn has no source turns: then, and only then, nothing is returned and a diagnostic says so |
| CreationLaws.SecondPassKeepsRows | core_memory/association/crawler_contract.py:156-299 | normalising the returned rows again keeps their number, order, roles, parents and source turns and drops none |
| CreationLaws.SecondPassIdentityIff | core_memory/association/crawler_contract.py:183 | the second pass changes nothing at all if and only if no title was cut in front of white space |
| CreationLaws.SecondPassMayRecut | core_memory/association/crawler_contract.py:183 | such a title exists |
| CreationCommit.Grounded | core_memory/association/crawler_contract.py:801-805 | the parents the store is handed are the named ones in order with the sentinel replaced by the committed id, and no others |
| CreationCommit.CommitRows | core_memory/association/crawler_contract.py:786-826 | a derived row reaches the store only after the current turn's bead has an id, unchanged but for its parents, which are the grounded ones; ids and failures are exactly the store's answers |
| CreationCommit.DerivedRowsAccounted | core_memory/association/crawler_contract.py:781-826 | when the store returns no empty id, derived ids plus derived failures are as many as the derived rows |
| EdgeUsage.Tally | core_memory/association/edge_lifecycle.py:145-168 | the aggregation counts, for every key, the logged edges that normalise to it |
| EdgeUsage.FoldIsHomomorphism | core_memory/association/edge_lifecycle.py:145-194 | folding two logs in turn counts as folding their concatenation |
| EdgeUsage.IncrementIs | core_memory/association/edge_lifecycle.py:185-194 | an active association between different beads gains the number of logged edges that match it in either orientation, a loop twice that, an inactive one nothing |
| EdgeUsageRuns.Ledger | core_memory/association/edge_lifecycle.py:107-201 | over every run, overlapping folds included: count plus pending uses, less those in flight, plus those lost, equal the start plus recorded plus replayed |
| EdgeUsageRuns.NothingLostIff | core_memory/association/edge_lifecycle.py:147-199 | with one fold at a time a run never loses a negative number of uses, and none exactly when at every truncation what the fold had not read does not name the association |
| EdgeUsageRuns.AtLeastOnce | core_memory/association/edge_lifecycle.py:131-141 | when every truncation is clean, an association that stays active has counted or pending everything it started with or was given, and the excess is exactly what crashes replay |
| EdgeUsageRuns.ExactlyOnce | core_memory/association/edge_lifecycle.py:131-201 | without a replay an edge between different beads gains exactly the recorded edges that match it in either orientation, less those pending, if and only if every truncation is clean |
| EdgeUsageRuns.AtLeastOnceIff | core_memory/association/edge_lifecycle.py:131-201 | without a replay the promise holds if and only if every truncation is clean |
| EdgeUsageRuns.CarefulIsClean | core_memory/association/edge_lifecycle.py:147-199 | truncations are clean when nothing is recorded during a fold and the log fits `max_rows` |
| EdgeUsageLosses.InterruptedFoldKeepsIff | core_memory/association/edge_lifecycle.py:147-197 | a fold with uses recorded before and after its index write, on a log of any length, keeps the promise if and only if neither record nor the rows beyond `max_rows` name the association |
| EdgeUsageLosses.DiscardKeepsIff | core_memory/association/edge_lifecycle.py:170-175 | a fold that finds no usable edge empties the log too, and keeps the promise under the same condition |
| EdgeUsageLosses.OverlapCountsTwice | core_memory/association/edge_lifecycle.py:147-199 | two folds that read the log before either takes the lock count every use they read twice, without a crash |
| EdgeUsageLosses.PromiseCanFail | core_memory/association/edge_lifecycle.py:135-139 | a concrete run of one fold and one record breaks the promise |
| EdgeStore.CollectUsedEdgePairs | core_memory/association/edge_lifecycle.py:60-104 | the result has no repeats and holds exactly the keys that contributed, each of a real active association |
| EdgeStore.PairTable | core_memory/association/edge_lifecycle.py:77-81 | the last active association of a pair wins |
| EdgeStore.FoldRows | core_memory/association/edge_lifecycle.py:185-194 | the pass over the rows reinforces exactly the matching active ones and counts them |
| EdgeStore.FoldIsARun | core_memory/association/edge_lifecycle.py:131-201 | a fold, cut off at any crash point, is a run of the state machine |
| EdgeStore.Store.RecordEdgeUsage | core_memory/association/edge_lifecycle.py:107-128 | recording appends one line with the edges that have both ends, or nothing |
| EdgeStore.Store.FoldEdgeUsage | core_memory/association/edge_lifecycle.py:131-201 | the fold on the stored rows and log is that run, and reports how many rows it reinforced |
| Claims.BuildClaimTimeline | core_memory/claim/resolver_helpers.py:39-72 | visible claims in temporal order, then visible updates as logged, each with the claim it targets |
| Claims.GroupClaims | core_memory/claim/resolver.py:44-55 | the grouping holds exactly the buckets of the slot key, in order |
| Claims.GroupUpdates | core_memory/claim/resolver.py:57-65 | updates are grouped by subject and slot only |
| Claims.ResolveAllCurrentState | core_memory/claim/resolver.py:41-109 | exactly the non-empty buckets are resolved, each against the updates of its base key, and the counters are the numbers of active and conflicting slots |
| ClaimLaws.HistoryMeaning | core_memory/claim/resolver.py:76-78 | a slot's history holds exactly its visible claims, in temporal order |
| ClaimLaws.CurrentMeaning | core_memory/claim/resolver.py:76-84 | the current claim is a visible one that no visible update has ended, and the temporally last of those |
| ClaimLaws.StatusMeaning | core_memory/claim/resolver.py:86-93 | a visible conflict update on a visible claim makes the slot a conflict; otherwise it is active exactly when it has a current claim |
| ClaimKeys.BaseKeyRecoversIff | core_memory/claim/resolver.py:53-74 | the base key gives back subject and slot if and only if the joined text subject:slot contains no `::` and a scoped slot does not end in a colon |
| ClaimKeys.SlotKeyInjective | core_memory/claim/resolver.py:53-54 | on colon-free subjects and slots the key determines subject, slot and scope |
| ClaimKeys.KeyIsOwnIff | core_memory/claim/resolver.py:53-54 | no other subject, slot and scope has a slot's key if and only if the slot has no scope, the subject no colon after its first character and the slot none before its last |
| ClaimKeys.ScopedKeyIsShared | core_memory/claim/resolver.py:53-54 | every scoped slot shares its bucket with an unscoped one |
| ClaimKeys.ClaimsApartIff | core_memory/claim/resolver.py:44-101 | claims of other slots never change what a slot shows if and only if its key is its own in that sense |
| ClaimKeys.UpdatesApartIff | core_memory/claim/resolver.py:57-101 | updates of other subjects and slots never do if and only if the base key can be read as its own subject and slot only, or not at all |
| ClaimKeys.OwnUpdatesOnlyIff | core_memory/claim/resolver.py:57-74 | a slot gets its own updates and no others if and only if its colons are outside as above, subject:slot holds no `::` and a scoped slot ends in no colon |
| ClaimKeys.ClaimTouchesItsSlotOnly | core_memory/claim/resolver.py:44-101 | between colon-free subjects and slots a claim leaves every other slot unchanged, other scopes of its own subject and slot included |
| ClaimKeys.UpdateTouchesItsSlotOnly | core_memory/claim/resolver.py:57-101 | between colon-free subjects and slots an update leaves every other subject and slot unchanged |
| ClaimLaws.EndedForGood | core_memory/claim/resolver_helpers.py:15-23 | a visibly superseded or retracted claim never becomes current again, whatever is logged later and however late one looks |
| ClaimLaws.CurrencyIsAntitone | core_memory/claim/resolver_helpers.py:7-23 | more updates only ever take currency away |
| ClaimLaws.CurrentClaimsShrink | core_memory/claim/resolver.py:80 | the current claims after more updates are a sub-list of those before |
| ClaimLaws.CurrentClaimNeverLater | core_memory/claim/resolver.py:76-93 | with claims fixed the chosen current claim never moves later in temporal order, is never regained, and conflicts only grow |
| ClaimLaws.PermutedLogSameSlots | core_memory/claim/resolver.py:57-101 | permuting the update log changes no slot's current claim, history, conflicts or status |
| ClaimLaws.ClaimOrderFree | core_memory/claim/resolver.py:76-101 | nor does the order of the claims, when no two share instant and id |
| ConflictReview.RowsEnd | core_memory/claim/conflict_review.py:185-233 | the rows of a choice end exactly the claims it names, at every as-of, and contest none |
| ConflictReview.ResolutionDoesWhatItSays | core_memory/claim/conflict_review.py:170-233 | prefer_a takes exactly B out of the current claims, prefer_b exactly A, retract_both exactly both, anything else nothing; history and conflicts stay |
| ConflictReview.ResolutionLostOtherwise | core_memory/claim/resolver.py:72-74 | where the slot key does not give back its base, a resolution has no effect at all |
| ConflictReview.ResolvedSlot | core_memory/claim/resolver.py:76-101 | where the slot key gives back its base, the slot's current claim and status after a resolution are those of its former current claims less the named ones, with the conflicts it had |
| ConflictReview.ConflictOutlivesResolution | core_memory/claim/resolver.py:76-93 | in `resolve_all_current_state` a slot is in conflict after any choice if and only if it was before |
| ConflictReview.PreferAEndsWithAIff | core_memory/claim/conflict_review.py:12 | in `resolve_all_current_state` prefer_a leaves the slot active with A if and only if nothing contests the slot and A is the temporally last of its current claims other than B |
| ConflictReview.PreferAEndsWithA | core_memory/claim/conflict_review.py:12-18 | so it does when only A and B are current and nothing is contested |
| ConflictReview.PreferBothLeavesNothing | core_memory/claim/conflict_review.py:216-223 | prefer_a followed by prefer_b leaves nothing current |
| Epistemic.ComputeEpistemicConflictScore | core_memory/claim/epistemic.py:13-28 | the score lies in [0, 1], is 1 exactly from 180 days and a gap of 10 on, and 0 exactly without either |
| Epistemic.PairScoreLaws | core_memory/claim/epistemic.py:43-66 | the pair score is symmetric, bounded, and zero across scopes |
| UpdatePolicy.NormalizeExplicitUpdates | core_memory/claim/update_policy.py:75-120 | exactly the explicit rows with a known decision, a target, and a trigger where they invalidate, become updates, in order |
| UpdatePolicy.GroundingGrounds | core_memory/claim/update_policy.py:44-56 | grounded evidence is sorted, free of repeats and blanks, keeps what was listed and contains the trigger |
| UpdatePolicy.ReconciliationLaws | core_memory/claim/update_policy.py:172-231 | reconciliation reaffirms an equal value, supersedes a different one by the new claim, and never targets the new claim itself |
| UpdatePolicy.EmitClaimUpdates | core_memory/claim/update_policy.py:123-247 | emitted and advisory updates together are the first update of every dedupe key, and emitted ones are the explicit ones of an agent source |
| UpdatePolicy.EmissionSeparatesAuthority | core_memory/claim/update_policy.py:141-247 | nothing is emitted without an agent source or from reconciliation, no key repeats, and every update is grounded in its trigger |
| ResolutionPipeline.EmissionWritesTheRows | core_memory/claim/update_policy.py:123-247 | handed to emission as an explicit agent action, a resolution's rows are emitted unchanged up to order and repeats, and nothing is advisory |
| ResolutionPipeline.ResolutionReachesTheSlot | core_memory/runtime/dreamer/candidates.py:794-810 | from choice through emission to the resolver: with the emitted rows in the log, in any order, the slot loses exactly the claims the choice names and keeps its conflicts |
| SlotReader.ResolveCurrentState | core_memory/persistence/store_claim_ops.py:448-534 | the loop over a slot's ordered updates yields the specified view: standing claims, live conflict marks, the claim picked and the status |
| SlotReader.ClearedIff | core_memory/persistence/store_claim_ops.py:466-514 | told from the log: the marks count as cleared if and only if there are some and one supersession or retraction of the slot is read after all of them, by number and then by position |
| UpdateNumbers.WrittenComeLast | core_memory/persistence/store_claim_ops.py:288-338 | in a slot whose updates are all numbered apart, newly written rows are read last and in order, wherever their bead sorts |
| UpdateNumbers.LegacyMarksClearedIff | core_memory/persistence/store_claim_ops.py:431-473 | with unnumbered legacy rows behind the stored ones, the last of them that is a conflict mark is cleared if and only if a legacy supersession or retraction follows it |
| ReaderAgreement.ReadersAgreeIff | core_memory/persistence/store_claim_ops.py:448-534 | on a slot both readers see whole they give the same status if and only if `resolve_all_current_state` shows no conflict or the marks are not cleared |
| ReaderAgreement.ResolutionClears | core_memory/persistence/store_claim_ops.py:507-515 | a resolution that writes anything clears every mark and takes out of the standing claims exactly those it names |
| ReaderAgreement.ReadersAgreeAfterResolutionIff | core_memory/persistence/store_claim_ops.py:510-534 | after one is stored the single-slot reader shows no conflict, and the readers' statuses agree if and only if the slot showed no conflict before |
| ReaderAgreement.PreferAInReaderIff | core_memory/persistence/store_claim_ops.py:507-534 | after prefer_a the single-slot reader is active with A if and only if A had not been ended |
| ReaderAgreement.PreferAReadersAgreeIff | core_memory/persistence/store_claim_ops.py:507-534 | after prefer_a of an unended A it is active with A, and `resolve_all_current_state` agrees if and only if the slot showed no conflict and A is the last of its current claims other than B |
| Transcript.ReadUtterances | core_memory/transcript_ingest.py:243-260 | every turn is read at its own index, or the first fault is reported |
| Transcript.PairUtterances | core_memory/transcript_ingest.py:262-272 | the index-driven loop computes the pairing |
| Transcript.PairingIsLossless | core_memory/transcript_ingest.py:262-329 | the envelopes' turns, concatenated, are the utterances in order |
| Transcript.RepliesArePaired | core_memory/transcript_ingest.py:266-270 | every adjacent user-then-assistant pair shares an envelope |
| Transcript.PairCount | core_memory/transcript_ingest.py:262-272 | envelopes are as many as utterances less those pairs |
| Transcript.PairingIsMinimal | core_memory/transcript_ingest.py:262-272 | no other way of cutting the turns into such envelopes needs fewer |
| Transcript.EnvelopesTile | core_memory/transcript_ingest.py:291-296 | the source ranges tile the transcript without gap or overlap |
| Transcript.WarnedIff | core_memory/transcript_ingest.py:279-286 | a user turn is warned about if and only if no assistant turn follows it |
| Transcript.DyadicEnvelopes | core_memory/transcript_ingest.py:274-329 | one envelope for each pair, with its range and turns, and the warnings |
| Transcript.GroupWindows | core_memory/transcript_ingest.py:141-143 | windows lose nothing, keep the order, and all but the last are full |
| Transcript.GroupEnvelopes | core_memory/transcript_ingest.py:104-189 | a group transcript keeps every turn with content, whatever its role, or fails when there is none |
| Transcript.NormalizeTranscriptPayload | core_memory/transcript_ingest.py:192-341 | in both modes the envelopes' turns are the kept turns in order and each error is reported for its cause; dyadic envelopes are as many as the turns less the replies, with the warnings for unanswered turns; group windows are full but for the last |
| Transcript.IngestTurnEnvelopes | core_memory/transcript_ingest.py:344-426 | ingested plus errors are the envelopes, never both for one; each named session is flushed once, in order |
| Quarantine.LogIsFaithful | core_memory/association/quarantine.py:37-94 | over every sequence of writes keys are unique and each row is the summary of its key's writes: count, first and last instants, first record, and reasons deduplicated in order |
| Quarantine.EveryWriteCounted | core_memory/association/quarantine.py:68-84 | the seen counts add up to the number of writes |
| Quarantine.AppendAllIsDedup | core_memory/association/quarantine.py:32-34 | appending reasons one write at a time is deduplicating them all at once |
| Quarantine.PackedIsInjective | core_memory/association/quarantine.py:18-29 | records without pipes pack alike only if they agree on all five compared fields |
| Quarantine.PipeFreeRowIsOwn | core_memory/association/quarantine.py:18-29 | a record none of whose five packed fields holds a pipe shares its row with no record, with or without pipes, that differs in one of them |
| Quarantine.PipesCollide | core_memory/association/quarantine.py:20-28 | with pipes different records share a row |
| Quarantine.QuarantineLog.WriteQuarantine | core_memory/association/quarantine.py:37-94 | one write keeps the log the log of all writes, and reports whether and how often its key was seen |
| Sequences.DedupKeepsOrder | core_memory/association/quarantine.py:86-87 | a deduplicated list keeps its elements in the order of their first occurrence |
| Ratchet.CompatCounts | scripts/check_architecture_guards.py:943-952 | the nested counts hold exactly the places that occur, with their numbers |
| Ratchet.SurfaceTotalIsUsages | scripts/check_architecture_guards.py:967-969 | a surface's counts add up to its usages |
| Ratchet.CompareCompatToBaseline | scripts/check_architecture_guards.py:987-1013 | at every place the report holds exactly the usages beyond the allowed number, or by how many it fell short, and both lists are sorted by surface and path |
| Ratchet.NothingNewIff | scripts/check_architecture_guards.py:1006-1010 | nothing is new if and only if no place exceeds its allowance |
| Ratchet.OwnBaselineIsClean | scripts/check_architecture_guards.py:955-1013 | usages compared with their own baseline give nothing new and nothing resolved |
| Ratchet.AcceptanceIsTransitive | scripts/check_architecture_guards.py:987-1013 | acceptance composes through successive baselines |
| Ratchet.MutualAcceptance | scripts/check_architecture_guards.py:987-1013 | two usage sets accept each other if and only if they count alike everywhere |
| Ratchet.NewLengthIsTotalOver | scripts/check_architecture_guards.py:998-1010 | the report's length is the sum over surface and path of the excess |
| Scoring.F1Closed | benchmarks/locomo/scoring.py:40-46 | with common tokens F1 is twice their number over the two lengths |
| Scoring.F1Laws | benchmarks/locomo/scoring.py:33-46 | F1 is symmetric, in [0, 1], 1 exactly on equal token multisets, and 0 exactly on disjoint ones not both empty |
| Scoring.F1IgnoresOrder | benchmarks/locomo/scoring.py:40-41 | F1 depends on the token multisets only |
| Scoring.ScoresBounded | benchmarks/locomo/scoring.py:49-73 | every category's score is in [0, 1], and a multi-hop answer is right exactly when it matches some part |
| Recall.ExtractDiaIds | benchmarks/locomo/runner.py:83-103 | the ranked dia ids of known beads, each once, in order |
| Recall.ComputeEvidenceRecall | benchmarks/locomo/scoring.py:76-124 | recall at every k, reciprocal rank and hit flag, vacuously perfect without gold evidence |
| Recall.RecallIsMonotone | benchmarks/locomo/scoring.py:115-117 | recall at k never falls as k grows |
| Recall.RecallAtMostOne | benchmarks/locomo/scoring.py:98-117 | without repeats recall is at most 1, and 1 exactly when all gold ids are among the first k |
| Recall.ReciprocalRankLaws | benchmarks/locomo/scoring.py:119-123 | the reciprocal rank is one over the rank of the first hit, in [0, 1], and positive exactly when there is one |
| Recall.RanksCountHits | benchmarks/locomo/scoring.py:109-116 | counting the hit ranks up to k is counting the hits among the first k |
| Recall.RecallBoundedIff | benchmarks/locomo/scoring.py:98-117 | recall of a ranked list is at most 1 for every gold set and k if and only if the list has no repeats |
| Recall.ExtractedRecallBoundedIff | benchmarks/locomo/runner.py:83-103 | for the list the runner extracts, if and only if no two different dia ids of the ranked beads strip alike |
| Recall.ExtractedHasNoRepeats | benchmarks/locomo/loader.py:41-46 | a table of stripped ids, as the loader builds, is safe |
| Recall.UnstrippedTableOvercounts | benchmarks/locomo/scoring.py:108-117 | with one id in two spellings recall is 2 |

## Left out

- File input and output, JSON parsing and the recovery from malformed lines; the store lock. Locked regions are atomic but for the modelled crash points.
- Evidence, judge, prompt and visibility fields of an association: carried through unchanged by the code, absent from the model.
- The relation tables are a parameter with the properties the shipped ones have: normal canonical names that are no aliases.
- Association ids are distinct: the code draws them at random and never checks them. An index with repeated ids is not modelled.
- ApplyCrawlerUpdates: creates no beads itself (`CreationCommit` models that loop), takes its payload already flattened and with the current turn's alias replaced, and writes no quarantine rows (`Quarantine` models that log).
- MergeCrawlerUpdates: returns no counters and writes no quarantine rows.
- Rows without a creation instant, which get the clock's: every queued row carries one.
- NormalizeCreationRows: the warning texts on rows, which mirror the diagnostics, and the state-change normaliser.
- Eligibility rules for authored beads are a parameter that reads the title and the carried fields.
- FoldEdgeUsage: one call is one fold, run to its end or to a crash; overlapping folds and records in between are runs of `EdgeUsageRuns`, not of the class.
- Unicode: `isalnum`, `strip` and `lower` beyond ASCII.
- ResolveAllCurrentState: which of several timestamps a claim or update starts at; the model takes the first that parses.
- EmitClaimUpdates: the grounding hash and the slot resolver it calls are parameters.
- ResolutionReachesTheSlot: takes the log to hold the emitted rows; the store leaves out a row whose dedupe key some bead already carries (core_memory/persistence/store_claim_ops.py:305-338).
- ReadersAgreeAfterResolutionIff: takes the slot to be one both readers see whole (colons outside, claims with ids and no scope); the single-slot reader ignores scopes altogether.
- Timestamps of transcript turns, and the error for one that does not parse; turn ids, speaker lists and other metadata of envelopes.
- NormalizeTranscriptPayload: the role table is a parameter; flush policies and modes other than the two are rejected before it.
- ScoreAnswer: text normalisation into tokens is a parameter; rounding and aggregation over cases are not modelled.
- Regular expressions, prompts, model calls, the demo application, command lines and the rest of the architecture guard.
