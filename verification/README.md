# ClawLore: verified models

ClawLore is a memory plugin for agents: it remembers messages, recalls memories into prompts, and governs what is
kept. This project models its hard parts in Dafny and proves what they promise, for every input, every run and every
interleaving. `dafny verify dfyconfig.toml` checks everything.

Code that changes state is a class with the same fields and methods (or a method with the same loops); each method is
proved equal to a function on values, and what the source promises is proved about that function, over single steps
and over whole runs. Awaits are interleaving points, foreign calls (providers, classifiers, other writers, clocks) are
arbitrary functions or arbitrary steps.

| file | what it models |
|---|---|
| `RecallState.dfy`, `RecallCache.dfy`, `RecallRuns.dfy` | the session cache of auto-recall: four linked indexes, eviction, ambiguity, the claim latch |
| `RecallBudget.dfy` | spacing of repeated memories, the injection budget, one trace status per result |
| `AutoCapture.dfy` | the cursor of auto-capture: pending ingress texts and seen history |
| `BoundedTtlMap.dfy` | the expiring map both hooks keep their sessions in |
| `AccessProtocol.dfy`, `AccessTracker.dfy` | debounced write-back of access counts |
| `OAuthQueue.dfy` | the per-path queue of OAuth session saves |
| `LlmMerge.dfy` | compare-and-set retry around an LLM merge |
| `JsonRepair.dfy`, `JsonExtract.dfy` | repairing and cutting out the JSON an LLM answers with |
| `Chunker.dfy`, `Embedder.dfy` | chunking of documents and the recursion that embeds them |
| `Admission.dfy` | admission scoring: longest common subsequence, weights, decision |
| `Governance.dfy`, `Forgetting.dfy`, `Promotion.dfy` | cleanup and rollback, forgetting, candidate review over truth, projection and audit |
| `PlaybookState.dfy`, `PlaybookStore.dfy` | playbooks: supersession graph, version history, feedback counters |
| `Compactor.dfy` | clustering and merging of similar memories |
| `Common.dfy` | shared vocabulary |

## What the proofs found

Statements one might expect of the code that do not hold, each with an input or the exact condition:

- A raw quote inside a JSON string is repaired exactly when the next visible character of the string could not follow
  a closing quote (`JsonRepair.RepairsExactlyClearTexts`). Repair is not idempotent, as on `[1,,]`: it is exactly where
  no comma outside strings is followed by a comma and then a closing bracket (`JsonRepair.RepairTwiceIff`). A brace
  inside a string can cut the extracted object short (`JsonExtract.FirstClosingBraceEnds`); the object is taken
  exactly when its text is enclosed (`JsonExtract.ObjectTakenIff`).
- The chunk loop's guard can run out first and lose text, also at the sizes `smartChunk` picks; the embedding is then
  the mean over a part only. A caller can tell by the length: all texts of n characters are covered exactly when
  (guarded turns - 1) * (smallest advance) + maxChunkSize >= n (`Chunker.CoversAllIff`,
  `Chunker.SmartChunkCoversAllIff`). For a limit of 8192 that is n <= 8194 (`Chunker.LargeConfigCoversAllIff`); of one
  text of 8195 characters only the first 3279 are covered (`Chunker.SomeTextIsCutShort`). Which sizes keep the size
  promises is in `Chunker.ChunksAreNonemptyIff` and `Chunker.ChunksKeepMaximumIff`.
- Rolling a cleanup back loses nested metadata: everything is restored exactly when every nested object key is also a
  top-level key (`Governance.RoundTripRestoresIff`).
- Promotion reads its candidates before its transaction, and overwrites the metadata of a row that has changed since
  but is still listed; `Promotion.RowsAsSeenIff` says when that makes no difference.
- A row can be hard-deleted without a vector delete when another writer makes it secret during the preflight
  (`Forgetting.UnvettedDeletion`); the guarantee holds exactly when nothing is deleted or every row due at the end
  was due at the start (`Forgetting.DeletionsAreVetted`). The closing vector-delete loop (src/forgetting.ts:375-388)
  never has anything to delete.
- Two rows of different scope or category can be taken for duplicates when a name contains the separator of the group
  keys; for which names is in `Forgetting.GroupsFollowColumnsIff`, for all others the columns agree
  (`Forgetting.CandidatesByColumns`).
- A promoted memory stays out of the dynamic projection as long as its layer says archive
  (`Promotion.PromotedProjects`).
- `destroy()` of the access tracker is final exactly when the flush in flight, if any, has nothing left to settle;
  otherwise a failure can arm the timer again (`AccessProtocol.DestroyIsFinalIff`).
- An access update that takes effect and then throws is requeued and counted twice; the count is exact if and only if
  there was none, or the cap hides it (`AccessProtocol.QuiescentCountIsExact`).
- A plain status change can part being superseded from having a successor, both ways: superseded without one
  (as src/experience-promotion.ts:610 does), or live with a stale one. When they agree is in
  `PlaybookState.RunLinksIff`; while they agree the cycle check has nothing to find (`PlaybookState.LinkedNeverCycle`).
- Compaction never compares scopes, although a comment calls them validated upstream. Clusters are single-scope for
  every similarity exactly when the entries are (`Compactor.ClustersAreSingleScopeIff`), and a merge can move a line to
  another scope; `Compactor.ScopesAreKeptIff` says when none is lost from its own.
- Auto-capture reports every append-only history exactly once, in every run, if and only if there are no more sessions
  than its map holds (`AutoCapture.ReportedOnceWithinLimitIff`); in a given run, exactly when the session is never
  forgotten in between (`AutoCapture.ReportedOnceIff`).
- A spacing above 1000 turns holds back even memories that were never injected (`RecallBudget.FirstUseMayBeHeldBack`).
- A turn remembered again after it was claimed never becomes fresh again (`RecallRuns.DeliveredAtMostOnce`).

## Model

| member | source | states |
|---|---|---|
| RecallCache.AutoRecallSessionCache.Prune | src/auto-recall-session-boundary.ts:136-146 | expired entries go first, then the oldest until the cache fits; every index forgets them |
| RecallCache.AutoRecallSessionCache.DeleteExpired | src/auto-recall-session-boundary.ts:137-140 | deletes exactly the entries older than the TTL |
| RecallCache.AutoRecallSessionCache.DeleteOverflow | src/auto-recall-session-boundary.ts:141-145 | deletes the smallest ids until at most maxEntries are left |
| RecallCache.AutoRecallSessionCache.RemoveFromPendingQueues | src/auto-recall-session-boundary.ts:148-167 | the entry leaves the named queues, and a queue left empty is deleted |
| RecallCache.AutoRecallSessionCache.DeleteEntry | src/auto-recall-session-boundary.ts:184-195 | the entry and every alias, binding and queue place that names it are gone; nothing else changes |
| RecallCache.AutoRecallSessionCache.LinkExact | src/auto-recall-session-boundary.ts:197-202 | the entry gains the aliases and each alias names it now |
| RecallCache.AutoRecallSessionCache.LinkSessions | src/auto-recall-session-boundary.ts:204-209 | the entry gains the sessions; they are bound to it only when asked |
| RecallCache.AutoRecallSessionCache.Enqueue | src/auto-recall-session-boundary.ts:211-218 | the entry stands once in each of the queues |
| RecallCache.AutoRecallSessionCache.Land | src/auto-recall-session-boundary.ts:253-277 | an ingress lands on the entry of its first known exact id or on a new one, and is linked and queued there |
| RecallCache.AutoRecallSessionCache.Remember | src/auto-recall-session-boundary.ts:244-280 | remember is prune, land, prune; an empty message is ignored |
| RecallCache.AutoRecallSessionCache.DetachAmbiguousCorrelation | src/auto-recall-session-boundary.ts:169-182 | every candidate leaves the queues that could guess it; one with no exact id is deleted |
| RecallCache.AutoRecallSessionCache.FirstPending | src/auto-recall-session-boundary.ts:220-242 | the pending entry to use, or the ambiguity, and the queues emptied on the way |
| RecallCache.AutoRecallSessionCache.ClaimEntry | src/auto-recall-session-boundary.ts:314-320 | the entry is bound to the prompt's ids, leaves its queues and is claimed |
| RecallCache.AutoRecallSessionCache.Select | src/auto-recall-session-boundary.ts:282-326 | select answers from the exact, else the pending, else the bound entry, and claims it |
| RecallCache.AutoRecallSessionCache.Clear | src/auto-recall-session-boundary.ts:328-350 | clear deletes the entries the ended exact ids or sessions entitle it to |
| RecallCache.AutoRecallSessionCache.Size | src/auto-recall-session-boundary.ts:352-355 | the number of entries after a prune |
| RecallState.PruneKeepsInv | src/auto-recall-session-boundary.ts:136-146 | pruning keeps all four indexes consistent and the size within the capacity |
| RecallState.RememberKeepsInv | src/auto-recall-session-boundary.ts:244-280 | remember keeps all four indexes consistent and the size within the capacity |
| RecallState.SelectKeepsInv | src/auto-recall-session-boundary.ts:282-326 | select keeps all four indexes consistent and the size within the capacity |
| RecallState.ClearKeepsInv | src/auto-recall-session-boundary.ts:328-350 | clear keeps all four indexes consistent and the size within the capacity |
| RecallState.NewestIs | src/auto-recall-session-boundary.ts:141-145 | capacity eviction keeps as many as fit, and everything kept is newer than everything dropped |
| RecallRuns.ReachableInv | src/auto-recall-session-boundary.ts:116-356 | in every state reached from the empty cache aliases and bindings point to live entries that list them, queues are nonempty, duplicate-free and hold live entries that list them, unclaimed entries stand in every queue they list, and the size is within the capacity |
| RecallRuns.ReachableSteps | src/auto-recall-session-boundary.ts:116-356 | the empty cache is reachable, and every operation leads from a reachable state to another |
| RecallRuns.DeliveredAtMostOnce | src/auto-recall-session-boundary.ts:282-326 | over any run no turn is handed out as fresh twice |
| RecallRuns.FirstPendingIs | src/auto-recall-session-boundary.ts:220-242 | only the first queue that still holds an unclaimed entry counts; it must hold exactly one, more than one is refused |
| RecallRuns.FreshRoute | src/auto-recall-session-boundary.ts:282-326 | a fresh turn comes through an exact alias or is the sole unclaimed entry of the first queue that has one, never through a bound session |
| RecallRuns.AmbiguityFailsClosed | src/auto-recall-session-boundary.ts:169-182 | an ambiguous prompt claims nothing and gets nothing, the queue is emptied, turns with an exact id stay with their ids, and every exact id names the turn it named |
| RecallRuns.ClearIsTargeted | src/auto-recall-session-boundary.ts:328-350 | of the unexpired entries clear deletes exactly those carrying an ended exact id, or, without exact ids, the claimed ones of the ended sessions |
| RecallRuns.ExactAnswers | src/auto-recall-session-boundary.ts:282-326 | a prompt whose first known exact id names an entry is answered with that entry, as a duplicate iff it was claimed, and claims it |
| RecallRuns.PendingAnswers | src/auto-recall-session-boundary.ts:296-312 | without a known exact id, the only unclaimed entry of the first queue that has one is the answer, fresh, whatever the sessions are bound to |
| RecallRuns.SeveralAreRefused | src/auto-recall-session-boundary.ts:169-182 | with several unclaimed there the prompt is refused, and the queue lets go of them |
| RecallRuns.BoundAnswers | src/auto-recall-session-boundary.ts:304-312 | a binding answers only when no queue of the prompt has an unclaimed entry, and then as a duplicate |
| RecallRuns.NothingAnswers | src/auto-recall-session-boundary.ts:310-312 | with neither exact id, unclaimed entry nor binding there is no answer |
| RecallRuns.NextMessageWins | src/auto-recall-session-boundary.ts:244-326 | a message remembered in a queue nobody waits in is what the next prompt of that queue gets, fresh, whatever its session was bound to |
| RecallRuns.SameTurnAgain | src/auto-recall-session-boundary.ts:304-326 | while nothing new waits the next prompt of the session gets the same turn again, as a duplicate |
| RecallRuns.PruneIs | src/auto-recall-session-boundary.ts:136-146 | what is kept are exactly the unexpired entries with fewer than maxEntries unexpired ones after them |
| RecallRuns.PruneKeepsLinks | src/auto-recall-session-boundary.ts:136-195 | and exactly the aliases, bindings and queue places of those |
| RecallRuns.KnownTurnIsUpdated | src/auto-recall-session-boundary.ts:253-277 | a message with a known exact id lands on the turn that has it: key and claim stay, the text is the new one |
| RecallRuns.NewTurnIsMade | src/auto-recall-session-boundary.ts:253-277 | any other makes a new unclaimed turn that waits in all its queues |
| RecallRuns.NothingToRemember | src/auto-recall-session-boundary.ts:244-252 | a message without text or alias is not kept |
| RecallRuns.ExactIdWins | src/auto-recall-session-boundary.ts:244-326 | a prompt whose first known exact id is one of the message just remembered gets exactly that message |
| RecallBudget.FilterRedundant | src/auto-recall-hooks.ts:231-263 | keeps the results spaced far enough, in order, and marks exactly the others |
| RecallBudget.FilterAllowed | src/auto-recall-hooks.ts:268-296 | keeps the results no policy refuses, in order, and marks the refused ones with their reason |
| RecallBudget.SelectWithinBudget | src/auto-recall-hooks.ts:351-367 | the loop selects what the recursive budget walk picks |
| RecallBudget.PickFits | src/auto-recall-hooks.ts:351-367 | never more than the allowed items or characters |
| RecallBudget.PickKeepsRanking | src/auto-recall-hooks.ts:351-367 | the selection keeps the ranked order, every item but the last is its whole summary, and that one is its summary too if there is room, else as much of its beginning as the others leave room for, trimmed |
| RecallBudget.PickIsGreedy | src/auto-recall-hooks.ts:351-367 | a candidate is passed over only when the items are used up, it does not fit what is left, or an item had to be cut before it |
| RecallBudget.TraceSkipped | src/auto-recall-hooks.ts:243-386 | a prompt that injects nothing traces every result with the one status its fate calls for |
| RecallBudget.TraceInjected | src/auto-recall-hooks.ts:394-399 | a prompt that injects traces every result with the one status its fate calls for |
| RecallBudget.SessionTracker.BeforePrompt | src/auto-recall-hooks.ts:108-115 | the turn advances whatever happens; what is injected, the history and the trace follow from the session before |
| RecallBudget.ReasonIs | src/auto-recall-hooks.ts:203-386 | the reason traced tells exactly how far the results came: none, all repeated too soon, all refused, none that fits, or some injected |
| RecallBudget.HistoryIsLastInjection | src/auto-recall-hooks.ts:388-392 | the history holds exactly the turn of each memory's last injection |
| RecallBudget.InjectionsAreSpaced | src/auto-recall-hooks.ts:231-263 | over any session two injections of one memory are at least minRepeated turns apart, through refusals and aborts |
| RecallBudget.HeldBackIff | src/auto-recall-hooks.ts:231-263 | after its last injection a memory is held back exactly while fewer than minRepeated turns have passed |
| RecallBudget.InjectionsFit | src/auto-recall-hooks.ts:351-367 | every injection respects both limits |
| RecallBudget.FirstUseMayBeHeldBack | src/auto-recall-hooks.ts:236-238 | a never injected memory is held back exactly until turn minRepeated - 999 |
| AutoCapture.ConsumePendingPrefix | src/auto-capture-session-state.ts:101-125 | splits the queue after the texts taken |
| AutoCapture.CoveredIsLongest | src/auto-capture-session-state.ts:106-115 | a prefix is covered exactly when it is a sub-multiset of the snapshot |
| AutoCapture.DeliversLongestPrefix | src/auto-capture-session-state.ts:101-125 | a nonempty queue gives its longest prefix that is a sub-multiset of the snapshot, or else exactly one text |
| AutoCapture.AutoCaptureSessionState.PruneOldest | src/auto-capture-session-state.ts:25-31 | keeps the last entries that fit |
| AutoCapture.AutoCaptureSessionState.RecordIngress | src/auto-capture-session-state.ts:143-170 | the text joins the end of its queue; overflow and eviction drop the oldest |
| AutoCapture.AutoCaptureSessionState.ConsumeAgentEnd | src/auto-capture-session-state.ts:172-225 | the new texts and all three tables after an agent run |
| AutoCapture.RunKeepsInv | src/auto-capture-session-state.ts:132-232 | over any run every table and every queue stays within its bound |
| AutoCapture.EveryTextOnce | src/auto-capture-session-state.ts:143-225 | per key the recorded texts are, in order, those delivered, overflowed or evicted, each once, and then those pending |
| AutoCapture.ReadsExactFirst | src/auto-capture-session-state.ts:179-197 | an agent run reads the queue of its exact key if there is one, else that of its conversation, and leaves every other queue alone |
| AutoCapture.WithoutQueue | src/auto-capture-session-state.ts:199-205 | with nothing pending it is given what its history has grown by since its last report, or all of it if it has become shorter or is not remembered |
| AutoCapture.RecentIsReported | src/auto-capture-session-state.ts:210-223 | with no more sessions than the limit, the texts kept of each are the last ones reported to it |
| AutoCapture.RequestsComeWithPrior | src/auto-capture-session-state.ts:211-214 | a bare request to remember comes with the last text reported before it, anything else alone |
| AutoCapture.NoneForgotten | src/auto-capture-session-state.ts:199-208 | with no more sessions than the limit the cursor of each stands at the end of its history |
| AutoCapture.HistoryReportedOnce | src/auto-capture-session-state.ts:199-208 | with no more sessions than the limit, and no ingress, an append-only history is reported exactly once, in order |
| AutoCapture.ReportedOnceIff | src/auto-capture-session-state.ts:199-208 | without ingress an append-only history is reported exactly once, in order, if and only if the session's cursor is still there whenever it reports with an earlier history |
| AutoCapture.ForgottenIsRepeated | src/auto-capture-session-state.ts:199-208 | a forgotten session is given its whole history again |
| AutoCapture.OneSessionTooMany | src/auto-capture-session-state.ts:207-208 | whatever the limit, one session more than it holds is enough to have a history reported twice |
| AutoCapture.ReportedOnceWithinLimitIff | src/auto-capture-session-state.ts:199-208 | with at most k sessions every append-only history is reported exactly once in every run, if and only if k is within the limit |
| BoundedTtlMap.TtlMap.EvictByAge | src/bounded-ttl-map.ts:48-51 | drops exactly the entries past the TTL and counts them |
| BoundedTtlMap.TtlMap.EvictByCount | src/bounded-ttl-map.ts:52-56 | drops the oldest until the rest fits and counts them |
| BoundedTtlMap.TtlMap.PruneNow | src/bounded-ttl-map.ts:47-57 | prune is both evictions |
| BoundedTtlMap.TtlMap.Get | src/bounded-ttl-map.ts:59-67 | answers after a prune, and a hit moves the key to the young end |
| BoundedTtlMap.TtlMap.Set | src/bounded-ttl-map.ts:69-76 | stores the key at the young end between two prunes |
| BoundedTtlMap.TtlMap.Delete | src/bounded-ttl-map.ts:78-80 | removes the key and says whether it was there |
| BoundedTtlMap.TtlMap.Keys | src/bounded-ttl-map.ts:82-85 | the keys after a prune, in touch order |
| BoundedTtlMap.TtlMap.Stats | src/bounded-ttl-map.ts:87-94 | size and eviction counts after a prune |
| BoundedTtlMap.NothingUncounted | src/bounded-ttl-map.ts:41-94 | whatever the clock does, insertions = size + TTL evictions + capacity evictions + deletes |
| BoundedTtlMap.NeverTooLarge | src/bounded-ttl-map.ts:47-76 | the map never holds more than maxEntries after an operation |
| BoundedTtlMap.StandsByRecency | src/bounded-ttl-map.ts:59-76 | after a key in the recency list come exactly the keys touched since |
| BoundedTtlMap.MapTracksLog | src/bounded-ttl-map.ts:41-76 | with a steady clock and no deletes the map is the young end of the recency list of the touch log |
| BoundedTtlMap.GetFollowsTouchLog | src/bounded-ttl-map.ts:59-67 | a key is found, with its last value, iff its last touch is younger than ttlMs and fewer than maxEntries distinct keys were touched since |
| AccessProtocol.StepKeepsInv | src/access-tracker.ts:235-340 | every step keeps one flush body at most, a timer or flush for what is pending, and the account |
| AccessProtocol.StepConserves | src/access-tracker.ts:235-325 | no step loses or doubles an access |
| AccessProtocol.RunKeepsInv | src/access-tracker.ts:235-340 | under every interleaving at most one flush body runs, and per id recorded = pending + in flight + written + missing + destroyed |
| AccessProtocol.RunKeepsExact | src/access-tracker.ts:304-325 | with a single writer the stored count is the initial one plus what was written, twice where an update wrote and then threw, capped |
| AccessProtocol.QuiescentCountIsExact | src/access-tracker.ts:48-54 | once nothing is pending or in flight and destroy dropped nothing, the stored count is min(10000, initial + recorded) exactly when no update wrote and then threw, or the cap hides it |
| AccessProtocol.NothingMissing | src/access-tracker.ts:308-313 | a row nobody else deletes is never found missing |
| AccessProtocol.DestroyIsFinalIff | src/access-tracker.ts:290-319 | after destroy no run without new accesses arms the timer, if and only if the flush in flight, if any, has nothing left to settle |
| AccessProtocol.FlushInFlight | src/access-tracker.ts:259-288 | a flush with something left, and one without, are both reachable from a fresh tracker |
| AccessTracker.AccessTracker.RecordAccess | src/access-tracker.ts:235-246 | each occurrence of an id adds one pending access; the timer is armed |
| AccessTracker.AccessTracker.Flush | src/access-tracker.ts:259-275 | a flush joins the running body or takes the whole batch |
| AccessTracker.AccessTracker.RequeueFailed | src/access-tracker.ts:316-324 | a failed item goes back to the pending accesses |
| AccessTracker.AccessTracker.AfterFlush | src/access-tracker.ts:276-285 | the promise is released, and the timer armed again if more came in |
| AccessTracker.AccessTracker.AfterWait | src/access-tracker.ts:263-269 | a waiting flush starts over if more is pending |
| AccessTracker.AccessTracker.Dispose | src/access-tracker.ts:290-319 | the timer is off and the pending accesses are dropped |
| OAuthQueue.OAuthSessionWriter.Arrive | src/llm-oauth.ts:545-555 | a call takes the promise of its path and leaves its own there |
| OAuthQueue.OAuthSessionWriter.Start | src/llm-oauth.ts:556-558 | a save starts when the promise before it has resolved |
| OAuthQueue.OAuthSessionWriter.End | src/llm-oauth.ts:558-564 | a save releases its promise and removes the map entry only if it is still its own |
| OAuthQueue.ResolvedIffAllEnded | src/llm-oauth.ts:551-554 | a promise has resolved iff its call and every earlier one of the path have ended |
| OAuthQueue.StepKeepsInv | src/llm-oauth.ts:545-565 | every step keeps turns in order and the map entries current |
| OAuthQueue.OneAtATimeInOrder | src/llm-oauth.ts:545-565 | in every reachable state at most one save per path runs, and none starts before an earlier one has ended |
| OAuthQueue.NeverBlocked | src/llm-oauth.ts:556-564 | whatever failed, the first unfinished save of a path is running or may start |
| OAuthQueue.EntryIffUnfinished | src/llm-oauth.ts:561-563 | the map has an entry for a path exactly while one of its saves has not ended |
| OAuthQueue.ReachableIsSound | src/llm-oauth.ts:545-565 | in every reachable state the file holds the session of the latest written save in order of arrival |
| LlmMerge.World.UpdateExpecting | src/store.ts:1253-1426 | an update writes only over a row that matches the expected snapshot; a refused or vanished one leaves the table as found; one that throws leaves the old row, the new one, or none; otherwise only other writers change the table |
| LlmMerge.Attempt | src/llm-memory-merge.ts:56-84 | one attempt: a merge over the revision read and prompted for, with the payload of the reply to that prompt; a stop, with the event of this attempt that caused it; or a lost race; but for the write, the table is what other writers alone make of it |
| LlmMerge.ApplyLlmMemoryMergeWithCas | src/llm-memory-merge.ts:40-87 | whatever others write in between: merged means the write replaced exactly the revision its prompt was built from, with the payload accepted of the reply to that prompt, and nothing else; every other result names its cause among the events of this run; after a fallback the table is what the other writers alone made of the first one; the second attempt comes only after a lost race |
| LlmMerge.MergedIffWrote | src/llm-memory-merge.ts:40-87 | an update went through exactly when the result is merged, one that broke is passed on, and there are at most two prompts |
| LlmMerge.MergeWrites | src/llm-memory-merge.ts:72-80 | a merge writes text, vector and metadata built from the revision prompted for; the rest of the row is as in that revision, and no other row has changed |
| LlmMerge.SameRevisionIff | src/memory-store-ports.ts:71-91 | two revisions count as the same exactly when they agree in everything but the vector, no metadata being empty metadata |
| LlmMerge.MergeWroteOnce | src/llm-memory-merge.ts:72-80 | after a merge the table is what the other writers made of the first one by the instant of the write, with the row replaced, and what they made of that since |
| JsonRepair.NextNonWhitespaceChar | src/llm-client.ts:81-93 | the next visible character, if any |
| JsonRepair.RepairCommonJson | src/llm-client.ts:95-167 | the character loop computes the recursive repair |
| JsonRepair.RepairsExactlyClearTexts | src/llm-client.ts:95-167 | a loose JSON text becomes its strict text exactly when every raw quote can be told from a closing one |
| JsonRepair.StrictTextsPassUnchanged | src/llm-client.ts:95-167 | repair is the identity on every strict JSON text (RFC 8259, sections 2 to 7) |
| JsonRepair.FixedIsStrict | src/llm-client.ts:95-167 | the text meant by a loose text is strict |
| JsonRepair.RepairTwiceOnClearTexts | src/llm-client.ts:95-167 | on clear texts a second repair changes nothing |
| JsonRepair.RepairTwiceIff | src/llm-client.ts:95-167 | for every text a second repair changes nothing if and only if no comma outside strings is followed by a comma and then by a closing bracket |
| JsonExtract.ExtractJsonFromResponse | src/llm-client.ts:55-79 | the text of the first fenced block, trimmed, or else what the brace scan finds |
| JsonExtract.FencedBlockIff | src/llm-client.ts:56-59 | there is a fenced block exactly when two fences stand apart in the response |
| JsonExtract.ExtractsFenced | src/llm-client.ts:56-59 | what stands between two fences is taken, trimmed, whatever surrounds it and whether or not the first is followed by the word json, when neither the prose before nor the text runs into a fence |
| JsonExtract.RestIs | src/llm-client.ts:64-74 | the scan stops exactly where the depth first returns to zero |
| JsonExtract.ExtractsEnclosed | src/llm-client.ts:61-78 | the extracted text is the one that starts at the first brace and is closed by its last character and not before |
| JsonExtract.NothingEnclosed | src/llm-client.ts:61-77 | nothing is extracted exactly when there is no such text |
| JsonExtract.ExtractsTheObject | src/llm-client.ts:55-79 | from any response whose first brace opens a JSON object without braces in its strings, exactly that object is taken |
| JsonExtract.ObjectTakenIff | src/llm-client.ts:61-78 | of a response in which the object comes first among the braces exactly the object is taken, if and only if its text is enclosed by its first and last brace |
| JsonExtract.FirstClosingBraceEnds | src/llm-client.ts:64-74 | a closing brace that comes before any other brace ends what is taken, in a string too |
| Chunker.FindSplitEnd | src/chunker.ts:97-144 | finds the end that SplitEndIs describes |
| Chunker.SplitEndIs | src/chunker.ts:97-144 | over the line limit the cut stands after the line feed that fills it, or at the minimum if that is later; else after the last sentence end in range and the white space behind it, else after the last line feed, else at the last white space, else at the maximum |
| Chunker.CountLinesIs | src/chunker.ts:82-85 | the line count is one more than the line breaks, a carriage return with its line feed being one |
| Chunker.WindowEndCuts | src/chunker.ts:221-225 | the cut of a window stands where SplitEndIs says, between its smallest and its largest size |
| Chunker.ChunkDocument | src/chunker.ts:195-256 | the chunks pushed by the turns of the loop that DocumentIsChained describes |
| Chunker.TurnAtIs | src/chunker.ts:205-250 | one turn: the window goes up to its cut, to the maximum when what the cut leaves is below the minimum once trimmed, or to the end of the text; its chunk is the trimmed window, and it goes on an overlap before its end, but at least one character on |
| Chunker.DocumentIsChained | src/chunker.ts:205-250 | the first turn starts at the beginning, each other where the one before went on to, until one leaves the loop or the guard is used up |
| Chunker.ChunksInOrder | src/chunker.ts:195-256 | the chunks stand in the order of their windows |
| Chunker.SliceTrimIs | src/chunker.ts:146-163 | a chunk is the slice its metadata names, inside its window, and misses only white space |
| Chunker.ChunksAreSlices | src/chunker.ts:195-256 | every chunk is exactly the slice its metadata names; nonempty for a positive minimum, and no longer than maxChunkSize when that is positive or the minimum at least 2 |
| Chunker.ChunkIsVisible | src/chunker.ts:146-163 | with a positive minimum every chunk begins with a visible character |
| Chunker.TurnsOk | src/chunker.ts:205-250 | window starts strictly increase and a window begins no later than the one before ends |
| Chunker.CoveredIffReached | src/chunker.ts:205-250 | a visible character is in some chunk exactly when it lies before the reach of the windows |
| Chunker.BreakCoversAll | src/chunker.ts:212-224 | when the loop leaves by break every visible character is in some chunk |
| Chunker.CoverageExactly | src/chunker.ts:205-250 | for each text, coverage is complete exactly when nothing visible lies beyond the reach |
| Chunker.SomeChunkIff | src/chunker.ts:195-256 | there is a chunk exactly when something visible lies before the reach |
| Chunker.CoversAllIff | src/chunker.ts:195-256 | for any sizes at which short lines decide where windows end: all texts of n characters are covered completely exactly when (guarded turns - 1) * (smallest advance) + maxChunkSize >= n |
| Chunker.SomeTextIsCutShort | src/chunker.ts:205-250 | if not, a text of one letter and line feeds is covered exactly up to (guarded turns - 1) * (smallest advance) + minChunkSize, short of its end |
| Chunker.ChunksAreNonemptyIff | src/chunker.ts:195-256 | all chunks of all texts are nonempty exactly when minChunkSize is positive |
| Chunker.ChunksKeepMaximumIff | src/chunker.ts:195-256 | all chunks of all texts keep to maxChunkSize exactly when it is positive or minChunkSize is at least 2 |
| Chunker.SmartConfigIsSound | src/chunker.ts:264-282 | for every model limit the sizes are positive and windows advance |
| Chunker.LargeConfigCoversAllIff | src/chunker.ts:264-282 | at the sizes for a limit of 8192 all texts of n characters are covered exactly when n <= 8194 |
| Chunker.SmartChunkCoversAllIff | src/chunker.ts:264-282 | smartChunk covers all texts of n characters exactly when the guard spans n characters with the sizes for either kind of text, whatever the limit |
| Embedder.Embedder.EmbedSingle | src/embedder.ts:859-977 | terminates for every text and provider; what it returns is the provider's vector for the text or its first half, or the mean over its chunks, however deep; everything sent is a piece of the document, past the depth limit at least 100 characters of an ever halved text; with a provider that takes every text up to a limit a text within it is embedded, and above the depth limit less one so is every longer text that has a chunk, when the chunk size is within the limit |
| Embedder.Embedder.EmbedChunks | src/embedder.ts:898-967 | chunks and embeds one level deeper, and succeeds when the provider takes what is as long as a chunk; a single chunk as large as the text is halved instead |
| Embedder.Average | src/embedder.ts:945-956 | the component-wise mean of the chunk embeddings |
| Embedder.ChunkIsPiece | src/chunker.ts:146-163 | every chunk is a piece of its document, no longer than it |
| Embedder.DepthIsLogarithmic | src/embedder.ts:865-877 | a request k levels past the limit needs a document of at least 100 * 2^(k + 1) characters |
| Admission.LcsLength | src/admission-control.ts:397-414 | the table's last entry is the maximum length over all common subsequences |
| Admission.CellIsUpperBound | src/admission-control.ts:403-411 | no common subsequence of two prefixes is longer than their table entry |
| Admission.CellIsReached | src/admission-control.ts:403-411 | some common subsequence of two prefixes has that length |
| Admission.RougeLikeF1 | src/admission-control.ts:416-424 | the harmonic mean of precision and recall of the longest common subsequence |
| Admission.F1Measures | src/admission-control.ts:416-424 | it is twice the shared over the total length, symmetric, in [0, 1], and 1 exactly for equal nonempty lists |
| Admission.ScoreConfidenceSupport | src/admission-control.ts:518-544 | the best support is the maximum over the spans, the coverage the share of distinct tokens the conversation knows, and the score 0.7 best + 0.55 coverage - 0.25, held in [0, 1]; it is 1 exactly when a span says the candidate and the conversation knows all its tokens |
| Admission.WeightsAreConvex | src/admission-control.ts:238-270 | whatever the raw configuration, the weights are nonnegative and sum to 1 |
| Admission.ScoreIsBetween | src/admission-control.ts:702-707 | the score lies between the smallest and the largest feature |
| Admission.FeaturesHaveTheirWeights | src/admission-control.ts:702-707 | raising one feature by d raises the score by d times the weight of that feature, and no features score 0 |
| Admission.WeightsKeepProportions | src/admission-control.ts:238-270 | the weights stand to each other as the fields given do, each in its own place; all nothing, or none given, means the preset's |
| Admission.ThresholdsAre | src/admission-control.ts:288-343 | the lower threshold is the one given, held in [0, 1], or the preset's; the upper too, unless it lies below the lower |
| Admission.AdmissionIsSound | src/admission-control.ts:288-343 | for every raw configuration the score is in [0, 1], the thresholds are ordered, and each decision means its comparison |
| Admission.DecisionIsMonotone | src/admission-control.ts:709-715 | better features or less similarity never make the decision worse |
| Governance.GovernanceDb.FindCleanupCandidates | src/governance-cleanup.ts:150-171 | the first candidates of the listing, up to the limit |
| Governance.CandidatesAre | src/governance-cleanup.ts:68-74 | a row is a candidate exactly when neither state, layer nor lifecycle reads archived and there is a reason to clean it up |
| Governance.FirstOfIs | src/governance-cleanup.ts:155-169 | exactly the first candidates are found, in the order of the listing |
| Governance.GovernanceDb.ApplyCleanup | src/governance-cleanup.ts:225-299 | archives the candidates found, as CleanupArchives describes, and counts them; a dry run changes nothing |
| Governance.CleanupArchives | src/governance-cleanup.ts:256-289 | every row returned was due; it now reads archived in state, lifecycle and layer, its projection is archived, its other keys and columns are unchanged, and one event holds its metadata before and after; no other row is touched |
| Governance.SecondCleanup | src/governance-cleanup.ts:150-299 | a second run goes on where the first stopped: together they take what one run with both limits takes |
| Governance.SecondCleanupFindsNothingIff | src/governance-cleanup.ts:150-299 | a second run finds nothing exactly when the first took every candidate listed, so whenever it had room for more |
| Governance.GovernanceDb.RollbackCleanupBatch | src/governance-cleanup.ts:301-359 | undoes the events of the batch whose row still carries its tag, with projection and audit, but for the nested keys that jsonStable drops |
| Governance.CleanupRoundTrip | src/governance-cleanup.ts:225-359 | cleanup under a fresh batch id and its rollback give every archived row its metadata back, as jsonStable leaves it, and touch no other; a second rollback changes no row |
| Governance.RoundTripRestoresIff | src/governance-cleanup.ts:64-66 | all metadata is back if and only if in each archived row every nested object key is also a top-level key; the projection but for its update time is back in any case |
| Governance.StableIff | src/governance-cleanup.ts:64-66 | jsonStable keeps a value exactly when every nested key is a top-level key |
| Governance.PrunedReach | src/governance-cleanup.ts:64-66 | what jsonStable drops is exactly what stands under a key that is no top-level key |
| Governance.RollbackRestoresAll | src/governance-cleanup.ts:301-359 | the rollback restores exactly as many rows as were archived |
| Governance.CleanupEvents | src/governance-cleanup.ts:191-223 | the events a rollback reads are exactly those of the cleanup |
| Governance.RollbackAddsNoArchive | src/governance-cleanup.ts:341-352 | a rollback adds nothing a later rollback would undo |
| Governance.RollbackMirrorsCleanup | src/governance-cleanup.ts:341-352 | the log of the rollback is that of the cleanup mirrored, each event again with its metadata swapped |
| Governance.CleanedInSync | src/sql-lifecycle-projection.ts:176-186 | after cleanup the projection is the projection of truth |
| Governance.LifecycleIs | src/lifecycle-metadata.ts:137-150 | which metadata is projected as inactive and which as archived; everything else is dynamic |
| Governance.ProjectIs | src/sql-lifecycle-projection.ts:176-186 | the window starts at a positive valid_from, else at the timestamp, and ends at an invalidated_at that is not before it |
| Governance.RolledBackInSync | src/sql-lifecycle-projection.ts:176-186 | after a rollback the projection is the projection of truth |
| Forgetting.BuildForgettingReport | src/forgetting.ts:150-225 | exactly the soft and hard candidates, each with a justified reason and survivor, in the order in which the limit takes them |
| Forgetting.ReportIsUnique | src/forgetting.ts:150-225 | these conditions leave no choice: for one listing there is one report, order included |
| Forgetting.CandidatesByColumns | src/forgetting.ts:181-203 | an active row is a soft candidate exactly when it has a reason of its own or an older active row agrees with it in scope, category and fact key, or without one in canonical text; one with only the latter is superseded by the oldest that does; for names without the separator of the keys |
| Forgetting.GroupsFollowColumnsIff | src/forgetting.ts:181-184 | for two scopes and categories: rows taken for duplicates agree in these columns, in all cases, exactly when the names are the same or neither key head is, or goes on as a key after, the other |
| Forgetting.ReasonsAre | src/forgetting.ts:160-180 | each candidate is given its first reason, and the rows to delete are exactly the active ones refused as secrets |
| Forgetting.RunForgetting | src/forgetting.ts:253-294 | archives and deletes what the report and the limit say, as ForgettingArchives describes; a dry run changes nothing |
| Forgetting.ForgettingArchives | src/forgetting.ts:227-251 | each of the first candidates, up to the limit, reads archived in row and projection with its reason and what supersedes it, other keys unchanged; the first secrets are deleted from both; no other row is touched |
| Forgetting.ActiveIsDynamic | src/forgetting.ts:81-92 | forgetting and the projection agree on which rows are active, when state, layer and lifecycle are plain lower-case strings and the state is not left to the source |
| Forgetting.MarksAreFolded | src/forgetting.ts:81-92 | neither padding nor case of the marks matters to forgetting |
| Forgetting.RunForgettingWithVectorSync | src/forgetting.ts:296-394 | the table the closing transaction finds, with exactly the reported rows archived and the vetted ones deleted, the projection kept in sync, given the callback's answers and what others write while it awaits |
| Forgetting.Survivors | src/forgetting.ts:150-294 | the rows still active after a covering run are the active rows that were no candidate, unchanged |
| Forgetting.ForgettingReachesAFixedPoint | src/forgetting.ts:150-294 | after a run that covers all soft candidates no two active rows share a group key, and a second run archives nothing |
| Forgetting.NoTwinsAreLeft | src/forgetting.ts:150-294 | nor do two agree in scope, category and fact key or canonical text, for names without the separator of the keys |
| Forgetting.DeletionsAreVetted | src/forgetting.ts:327-368 | every hard delete follows its vector delete, exactly unless a row became due during the preflight; alone, always |
| Forgetting.UnvettedDeletion | src/forgetting.ts:327-368 | a row that became secret meanwhile is deleted unvetted |
| Forgetting.ForgettingInSync | src/sql-lifecycle-projection.ts:176-186 | after forgetting the projection is the projection of truth |
| Promotion.PromoteMemoryCandidates | src/candidate-promotion.ts:454-557 | reviews exactly the rows read, as they were read, where the transaction still finds them listed; the counters of a dry run are those of the live run |
| Promotion.ClassifyIs | src/candidate-promotion.ts:206-310 | a safe candidate is archived exactly when it is of low value, and promoted exactly when it is not, its kind is stable, confidence and importance reach 0.62 and 0.55 and one of them 0.78 or 0.82; what is no candidate is skipped |
| Promotion.ReasonIs | src/candidate-promotion.ts:240-299 | the reason recorded for a rewrite tells which bar was met, or why the row is of low value |
| Promotion.ConfidenceIs | src/candidate-promotion.ts:149-153 | the confidence is what the metadata gives as a number, else 0.7, and 0 for null |
| Promotion.MemoryTypeIs | src/candidate-promotion.ts:223-228 | the kind is the memory type, else the memory category, else the category of the row, folded |
| Promotion.AllIsJudged | src/candidate-promotion.ts:172-177 | the text judged holds the row's text and all three digests |
| Promotion.RunOutcome | src/candidate-promotion.ts:474-526 | nobody else writing, a live run makes of each row read exactly what its classification says: promoted, archived if noise is to be, or unchanged; other keys and columns stay |
| Promotion.PromotedProjects | src/candidate-promotion.ts:398-412 | a promoted row is projected as dynamic unless its layer still says archive |
| Promotion.SecondRunChangesNothing | src/candidate-promotion.ts:454-557 | after a live run over every candidate a second run changes nothing, whatever its transaction finds |
| Promotion.ListedIsNotSkipped | src/candidate-promotion.ts:186-218 | what the query lists is never skipped |
| Promotion.UnsafeIsLeftToPeople | src/candidate-promotion.ts:206-310 | a run changes neither a row seen unsafe or risky nor its projection, and adds no event about it, whatever became of it meanwhile |
| Promotion.RowsAsSeenIff | src/candidate-promotion.ts:474-526 | a run leaves the rows as if it had read them inside its transaction, if and only if each would be reviewed there as it was seen |
| Promotion.AutomaticSettles | src/candidate-promotion.ts:398-420 | every rewrite of the automatic review takes the row off the list, as RowsAsSeenIff asks |
| Promotion.ReviewedIsNotListed | src/candidate-promotion.ts:398-420 | a reviewed row is no candidate any more |
| Promotion.ReviewedInSync | src/sql-lifecycle-projection.ts:176-186 | after a review the projection is the projection of truth |
| PlaybookStore.ValidatePlaybookSuccessor | src/experience-playbook-successor-policy.ts:15-41 | the walk terminates on any finite table, cyclic or not, with the verdict on the chain |
| PlaybookStore.ExperienceStore.CreatePlaybook | src/experience-store.ts:442-488 | inserts the row and its version 1 |
| PlaybookStore.ExperienceStore.GetLatestVersion | src/experience-store.ts:761-766 | the largest version number, 0 for none |
| PlaybookStore.ExperienceStore.CreatePlaybookVersion | src/experience-store.ts:768-795 | appends the next version with the current row |
| PlaybookStore.ExperienceStore.UpdatePlaybookStatus | src/experience-store.ts:575-614 | sets the status and records a version; a missing playbook changes nothing |
| PlaybookStore.ExperienceStore.ReviewPlaybook | src/experience-store.ts:650-700 | applies the review, or leaves all tables alone when the successor is refused |
| PlaybookStore.ExperienceStore.RecordPlaybookFeedbackAtomically | src/experience-store.ts:916-942 | the run row and the counter change together |
| PlaybookState.ApplyKeepsInv | src/experience-store.ts:442-795 | every operation keeps the graph acyclic with in-scope targets, versions 1..n with the newest current, and counters equal to the feedback |
| PlaybookState.HiddenIsNotFound | src/experience-store.ts:28-44 | an operation is told there is no such playbook exactly when its caller names scopes and none of them is one of the playbook's two; no refused operation changes anything |
| PlaybookState.ActionStatusIs | src/experience-store.ts:657-672 | which words name which status, in any case |
| PlaybookState.ReviewWrites | src/experience-store.ts:674-698 | a review that goes through writes the status its action names, the successor only with superseded, and one version of that row and kind |
| PlaybookState.FeedbackWrites | src/experience-store.ts:916-942 | feedback that goes through adds one run and one on its counter, and no version |
| PlaybookState.StatusWrites | src/experience-store.ts:575-614 | a status change writes the status alone, and one version |
| PlaybookState.CreateWrites | src/experience-store.ts:442-488 | a create writes the row and its version 1, and no run |
| PlaybookState.RefusalIs | src/experience-playbook-successor-policy.ts:15-30 | which check refuses a successor: exactly the first that fails |
| PlaybookState.RunKeepsInv | src/experience-store.ts:442-942 | and so does every sequence of operations |
| PlaybookState.NoCycles | src/experience-playbook-successor-policy.ts:15-41 | in such a table no playbook reaches itself |
| PlaybookState.CycleIsReported | src/experience-playbook-successor-policy.ts:26-39 | in a healthy table, whatever part of it the caller sees, the check reports a cycle exactly when the edge passes the earlier checks and would close one, and never a broken chain |
| PlaybookState.RunLinksIff | src/experience-store.ts:442-700 | over every run a playbook is superseded exactly when it has a successor, if and only if the last operation that set its status was a review, the creation of a playbook not superseded, or a status change that says superseded exactly when there is a successor |
| PlaybookState.LinkedNeverCycle | src/experience-playbook-successor-policy.ts:26-39 | while superseded and having a successor go together the check never has a cycle to report |
| Compactor.BuildMergedText | src/memory-compactor.ts:188-203 | the merged text is the nonblank trimmed lines of the members in their order, of those equal up to case the first; so no line is lost and none invented |
| Compactor.DedupIs | src/memory-compactor.ts:193-203 | the lines kept are exactly the first ones of their kind, in their order |
| Compactor.MergedImportance | src/memory-compactor.ts:205-209 | the largest importance of a member, each capped at 1 |
| Compactor.MergedCategory | src/memory-compactor.ts:211-223 | no category has more votes, and of those with as many it is the one whose first member comes first |
| Compactor.BuildMergedEntry | src/memory-compactor.ts:188-236 | text, importance and category as above, and the scope of the seed |
| Compactor.SortByImportance | src/memory-compactor.ts:136-138 | a permutation by falling importance, ties in their order |
| Compactor.BuildClusters | src/memory-compactor.ts:128-172 | the big enough groups of the grouping in which each entry joins the first seed it is close enough to, in the order of the entries, and each seed is the first entry left in the order of importance |
| Compactor.GroupingIsUnique | src/memory-compactor.ts:128-172 | the conditions on the groups leave no choice: there is only one covering grouping that meets them |
| Compactor.ClustersAreSingleScopeIff | src/memory-compactor.ts:143-160 | for these entries and this minimum every cluster is single-scope, whatever the similarity, exactly when no two entries with a vector differ in scope or there are too few to cluster |
| Compactor.OneScopeIsNeeded | src/memory-compactor.ts:143-160 | when everything is close enough, the clusters of any grouping the code can arrive at are single-scope only if no two entries with a vector differ in scope or there are too few to cluster |
| Compactor.DeleteSources | src/memory-compactor.ts:353-356 | the sources go one by one while the stored merged row stands for them; no line is lost on the way, nor its scope if the members share theirs |
| Compactor.ReplaceCluster | src/memory-compactor.ts:333-361 | with any of embed, store and delete failing, with or without having taken effect, every table on the way still holds every line, the counters match the rows up to the calls that threw, and every new row is what BuildMergedEntry makes of the members, with the vector the embedder answered for its text; without failures all members are gone |
| Compactor.RunCompaction | src/memory-compactor.ts:281-375 | at every intermediate table each nonblank line of each original entry is present up to trim and case, in its scope when the clusters are single-scope; rows outside the clusters are untouched, every new row is what BuildMergedEntry makes of a cluster, with the vector of its text, the counters match up to the calls that threw, a dry run changes nothing, and without failures every cluster is replaced |
| Compactor.ScopesAreKeptIff | src/memory-compactor.ts:205-207 | after a run without failures every line is still held in its scope exactly when each clustered line is also held in it by a row outside the clusters or by a cluster whose seed has that scope |

## Left out

- Host wiring, tool registration, CLI, dashboards, logging and response texts: no properties of their own.
- Provider calls, SSE, OAuth login and abort timers: a provider is an arbitrary function of time and text.
- Regex classifiers (capture safety, noise, intent, secrets, risk and staleness terms, key patterns) and `sanitize`: arbitrary functions of the text.
- The order of SQL listings: a listing is any duplicate-free sequence of row ids. Transactions are atomic; their rollback on an exception is not modelled.
- The projection's fingerprint and state row, its rebuild and health check: functions of the columns modelled. Metadata that is no JSON object reads as the empty object, as in the source, and is not kept as text.
- Another process writing between the listing and the transaction of cleanup, or the report and the transaction of forgetting: the rows listed are those the transaction finds (for promotion and the vector preflight they may differ).
- Compactor.RunCompaction: no other writer runs between the awaits of embed, store and delete.
- A playbook review whose action names what every object inherits, such as `constructor`: the table yields a function, which the write then refuses; here it is unsupported.
- The secret scan before persisting playbooks (`assertExperiencePersistenceSafe`), FTS rows and the redaction of snapshots.
- The alias and queue-key builders of the recall cache and `selectAutoRecallQuery`'s truncation: aliases, sessions and queues arrive as sequences. Entry objects are values in a map, so aliasing between an entry and its holder is not modelled.
- UTF-16: texts are sequences of characters, not of UTF-16 units; `toLowerCase` folds A to Z only (any function in compaction).
- Floating point: scores, importances and embeddings are reals.
- Negative chunk sizes, and the CJK ratio as a computed value: sizes are naturals, and the ratio test is an input.
- The cache of the embedder as an exact LRU, key rotation (`embedWithRetry`) and the index mapping of `embedMany`: the cache may drop any entry at any time, and the provider may answer anything.
- Chunk embeddings in parallel: the chunks are embedded one after another, with a provider that may answer differently at every call. Rejection reasons of the merge policy are one word.
- Several prompt hooks in flight for one session, sessions without a boundary, and eviction of a session's turn state: the spacing results speak of one tracked session, one prompt after another.
- `tokenizeText`, `splitSupportSpans`, the recency half-life and the novelty cosine: tokens and scores are inputs.
- `memory_compact`, `promoteExperiences`, `batchDedup` and `scanLanceRows`: the same patterns in easier form.
- The file lock, atomic file write and permission checks around session saves and store updates.
- LlmMerge.World.UpdateExpecting: models `store.update` by its contract; a snapshot leaves out the vector, so a change of the vector alone is overwritten unnoticed, as in the source.
- AccessProtocol.RunKeepsExact: an update whose rollback fails and loses the row is a failed update followed by a deletion by somebody else.
- BoundedTtlMap.GetFollowsTouchLog: speaks of runs without deletes and without a clock that goes back, because a delete or a backward clock changes what later evictions hit; NothingUncounted covers those runs.
- AutoCapture.ReportedOnceIff: speaks of histories that only grow, without ingress; a shortened history is reported again from its start.
- Forgetting.CandidatesByColumns: asks for scopes and categories without the separator of the group keys; what happens to others is in Forgetting.GroupsFollowColumnsIff.
- Forgetting.ForgettingReachesAFixedPoint: speaks of runs whose limit covers every soft candidate; a smaller limit leaves candidates for the next run.
