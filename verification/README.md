# Verified model of the autonomous monitor

The monitor polls one Kubernetes namespace. Each poll lists resources, runs deterministic checks, publishes
findings to a consumer, marks the ones that disappeared as resolved, remembers findings and observations, bounds
what it remembers, and saves it to a ConfigMap. This project models that program and proves what it keeps.

## How the model is built

- **`Protocol.dfy`** is the centre: a state machine whose steps are one iteration or one phase of `monitor.go`
  (`Begin`, `Accept`, `Report`, `Resolve`, `Expire`, `DropStale`, `CapObservations`, `CapFindings`,
  `ShrinkObservation`, `ShrinkFinding`, `Save`). Every choice of the environment is part of a step: whether a
  publish was acknowledged, lost, or delivered although it returned an error; map iteration order; ties between
  equal ages; whether a save went through. `Valid` says that each step could be taken where the run has come to,
  `IsPoll` says which lists of steps are one call of `Poll`, and `Completes` that the call tried its save exactly
  when one was due.
- **`Monitor.dfy`, `Store.dfy`, `Listing.dfy`, `Eviction.dfy`, `States.dfy`, `History.dfy`** hold the imperative
  code: classes whose methods change the same fields as the source's methods, with its loops. Each method is
  proved to take steps of the protocol or to compute a function that the lemmas speak about.
- **`Consumer.dfy`, `Convergence.dfy`, `Lifecycle.dfy`, `Triage.dfy`, `Cooldown.dfy`, `Bounds.dfy`,
  `Durability.dfy`, `Observed.dfy`, `Reported.dfy`, `Results.dfy`** prove properties of all runs of the protocol,
  and `Divergence.dfy` gives the runs that show where their conditions are needed. The consumer is a ghost: it
  folds the delivered messages by id.
- **`Messages.dfy`, `Retention.dfy`, `Document.dfy`** say independently what the protocol's functions mean: what
  each message of a run says and each entry remembers, and what a poll forgets, from the configuration and the
  steps alone; and the state document byte by byte.
- The server in `Store.dfy` keeps a ghost list of the answers that it gave. What a load and a save are is said over
  that list: which call follows which answer, and when they succeed. Ghost constants of the server tell whether
  other clients write the state key (`others`) or write at all (`alone`).
- **`Memory.dfy`, `Concurrency.dfy`, `Isolation.dfy`, `Interleaved.dfy`** model the main goroutine interleaved with
  listing and check goroutines that outlive their timeout, down to the arrays that memory samples share, and prove
  that the main goroutine behaves as if it ran alone. The result is again a run of the protocol, so the other
  theorems apply.

The definitions that the lemmas rest on follow these lines:

- `Protocol.MustPublish`, `Triages`, `Message` and `ReportedEntry`: monitor.go:201-274.
- `Protocol.ResolvedMessage` and `ResolvedEntry`: monitor.go:286-314.
- `Protocol.IsExpired`, `IsStale`, `ObservationCap` and `FindingCap`: monitor.go:318-422.
- `Protocol.MaySave` and `TooLarge`: monitor.go:519-533.
- `Protocol.IsPoll` and `Completes`: monitor.go:47-147 and 518-543, from the start of a poll to its save.
- `States.StateBytes` and `Document.DocumentText`: state.go:19-47, the field names and omitted fields of the JSON, with the escapes of
  Go's encoder.
- `Suppression.Candidates` and `LoadedKeys`: monitor.go:547-580.
- `Listing.Gated` and `Check`: snapshot.go:111-163 and the completeness flags in checks.go.
- `History.RestartDelta`, `Sampled`, `UsageBand` and `MemoryTrending`: checks.go:102-111 and checks.go:586-653.
- `Concurrency.Can` and `TakeTurn`: monitor.go:149-192, snapshot.go:54-101 and checks.go:586-593.

An outcome of a publish is `Acked`, `Lost` or `ErrorButDelivered`: success means acknowledged, an error says
nothing. SHA-256 is an injective constructor, `Digest(text)`. Instants are integers, with 0 for the zero time;
poll times are inputs. The JSON size is a concrete sum over entries. Loaded finding entries are non-null, because
`resolveMissingFindings` dereferences them.

Some facts about the source that the proofs brought out:

- The comment on suppressions (monitor.go:545-546) says that any field of a key may be `*`. The lookup does not
  try the shape `*/name/*`. The model follows the code, and `WildcardNameWildcardIsSkipped` shows the difference.
- Convergence needs room under the finding cap, and a restart with nothing unsaved. `OverfullPollDiverges` and
  `UnsavedResolutionIsForgotten` give the runs that break it; `PollConvergesExactly` says for every state and every
  belief of the consumer when a poll converges.
- A cooldown is kept unless the entry is deleted inside it and the finding comes back in time; `CooldownExactly` is
  the exact condition, and `OnlyEvictionBreaks` says which deletions can do it.
- A state document that could not be fetched at the start is written over by the first save (`FailedGetOverwrites`);
  `LoadGuardsExactly` says when that cannot happen.
- An empty observation key, which only a foreign document can bring in, makes the scan for the oldest observation
  pick a wrong one or none (`ScanFindsMinimumExactly`), and then the size loop may not come to an end.

## Model

| member | source | states |
|---|---|---|
| Findings.NewFinding | finding.go:36-52 | the finding carries the id of its own five parts, a score in 0..100 and the classification of that score |
| Findings.NewFindingHolds | finding.go:36-57 | a new finding is ongoing, without prediction or cooldown, holds its five parts and a score in range, and its id is the digest of the parts joined by the separator |
| Findings.BandsExactly | finding.go:59-98 | each class and each severity is that of exactly one range of scores, by name, and scores are taken into 0..100 |
| Findings.BandsAreNarrow | finding.go:59-87 | two scores of one classification differ by at most 20 and have one severity |
| Findings.IdentityIsInjective | finding.go:54-57 | ids are equal exactly when all five parts are, provided the first four hold no separator; the reason is unrestricted |
| Findings.IdentityIsUniqueExactly | finding.go:54-57 | the parts of a finding share their id with no others exactly when none of the five holds the separator |
| Findings.SeparatorInNameCollides | finding.go:54-57 | with a separator inside a name, two different findings share an id |
| States.CurrentStateBytes | monitor.go:478-484 | adding up entry after entry, in any map order, gives the size of the whole document, escapes, UTF-8 and fractions of seconds included |
| States.RemovalShrinks | monitor.go:436-453 | removing a finding or an observation makes the state strictly smaller |
| Document.SizeIsTheLength | state.go:19-47 | written out byte by byte, in whatever order of the maps, the document is as long as the size that the limit is compared with |
| Eviction.EvictionsAgree | monitor.go:373-376 | any two ways to delete some k oldest entries leave, for every age, equally many entries of that age |
| Eviction.SortByAge | monitor.go:370-372 | the result is ordered by age and is a permutation; the order of equal ages is open |
| Eviction.PrefixIsOldest | monitor.go:370-377 | the first k entries of a sorted list are k oldest: no survivor is older than a deleted entry |
| Eviction.RepeatedMinimumIsOldest | monitor.go:436-442 | deleting a minimum k times deletes k oldest entries |
| Eviction.AlgorithmsAgree | monitor.go:358-379 | sorted prefix and repeated minimum leave the same multiset of ages, whatever the ties and the order |
| Eviction.ScanFindsMinimum | monitor.go:457-469 | with no empty key the scan ends on an entry of minimal age, in every iteration order |
| Eviction.ScanFindsNothingExactly | monitor.go:457-472 | the scan finds nothing exactly when the empty key comes last and is strictly oldest |
| Eviction.ScanFindsMinimumExactly | monitor.go:457-469 | in every iteration order the scan ends on a minimum exactly when the empty key is not strictly oldest |
| Eviction.EmptyKeyMisleadsScan | monitor.go:457-469 | with the empty key strictly oldest there is an order in which the scan takes the newest entry |
| Suppression.SplitOfKey | monitor.go:572-580 | splitting a key at its first and last slash gives back the three fields it was built from |
| Suppression.LookupIsFieldwise | monitor.go:565-587 | the lookup of seven candidates is true exactly when some key matches field by field with wildcards and is not of the skipped shape |
| Suppression.WildcardNameWildcardIsSkipped | monitor.go:572-580 | a name between two wildcards suppresses nothing although every field matches |
| Suppression.TrimMeans | monitor.go:557-562 | trimming takes white space off both ends and nothing else |
| Suppression.LowerMeans | monitor.go:557-570 | lower-casing maps the letters A to Z and leaves every other character as it is |
| Suppression.SuppressedExactly | monitor.go:547-587 | a finding is suppressed exactly when some key of the ConfigMap, trimmed and lower-cased, matches its lower-cased fields; without a ConfigMap nothing is |
| Protocol.PollsAreSteps | main.go:93-101 | a run of polls is a valid run of their steps |
| Protocol.PromptsInOrder | monitor.go:194-276 | at any place of a list a finding is reported once, duplicates included, or not at all if it is suppressed |
| Protocol.ScriptInOrder | monitor.go:185-192 | at any place of the results one is merged first, and then its findings are reported |
| Consumer.RunKeepsInformed | monitor.go:220-274 | after every step of every run: a resolved entry's consumer was told so, and an ongoing entry without failure mark has an ongoing message of its classification with at least its score |
| Consumer.CapSparesNonResolved | monitor.go:381-394 | the cap spares every entry that is not resolved exactly when those entries fit under it |
| Consumer.RunOrphans | monitor.go:194-453 | the ids believed ongoing without an entry are, over every run, exactly those that the cap evicted while believed ongoing and that no report has carried since |
| Consumer.RunMakesNoOrphan | monitor.go:318-394 | while the cap has room, no run leaves the consumer with an ongoing id that has no entry |
| Convergence.ReportsTouchOnlyActive | monitor.go:194-276 | the reports of a poll change entries, messages and the active set for the reported ids only |
| Convergence.AckedResolvesTell | monitor.go:278-315 | acknowledged resolutions take exactly their ids out of what the consumer holds ongoing |
| Convergence.AckedReportsTell | monitor.go:220-274 | acknowledged reports add exactly the ids of the reports that must be published to what the consumer holds ongoing |
| Convergence.PollConverges | monitor.go:47-147 | after a complete, acknowledged poll the consumer holds ongoing exactly the reported ids and the orphans from before |
| Convergence.PollConvergesExactly | monitor.go:47-147 | from any state and any beliefs, a complete acknowledged poll converges exactly when every id believed ongoing without an ongoing entry is reported, and every reported id is believed ongoing or has a report that must be published |
| Convergence.Convergence | monitor.go:194-316 | from a fresh start, after any polls with any outcomes and with room under the cap, a complete acknowledged poll leaves exactly the reported ids ongoing at the consumer |
| Convergence.ConvergenceExactly | monitor.go:194-332 | without the assumption on the cap, it does so exactly when the poll itself reports every orphan |
| Divergence.OverfullPollDiverges | monitor.go:381-394 | two polls under a cap of one: the first evicts an id that the consumer believes ongoing, and the second, complete and acknowledged, leaves that belief although it does not report the id |
| Divergence.EvictionInsideCooldownBreaks | monitor.go:230-271 | two complete polls under a cap of one meet that condition: the cap evicts an entry inside its cooldown, and the next report is an acknowledged request within it |
| Divergence.UnsavedResolutionIsForgotten | monitor.go:518-543 | two polls and a crash: a resolution that the throttle kept unsaved is forgotten, and a complete acknowledged poll that reports the id again leaves the consumer believing it resolved |
| Lifecycle.RunKeepsTruthful | monitor.go:204-302 | every entry and every message, resolved ones rebuilt from state included, has the id of its own parts and a score in its class |
| Lifecycle.ConsumerNeverUnderInformed | monitor.go:221-273 | for an ongoing entry without failure mark the last delivered message has the entry's class and a score at least the entry's and at most 20 above |
| Lifecycle.NoRepeatedResolution | monitor.go:278-315 | between two acknowledged resolutions of one id an ongoing publish was attempted, even if the entry was deleted in between |
| Lifecycle.ResolvesExactlyTheMissing | monitor.go:135-137 | a poll attempts to resolve nothing if a result was incomplete, and otherwise exactly the entries that were ongoing and that no unsuppressed result carried |
| Lifecycle.LifetimeIsSteady | monitor.go:204-255 | while an entry lives its FirstSeen stays, its LastSeen does not fall, and every message about it carries its FirstSeen |
| Triage.RunKeepsCooled | monitor.go:230-271 | every run remembers each acknowledged request until its cooldown is over |
| Triage.CooldownOverRuns | monitor.go:230-271 | two acknowledged triage requests of one id are more than the first one's cooldown apart, across resolution, reappearance, duplicates and retention |
| Cooldown.RequestsExactly | monitor.go:230-271 | for an id that no cooldown holds back, a triage request is acknowledged by some instant exactly if the run makes an acknowledged, qualifying report of it by then |
| Cooldown.CooldownExactly | monitor.go:230-332 | over every run and for every configuration, each request comes after the cooldown of every earlier one exactly if no step deletes the entry inside a cooldown before whose end the id is reported again, acknowledged and qualifying |
| Cooldown.OnlyEvictionBreaks | monitor.go:318-453 | with retention off or at least every cooldown, only the cap and the size limit can be that step |
| Triage.TriageRate | monitor.go:230-271 | in any span of length W at most 1 + W / C acknowledged requests for one id |
| Triage.SteadyFindingIsPublishedOnce | monitor.go:221-274 | a finding that never qualifies for triage, reported at one score with acknowledged publishes, is published exactly once while its entry stays ongoing |
| Messages.ReportMeans | monitor.go:204-273 | a report is published exactly when the finding is new, resolved, unpublished, failed, worse, of another class or due for triage; its message and the entry it leaves are spelled out field by field from the configuration and the entry before, each class with its own cooldown |
| Messages.ResolutionMeans | monitor.go:278-315 | a resolution says low, healthy, score 0 and nothing more, about the entry it resolves; acknowledged, it leaves a resolved, healthy entry of that instant, and otherwise marks the failure |
| Messages.EveryMessageIsRight | monitor.go:194-316 | every message of every run was sent by a report or resolution that had to send it, and says what that step should say |
| Messages.PollTellsOnlyFindings | monitor.go:194-276 | every ongoing message of a poll is about a finding of one of its results that is not suppressed |
| Messages.OngoingMessagesAreBanded | monitor.go:220-273 | in every log an ongoing message has the class and severity of its score and is a finding reported at that instant |
| Messages.ResolvedMessagesAreHealthy | monitor.go:286-302 | in every log a resolved message is low, healthy, of score 0, without prediction, triage or cooldown, and has the kind, name, check, reason and FirstSeen of the ongoing entry it resolves |
| Messages.RequestsCarryTheirCooldown | monitor.go:230-246 | in every log a request carries LastSeen plus the incident cooldown if it is incident-likely and there is one, and plus the plain cooldown otherwise |
| Messages.SpacingPerClass | monitor.go:230-246 | while the spacing holds, two acknowledged requests of one id are more than the cooldown of the first one's class apart |
| Messages.RequestAgainExactly | monitor.go:230-271 | an acknowledged qualifying report is a request again exactly after the remembered instant |
| Messages.EveryEntryIsRight | monitor.go:204-315 | every entry of every run is what the last report or resolution of its id left, as spelled out |
| Messages.ResolvedEntriesAreHealthy | monitor.go:303-314 | every resolved entry is healthy, of score 0, and of the instant of its acknowledged resolution, since which no step has named it |
| Bounds.CapLeavesExactly | monitor.go:381-394 | the cap leaves exactly min(n, MaxFindings) entries |
| Bounds.OngoingIsProtected | monitor.go:318-453 | no step deletes an entry that is not resolved, except the cap when those entries alone exceed it |
| Bounds.ReportedIsEvictedOnlyByItsPoll | monitor.go:381-422 | with increasing poll times an entry reported in this poll is evicted only if this poll reported more than MaxFindings distinct ids |
| Bounds.SizeRemovesOldest | monitor.go:436-453 | over a whole list of removals for size: some oldest observations first, and once none is left some oldest resolved findings; nothing else is lost, and before the last removal the state did not fit |
| Bounds.PollSizeRemovesOldest | monitor.go:424-455 | the saving phase of every poll removes in that way, removes nothing from a state that fits, and leaves an oversize state only with no observation and no resolved finding |
| Retention.PollForgetsFindings | monitor.go:318-422 | a poll deletes exactly the entries resolved for longer than the retention, then what the cap takes, nothing unless the rest exceeds it, then what the size takes |
| Retention.PollForgetsObservations | monitor.go:341-379 | and exactly the observations not seen for longer than the retention, null ones and those never seen excepted, then what the cap and the size take |
| Retention.CapTakesOldestFirst | monitor.go:381-422 | a cap that takes an entry that is not resolved spares no resolved one, and of one kind it spares nothing older than what it takes |
| Retention.ObservationCapTakesOldest | monitor.go:358-379 | and it spares no observation older than one that it takes, null entries counting as oldest |
| Durability.RunKeepsClean | monitor.go:185-543 | over every run of mutators, a clear dirty flag means that the state equals the one saved last |
| Durability.RunKeepsWellWritten | monitor.go:518-543 | acknowledged writes are at least the write interval apart and every payload fits the limit |
| Durability.WritesAreFitAndSpaced | monitor.go:518-543 | so, from any loaded state: with a limit no acknowledged document is longer than it, and each comes at least the write interval after the one before |
| Durability.FlushIsNeverThrottled | main.go:93-98 | after any polls, the shutdown call with now plus the interval passes the gate exactly when something is unsaved |
| Durability.ConvergenceAcrossRestart | monitor.go:518-543 | after a restart from the last acknowledged write, whatever was unsaved, a complete acknowledged poll converges exactly under the two conditions; with nothing unsaved and room under the cap it always does |
| Store.SaveThenLoad | state.go:89-108 | loading what was saved gives the state back exactly when it has version 1 and a namespace |
| Store.DecodesExactly | state.go:83-108 | a load accepts exactly an empty text and documents of version 1, with their own maps, empty ones for those missing, and the namespace of the store if they name none |
| Store.GuardedExactly | state.go:111-153 | nothing unknown is ever written over exactly when the stored text is the one last loaded or written, or nothing can be written |
| Store.LoadGuardsExactly | state.go:66-109 | with no other writer, a load leaves the stored text guarded exactly when it adopted a state, turned writing off, or left no object |
| Store.FailedGetOverwrites | state.go:78-80 | after a failed Get the first save replaces a document that was never loaded |
| Store.ApiServer.Update | state.go:141-149 | an update applies only to the object the server holds and only at its version, puts its own right behind it, and may be applied with its answer lost |
| Store.StateStore.Load | state.go:66-109 | over the answers of the server: a found document that decodes is returned and its object kept; one that does not turns writing off; a missing object is created once, with a new state under the state key, and that state is returned exactly if the creation was acknowledged; a failed Get returns nothing. With no other writer and every call answered, what was stored is what is adopted |
| Store.StateStore.CreateState | state.go:155-174 | one creation is sent, holding a new state; acknowledged, it is the object at hand and what is stored |
| Store.StateStore.Save | state.go:111-153 | a writeable store holds the dialogue of a save with the server, whose meaning is DialogueMeans. Against arbitrary other writers at most three updates are sent and at most one applied, which replaced the state key and nothing else of the very object the server held; success means applied. With no other client, an object there and every call answered, the save succeeds and exactly this state is stored. A store that is not writeable says nothing |
| Store.DialogueMeans | state.go:126-152 | something is said; each conflict short of the third is followed by a Get and a found object by an Update; the save fails only on a failed call, a missing object or the third conflict, and succeeds exactly when the last answer acknowledges an Update |
| Monitors.Monitor.PrepareMessage | monitor.go:201-246 | the message, the decision to publish and the next cooldown are those of the protocol |
| Monitors.Monitor.ReportFinding | monitor.go:201-274 | the new entry and the message are those of the protocol for the publisher's outcome, and the flag is set |
| Monitors.Monitor.CollectFindings | monitor.go:194-276 | the loop takes one report for each unsuppressed finding, duplicates included |
| Monitors.Monitor.MergeObservations | monitor.go:185-190 | the observations become the old ones overridden by the result's, and the flag is set exactly if there were any |
| Monitors.Monitor.ApplyResult | monitor.go:185-192 | merging comes before collecting, and completeness is the conjunction |
| Monitors.Monitor.ResolveMissingFindings | monitor.go:278-316 | in any iteration order, each ongoing entry that was not reported is resolved once |
| Monitors.Monitor.ExpireResolvedFindings | monitor.go:318-332 | exactly the resolved entries past the retention are deleted, and the flag tells whether any was |
| Monitors.Monitor.PruneStaleObservations | monitor.go:341-356 | exactly the non-null observations with a nonzero LastSeen past the retention are deleted |
| Monitors.Monitor.PruneObservationCap | monitor.go:358-379 | the surplus of oldest observations is deleted, null entries counting as oldest |
| Monitors.Monitor.PruneFindingsByStatus | monitor.go:396-422 | the smaller of count and the number of candidates is deleted, oldest first, and returned |
| Monitors.Monitor.PruneFindingCap | monitor.go:381-394 | resolved entries go first, oldest first, and others only if that is not enough; the flag tells whether any went |
| Monitors.Monitor.ScanObservations | monitor.go:457-469 | the key it ends on is that of Scan for the order in which it visited the entries, each once; it is an oldest one unless the empty key is strictly oldest |
| Monitors.Monitor.PruneOldestObservation | monitor.go:457-476 | what the scan finds is deleted and the flag is set: one oldest observation, unless the empty key is strictly oldest; then any other may go, or none |
| Monitors.Monitor.PruneForStateSize | monitor.go:424-455 | it ends unless the empty key is strictly oldest; what it leaves fits, or holds neither an observation nor a resolved finding; the returned size is the size of the new state |
| Monitors.Monitor.MaybeSave | monitor.go:518-543 | a save is tried exactly when something is unsaved, the throttle allows it and the pruned state fits; a save that is tried holds the whole dialogue of the store for this state, and otherwise nothing is said; with no other client and every call answered it leaves this state stored and the flag clear |
| Monitors.Monitor.Poll | monitor.go:47-147 | one call is a poll of the protocol on one result for each enabled check, in order; it tries its save exactly when one is due unless it is stuck, and then holds the dialogue of the store; the stored state stays in step with the flag, and an applied document fits and replaced the object the server held |
| Monitors.Boot | main.go:78-87 | the answers of the server decide the state: one that loads is adopted, one that was refused turns writing off; with no other writer and every call answered, a stored document is adopted exactly if it decodes; the stored text is guarded exactly when a state was adopted, writing is off or there is no object |
| Monitors.PollAll | main.go:92-101 | the loop makes one complete poll for each tick, on that tick's results and suppressions, and ends early only when a poll is stuck |
| Monitors.Serve | main.go:87-101 | the main loop is a valid run of complete polls and a flush, in step with the store throughout; a store that is not writeable is never changed; from a guarded start with no other writer each update replaced the text known before it; with no other client, polls in order of time, every call answered and a state that fits, the flush leaves nothing unsaved |
| Listing.Snapshot.ListSnapshot | snapshot.go:111-163 | field by field, the snapshot becomes the gated listing of the server's answers |
| Listing.CheckEvents | checks.go:157-186 | the loop finds exactly the warnings within the lookback, in order |
| Listing.FilterIsInvisible | snapshot.go:122-130 | filtering warnings on the server changes no event finding |
| Listing.FilterKeepsWarnings | snapshot.go:122-130 | the filter keeps the warnings, each as often as it was listed, and nothing else |
| Listing.EventsReportedExactly | checks.go:157-186 | at any position of the list an event adds its one finding exactly when it is a warning whose last timestamp, else event time, else creation lies within the lookback |
| Listing.GatedListsOnlyNeeded | snapshot.go:111-163 | a resource is listed only if an enabled check reads it |
| Listing.WorkloadsInPart | checks.go:188-235 | a workload listing that failed takes its own findings away and makes the check incomplete, no more |
| Listing.VerdictsExactly | checks.go:50-765 | a complete verdict holds what the check's own rule finds in its own listings; an incomplete one, the workloads apart, holds nothing; without a client of its own the check is complete and empty |
| Listing.GatedListingPreservesMeaning | snapshot.go:111-163 | for every configuration and every set of answers, each enabled check has the same findings and completeness as on a full, unfiltered listing |
| Listing.AbandonedListingIsIncomplete | snapshot.go:94-100 | on the snapshot of an abandoned listing every check that reads the cluster is empty and incomplete |
| Results.CompleteIfEveryCheckIs | monitor.go:63-135 | a poll is complete exactly when the result of every enabled check is |
| Results.AllTenInOrder | monitor.go:61-133 | with every check enabled the results come in the order of Poll |
| Results.ResultsKeepOrder | monitor.go:61-133 | whichever are enabled, of two checks the one that Poll runs first has its result first |
| Results.CompleteExactly | snapshot.go:111-163 | on the gated listing every enabled check is complete exactly when every answer that some enabled check needs has arrived |
| Results.ResolvesOnlyWhenListed | monitor.go:135-137 | a poll resolves nothing if a listing that an enabled check needs failed or was abandoned or a check timed out, and otherwise exactly the ongoing entries that no check reports |
| Results.AbandonedIsNotListed | snapshot.go:94-100 | an abandoned listing leaves out what the enabled checks need |
| History.KeysNeverCollide | checks.go:102-102 | restart keys and memory keys are never equal, and each kind determines the pod |
| History.CheckRestarts | checks.go:59-111 | the loop computes the reports and the new totals from the prior observations, with 32-bit wrap-around |
| History.CheckResourceUsage | checks.go:568-633 | the loop computes the bands and the new windows from the prior observations |
| History.StoredIsLastListed | checks.go:102-111 | a stored restart count is the one of the latest merged listing of that live pod |
| History.RestartsReportedOnlyIfRisen | checks.go:102-110 | the findings of the check name a pod as restarting only if, in 32-bit arithmetic, its count rose by the threshold since the latest merged listing, at most RestartWindow ago |
| History.RiseIsTheDifference | checks.go:104-104 | while the difference of the counts fits into 32 bits, that is the plain difference |
| History.TotalIsTheSum | checks.go:79-81 | a pod's total is the sum of its containers' counts wrapped to 32 bits, and the sum itself while that fits |
| History.RestartFindingSays | checks.go:105-108 | what a restart finding says: check, reason, score 65, degraded, high |
| History.RestartsReportedExactly | checks.go:102-110 | they name it exactly then, if neither cap nor size evicted that pod's count, the clock went forward, and retention is off or at least the window |
| History.WindowIsLastFive | checks.go:586-593 | the stored window is the last min(n, 5) samples merged since the entry was created, and LastSeen is the instant of creation |
| History.WindowIsTheEnd | checks.go:636-642 | the window is the end of all the samples, of length 5 or of all of them |
| History.MemoryRemembersLastSample | checks.go:586-593 | a memory observation counts no restarts and remembers the instant of its last merged sample |
| History.UsageIsDecidedFromHistory | checks.go:586-631 | the findings of the usage check are those that the merged history and the new samples decide |
| History.TrendIsDecidedFromHistory | checks.go:604-653 | they say that a pod is trending exactly when, of at least three of its last five samples, the last lies at least 10 above the first, within the marks |
| History.UsageBandsExactly | checks.go:604-631 | from the marks and the history alone: a finding memory-critical with 80 exactly from the critical mark on, memory-trending-to-limit with 72 or memory-high with 62 between the marks with or without a rise of 10 over the last five samples, memory-trending with 45 from 50 percent on with one; and with no other reason or score |
| History.NoBandNoFinding | checks.go:604-631 | a sample in none of these ranges makes no finding, and every other makes one |
| Observed.PollObserves | monitor.go:185-192 | a poll merges the accepted results, drops the stale, evicts what cap and size took, and changes no observation in any other way |
| Observed.RunsFollowHistory | monitor.go:185-379 | what any run of polls stores is the observation history that its accepted results record |
| Reported.PodsCheckReturns | checks.go:50-115 | the pods check as the goroutine runs it returns the new totals and, among its findings, exactly the restart reports |
| Reported.UsageCheckReturns | checks.go:532-634 | the usage check as the goroutine runs it returns the findings and windows of its samples, or nothing on an error |
| Reported.RunsRecordAll | monitor.go:72-122 | polls whose results are what the checks return on the observations before them record the history of listings and samples |
| Reported.RestartsReportedOverRuns | checks.go:102-110 | over every run of polls, the next accepted pods result names a pod as restarting only if, and undisturbed exactly if, its count rose by the threshold, in 32-bit arithmetic, since its latest merged listing within the window |
| Reported.UsageReportedOverRuns | checks.go:586-653 | over every run of polls, the next accepted usage result finds exactly what the merged history says, and says that a pod is trending exactly when its last five samples do |
| Reported.UsageBandsOverRuns | checks.go:604-631 | over every run of polls the next usage result holds a finding of each reason and score exactly for the samples in that range of the marks and the merged history |
| Memory.AppendMeaning | checks.go:636-642 | append adds the value at the end, in place when there is room and in a new array otherwise |
| Memory.AppendFrame | checks.go:636-642 | an append in place disturbs no slice that ends where the appended one ends or before |
| Memory.CopyIsPrivate | snapshot.go:57-70 | the copied observations have the old values in arrays of their own, one per key, and no older array changes |
| Memory.CopyHasPriorValues | snapshot.go:57-70 | when every key is visited the copy holds exactly the non-null observations of the state |
| Isolation.RunKeepsSeparated | monitor.go:149-174 | in every interleaving each running check can append only to arrays of its own poll, no such array is in the state, and no snapshot that a check reads is still being filled |
| Isolation.Isolation | monitor.go:149-192 | every interleaving has the state, the publishes and the accepted results of the main loop running alone, where each check that timed out returned an empty incomplete result |
| Isolation.GoroutinesCannotReachState | snapshot.go:94-100 | no step of any listing or check goroutine, abandoned or not, changes an array that the state reaches or a snapshot that is being read |
| Isolation.InterleavingsAreRuns | monitor.go:149-192 | every interleaving is a valid run of the protocol with the same accepted results |
| Isolation.InterleavingsKeepInformed | monitor.go:149-316 | so the consumer stays informed whatever the goroutines do |
| Isolation.InterleavingsArePolls | monitor.go:47-192 | when each poll acts on the results it accepted, every interleaving is a run of polls with those results |
| Isolation.InterleavingsConverge | monitor.go:149-316 | so convergence holds under every interleaving |
| Isolation.InterleavingsResolveTheMissing | monitor.go:135-174 | and a poll resolves nothing if a check timed out, and otherwise exactly what its accepted results miss |
| Interleaved.PollReturns | monitor.go:149-192 | inside a poll every accepted result is that of its check run alone on the observations before the poll, or empty and incomplete if it timed out |
| Interleaved.SegmentsRunAll | monitor.go:47-192 | under every interleaving, the accepted results of each poll are what its checks return on the observations before it |
| Interleaved.InterleavingsReportRestarts | checks.go:102-110 | so the restart reports follow the history whatever the goroutines do |
| Interleaved.InterleavingsReportUsage | checks.go:586-653 | and so do the findings of the usage check |

## Left out

- The Kafka client, HTTP and health handlers, metrics and logging: only the outcomes of publish, list, get and update are modelled.
- Reading the environment in config.go and the wiring in main.go: the configuration is a parameter; `Boot` and `Serve` keep the load, the loop and the flush.
- Log scanning, custom-resource tables, scoring tables, workload, HPA, PVC and service rules: each is an arbitrary function from what it reads to findings and completeness. Evidence texts are arbitrary or empty.
- The discovery cache, `normalizeReason`, `clampInt32` and metric counts. `Poll` keeps the ids of the active map; its values only feed metrics.
- CheckResourceUsage takes the usage of a pod in percent as given: adding quantities and dividing by the limit is not modelled.
- CurrentStateBytes: text that is not valid UTF-8, instants outside UTC or beyond the year 9999, and a marshaller that fails are not modelled. In `Document` the calendar date of a second and the digits of a digest are parameters of the right length.
- Byte-level JSON in Load and Save: a document is a value, with bad JSON and other versions as cases of their own.
- Instants are unbounded; the saturation of `time.Sub` is not modelled.
- LowerMeans: lower-casing is modelled for ASCII letters only; strings.ToLower also maps other letters.
- A publish that returned an error is delivered at once or never: late delivery after a newer message is not modelled.
- ConfigMap metadata other than labels and the resource version. The fields of MonitorState are fields of the class Monitor.
- PruneForStateSize: a size loop that scans in vain for ever is cut off after `patience` fruitless scans and reported as `stuck`; a poll that is stuck is not a completed poll, and neither `Poll` nor `Serve` continues after it.
- Null finding entries in a loaded document: the source dereferences them.
- Isolation: a turn is one field read or written, or one usage sample; finer interleavings inside an append and the Go memory model below that are not modelled. Between two turns of other goroutines the main goroutine may take any step of the protocol; `Scripted` is what ties its reports to the results it accepted. With CheckTimeout off no goroutine is started, which is an interleaving where each runs at once.
- Cancellation of the poll's own context: a listing or a publish that fails because of it is one of the error outcomes.
