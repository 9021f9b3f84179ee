# Verification of slot-sim's core

A model of the parts of the slot simulator whose correctness is not visible in any one function: the
partial-message gossip transport, the batch and column verifiers, the per-slot vote claim and the
finality rounds, and the plan algebra with the builders and checkers that must agree on it.  Each
part is a specification (datatypes, step functions, an invariant), the imperative form of the source
proved against it, and the theorems about every run or every input.

| files | part |
|---|---|
| PartialBucket, PartialManager | one bucket's operations; one manager's groups, receive path, tick, verdict, seal and prune, with map iteration order as a choice |
| PartialSafety, PartialWire, PartialRuns | what every step keeps, what a tick may send, and the results over every run of one manager |
| PartialEffects, PartialOnce, PartialTicks | what each operation does to the state and the wire, exactly; what a run sends, copy by copy and request by request; one tick, and the heartbeat's advertisement |
| PartialNetwork, PartialRecovery | managers over channels that lose nothing but reorder and duplicate; belief soundness, provenance, eager push and gossip recovery |
| PartialVerified | the manager composed with its batch verifiers |
| PartialBucketObject, PartialGroupObject, PartialManagerObject | bucket, group and manager as objects updated in place |
| GroupKey | the groupID codec |
| Verifier, VerifierStop, VerifierThroughput, VerifierTiming, VerifierObject | the one-server batch queue: its machine, stopping, throughput, what its runs look like from outside, and the object updated in place |
| ColumnVerifier | the width-P column server |
| VoteClaim | the per-slot vote claim |
| FinalityTeardown, FinalityRounds, FinalityAggregates | a round's network state, its place in the slot loop, its drawn aggregators |
| FinalityRun, FinalityPublished | a whole finality run with its timers and close, and what it sends |
| Hosting, Positions, PlanDraws, Graph, Checker | hosting rules, position space and identities, draws, peer graphs, arrival checks |
| Arith | products and quotients |

How things are represented.  Time is an integer and each handler, locked section or tick of one group
is one atomic step.  A committee bitmap is the set of its set bits; merging truncates to whole bytes
of the bucket's own width.  A random draw is an arbitrary value of its stated range and size.  Peers,
nodes and validators are numbers.  The committee-size resolver is a function parameter.  Ghost and
history fields (claims made, positions heard, arrivals fired, votes published, items submitted) are
written and never read by the machines.

Where the code is narrower than its comments, or a rule fails, the code is kept and the exact
condition is proved:

- `publishLocal` ignores the pruned floor (node/partial.go:240-253) although node/partial.go:171-173
  says a pruned group stays pruned.  `PartialRuns.NoResurrectionIff` proves the promise holds exactly
  when local publishes are above the floor, and `PartialRuns.PublishResurrects` gives the failing
  input.  That a pruned group never fires again holds without the condition.
- `seal` (node/partial.go:674-679) marks only groups that exist; a later straggler opens a new,
  unsealed one (`PartialRuns.SealMarksWhatExists`).
- A batch exceeds its cap when its head alone does (node/verifier.go:164-168), hence the max(cap, head)
  in the bounds.
- The deadline handler does not run the pure rule (driver/runner.go:1299-1306), so a tie handled after
  it votes for the prior head (`VoteClaim.TieAfterDeadlineVotesPrior`); `VoteClaim.GatedVoteOverTheWholeRun`
  says exactly when the vote is the pure rule's.
- Custody completion is a count (driver/runner.go:1180): `VoteClaim.ForeignColumnOpensTheGate` shows
  why it needs only custody columns to arrive.
- Teardowns that overlap without a reap between them leak (`FinalityTeardown.LeakExactlyWhen`), until a
  later round lists the same topic or peer (`FinalityTeardown.LeakLastsUntilListed`,
  `FinalityTeardown.LaterRoundReleases`); the slot clock never produces that order
  (`FinalityRounds.ClockDrivenIsOrderly`).
- Past the last hosted id the binary search answers the number of nodes and the scan -1
  (`Hosting.NodeOf`).
- The block check's total assumes every origin is one of the nodes (analysis/check_arrivals.py:111-137),
  so `Checker.Analyze` carries that condition and `Checker.ForeignOriginFails` shows it biting.
- A base-mode round that the run's length cuts short sends its votes (`FinalityPublished.VoteSentOnce`)
  and publishes its aggregates only if the slots run and the drain (driver/driver.go:193-197,
  cmd/slot-sim-node/main.go:240-242) reach past their instants.
  `FinalityPublished.NetworkPublishesExpectedIff` gives the exact condition for the published set to be
  the one analysis/check_arrivals.py:859-876 expects, `FinalityPublished.CutShortLosesAnAggregate` an
  input that fails it and `FinalityPublished.CutShortPublishesInTheDrain` one that does not.

## Model

| member | source | states |
|---|---|---|
| PartialRuns.ArrivalsExactlyOnce | node/partial.go:112-123 | After any run a live bucket holds the disjoint union of validating and validated; each validating position stands exactly once in the items pending at the verifier; the positions that fired an arrival are exactly the validated ones not published here; no arrival of any bucket, live or pruned, fires twice |
| PartialRuns.BudgetsOverEveryRun | node/partial.go:258-312 | After any run a position's forward count is the number of distinct peers it was claimed for and stays within maxPeers, its request count stays within maxIWant, the belief about a peer is exactly what was claimed for it or heard from it, only validated positions in the committee are claimed, and no peer widens the bitmaps kept about it |
| PartialRuns.RedeliveryChangesNothing | node/partial.go:471-518 | An RPC whose batches repeat held positions, in any order and number, adds no vote, replaces no signature, submits nothing and fires nothing |
| PartialRuns.RejectedBatchChangesNothing | node/partial.go:489-509 | Batches fail exactly when some batch is malformed, with the first malformed batch's error, and the state is that of the batches before it |
| PartialRuns.NoResurrectionIff | node/partial.go:240-253 | A run keeps every live group above its kind's watermark if and only if every local publish uses a key above it; peers cannot bring a pruned group back |
| PartialRuns.PublishResurrects | node/partial.go:240-246 | publishLocal does not consult the floor: a publish for a pruned group brings it back |
| PartialRuns.PrunedNeverFires | node/partial.go:686-702 | In every run, whatever is published, received or called back, the floor never comes down and a pruned group never fires another arrival |
| PartialRuns.SealedSaysNothing | node/partial.go:365-367 | A group live when sealed emits no data and no metadata ever again, through its prune and beyond, when local publishes are above the floor |
| PartialRuns.SealMarksWhatExists | node/partial.go:671-681 | seal marks exactly the existing groups of the kind at or below the key; a group created afterwards is open |
| PartialRuns.SealedStillReceives | node/partial.go:440-521 | A sealed group accepts, stores and submits exactly what the open group would, with the same errors |
| PartialRuns.SealedStillFires | node/partial.go:528-545 | A sealed group promotes and fires exactly what the open group would |
| PartialRuns.RunKeepsInv | node/partial.go:161-175 | Every event of the manager, in any order, keeps bucket budgets, beliefs, lifecycle and the arrival ledger |
| PartialEffects.PublishExact | node/partial.go:240-253 | A local publish of a position not held makes it held with its signature, validated and local; one held already leaves the bucket as it was; every other bucket, group and field is unchanged |
| PartialEffects.ReceiveExact | node/partial.go:471-512 | Belief, wants and holdings grow by exactly what the RPC's metadata (cut to whole bytes of the committee) and its batches up to the first malformed one say of the sender; the error is that batch's |
| PartialEffects.ReceiveFailsIff | node/partial.go:440-504 | An RPC fails exactly on a foreign topic, a garbled envelope or, above the floor, a cell without committee or a malformed batch; refused or dropped before its first metadata or batch it changes nothing |
| PartialEffects.SubmittedIsGained | node/partial.go:507-518 | The items an RPC submits are non-empty and together hold as many positions as votes it added to the group |
| PartialEffects.VerdictExact | node/partial.go:528-545 | A verdict moves the item's validating positions to validated in its own live bucket and nothing else anywhere |
| PartialEffects.SealExact | node/partial.go:671-681 | seal marks every live group of the kind at or below the key and moves nothing else |
| PartialEffects.PruneExact | node/partial.go:686-702 | prune drops exactly the groups of the kind at or below the key, keeps every other as it was, and sets the kind's floor to the larger of old floor and key, leaving the other kind's |
| PartialOnce.PublishedStays | node/partial.go:240-253 | A vote published here stays validated, local and held with its signature on every run until its group is pruned, when later local publishes are above the floor |
| PartialOnce.NeverSentBack | node/partial.go:508-512 | Once a peer has sent or advertised a position, no later tick of any run sends it that position, its prune included, when local publishes are above the floor |
| PartialOnce.NeverSentTwice | node/partial.go:258-282 | Once a tick has sent a position to a peer, no later tick of any run sends it to that peer again, when local publishes are above the floor |
| PartialOnce.WireBudgets | node/partial.go:255-312 | Counted on the wire over every run whose local publishes are above the floor, a position of a bucket goes out at most maxPeers times and is asked for at most maxIWant times |
| PartialOnce.TickCounts | node/partial.go:277-280 | A tick raises a position's forward count by the number of messages that carry it |
| PartialOnce.TickAsks | node/partial.go:286-312 | A tick sends no more requests for a position than it counts, and exactly those when it runs to its end |
| PartialOnce.FullTickAsks | node/partial.go:286-312 | A tick run to its end sends, for a missing position, as many requests as gossip peers are believed to hold it or as the budget still allows, whichever is less |
| PartialTicks.TickExact | node/partial.go:357-431 | A tick adds a position to the belief about a peer exactly when a message to it carries the position, forgets exactly the served peers' wants, counts what it sends, and moves no vote and no other group |
| PartialTicks.TickServesAll | node/partial.go:255-282 | In a turn that came, every validated position the peer is not believed to hold, and asked for if a gossip peer, is sent to it unless its forward budget is used up |
| PartialTicks.HearingMarksTheSender | node/partial.go:480-486 | An RPC let in with a non-empty bitmap marks its sender, and only it, a gossip peer; it arms and disarms nobody |
| PartialTicks.ServedGossipPeersLeave | node/partial.go:402-405 | After a tick exactly the gossip peers it served have left the peer states; a heartbeat marks and arms exactly the peers it chose, unless gossip is off |
| PartialTicks.AdvertisedOnce | node/partial.go:151-157 | After a tick served a peer, whatever is heard, published, verified or ticked next, no tick advertises a position to it until a heartbeat chooses it again |
| PartialTicks.ArmedIsTold | node/partial.go:564-577 | An armed gossip peer whose turn comes is told every validated position of every bucket that has one |
| PartialSafety.StepKeepsInv | node/partial.go:237-702 | One locked section of the manager, of any kind, keeps the whole invariant |
| PartialSafety.CallBackFires | node/partial.go:528-545 | One verdict fires exactly the item's positions still validating in a live bucket, and changes no other bucket |
| PartialBucket.AddReceivedFacts | node/partial.go:112-123 | The returned positions are the new ones, each once; they become validating; nothing held is overwritten and nothing else changes |
| PartialBucket.PromoteFacts | node/partial.go:535-542 | Promotion moves exactly the item's positions that are validating, each once, and leaves everything else |
| PartialBucket.ClaimIsNew | node/partial.go:263-280 | Nothing is claimed for a peer that was claimed the position before, sent it or advertised it, or when the position is not validated or already at the cap |
| PartialBucket.MeshPeerServed | node/partial.go:255-282 | A mesh peer gets in its turn every validated position it lacks, except those whose forward budget is used up |
| PartialBucket.ServeAllBelief | node/partial.go:380-398 | A whole tick adds to the belief about a peer exactly what its own turn claimed |
| PartialBucket.AskAllExact | node/partial.go:284-312 | A missing position is asked for exactly as often as peers advertise it and the request budget allows, and no other position is |
| PartialBucket.AskAllFacts | node/partial.go:286-312 | Selecting wants changes request counts only, and asks a peer only for positions it is believed to hold and this node lacks |
| PartialWire.OnlyValidatedFlows | node/partial.go:316-349 | Batches carry only validated positions the peer was not believed to hold (and asked for, if a gossip peer) with their stored signatures; Available carries only validated positions; requests go only to gossip peers for positions they advertise and this node lacks |
| PartialWire.ClaimedIsSent | node/partial.go:380-428 | A position enters the belief about a peer during a tick only when a batch carrying it goes to that peer |
| PartialWire.BatchesToFacts | node/partial.go:384-390 | One turn's data envelope holds exactly the claimed positions of each bucket, ascending, and a batch for every bucket with a claim |
| PartialWire.MetasToFacts | node/partial.go:393-397 | One turn's control envelope tells Available only when armed, the want list always, and nothing for a bucket with neither |
| PartialNetwork.BeliefSoundness | node/partial.go:240-282 | Over every run of the network, if a believes b to hold a position then b holds it in the same bucket or a batch carrying it is in flight from a to b |
| PartialNetwork.ValidatedWasPublished | node/partial.go:440-521 | Every vote validated anywhere was published by someone, in the same bucket and with the same signature |
| PartialNetwork.NetStepKeeps | node/partial.go:357-521 | Every network step (publish, tick, delivery with or without duplication, outside publish, verdict, seal) keeps sound beliefs, backed flight and provenance |
| PartialNetwork.ReceiveStores | node/partial.go:489-518 | A well-formed RPC above the floor leaves the receiver holding every position it carries |
| PartialNetwork.ReceiveAdds | node/partial.go:489-512 | An RPC adds only votes it carries, with the carried signatures, and keeps every vote held before |
| PartialNetwork.ReceiveBelief | node/partial.go:471-512 | An RPC adds only to the belief about its sender, and only what it tells or carries |
| PartialRecovery.Recovery | node/partial.go:357-431 | From any two-manager state with sound beliefs and nothing in flight, a heartbeat and tick at a, a tick at b, a tick at a and b's verifier leave every position a had validated validated at b, except those whose forward budget at a or request budget at b was used up |
| PartialRecovery.OneVoteReaches | node/partial.go:357-431 | One vote published at a fresh node reaches a fresh peer through gossip alone, with any positive budgets: the conversation exists and ends with the vote validated there |
| PartialRecovery.SomeTalk | node/partial.go:357-431 | From every pair of states the ticks can run to their end under some map order, so the conversation always exists |
| PartialRecovery.MeshPush | node/partial.go:357-431 | One tick, delivered, leaves a mesh peer holding every position the sender had validated, except those over the forward cap |
| PartialRecovery.QuietBeliefs | node/partial.go:240-282 | Every reachable network state with nothing in flight satisfies the beliefs Recovery starts from |
| PartialRecovery.FirstTick | node/partial.go:564-577 | A heartbeat's tick advertises every validated position to the peer it chose |
| PartialRecovery.WantTick | node/partial.go:286-312 | A tick asks a gossip peer for every position it advertises, this node lacks and the request budget allows |
| PartialRecovery.ServeTick | node/partial.go:258-282 | A tick sends a peer every validated position it asked for and is not believed to hold, under the forward cap |
| PartialVerified.PendingIsTheBacklog | node/partial.go:513-518 | Manager and verifiers composed: under every interleaving, with other topics sharing the queues, the pending items of a kind are exactly its verifier's backlog in submission order |
| PartialVerified.ChargedForNewVotes | node/partial.go:507-518 | An RPC hands its kind's verifier, behind what waits, items of its group whose attestations are together exactly the votes it added, each at least one, and wakes it if there is any; the other kind's verifier is left alone |
| PartialVerified.CallbackLinks | node/verifier.go:184-188 | A verifier callback for a manager's item promotes exactly the first pending item of its kind |
| PartialVerified.StoppedNodeHasValidatedAll | node/verifier.go:192-202 | Once a kind's verifier has stopped with nothing submitted late, every position held above the floor is validated and each one from a peer has fired exactly one arrival |
| PartialBucketObject.VoteBucket.AddAll | node/partial.go:112-123 | The in-place loop performs AddReceived and returns the new positions |
| PartialBucketObject.VoteBucket.NoteSender | node/partial.go:508-512 | The in-place loop marks every sent position as held by the sender |
| PartialBucketObject.VoteBucket.NoteMetadata | node/partial.go:476-479 | Advertised and wanted bits are merged at the bucket's own width |
| PartialBucketObject.VoteBucket.PutLocal | node/partial.go:247-253 | A local vote is validated at once; a duplicate position is a no-op |
| PartialBucketObject.VoteBucket.Choose | node/partial.go:263-275 | In any map order, the filter picks exactly the claimable positions |
| PartialBucketObject.VoteBucket.ClaimToSend | node/partial.go:258-282 | Returns the claimable positions ascending and commits exactly them |
| PartialBucketObject.VoteBucket.ServePeer | node/partial.go:385-392 | A peer's turn on one bucket claims when it takes partial messages and forgets its wants either way |
| PartialBucketObject.VoteBucket.AskPeer | node/partial.go:293-306 | One peer's share of the want selection, ascending, with each request counted |
| PartialBucketObject.VoteBucket.SelectTargets | node/partial.go:286-312 | In any map order of the gossip peers, the selection and its request counts are those of AskAll in that order |
| PartialBucketObject.VoteBucket.PromoteAll | node/partial.go:535-542 | The in-place loop performs Promote and returns what fires |
| PartialBucketObject.VoteBucket.Encode | node/partial.go:341-349 | Indices and stored signatures in the given order |
| PartialBucketObject.VoteBucket.Describe | node/partial.go:316-337 | Available when armed, Requests always, none when both are empty |
| PartialGroupObject.VoteGroup.BucketFor | node/partial.go:141-149 | Returns the bucket of a key, created empty when missing, and shares none |
| PartialGroupObject.VoteGroup.HearMetadatas | node/partial.go:471-479 | The in-place loop over metadata performs HearAll |
| PartialGroupObject.VoteGroup.Check | node/partial.go:494-505 | A batch passes exactly when lengths agree and every index is in the committee |
| PartialGroupObject.VoteGroup.TakeBatches | node/partial.go:489-519 | The in-place loop over batches performs TakeAll, up to the first malformed one |
| PartialGroupObject.VoteGroup.Confirm | node/partial.go:534-543 | A verdict on a live bucket, in place |
| PartialGroupObject.VoteGroup.SelectAll | node/partial.go:370-378 | The want selection over every bucket, in any map order |
| PartialGroupObject.VoteGroup.ServeTurn | node/partial.go:380-398 | One peer's turn over every bucket, in any map order, with its two envelopes |
| PartialGroupObject.VoteGroup.Tick | node/partial.go:370-428 | A tick in place is TickGroup under some legal choice of map orders, its actions are Outs, the served gossip peers leave the peer states, and it ends early only when the consumer stops it |
| PartialManagerObject.PartialNode.constructor | node/partial.go:179-204 | A new manager is empty, with options left at zero replaced by a 20 ms tick, twice the mesh degree and ten requests |
| PartialManagerObject.PartialNode.Resolve | node/partial.go:214-235 | getOrCreateGroup succeeds exactly for a live group or a positive committee size, and adds nothing else |
| PartialManagerObject.PartialNode.PublishLocal | node/partial.go:240-253 | In place, performs Publish and leaves every other group alone |
| PartialManagerObject.PartialNode.OnIncomingRPC | node/partial.go:440-521 | In place, performs Receive with the same outcome and submissions, and marks the sender as FlagsAfter |
| PartialManagerObject.PartialNode.MarkValidated | node/partial.go:528-559 | In place, performs MarkValidated and returns the arrivals |
| PartialManagerObject.PartialNode.PublishActions | node/partial.go:357-431 | In place, performs Tick and emits Emitted, for some legal choice of map orders |
| PartialManagerObject.PartialNode.SealUpTo | node/partial.go:671-681 | In place, performs Seal, in any map order |
| PartialManagerObject.PartialNode.PruneUpTo | node/partial.go:686-702 | In place, performs Prune, in any map order |
| PartialManagerObject.OnEmitGossip | node/partial.go:564-577 | Marks exactly the chosen peers as gossip peers with an armed advertisement, or nothing when gossip is off |
| GroupKey.KeyRoundTrip | node/partial.go:722-734 | Decoding an encoded group key gives the key modulo 2^32, so the key itself exactly when it fits |
| GroupKey.IDRoundTrip | node/partial.go:722-734 | Encoding a decoded four-byte groupID gives it back |
| GroupKey.ForeignID | node/partial.go:727-734 | A short groupID is its own big-endian value, a long one counts for its last four bytes, and the key fits 32 bits |
| GroupKey.BytesAreBigEndian | node/partial.go:722-734 | On the wire the most significant byte comes first, both ways |
| Verifier.BatchEndIsLongestFit | node/verifier.go:159-171 | The next batch is the longest prefix that fits the cap, or the single oversized head; every longer prefix is over the cap |
| Verifier.BatchCostBounded | node/verifier.go:174-182 | A capped batch sleeps at most base + max(cap, head) * perItem, whatever base delay is drawn for it |
| Verifier.RunKeepsInv | node/verifier.go:91-154 | Every interleaving keeps conservation, wake-up and stop visibility |
| Verifier.ConservationAndWakeup | node/verifier.go:91-154 | completed ++ batch in hand ++ queue is the submission sequence; a parked loop with work has a pending notify or a window timer; an exit without late submits has called everything back |
| VerifierTiming.CallbacksOnTime | node/verifier.go:174-189 | On every run, in every state, the rest of the batch started at t with base delay b is called back in order from t + b + perItem * its attestations on and not before, and the window timer expires from t + window on and not before |
| VerifierTiming.EveryItemComesBack | node/verifier.go:91-154 | Read off the events of any run: items called back, then in hand, then queued are the items submitted, in order; once the loop has left with nothing submitted after a stop, all came back, each once |
| VerifierTiming.LockTakesLongestFit | node/verifier.go:105-127 | Inside a running window nothing is taken; otherwise the batch is the longest front of the queue that fits the cap, or the head alone when over it, and the rest stays queued in order |
| VerifierTiming.StartRateBounded | node/verifier.go:118-135 | Read off the events of any run: before stop, batches begun in an interval of length span hold at most (span / window + 1) * max(cap, largest submitted item) attestations |
| VerifierStop.StopBoundsTheLoop | node/verifier.go:192-202 | After stop with no further submits no schedule makes the loop take more than a fixed number of steps |
| VerifierStop.StopDrains | node/verifier.go:192-202 | From every reachable stopped state some schedule drains the queue, and then every item was called back once, in order |
| VerifierThroughput.ThroughputBounded | node/verifier.go:114-137 | Before stop, any interval sees at most (span / window + 1) * max(cap, largest item) attestations start |
| VerifierObject.BatchEndLoop | node/verifier.go:159-171 | The accumulating loop computes BatchEnd |
| VerifierObject.BatchDelay | node/verifier.go:174-182 | The summing loop sleeps the base delay drawn for the batch plus perItem for each of its attestations |
| VerifierObject.BatchVerifier.Submit | node/verifier.go:71-81 | In place, appends the item and leaves one pending notify |
| VerifierObject.BatchVerifier.Stop | node/verifier.go:192-202 | In place, the stop step |
| VerifierObject.BatchVerifier.Receive | node/verifier.go:99-103 | In place, the wake-up step |
| VerifierObject.BatchVerifier.TakeBatch | node/verifier.go:105-127 | In place, the first critical section |
| VerifierObject.BatchVerifier.BeginBatch | node/verifier.go:129-137 | In place, the exit, the idle turn or the batch start |
| VerifierObject.BatchVerifier.CallBack | node/verifier.go:184-188 | In place, one callback |
| VerifierObject.BatchVerifier.Recheck | node/verifier.go:138-141 | In place, the second critical section |
| VerifierObject.BatchVerifier.Loop | node/verifier.go:142-153 | In place, the exit or the re-signal |
| ColumnVerifier.Makespan | node/column_verifier.go:21-35 | Never more than P in service; the i-th to start finishes at (i / P + 1) * s; the burst clears at ceil(c / P) * s |
| ColumnVerifier.FinishIsRound | node/column_verifier.go:31-35 | Every finish time is its round's |
| ColumnVerifier.BurstProgresses | node/column_verifier.go:31-35 | An unfinished burst is never stuck |
| ColumnVerifier.RunKeepsInv | node/column_verifier.go:31-35 | Every order of acquiring, sleeping and releasing keeps the schedule |
| ColumnVerifier.Server.Enter | node/column_verifier.go:31-33 | A send on the channel raises its occupancy, sets the wake-up, and keeps the server on the burst's schedule |
| ColumnVerifier.Server.Leave | node/column_verifier.go:34-35 | A wake-up and receive lower the occupancy and keep the schedule |
| ColumnVerifier.Server.WakesAtRoundEnds | node/column_verifier.go:31-35 | Whenever the server is used this way its occupancy is within the width, and whoever got in i-th sleeps until (i / P + 1) * s |
| VoteClaim.GatedVoteIsThePureRule | driver/runner.go:1202-1251 | Exactly one gated vote; for the block iff block and custody were in by deadline - prep before the deadline was handled, then at the first instant they both were plus prep and with the origin of the first block, received or own; otherwise for the prior head at the deadline |
| VoteClaim.GatedVoteOverTheWholeRun | driver/coupling.go:11-18 | Read off the whole run the pure rule gives the vote if and only if nothing handled from the deadline step on completes readiness by deadline - prep |
| VoteClaim.TieAfterDeadlineVotesPrior | driver/runner.go:1299-1306 | A block at the deadline instant handled after the deadline step still votes for the prior head |
| VoteClaim.CustodyTracked | driver/runner.go:1168-1188 | When only custody columns arrive the count is full exactly when every custody column is in, at the instant the last one came |
| VoteClaim.ForeignColumnOpensTheGate | driver/runner.go:1180 | Completion is a count: a column outside custody would stand in for a missing one |
| VoteClaim.ClaimedBeforeDeadline | driver/runner.go:1227-1251 | Before the deadline the vote is claimed exactly when ready in time, and then once |
| VoteClaim.BlockVoteImpliesHeadVote | driver/runner.go:1271-1285 | A node that attests and syncs and votes block on its attestation votes head on its sync message |
| VoteClaim.SyncVoteIsThePureRule | driver/runner.go:1271-1320 | Exactly one sync vote; for the head iff a block was in by deadline - prep before the deadline was handled, whatever the columns did, then at the first block's instant plus prep and with its origin; otherwise for the prior head at the deadline |
| VoteClaim.OffNeverVotes | driver/runner.go:1299-1320 | A vote whose duty is off is never cast, on any run |
| VoteClaim.EPBSVotesAsWithoutColumns | driver/runner.go:473-495 | Under ePBS the gated vote is that of the same run on a node with no custody columns |
| VoteClaim.PTCVoteIsExact | driver/runner.go:1417-1435 | Over a whole run a PTC vote is cast at most once: exactly if a block was seen before its deadline, and it says present exactly when payload and every custody column were seen |
| VoteClaim.SlotState.TryEarly | driver/runner.go:1227-1251 | In place, the early claim of the gated vote |
| VoteClaim.SlotState.TrySync | driver/runner.go:1271-1285 | In place, the early claim of the sync vote |
| VoteClaim.SlotState.BlockProcessed | driver/runner.go:1148-1163 | In place, the block handler |
| VoteClaim.SlotState.PublishOwnBlock | driver/runner.go:1066-1086 | In place, the proposer's own block, which completes its custody |
| VoteClaim.SlotState.ColumnProcessed | driver/runner.go:1168-1188 | In place, the column handler |
| VoteClaim.SlotState.PayloadProcessed | driver/runner.go:1192-1198 | In place, the payload handler |
| VoteClaim.SlotState.BlockDeadline | driver/runner.go:1299-1320 | In place, the deadline handler |
| VoteClaim.SlotState.EmitPTC | driver/runner.go:1417-1435 | In place, the PTC emission |
| FinalityTeardown.TeardownSparesLiveRounds | driver/runner.go:988-1017 | For any number of rounds in any order of steps, a round joined and not torn down keeps every topic and peer, and own topics and stable peers are never lost |
| FinalityTeardown.OrderlyRunsEndStable | driver/runner.go:1027-1058 | If each round joins before its teardown and is reaped before the next teardown, the final topics and peers are the stable ones |
| FinalityTeardown.LeakExactlyWhen | driver/runner.go:988-1017 | A teardown leaves something no round still to be torn down accounts for exactly when it spares what only torn-down, unreaped rounds list |
| FinalityTeardown.LeakLastsUntilListed | driver/runner.go:988-1017 | Along every continuation in which no round listing it is registered, what was left behind stays |
| FinalityTeardown.LaterRoundReleases | driver/runner.go:988-1017 | Once a round listing it is registered, that round's own teardown, whatever comes before it, releases it exactly if no other live round lists it then |
| FinalityTeardown.ThirdRoundReleasesTheLeak | driver/runner.go:988-1017 | After the leaking run a third round on the topic ends with the stable topics |
| FinalityTeardown.OverlappingTeardownsLeak | driver/runner.go:988-1017 | Two rounds on one topic, each torn down before either is reaped, leak it |
| FinalityTeardown.StepKeepsInv | driver/runner.go:847-869 | Every register, join, drop and reap keeps what live rounds set up |
| FinalityTeardown.TeardownIsExact | driver/runner.go:988-1017 | A round's first teardown takes away exactly what it lists and no other live round does; a second one takes nothing |
| FinalityRounds.RoundLifecycle | driver/runner.go:673-783 | Each round is pre-joined once, armed once and reaped once in that order, for every K and run length |
| FinalityRounds.SubRoundsAreOneSlotRounds | driver/runner.go:730-783 | The segregated path kicks the same rounds in the same order as the base path with one slot to a round |
| FinalityRounds.RoundStartsInRun | schedule/schedule.go:353-365 | The plan's rounds are exactly those that start within the run |
| FinalityRounds.ClockDrivenRunsEndStable | driver/runner.go:1027-1058 | Any interleaving the slot clock allows keeps live rounds intact and ends stable |
| FinalityRounds.ClockDrivenIsOrderly | driver/runner.go:1027-1038 | The slot clock drives only orderly runs of the teardown machine |
| FinalityRounds.DialTwo | driver/runner.go:812-828 | At most two new peers, never itself, a stable or an already picked one; fewer only when no other member is left |
| FinalityRounds.ForeignSubnets | driver/runner.go:829-834 | The foreign duty subnets, each once |
| FinalityRounds.DialAll | driver/runner.go:835-841 | No peer is dialed twice and every subnet ends with two picked members or none left to pick |
| FinalityRounds.PlanPrejoin | driver/runner.go:804-869 | The pre-join never lists the own topic, itself or a stable peer, and serves every foreign duty and aggregated subnet |
| FinalityRounds.SplitVotes | driver/runner.go:930-953 | The partial burst sends every duty once: own positions locally, the others as one fan-out batch per foreign subnet, in duty order |
| FinalityAggregates.FinalityAggregations | schedule/schedule.go:412-434 | The loops compute a node's aggregation duties: exactly the subnets drawn with one of its validators, each once, ascending |
| FinalityAggregates.AggregatedExact | schedule/schedule.go:412-434 | Those duties are exactly the plan's draws for the node |
| FinalityAggregates.FinalityAggregatePublished | analysis/check_arrivals.py:859-876 | The checker's published set is exactly the union of all nodes' duties over all rounds |
| FinalityPublished.VoteSentOnce | driver/runner.go:906-953 | On every run to the close, over either transport, a node sends the vote of a validator in its round exactly once if it hosts it and never otherwise, provided the vote instant comes before the close; after the close it is not sent |
| FinalityPublished.NetworkSendsEachVoteOnce | driver/runner.go:906-953 | Over all nodes, whatever their interleavings, each validator's vote of a round is sent exactly once when its instant comes before the close |
| FinalityPublished.OnlyDutiesAreSent | driver/runner.go:906-953 | Every message, local vote and fan-out position of a run names a duty of the node in that round |
| FinalityPublished.AggregatePublishedOnce | driver/runner.go:961-973 | On every run an aggregate is published at most once, only if drawn for the node and due by the close, and surely if due before it |
| FinalityPublished.NodePublishesExpectedIff | driver/runner.go:701-711 | On every run a node publishes exactly the aggregates the plan draws for it, if and only if no round is cut short, or the slots run and the drain reach past that round's deadline, or it draws no aggregator on the node |
| FinalityPublished.NetworkPublishesExpectedIff | analysis/check_arrivals.py:859-876 | Over the network the published aggregates are the checker's set on every run, if and only if no round is cut short, or the slots run and the drain reach past its deadline, or its boundary slot draws no aggregator |
| FinalityPublished.CutShortLosesAnAggregate | driver/driver.go:186-197 | Five slots, four to a round, at 90 percent: the second round's drawn aggregate is published on no run |
| FinalityPublished.CutShortPublishesInTheDrain | driver/driver.go:186-197 | The same plan at 40 percent: the round is cut short before its deadline and still publishes, in the drain |
| FinalityPublished.CompleteRunExists | driver/runner.go:400-408 | From the start every setup can run to its close, also closing ahead of a timer due at the same instant |
| FinalityPublished.EmitFinalityVotes | driver/runner.go:906-953 | The burst loops send Burst over either transport, for some iteration order of the fan-out map |
| FinalityPublished.EmitFinalityAggregate | driver/runner.go:961-973 | The loop sends one aggregate per aggregated subnet |
| FinalityRun.RunKeepsInv | driver/runner.go:673-783 | Every interleaving of slot starts and ends, pre-joins, timers and the close keeps each round's duties, its timers at their instants, and the logs at one burst per fired timer |
| FinalityRun.DueInsideRound | driver/runner.go:693-702 | Both timers of a round are due before the round ends, the votes first |
| FinalityRun.TimersFireAtTheirInstants | driver/runner.go:693-711 | On every run and in both modes the vote burst of round n fires, once, exactly the vote offset after n round lengths, and its aggregation exactly the configured share of a round length after them |
| FinalityRun.EndKeepsRound | driver/runner.go:1027-1058 | A reap finds both timers of its round already fired, so stopping them changes nothing |
| Hosting.HostScan | schedule/position.go:96-114 | The scan computes HostOf |
| Hosting.HostOfIsTheRange | schedule/position.go:96-114 | The scan answers a node exactly when its contiguous range holds the id, and -1 when none does |
| Hosting.UniformHostIsRoundRobin | schedule/position.go:96-114 | Without counts the host is the node a whole number of rounds below the id, and -1 exactly for a negative id or no nodes |
| Hosting.Accumulate | simctl/schedule.py:406 | The bounds are the prefix sums |
| Hosting.BisectRight | simctl/schedule.py:401-407 | The binary search returns the insertion point after equal entries |
| Hosting.NodeOf | simctl/schedule.py:401-407 | The generator's lookup agrees with HostOf exactly on the ids in range |
| Hosting.HostTable | analysis/check_arrivals.py:782-799 | The repeated host list names the range's node for every id |
| Hosting.RulesAgree | analysis/check_arrivals.py:782-799 | Scan, search and table are one rule on every id in range, zeros included |
| Positions.RankRoundTrip | schedule/position.go:20-46 | val to position to val is the identity, and the position fits the committee width |
| Positions.PositionRoundTrip | schedule/position.go:59-80 | position to val to position is the identity on every cell |
| Positions.CellsPartition | schedule/position.go:20-46 | The cells partition the validators |
| Positions.CellAscends | schedule/position.go:20-46 | Cells are ascending |
| Positions.RankCounts | schedule/position.go:20-46 | A position is the number of lower ids drawn to the same subnet and, under segregation, the same round |
| Positions.RankTables.Ranks | schedule/position.go:20-46 | The table-filling loop computes every cell and every rank |
| Positions.RankTables.FinalityPosition | schedule/position.go:59-66 | The lookup is the rank, -1 outside the plan |
| Positions.RankTables.FinalityValAt | schedule/position.go:70-80 | The lookup is the validator at that rank, -1 when there is none |
| Positions.RankTables.FinalityCellSize | schedule/position.go:84-90 | The lookup is the size of the cell |
| Positions.FinalityVoteDuties | schedule/schedule.go:376-403 | The loops compute the node's duties in both hosting modes |
| Positions.DutiesExact | schedule/schedule.go:376-403 | A node owes a vote for exactly the validators it hosts that vote in the round, at the drawn subnet and rank |
| Positions.DutiesAreDrawn | schedule/schedule.go:376-403 | The same off the plan's fields: hosted, in its drawn round modulo k under segregation and any round otherwise, on its drawn subnet, at the count of lower ids in its cell |
| Positions.OneVotePerRound | schedule/schedule.go:376-403 | Over all nodes each validator votes once per base round, and under segregation once in its own round only |
| Positions.OneVotePerCycle | schedule/schedule.go:376-403 | Any k consecutive segregated rounds hold exactly one vote of every validator |
| Positions.CountCells | simctl/schedule.py:307-321 | The counting loops count the validators of each subnet and of each (round, subnet) |
| Positions.CellsSumToSubnet | simctl/schedule.py:307-321 | Round cells of a subnet sum to its count |
| Positions.SubnetsSumToAll | simctl/schedule.py:307-310 | Subnet counts sum to V |
| Positions.FinalityIdentityAgrees | driver/partial.go:60-74 | For every duty in either mode the resolver recovers exactly its validator and node from the wire position, which fits the width |
| Positions.FinalityIdentityOnto | driver/partial.go:50-74 | Every position below the width names a hosted validator of the round at that position |
| Positions.AttestationIdentityAgrees | driver/partial.go:38-74 | A committee seat's position recovers its validator and node |
| Positions.OtherwiseNobody | driver/partial.go:50-74 | A position outside the width, one no seat has, an unknown subnet or slot and every other kind name nobody |
| PlanDraws.SubnetSubscribers | simctl/schedule.py:447-463 | Every node is on at least min(perNode, C) subnets, every subnet has at least min(floor, N) nodes, and only subnets under the floor are topped up, exactly to it |
| PlanDraws.ColumnSubscribers | simctl/schedule.py:423-444 | The backbone holds every column, every other node its custody floor, and only thin columns are topped up, exactly to the floor |
| PlanDraws.SyncSubscribers | simctl/schedule.py:466-475 | The members are dealt round-robin |
| PlanDraws.SyncIsEven | simctl/schedule.py:466-475 | Every sync subnet gets exactly its round-robin share |
| PlanDraws.SyncOnOneSubnet | simctl/schedule.py:466-475 | A member is on the subnet of its index and on no other |
| PlanDraws.FinalitySubscribers | simctl/schedule.py:478-487 | Finality membership partitions all N nodes |
| PlanDraws.CustodyColumns | schedule/schedule.go:280-290 | A node's custody columns are exactly those whose subscriber list it is on, by either branch, ascending |
| PlanDraws.SlotCommittees | simctl/schedule.py:523-533 | Committees are the sample cut into runs, one per subnet, seats numbered in order and hosted by node_of |
| PlanDraws.SeatsAreDistinct | simctl/schedule.py:523-531 | Distinct seats come from distinct places of the sample |
| PlanDraws.AttestDuties | schedule/schedule.go:314-321 | A node's attestation duties are exactly its seats |
| Graph.Network.Add | netsim/graph.go:23-30 | Adds one edge both ways unless it is a loop or present; lists and sets keep agreeing |
| Graph.Network.RandomTree | netsim/graph.go:35-39 | Whatever is drawn, the group becomes connected through internal edges |
| Graph.Network.Fill | netsim/graph.go:43-49 | Whatever is drawn the graph stays simple and only grows, and every node ends with the degree or with exactly all its tries drawn, each draw a link of it now |
| Graph.Network.CountInGroup | netsim/graph.go:61-66 | The counter starts at the true in-group degree |
| Graph.Network.TopUp | netsim/graph.go:67-74 | The counter is the true in-group degree throughout; a turn ends at the target, or with exactly all its tries drawn inside the group, each a link now |
| Graph.Network.GroupFill | netsim/graph.go:54-76 | Only edges inside the group are added, and every member ends with its target of co-member links or with exactly all its tries drawn, each a link now |
| Graph.Network.Trees | netsim/subnet.go:51-65 | Every group becomes connected through internal edges and earlier ones stay so; finality groups also have every member's turn |
| Graph.Discv5Graph | netsim/subnet.go:40-68 | For all draws the graph is simple with agreeing representations, connected, and every subnet, column, sync and finality group is connected on its own; every finality member has min(12, size - 1) co-member links and every node min(degree, n - 1) links, unless exactly all the tries of its turn were drawn and linked |
| Graph.AttachKeepsConnected | netsim/graph.go:35-39 | Attaching one member to any earlier one keeps the group in one piece |
| Graph.FloodReachesAll | netsim/subnet.go:48-65 | A message passed on over every internal edge of a connected group reaches all of it |
| Checker.CountingDecides | analysis/check_arrivals.py:111-137 | With nothing missing and nothing repeated, equal totals hold exactly when arrivals are the expected receipts, each once |
| Checker.VerdictIsExact | analysis/check_arrivals.py:106-108 | The verdict from counts is exact delivery with multiplicity one |
| Checker.Analyze | analysis/check_arrivals.py:111-137 | The block check passes iff in the log every published block reached each node but its origin exactly once, no other reception of the kind is there, and every origin is among the nodes |
| Checker.ForeignOriginFails | analysis/check_arrivals.py:111-137 | One foreign origin fails a perfect delivery |
| Checker.AnalyzeAttestations | analysis/check_arrivals.py:180-276 | The attestation and column checks pass iff the log holds exactly one arrival of each published message at each subscriber of its subnet but its origin, and no other arrival of the kind |
| Checker.Tally | analysis/check_arrivals.py:480-487 | Counts and duplicates are those of the arrivals |
| Checker.GlobalResult | analysis/check_arrivals.py:467-651 | The aggregate, contribution, AC and PTC checks pass iff each of the n nodes but the publisher got each published message exactly once and nothing else came |
| Checker.AggregatorHosts | analysis/check_arrivals.py:701-733 | The aggregator hosts per round and subnet are those the plan draws |
| Checker.AnalyzeFinalityVotes | analysis/check_arrivals.py:736-779 | The finality-vote check passes iff in the log each required receiver but the origin has each published vote exactly once and no other, and every other arrival is at an allowed receiver |
| Checker.AnalyzePlanVotes | analysis/check_arrivals.py:701-779 | Over a plan the check passes iff in the log each vote arrived once at every stable member and every host drawn for its round but its publisher, and every other arrival is at a host of the next segregated round |

## Left out

- VerifierStop.StopDrains: liveness is stated as a bound on loop steps for every schedule together with a schedule that drains from every state; fairness of the goroutine scheduler itself is not modelled.
- PartialRecovery.Recovery: the conversation is between two managers that know only each other, as the peer-state maps of a larger neighbourhood would share the same budgets; the verifier is drained rather than stopped half-way.
- PartialManagerObject.PartialNode.PublishActions: peer states belong to the pubsub library and are passed in and returned; the topic map and its group maps are one map keyed by kind, subnet and group; group scalars kind and subnet live in the key.
- PartialManagerObject.PartialNode.MarkValidated: the arrival carries kind, subnet, group and position; that these name the right validator and origin is proved separately (Positions.FinalityIdentityAgrees, Positions.AttestationIdentityAgrees).
- Graph.Network.Fill: no degree is guaranteed beyond "reached, or all tries spent", because the source's tries are bounded and every draw may repeat.
- VerifierObject.BatchVerifier.Stop: the wait for the loop's exit is not part of the method; that the loop exits is VerifierStop.
- FinalityRun.RunKeepsInv: pre-joins finish within their slot and timers fire at their instants; seal and drop timers are in FinalityTeardown and PartialRuns, not here; a timer due at the very instant of the close may go either way.
- PartialSafety.StepKeepsInv: a local vote's position is within its committee, as every duty's is; what the bitmap library does with a position outside it is not part of this model.
- PartialNetwork.BeliefSoundness: no pruning, as a pruned receiver forgets what it held.
- Identities shared across fork buckets of one group: arrivals are at most once per bucket, by design of the source.
- The tick loop's timer, jitter and sorted publish order, and the library's mesh, fanout and peer-state TTL rules.
- Protobuf encoding beyond well-formed or garbled; envelope builders and message sizes.
- The fine-grained race inside dropFinality between its locked read and its network calls; Subscribe, Unsubscribe, Dial and Disconnect are idempotent set operations, and joined-only topics (publish without subscribing) are not tracked.
- Wall-clock delays, verification-delay draws, service-time distributions and all floating-point parameters, with the percentile and lag reports built on them.
- Per-slot dialing for attestation duties, aggregate, contribution and availability-vote payloads, which repeat the emission pattern already modelled.
- The CSV variants of the checkers, which re-state the same counting rule over files, and report sorting, printing and loading.
- Availability-voter, PTC and aggregator draws of the plan generator, and per-node view fields that copy plan fields.
- Configuration, process control, simnet and libp2p hosts, and the topology builder that repeats the graph theorem.
