# Verified models of polkadot-sdk protocol code

This project models four state machines of the repository and proves what they promise over whole runs:

1. **Bridge message lanes** (`bridges/modules/messages`). Two chains, each with one end of a lane. A relayer
   delivers messages with proofs of any past state of the sending end, and confirms deliveries with proofs of
   any past state of the receiving end. `LaneTypes`, `RelayerQueue`, `RelayerRewards`, `InboundLanes`,
   `OutboundLanes` and `MessagesPallet` model the code and `DeliveryBudget` proves when a delivery succeeds; `LaneProtocol` proves what holds in every run of send,
   deliver and confirm steps and `LaneCompletion` that every run can be completed; `Bridge` proves that the pallet
   calls on the storage of two chains are such a run, and that any number of lanes between them run independently.
2. **GRANDPA and BEEFY light clients** (`bridges/modules/grandpa`, `bridges/modules/beefy`): `GrandpaPallet`,
   `GrandpaRuns`, `BeefyQuorum`, `BeefyPallet`, `BeefyRuns`, and `RingBuffer` for the pruning scheme both use.
3. **The statement table** of parachain backing (`polkadot/statement-table`): `StatementTable`,
   `StatementRuns`, `VoteRecords`, `ReportSoundness`, `MisbehaviorDrain`, and `TableLife` for a table that is drained every now and
   then.
4. **XCM decoding limits** (`polkadot/xcm`): `XcmDecode`.

Each operation that updates state is a method of a class with the source's fields. Its postcondition gives the
new state as a function of the old one, and the properties are proved about runs of those functions. Checks made
by foreign code (signatures, hashes, Merkle, MMR and storage proofs, GRANDPA justifications, message dispatch) are
function-valued parameters about which nothing is assumed, except that a lemma says so when it needs an injective
digest, header hash or key root.

Verify the whole project with `dafny verify dfyconfig.toml`.

## The main results

- **Lanes.** The messages dispatched are, one by one, a prefix of the messages sent (`ExactlyOnceInOrder`). A
  delivery succeeds exactly when its budget covers each message in its turn (`DeliverySucceedsIff`). An honest delivery
  proof is never refused, however stale (`HonestConfirmationAccepted`). Confirmed ranges are
  consecutive and cover exactly the confirmed nonces, and each nonce is credited once, to the relayer that
  delivered it (`SettlementIsExact`, `PaidExactlyOnce`). The relayer queue is the unique run-length form of the
  list of deliverers (`QueueIsCanonical`, `RepresentsIffEncode`). Every run has a continuation after which
  everything sent is dispatched and every relayer is paid (`EveryRunCompletes`), unless a limit is zero
  (`NoRoomNoDelivery`).
- **Light clients.** Every import was verified by the set that the latest earlier change put in charge
  (`GrandpaRuns.ChainOfTrust`, `BeefyRuns.ChainOfTrust`). The stored entries are exactly the last ones imported
  (`LastHeadersAreKept`, `LastCommitmentsAreKept`). The free-import budget, its spacing and the request limit hold
  over whole runs. Two commitments imported under one id of a set that is not empty share more than a third of their
  signers (`CommonSigners`).
- **Statement table.** What is on record after any imports: the first accepted proposal decides a candidate's group
  and the first admitted statement an authority's vote (`RunRecordsFirst`); which import orders agree
  (`ConfluenceIff`); over the whole life of a table, with any number of drains in between, every report comes out
  exactly once and in order (`LifeAgrees`), and exactly those are reported who offended or proposed a candidate of
  another group (`LifeReports`); backing thresholds count real, distinct group members (`AttestedIsBacked`).
- **XCM.** The counter-based decoder accepts exactly the values within the limits, stated without counters
  (`AcceptedIff`), and names a limit that is really exceeded otherwise.

Six promises turn out to need a condition. Each has an input that shows it, and the exact condition is proved:

- Confirming a delivery again is a no-op except at the largest 64-bit nonce, where saturating arithmetic makes the
  last range non-empty again and its relayer is paid again (`LastNonceIsConfirmedTwice`, `LastNonceIsPaidTwice`;
  exactly when: `ReconfirmIsNoopIff`).
- With no free-header interval configured, the transaction extension lets requests for free execution through that
  the call then charges for (`ExtensionMayMislead`; exactly when: `ExtensionAcceptsIff`).
- If one candidate is proposed in two groups, an authority that stayed in its own group and made a single statement
  can be reported (`IncoherentReportMisnames`; exactly when only offenders are: `ReportsOffendersIff`).
- In that case the report also names a statement that was never made (`IncoherentReportMisnames`; exactly when all
  reports are sound: `ReportsSoundIff`).
- An import was signed by more than two thirds of its validators, unless the set in charge is empty: an announced
  empty set is accepted, and then a commitment without any signature is (`EmptySetNeedsNoSignature`; exactly when:
  `MajorityIff`).
- A forced header whose slot is being reused is dropped by its own insertion (`ForcedAgainIsLost`; exactly when:
  `ForcedHeaderIsKeptIff`). Imports with strictly growing numbers exclude it.

Where a comment and the code differ, the model follows the code. The storage check of outbound lanes looks at
seventeen nonces, since its range includes both ends, although its constant says sixteen. An outbound lane state that
does not decode makes a messages proof fail, although a comment says that such errors are ignored.

## Model

| member | source | states |
|---|---|---|
| `RelayerQueue.RepresentsIffEncode` | bridges/modules/messages/src/inbound_lane.rs:192-226 | a queue of relayer entries stands for a per-nonce list of deliverers if and only if it is its canonical run-length form: contiguous, no empty entry, neighbours by different relayers |
| `RelayerQueue.DeliveredAppends` | bridges/modules/messages/src/inbound_lane.rs:208-226 | extending the last entry or pushing a new one appends exactly one deliverer to the list |
| `RelayerQueue.ConfirmDropsPrefix` | bridges/modules/messages/src/inbound_lane.rs:163-180 | popping confirmed entries and trimming the front one drops exactly the confirmed prefix of the list, wherever entry boundaries fall |
| `RelayerRewards.CalcRelayersRewards` | bridges/primitives/messages/src/lib.rs:507-527 | the loop gives each relayer the saturated sum of its overlaps with the confirmed range, and only relayers with a positive share |
| `RelayerRewards.TotalRewardIsCount` | bridges/primitives/messages/src/lib.rs:507-527 | for a canonical queue that sum is the number of nonces in the range which the relayer delivered, also when the queue covers older, already rewarded nonces |
| `InboundLanes.StateUpdateDropsPrefix` | bridges/modules/messages/src/inbound_lane.rs:145-183 | a state update either drops the confirmed prefix of the deliverers or does nothing, exactly when it brings no news or claims an undelivered nonce; the last delivered nonce never changes |
| `InboundLanes.ReceivedAppends` | bridges/modules/messages/src/inbound_lane.rs:186-229 | a dispatched message is the next nonce and appends its deliverer; any other verdict changes nothing |
| `InboundLanes.ReceivedKeepsLimits` | bridges/modules/messages/src/inbound_lane.rs:197-206 | dispatching keeps both the entry limit and the unconfirmed-message limit |
| `InboundLanes.VerdictIs` | bridges/modules/messages/src/inbound_lane.rs:192-206 | which message gets which verdict, in terms of who delivered the unconfirmed nonces: next nonce, room for an entry and room for a message, in this order |
| `InboundLanes.RelayersStateIs` | bridges/primitives/messages/src/lib.rs:425-460 | the declared summary of a queue: number of runs, length of the first run, number of messages and last delivered nonce of the list |
| `InboundLanes.InboundLane.Active` | bridges/modules/messages/src/lanes_manager.rs:144-177 | a lane is returned exactly when it exists, is open and its dispatcher is active; each failure has its own error |
| `InboundLanes.InboundLane.SetData` | bridges/modules/messages/src/lanes_manager.rs:217-220 | the cached copy and the storage map change together and nothing else does |
| `InboundLanes.InboundLane.ReceiveStateUpdate` | bridges/modules/messages/src/inbound_lane.rs:145-183 | the popping loop and front trim leave the lane as `StateUpdated` says, in cache and storage, and report the nonce if it was news |
| `InboundLanes.InboundLane.ReceiveMessage` | bridges/modules/messages/src/inbound_lane.rs:186-229 | verdict, new lane data and dispatch log after one message; a message is dispatched if and only if the verdict says so |
| `OutboundLanes.EnsureUnrewardedRelayersAreCorrect` | bridges/modules/messages/src/outbound_lane.rs:197-222 | the loop returns the complaint about the first offending entry |
| `OutboundLanes.NoComplaintIff` | bridges/modules/messages/src/outbound_lane.rs:197-222 | there is no complaint if and only if the entries are non-empty, follow each other without a gap and stay within the latest nonce |
| `OutboundLanes.ComplaintIsFirst` | bridges/modules/messages/src/outbound_lane.rs:197-222 | a complaint is the one about the first entry that is empty, does not follow its predecessor or lies in the future |
| `OutboundLanes.EncodeHasNoComplaint` | bridges/modules/messages/src/outbound_lane.rs:197-222 | the queue the receiving end keeps is never complained about |
| `OutboundLanes.SentCounts` | bridges/modules/messages/src/outbound_lane.rs:121-130 | sending counts modulo 2 to the 64th and touches nothing else |
| `OutboundLanes.ConfirmOutcomeIs` | bridges/modules/messages/src/outbound_lane.rs:133-177 | for any declared queue: the nonces after the latest confirmed one are confirmed if and only if there are any, all were sent, they are no more than allowed and the queue is gap-free; each refusal has its condition |
| `OutboundLanes.ReconfirmIsNoopIff` | bridges/modules/messages/src/outbound_lane.rs:140-176 | confirming the same delivery again confirms nothing if and only if its nonce is below the 64-bit maximum |
| `OutboundLanes.LastNonceIsConfirmedTwice` | bridges/modules/messages/src/outbound_lane.rs:140-176 | an input at the 64-bit maximum for which the same range is confirmed twice |
| `OutboundLanes.OutboundLane.SetData` | bridges/modules/messages/src/lanes_manager.rs:260-263 | the cached copy and the storage map change together |
| `OutboundLanes.OutboundLane.SendMessage` | bridges/modules/messages/src/outbound_lane.rs:121-130 | the next nonce is used, wrapping in 64 bits, the payload is stored under it and no other message changes |
| `OutboundLanes.OutboundLane.ConfirmDelivery` | bridges/modules/messages/src/outbound_lane.rs:133-177 | outcome, new lane data, and that exactly the messages of the confirmed range are pruned, of this lane only; an error changes nothing |
| `MessagesPallet.VerifyMessagesProof` | bridges/modules/messages/src/proofs.rs:46-102 | the loop over the nonce range yields exactly the proven payloads with their nonces; each of the six errors is returned in the order of the checks |
| `MessagesPallet.DeliverMessages` | bridges/modules/messages/src/lib.rs:286-332 | the delivery loop with its weight accounting is the fold of single deliveries, and it fails exactly when that does |
| `MessagesPallet.ReceiveMessagesProof` | bridges/modules/messages/src/lib.rs:214-354 | error order, new lane data and dispatch log of the whole call; a failed call leaves no trace |
| `MessagesPallet.DeliveryClosedForm` | bridges/modules/messages/src/lib.rs:286-332 | a successful loop over contiguous nonces from one relayer dispatches exactly as many as are new and as both limits leave room for, one if its new entry fills the queue |
| `MessagesPallet.DeliveryIsClosedForm` | bridges/modules/messages/src/lib.rs:286-332 | the whole result of such a loop in closed form: exactly the bundled messages from the first undelivered nonce on, in order and unaltered, and the run-length form of the longer list of deliverers |
| `MessagesPallet.DeliveryUnderway` | bridges/modules/messages/src/lib.rs:286-332 | what was dispatched carries the next nonces in order and comes from the bundle, and the queue describes it |
| `MessagesPallet.WeightIsConserved` | bridges/modules/messages/src/lib.rs:286-332 | weight spent on dispatch plus weight left is the declared budget in both components, and the actual weight is reduced by what was refunded |
| `MessagesPallet.ReceiveMessagesDeliveryProof` | bridges/modules/messages/src/lib.rs:362-411 | error order; on success the confirmed range is settled, pruned and paid; otherwise nothing changes |
| `DeliveryBudget.LoopSucceedsIff` | bridges/modules/messages/src/lib.rs:286-332 | the loop succeeds if and only if each message, in its turn, weighs no more than the budget less what the messages dispatched before it used up |
| `DeliveryBudget.FullBudgetSuffices` | bridges/modules/messages/src/lib.rs:286-332 | a budget for the full weight of the bundle is always enough |
| `DeliveryBudget.TakenIsSlice` | bridges/modules/messages/src/lib.rs:286-332 | what the lane takes of a contiguous bundle, whatever it weighs, is the part that is new and has room |
| `DeliveryBudget.ProofAcceptedIff` | bridges/modules/messages/src/proofs.rs:46-102 | a proof is accepted if and only if its header is known, it opens exactly the stored messages of the declared range, its lane state decodes and it is not empty; and what it then yields |
| `DeliveryBudget.ProofRefusals` | bridges/modules/messages/src/proofs.rs:46-102 | which error a refused proof gets |
| `DeliveryBudget.CallSucceedsIff` | bridges/modules/messages/src/lib.rs:214-332 | the whole call on an active lane succeeds if and only if it declares few enough messages, its proof is accepted and its budget suffices; otherwise which error it gets |
| `DeliveryBudget.CallCharges` | bridges/modules/messages/src/lib.rs:236-332 | the weight charged: the declared one, less the proof bytes that the queue does not need, less everything the bundle was weighed at and did not use |
| `MessagesPallet.LastNonceIsPaidTwice` | bridges/modules/messages/src/lib.rs:362-411 | at the 64-bit maximum the same delivery proof makes two calls pay its relayer |
| `LaneProtocol.StateUpdateFromSnapshot` | bridges/modules/messages/src/inbound_lane.rs:145-160 | no past state of the sending end claims an undelivered nonce: the branch that should never happen is unreachable |
| `LaneProtocol.ConfirmationNeverFails` | bridges/modules/messages/src/outbound_lane.rs:133-177 | a proof of any past state of the receiving end, declared truthfully, confirms everything up to that state or brings nothing new; none of the four errors occurs |
| `LaneProtocol.ApplyKeeps` | bridges/modules/messages/src/lib.rs:214-446 | every send, deliver and confirm step keeps the joint invariant of both ends and all past states |
| `LaneProtocol.RunKeeps` | bridges/modules/messages/src/lib.rs:214-446 | the invariant holds in every run |
| `LaneProtocol.ExactlyOnceInOrder` | bridges/modules/messages/src/inbound_lane.rs:186-229 | dispatched messages are a prefix of sent ones, nonce by nonce: no duplicate, gap, reordering or altered payload |
| `LaneProtocol.CountersOrdered` | bridges/modules/messages/src/inbound_lane.rs:145-183 | confirmed at the target, received at the source, delivered, generated: ordered now and against every past state of the other end |
| `LaneProtocol.QueueIsCanonical` | bridges/modules/messages/src/inbound_lane.rs:149-226 | the relayer queue is the run-length form of the deliverers of the unconfirmed nonces, within both limits |
| `LaneProtocol.StorageIsExact` | bridges/modules/messages/src/outbound_lane.rs:121-177 | the stored messages are exactly the unconfirmed ones, with the payloads sent |
| `LaneProtocol.HonestConfirmationAccepted` | bridges/modules/messages/src/lib.rs:381-395 | in every run, a truthful proof of any past state is accepted |
| `LaneProtocol.SettlementIsExact` | bridges/modules/messages/src/lib.rs:389-411 | confirmed ranges are consecutive and cover 1 to the latest received nonce; each nonce lies in exactly one entry of the queue that paid for it, an entry of its real deliverer |
| `LaneProtocol.PaidExactlyOnce` | bridges/modules/messages/src/lib.rs:397-411 | over the run each relayer is paid once per confirmed message it delivered |
| `LaneProtocol.NextIsDelivered` | bridges/modules/messages/src/inbound_lane.rs:186-229 | once everything delivered is confirmed, the next message can be delivered |
| `LaneProtocol.LaneNeverStuck` | bridges/modules/messages/src/inbound_lane.rs:145-229 | from every reachable state with an undelivered message, a confirmation and a delivery dispatch one more, however full the queue is |
| `LaneCompletion.DeliveryIsExact` | bridges/modules/messages/src/lib.rs:214-354 | in every run a successful delivery dispatches exactly the new part of its bundle that the limits leave room for, in order, and spent plus left weight is the declared budget in both components |
| `LaneCompletion.DeliverySucceedsIff` | bridges/modules/messages/src/lib.rs:214-354 | in every run a delivery succeeds if and only if it declares few enough messages, its proof is accepted and its budget covers each message on top of the new ones with room before it |
| `LaneCompletion.HonestDeliveryAccepted` | bridges/modules/messages/src/lib.rs:214-354 | in every run, any messages that some past state of the source still stored can be delivered with a proof of that state and a budget for their weight |
| `LaneCompletion.EveryRunCompletes` | bridges/modules/messages/src/inbound_lane.rs:145-229 | every run has a continuation without sends after which everything sent is dispatched in order and every relayer is paid for each message it delivered |
| `LaneCompletion.NoRoomNoDelivery` | bridges/modules/messages/src/inbound_lane.rs:197-206 | with either limit zero nothing is ever dispatched, so both limits being positive is what completion takes |
| `Bridge.UnprunedNonces` | bridges/modules/messages/src/lib.rs:629-648 | the nonces found are exactly the stored ones among the last seventeen that should be gone |
| `Bridge.UnprunedLanes` | bridges/modules/messages/src/lib.rs:623-667 | the lanes found are exactly those with a leftover message |
| `Bridge.TwoChains.Send` | bridges/modules/messages/src/lib.rs:707-730 | sending on real storage is a send step of the protocol and touches no other lane |
| `Bridge.TwoChains.Deliver` | bridges/modules/messages/src/lib.rs:214-354 | the delivery call on real storage is a deliver step of the protocol, with the same result and dispatch log, and touches no other lane |
| `Bridge.TwoChains.Confirm` | bridges/modules/messages/src/lib.rs:362-446 | the confirmation call on real storage is a confirm step; it succeeds when declared truthfully, the rewards it pays are those the run accounts for, and no other lane is touched |
| `Bridge.TwoChains.TryState` | bridges/modules/messages/src/lib.rs:623-667 | over all lanes of the storage, the check never finds a lane that the protocol runs on, in any reachable state |
| `Bridge.StoredElsewhere` | bridges/modules/messages/src/lanes_manager.rs:256-280 | storage changes on one lane leave the protocol state of every other lane alone |
| `Bridge.Lanes.Send` | bridges/modules/messages/src/lib.rs:707-730 | with any number of lanes on the same storage, sending on one is a step of its run and leaves the runs, storage and dispatch logs of the others alone |
| `Bridge.Lanes.Deliver` | bridges/modules/messages/src/lib.rs:214-354 | the same for a delivery |
| `Bridge.Lanes.Confirm` | bridges/modules/messages/src/lib.rs:362-446 | the same for a confirmation, which succeeds when declared truthfully |
| `RingBuffer.LatestKeptIff` | bridges/modules/grandpa/src/lib.rs:708-720 | an inserted key is still present after its own insertion if and only if it is not the key being pruned |
| `RingBuffer.InsertedHoldsLast` | bridges/modules/grandpa/src/lib.rs:704-720 | one insertion turns "the last K of the history" into "the last K of the longer history" |
| `RingBuffer.FromHistoryHoldsLast` | bridges/modules/beefy/src/lib.rs:239-264 | after n insertions of distinct keys the pointer is n modulo K and the map holds exactly the last min(n, K) of them |
| `GrandpaPallet.Pallet.OnInitialize` | bridges/modules/grandpa/src/lib.rs:153-156 | a new block resets the free-header allowance |
| `GrandpaPallet.Pallet.OnFinalize` | bridges/modules/grandpa/src/lib.rs:158-160 | the allowance does not outlive the block |
| `GrandpaPallet.Pallet.OnFreeHeaderImported` | bridges/modules/grandpa/src/lib.rs:549-559 | the allowance goes down by one, stops at zero and never appears outside a block |
| `GrandpaPallet.Pallet.InsertHeader` | bridges/modules/grandpa/src/lib.rs:704-720 | best header and ring after one insertion; everything else is unchanged |
| `GrandpaPallet.Pallet.SaveAuthoritiesSet` | bridges/modules/grandpa/src/lib.rs:645-668 | the set is replaced unless it is too large, and then nothing changes |
| `GrandpaPallet.Pallet.TryEnactAuthorityChange` | bridges/modules/grandpa/src/lib.rs:611-642 | exactly the headers without forced, delayed or oversized change pass; each refusal has its error and leaves the set alone |
| `GrandpaPallet.Pallet.SubmitFinalityProofEx` | bridges/modules/grandpa/src/lib.rs:284-359 | error order, new storage and fee of the whole call; a rejected submission has written nothing |
| `GrandpaPallet.AcceptedIff` | bridges/modules/grandpa/src/lib.rs:284-316 | a submission is accepted if and only if the pallet runs and is initialised, the header is newer, the claimed set is the trusted one, usable and justified the header, and no unsupported change is carried |
| `GrandpaPallet.RejectionReasons` | bridges/modules/grandpa/src/lib.rs:284-316 | which error a rejected submission gets |
| `GrandpaPallet.FreeIff` | bridges/modules/grandpa/src/lib.rs:563-602 | a newer header is free if and only if the block has a slot left, ancestry and size are within their limits (or the extra weight is zero), and it changes the authorities or keeps the interval |
| `GrandpaPallet.FreeImportIs` | bridges/modules/grandpa/src/lib.rs:549-559 | one slot less if there is one, none set outside a block, nothing else changed |
| `GrandpaPallet.CallInfoIs` | bridges/primitives/header-chain/src/lib.rs:334-370 | what a submission says about itself: number, set id, mandatory or not, and whether it is within the limits |
| `GrandpaPallet.InitializedIs` | bridges/modules/grandpa/src/lib.rs:724-750 | when initialisation succeeds, and every field it sets |
| `GrandpaPallet.Pallet.Initialize` | bridges/modules/grandpa/src/lib.rs:212-231 | initialisation succeeds once, with a set that is not too large, and sets up the whole storage |
| `GrandpaPallet.Pallet.ForceSetPalletState` | bridges/modules/grandpa/src/lib.rs:376-400 | the trusted set and the best header are replaced unless the set is too large, and then nothing changes |
| `GrandpaPallet.ForcedHeaderIsKeptIff` | bridges/modules/grandpa/src/lib.rs:376-400 | a set that is too large changes nothing; otherwise the given set is trusted, the forced header becomes the best one, and it can be looked up if and only if it is not the one whose slot gets reused |
| `GrandpaPallet.ForcedAgainIsLost` | bridges/modules/grandpa/src/lib.rs:376-400 | an input for which the best header is missing from storage |
| `GrandpaPallet.ExtensionMayMislead` | bridges/modules/grandpa/src/call_ext.rs:75-125 | a state and configuration in which the call succeeds, the extension accepts it as free and the fee is charged |
| `GrandpaPallet.ExtensionAcceptsIff` | bridges/modules/grandpa/src/call_ext.rs:75-125 | for a call that succeeds inside a block, the extension accepts a request for free execution if and only if the call is free, except exactly when no interval is configured and a header that is not mandatory fits the limits while slots remain |
| `GrandpaPallet.ExtensionOkIff` | bridges/modules/grandpa/src/call_ext.rs:58-176 | what the extension lets through, with the improvement it reports, in terms of storage and submission |
| `GrandpaPallet.ExtensionRefusals` | bridges/modules/grandpa/src/call_ext.rs:58-176 | which error a refused submission gets |
| `GrandpaPallet.ExtensionRefusalsAreSound` | bridges/modules/grandpa/src/call_ext.rs:75-176 | whatever the extension refuses, the call would refuse with the same error, but for the three refusals about free execution |
| `GrandpaRuns.RunKeeps` | bridges/modules/grandpa/src/lib.rs:284-323 | the invariant of trust, growth, budget and spacing holds in every run |
| `GrandpaRuns.ChainOfTrust` | bridges/modules/grandpa/src/lib.rs:294-319 | the set id is the initial id plus the number of imported changes; every import was verified by the set enacted by the latest earlier change, under the id it claimed, and carries no unsupported change; numbers strictly increase; the set never exceeds its maximal size |
| `GrandpaRuns.InitialHashStays` | bridges/modules/grandpa/src/lib.rs:724-750 | in every run the hash of the initial header stays, and the mode is the one set last |
| `GrandpaRuns.SetIdNamesSet` | bridges/modules/grandpa/src/lib.rs:630-639 | two sets with one id that were in charge at any two points of a run are equal |
| `GrandpaRuns.LastHeadersAreKept` | bridges/modules/grandpa/src/lib.rs:704-720 | with an injective header hash, the stored headers are exactly the last `HeadersToKeep` imports, the initial header included |
| `GrandpaRuns.StoredHeadersAreFinal` | bridges/modules/grandpa/src/lib.rs:704-720 | whatever can be looked up was imported, with the stored fields of that header, and the best header can be looked up |
| `GrandpaRuns.FreeImportsPerBlock` | bridges/modules/grandpa/src/lib.rs:549-602 | within a block, free imports plus remaining allowance are the maximum; free imports never exceed it |
| `GrandpaRuns.FreeImportsAreSpaced` | bridges/modules/grandpa/src/lib.rs:563-602 | interval times the number of free non-mandatory imports is at most the growth of the best number; with no interval there are none |
| `BeefyQuorum.RequiredIsLeastMajority` | bridges/modules/beefy/src/utils.rs:55-57 | the required count is the least number above two thirds, for every set but the empty one |
| `BeefyQuorum.VerifySignatures` | bridges/modules/beefy/src/utils.rs:59-94 | the early-exit loop accepts if and only if the lengths agree and the count of all correct signatures reaches the required one |
| `BeefyQuorum.VerifyCommitment` | bridges/modules/beefy/src/utils.rs:107-126 | error order, and the MMR root on success |
| `BeefyQuorum.CommitmentAcceptedIff` | bridges/modules/beefy/src/utils.rs:33-126 | a commitment is accepted if and only if it claims the trusted set id, the presented set has that id, size and key root, enough of its keys signed, and there is an MMR root |
| `BeefyQuorum.CommitmentRefusals` | bridges/modules/beefy/src/utils.rs:33-126 | which error a rejected commitment gets |
| `BeefyQuorum.QuorumsIntersect` | bridges/modules/beefy/src/utils.rs:50-94 | two quorums of one non-empty list have at least (n - 1) / 3 + 1 signers in common |
| `BeefyQuorum.AcceptedSetsAgree` | bridges/modules/beefy/src/utils.rs:33-48 | with an injective key root, one set info admits one validator list |
| `BeefyPallet.Pallet.OnInitialize` | bridges/modules/beefy/src/lib.rs:132-138 | each block lowers the request count by one, down to zero |
| `BeefyPallet.Pallet.Initialize` | bridges/modules/beefy/src/lib.rs:388-403 | initialisation succeeds once, with a non-empty set, and sets up the whole storage |
| `BeefyPallet.InitializedIs` | bridges/modules/beefy/src/lib.rs:388-403 | when initialisation succeeds, and every field it sets |
| `BeefyPallet.AcceptedIff` | bridges/modules/beefy/src/lib.rs:210-229 | a submission is accepted if and only if the pallet runs, has room for a request and is initialised, the block is newer, the commitment acceptable and its leaf proven |
| `BeefyPallet.RejectionReasons` | bridges/modules/beefy/src/lib.rs:210-229 | which error a rejected submission gets |
| `BeefyPallet.Pallet.ImportCommitment` | bridges/modules/beefy/src/lib.rs:239-264 | best number and ring after one import; everything else is unchanged |
| `BeefyPallet.Pallet.SubmitCommitment` | bridges/modules/beefy/src/lib.rs:200-273 | error order and new storage of the whole call; a rejected submission has written nothing |
| `BeefyRuns.RunKeeps` | bridges/modules/beefy/src/lib.rs:200-273 | the invariant of trust, growth and request limit holds in every run |
| `BeefyRuns.ChainOfTrust` | bridges/modules/beefy/src/lib.rs:217-237 | every import was accepted under the set in charge, which is the first announced one with the greatest id: it claimed that set id and was signed by enough keys of that set; numbers strictly increase |
| `BeefyRuns.ModeIsAsSet` | bridges/modules/beefy/src/lib.rs:183-189 | in every run the mode is the one set last |
| `BeefyRuns.SetIdNamesSet` | bridges/modules/beefy/src/lib.rs:234-237 | ids of the sets in charge never fall, and one id names one set |
| `BeefyRuns.CommonSigners` | bridges/modules/beefy/src/utils.rs:107-126 | two commitments imported under one set id were signed from one validator list of n keys and share at least (n - 1) / 3 + 1 signers if the set is not empty, and none if it is |
| `BeefyRuns.MajorityIff` | bridges/modules/beefy/src/utils.rs:50-94 | an import of any run was signed by more than two thirds of its validators if and only if the set in charge was not empty |
| `BeefyRuns.NonEmptyAnnouncementsSuffice` | bridges/modules/beefy/src/lib.rs:234-237 | so it was if no earlier import announced an empty set |
| `BeefyRuns.EmptySetNeedsNoSignature` | bridges/modules/beefy/src/lib.rs:234-237 | a run whose first import announces an empty set and whose second import carries no signature |
| `BeefyRuns.LastCommitmentsAreKept` | bridges/modules/beefy/src/lib.rs:239-264 | the stored commitments are exactly the last `CommitmentsToKeep` imports, by strictly growing numbers alone |
| `BeefyRuns.ImportsAreCharged` | bridges/modules/beefy/src/lib.rs:231-232 | over any stretch of a run, imports are covered by the growth of the request count and the blocks |
| `BeefyRuns.ImportsAreRateLimited` | bridges/modules/beefy/src/lib.rs:213 | any stretch of any run imports at most `MaxRequests` plus one per block |
| `BeefyRuns.EveryBlockHasRoom` | bridges/modules/beefy/src/lib.rs:131-138 | right after a block starts nothing is rejected for the limit, unless the limit is zero |
| `StatementTable.Table.ImportStatement` | polkadot/statement-table/src/generic.rs:322-347 | new table and returned summary after one import, misbehaviour recorded included |
| `StatementTable.Table.ImportCandidate` | polkadot/statement-table/src/generic.rs:366-420 | a proposal opens the candidate and casts the proposer's vote, or is reported as unauthorized |
| `StatementTable.Table.CastVote` | polkadot/statement-table/src/generic.rs:422-486 | the vote is recorded once, or the complaint names the conflict with the recorded one |
| `VoteRecords.RunRecordsFirst` | polkadot/statement-table/src/generic.rs:366-486 | after every sequence of imports the table holds exactly the proposed candidates, each with the group and candidate of its first accepted proposal, and for each authority exactly its first statement that this group admits |
| `VoteRecords.RunRecordsProposals` | polkadot/statement-table/src/generic.rs:385-407 | after every sequence of imports the proposals on record of an authority are its accepted ones, each digest once, in the order and with the signature in which they first came |
| `VoteRecords.SummaryIs` | polkadot/statement-table/src/generic.rs:255-262 | an import returns a summary if and only if it added its vote; it carries the candidate, the group on record and the number of votes afterwards |
| `StatementRuns.RunTracks` | polkadot/statement-table/src/generic.rs:366-486 | where one digest is only proposed as one candidate in one group, the table holds exactly the proposed candidates and, for exactly the authorities with a counted statement, one of these |
| `StatementRuns.ConfluenceIff` | polkadot/statement-table/src/generic.rs:366-486 | a sequence reaches the candidates, groups and votes of an ordered arrangement of the same imports if and only if it is ordered itself |
| `ReportSoundness.InjectiveMeansOneCandidate` | polkadot/statement-table/src/generic.rs:53-55 | with an injective candidate digest, accepted proposals with one digest are of one candidate, whatever is imported |
| `ReportSoundness.RunExplained` | polkadot/statement-table/src/generic.rs:322-486 | over every run whose accepted proposals with one digest are of one candidate: exactly those are reported who offended or proposed a candidate of another group, every report is sound or blames such a stray proposal, and every stray proposal is blamed |
| `ReportSoundness.ReportsOffendersIff` | polkadot/statement-table/src/generic.rs:322-486 | offenders are always reported, and nobody else is if and only if every stray proposal is by an offender |
| `ReportSoundness.ReportsSoundIff` | polkadot/statement-table/src/generic.rs:366-486 | all reports are sound if and only if every accepted proposal is by a member of the group that first proposed its candidate or its author also submitted the very statement it gets blamed for |
| `ReportSoundness.CoherentNeverStrays` | polkadot/statement-table/src/generic.rs:366-420 | where one digest is only proposed in one group, nothing strays |
| `ReportSoundness.RunReports` | polkadot/statement-table/src/generic.rs:322-347 | there, exactly the offenders are reported, and every report names different statements which that authority really submitted |
| `ReportSoundness.IncoherentReportMisnames` | polkadot/statement-table/src/generic.rs:395-420 | with one digest in two groups, an authority that did not offend is reported, for a statement that was never submitted |
| `StatementRuns.RunIsBacked` | polkadot/statement-table/src/generic.rs:422-486 | every recorded vote was signed, on that candidate, by a member of its group |
| `StatementRuns.AttestedIsBacked` | polkadot/statement-table/src/generic.rs:227-313 | a candidate is attested if and only if its votes reach the threshold, and its attestations are real signatures of distinct group members |
| `StatementRuns.AttestedIff` | polkadot/statement-table/src/generic.rs:300-313 | with the group's size known, a candidate is attested if and only if it has the minimum of votes or those of the whole group; with the size unknown, only with as many votes as the largest machine word |
| `StatementRuns.ReportsNeverEmpty` | polkadot/statement-table/src/generic.rs:340-344 | imports alone never record an empty list of misbehaviour |
| `MisbehaviorDrain.DrainMisbehaviors.MaybeItem` | polkadot/statement-table/src/generic.rs:527-529 | takes one report off the list in progress, in recorded order |
| `MisbehaviorDrain.DrainMisbehaviors.Next` | polkadot/statement-table/src/generic.rs:535-545 | the next pending report, or nothing exactly when none is pending |
| `MisbehaviorDrain.DrainMisbehaviors.Collect` | polkadot/statement-table/src/generic.rs:535-545 | iterating to the end yields everything pending, and ends |
| `MisbehaviorDrain.YieldsAllIff` | polkadot/statement-table/src/generic.rs:535-545 | the iterator yields every report if and only if no empty list stands before a non-empty one |
| `MisbehaviorDrain.StartDrain` | polkadot/statement-table/src/generic.rs:362-364 | the recorded reports move out of the table into the iterator |
| `MisbehaviorDrain.DrainYields` | polkadot/statement-table/src/generic.rs:496-546 | draining records without an empty list yields every report exactly once, in each authority's recorded order, whatever order the map is walked in |
| `TableLife.LifeAgrees` | polkadot/statement-table/src/generic.rs:322-364 | however imports and drains alternate: proposals and votes are those of the imports alone, for every authority what all drains yielded followed by what is recorded now is what the imports alone would have recorded, and no recorded list is empty |
| `TableLife.DrainIsComplete` | polkadot/statement-table/src/generic.rs:496-546 | at any point of a table's life a drain does not end early and yields exactly what is recorded |
| `TableLife.LifeReports` | polkadot/statement-table/src/generic.rs:322-347 | over the whole life, yielded or still recorded, exactly those are reported who offended or made a stray proposal; only offenders are, if and only if every stray proposal is by an offender |
| `TableLife.LifeReportsSoundIff` | polkadot/statement-table/src/generic.rs:322-347 | the exact condition for soundness of all reports, over the whole life |
| `TableLife.CoherentLifeReports` | polkadot/statement-table/src/generic.rs:322-347 | where one digest is only proposed in one group: over the whole life exactly the offenders are reported and every report is sound |
| `TableLife.UsedTable.ImportStatement` | polkadot/statement-table/src/generic.rs:322-347 | importing on a real table is one more event of its life |
| `TableLife.UsedTable.IssueMisbehaviors` | polkadot/node/core/backing/src/lib.rs:1709-1720 | draining a real table to the end issues exactly what is recorded, and by then every report that the imports led to has been issued exactly once and in order |
| `XcmDecode.Input.DescendRef` | polkadot/xcm/src/double_encoded.rs:29-39 | one level deeper, refused exactly above the limit |
| `XcmDecode.Counters.Decode` | polkadot/xcm/src/double_encoded.rs:112-153 | success exactly when the value fits the counters it starts from; the nesting counter and the depth are restored, instructions accumulate; an error names a limit that is exceeded |
| `XcmDecode.Counters.DecodeInstructions` | polkadot/xcm/src/utils.rs:30-46 | the same for a vector of instructions, whose counter is shared by all programs nested in the outermost one |
| `XcmDecode.Counters.DecodeCall` | polkadot/xcm/src/double_encoded.rs:112-153 | the same for a double-encoded call: its own depth, one more link of the chain, remote or consumed to the end |
| `XcmDecode.AcceptedIff` | polkadot/xcm/src/double_encoded.rs:112-153 | a fresh decode of an input with or without a depth limit accepts if and only if the value is within that limit, no chain of calls exceeds the recursion limit, every call is within its own depth and remote or fully consumed, every program with all it nests is within the cap, and all bytes decode |
| `XcmDecode.LongestChain` | polkadot/xcm/src/double_encoded.rs:112-125 | the measure of nesting is attained by a chain of calls |
| `XcmDecode.ChainBounds` | polkadot/xcm/src/double_encoded.rs:112-125 | no chain of calls is longer than that measure |
| `XcmDecode.DepthIff` | polkadot/xcm/src/double_encoded.rs:81-87 | the depth of a value is the length of the longest descent through boxes and vectors of its own input |
| `XcmDecode.ProgramsFitIff` | polkadot/xcm/src/utils.rs:30-46 | the cap on outermost programs is the cap on all programs |
| `XcmDecode.DecodeFresh` | polkadot/xcm/src/utils.rs:30-46 | decoding from scratch, with or without a depth limit, decides exactly by the limits |
| `XcmDecode.DecodeProgram` | polkadot/xcm/src/lib.rs:393-408 | the entry point for a whole program accepts if and only if the value fits on its own and nothing of the input is left |
| `XcmDecode.AcceptedCallsFitAlone` | polkadot/xcm/src/double_encoded.rs:194-203 | every call accepted inside a larger value, wherever it sits, has a content that fits on its own |
| `XcmDecode.DoubleEncoded.EnsureDecoded` | polkadot/xcm/src/double_encoded.rs:196-202 | a cached value is returned, otherwise a decode with fresh counters that must consume all bytes is made and cached |
| `XcmDecode.DecodeCopy` | polkadot/xcm/src/double_encoded.rs:155-203 | a copy of an accepted call, which has no cache, decodes again if and only if its bytes were consumed to the end |

## Left out

- Bridge.TwoChains.Send: keeps the number of messages below the largest 64-bit nonce, as all run theorems about lanes do; at that nonce paying exactly once fails, see `LastNonceIsPaidTwice`.
- MessagesPallet.ReceiveMessagesProof: does not model the halted mode, the origin check and the payment of the delivering relayer, which is another pallet's.
- MessagesPallet.ReceiveMessagesDeliveryProof: does not model the halted mode, the origin check and the actual weight returned.
- ReportSoundness.RunReports: imports only, one group per digest; `RunExplained` states it without the latter, `TableLife.LifeReports` for tables that are drained in between.
- StatementRuns.RunTracks: one group per digest; `VoteRecords.RunRecordsFirst` states more, for every sequence of imports.
- StatementRuns.ReportsNeverEmpty: runs of imports only; `TableLife.LifeAgrees` states it for tables that are drained in between.
- StatementRuns.ConfluenceIff: covers candidates, groups and votes; the order in which an authority's proposals are listed depends on the import order and is not compared.
- TableLife.UsedTable.IssueMisbehaviors: a drain is iterated to its end, as its caller does; an iterator that is dropped earlier loses the rest.
- XcmDecode.Counters.Decode: works on the shape of the decoded value (levels, declared lengths, consumed bytes), not on bytes; memory tracking is not modelled.
- XcmDecode.DecodeProgram: does not model the limit on decoded memory.
- GrandpaPallet.Pallet.TryEnactAuthorityChange: the set id is unbounded; the 64-bit addition is not modelled.
- GrandpaPallet.Pallet.ForceSetPalletState: not a step of GRANDPA runs, since it sets the trusted state to anything.
- Foreign checks (Merkle, MMR and storage proofs, signatures, GRANDPA justifications, dispatch) are parameters.
- Opening, closing and purging lanes, `remove_oldest_unpruned_message`, and the delayed use of prepared send arguments.
- Owner and origin checks, operating modes beyond halted or not, events, logs and post-dispatch weights of the light clients.
- The transaction extensions' wiring and relayer slashing in `bridges/bin/runtime-common`, and reward payment itself.
- Erasure coding, benchmark weights, XCM version conversions, migrations, CLI and RPC: foreign code, constants or plumbing.
