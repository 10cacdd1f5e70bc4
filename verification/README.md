# NimCarry payment protocol: a verified model

NimCarry commits to one exact payment before it is sent, recognises that payment on a chain history it does not trust,
finalises it once, and projects the result into a second store that may lag after a crash. This project models that
protocol in Dafny and proves what it promises over whole runs. It stands beside the TypeScript sources; nothing in it
executes them. `dafny verify dfyconfig.toml` checks everything.

## Reading order

Values and pure functions come first, the objects that update state second, and the theorems about runs last. Every
method of a class is proved equal to a specification function on the old state (`ensures (State(), res) == F(old(State()), ...)`),
and the theorems are about those functions.

| file | what it holds |
|---|---|
| `Domain.dfy`, `PaymentRails.dfy`, `Policy.dfy`, `Text.dfy` | values, reason codes, address keys and rail markers, macro-block arithmetic, text helpers |
| `HopCommitment.dfy`, `RecipientData.dfy`, `RpcFieldSearch.dfy` | the commitment pre-image, the recipient-data reader, the breadth-first field search over a heap graph |
| `Relay.dfy`, `RelayService.dfy` | the relay store object, the relay service object and what they compute |
| `RelaySafety.dfy`, `RelayRuns.dfy`, `RelayTheorems.dfy` | the relay invariant, each operation as a chain of small mutations with their journal, runs, payment evidence, discovery |
| `Interleaving.dfy` | a reconcile call split where it awaits the chain, when its late writes are harmless, and that other missions never matter |
| `WriteQueue.dfy`, `PgRelayTables.dfy` | the write queue with its flush barrier, and the tables a snapshot is written to and reloaded from |
| `Missions.dfy`, `MissionRepository.dfy`, `MissionService.dfy`, `MissionSafety.dfy`, `MissionOps.dfy` | mission, invitation and claim records, the repository and service objects, and what every mission operation keeps |
| `Coordinator.dfy` | authorize, record, reconcile, project and sweep across both stores |
| `System.dfy` | the whole mission surface as one state machine with lagging writes, failing flushes and crashes |
| `Settlement.dfy`, `Freezing.dfy`, `Signatures.dfy`, `MissionEffects.dfy` | exactly when a reconcile, a reported hash, a rail freeze, an authorization and each mission operation succeeds, what it writes and what it leaves alone |
| `Delivery.dfy`, `AdapterGaps.dfy`, `IntentSpacing.dfy`, `Provenance.dfy`, `Sweep.dfy`, `SweepProgress.dfy`, `HonestRun.dfy` | the main theorems over runs of that machine |
| `MissionView.dfy`, `BroadcastCapability.dfy`, `MissionHttp.dfy` | the offered action, the capability store, and the authorize, freeze and broadcast requests |
| `Attaching.dfy`, `FreezeOverlap.dfy`, `StaleGuards.dfy` | broadcast calls with anything between their awaits, rail freezes overtaken by a renewal, and authorizations on old answers |
| `OpenInvitations.dfy` | how many invitations of a mission can be open |
| `Reachability.dfy`, `Scenario.dfy` | reachable states, and the steps and values concrete runs are built from |
| `ConcreteRuns.dfy`, `LeftoverRuns.dfy`, `RepairRuns.dfy`, `TokenRun.dfy` | legal runs from the empty system that end where a promise fails |

## The state machine

A state of `System` holds both live stores, the journal of relay snapshots handed to the durable adapter, the relay
tables, the index of the snapshot they hold, the sweeps in progress, the broadcast calls that wait for an answer, and a
clock. A step is a mission operation, an authorization, a rail freeze, one of the three stretches of a broadcast call, a
reconcile call, the start of a sweep (others may still be running) or one visit of one, a background write of any pending
snapshot, or a crash that replaces the live relay by any load of the tables. The chain is an arbitrary oracle passed into
each step, and flushes, repository reads and decryptions may fail.

Assumptions, all visible as parameters or `requires`:

- Every call but a broadcast is one step: no other call runs between its awaits. `Interleaving.dfy` takes a reconcile call
  apart and shows what this leaves out for calls of the same mission; calls of other missions leave out nothing
  (`Interleaving.OthersMayComeBetween`). `FreezeOverlap.dfy` and `StaleGuards.dfy` do it for a rail freeze and an
  authorization. The oracle gives one answer per
  question before and one after a payment was found. An authorization, a broadcast and a freeze request each read the
  clock when they arrive and again when they act; the other calls are given one reading.
- The clock never runs back; record ids, tokens and nonces are fresh; wallets are normalised user-friendly addresses and
  transaction hashes are not empty (the HTTP layer and the RPC client enforce both).
- The keyed hash of wallets is injective and authenticated encryption is an exact round trip (`MissionService.IsSound`;
  `MissionService.SoundProtectorExists` gives one). Of SHA-256 only the length of its digests is used: commitments bind
  the hop up to an explicit collision. Decoding UTF-8 never makes a text longer than its bytes.
- A flush that returned means the tables hold the flushed state. `WriteQueue.ReturnedFlushIsDurable` proves this of the
  queue under any interleaving, `WriteQueue.QuietFlushIsExact` in the exact form the state machine uses.

## What turned out false, and exactly when it holds

Each point but the last three names an input, a legal run from the empty system or a chain history, and the condition under
which the code keeps the promise.

- FINAL is not safe from overlapping calls. `updateHop` does not look at the status it replaces, so the slower of two
  reconcile calls on one mission can turn FINAL back into INCLUDED, with the intent gone: `Interleaving.OverlappingCallsLoseFinal`.
  FINAL survives the slower call's last step if and only if that step is for another slot or its own readings were valid
  and final or left nothing to write (`Interleaving.FinalSurvivesJudgingExactlyWhen`), and its first step if and only if
  that one is for another slot or writes nothing (`Interleaving.FinalSurvivesLookingExactlyWhen`).
- FINAL does not mean ARRIVED. A mission can be cancelled while its intent has no hash, and the payment be discovered later:
  `ConcreteRuns.ACancelledMissionIsPaid`. After an undisturbed reconcile a FINAL mission has arrived if and only if it
  already had, or was ACTIVE with a hop that is direct or whose invitation is ACCEPTED
  (`HonestRun.FinalMissionHasArrivedExactlyWhen`). ARRIVED does imply FINAL (`Delivery.ArrivedMeansPaid`).
- A direct delivery that is FINAL when the process stops is not always repaired. Writing a snapshot fills a null
  `invitation_id` from any invitation row of the same mission and sequence, so after the reload the hop looks introduced:
  `ConcreteRuns.AReloadedDirectDeliveryIsStranded`. It is repaired if and only if there is no such row or that invitation
  is still ACCEPTED (`Delivery.ReloadedDirectDeliveryProjectsExactlyWhen`). An open direct intent meets the same fill
  (`ConcreteRuns.AReloadedDirectIntentIsUnusable`): it can be asked for again and broadcast if and only if there is no such
  row (`Delivery.ReloadedDirectIntentIsUsableExactlyWhen`).
- An introduced delivery can be stranded by the expiry sweep, which closes ACCEPTED invitations with a payment in flight:
  `ConcreteRuns.AnIntroducedDeliveryIsStranded`. Projection succeeds if and only if the hop is direct or its invitation is
  still ACCEPTED (`Delivery.ProjectionSucceedsExactlyWhen`).
- The file adapter answers with the first destination claim of a mission, Postgres with the latest. The run theorems use the
  latest. With the first, a direct request that would pass is authorized if and only if the first claim is the latest
  (`AdapterGaps.FileAdapterAuthorizesExactlyWhen`, likewise for recording and projecting), and a blocked mission stays
  blocked (`AdapterGaps.BlockedForGood`): `ConcreteRuns.AReissuedClaimBlocksTheFileAdapter`.
- "Only a few times per process" (three INVALID repairs) needs sweeps that do not overlap, which the timer in
  `src/index.ts` does not ensure. With at most n sweeps at a time there are at most 2 + n repairs
  (`Sweep.RepairsAreBounded`), and for every n some run makes that many (`RepairRuns.OverlappingSweepsReachTheBound`).
- A payment that is there is not always swept up. The candidates of a sweep leave out an INVALID slot without a hash, which
  an expired intent leaves behind and a renewed one may be waiting in: `LeftoverRuns.ARenewedIntentIsNeverSwept`. A payment
  nobody reported arrives if and only if the slot is empty, PENDING or INCLUDED (`SweepProgress.SweptDiscoveryArrivesExactlyWhen`).
- A closed intent is not gone. Its row stays until a FINAL hop supersedes it, so a restart opens it again:
  `LeftoverRuns.AClosedIntentComesBack`. An intent is open after a restart if and only if the snapshot had it or an earlier row
  is for the next sequence (`PgRelayTables.IntentsReloadedExactly`).
- PASS_1_NIM is offered without looking at the pass deadline or at the expired intent's invitation, so authorizing it may
  fail: `ConcreteRuns.ALatePassIsRefused`, with the exact condition in `MissionView.OfferedPassIsAcceptedExactlyWhen`.
  SEND_1_NIM always works: `MissionView.OfferedSendIsAccepted`.
- A valid, consumed token does not tie a hash to the intent it was issued for, because the relay reads the clock and the
  open intent again after an await. The broadcast may be refused as stale (`TokenRun.AValidTokenMeetsTheStaleBranch`), or
  attach to the intent of a renewal that came in between (`TokenRun.AValidTokenAttachesElsewhere`). Recorded inside the
  window of its own intent it attaches to that one or fails; later it attaches, and then elsewhere, if and only if the
  mission was authorized anew in between, that intent is open and not stale, and the hash is free
  (`Attaching.RecordingAttachesExactlyWhen`, `MissionHttp.AdmittedBroadcastIsForItsIntent`).
- A rail freeze proves its rails for the intent it found and writes them into the one that is open when the chain has
  answered (`FreezeOverlap.ARailOutlivesItsProof`). Whatever the chain shows, the proofs carry over if and only if the later
  intent pays from all wallets of the earlier one (`FreezeOverlap.ProofsCarryOverExactlyWhen`).
- An authorization asks the repository before its last await, so it can open an intent for a mission that was cancelled
  meanwhile: `StaleGuards.ACancelledMissionIsAuthorized`. Answers that let a request pass lead to what fresh ones would if
  and only if those let it pass too (`StaleGuards.OldAnswersAreAsGoodExactlyWhen`); however old they are, they do not put the
  stores out of step (`StaleGuards.OldAnswersKeepReady`).
- Two invitations of a mission can be open behind the file adapter, which reissues an expired one without looking for
  another: `OpenInvitations.TwoInvitationsAreOpen`. A reissue keeps at most one open if and only if it is refused or none was
  open (`OpenInvitations.ReissueKeepsOneOpenExactlyWhen`); no other operation opens a second one. The unique indexes of the
  Postgres adapter refuse it.
- Discovery depends on the order of the history when a node lists one hash with two contents:
  `RelayTheorems.OrderDecidesBetweenTwoListings`; it does not if and only if the history is ambiguous anyway or all its
  matching entries are equal (`RelayTheorems.DiscoveryIgnoresOrderExactlyWhen`).
- A destination link used too late closes the due links of every mission, not only its own
  (`MissionEffects.ClaimDestinationExactly`); used in time, or by any other operation, only its own mission changes
  (`MissionEffects.OpStaysHome`). Reissuing a link under a token in use fails, but revokes the pending one
  (`MissionEffects.ReissueClaimExactly`).
- The comment on `lastMacroBlock` says "at or before"; before genesis the code answers genesis itself, which is later.
  `Policy.LastMacroBlockIsGreatestBoundary` states both cases as the code has them.
- The documentation describes routes over several bridges. In the code every authorized payment goes to the bound
  destination, so a mission arrives at its first FINAL hop; `Delivery.DeliveredOnceAsAgreed` proves the sequence is always 1.

## Model

| member | source | states |
|---|---|---|
| Policy.LastMacroBlockIsGreatestBoundary | src/nimiq/policy.ts:62-66 | the result is a batch boundary, the greatest one not above the block at or after genesis, and genesis before it |
| Policy.FinalityIsAConfirmationCount | src/nimiq/rpc-client.ts:214-217 | final exactly when head minus block reaches the confirmation count, which lies in 1..blocksPerBatch on the chain, and never lost as the head grows |
| Policy.EarlierBlocksFinaliseFirst | src/nimiq/policy.ts:62-76 | a payment in an earlier block is final no later than one in a later block |
| PaymentRails.MarkerRoundTrip | src/core/relay.ts:30-39 | reading a rail marker back gives the address key it was made from, and an empty address has no marker |
| PaymentRails.CaseDoesNotChangeTheRail | src/core/relay.ts:184-212 | markers that differ only in case, which the freeze treats as equal, denote the same rail |
| PaymentRails.KeyIsLetterwise | src/core/relay.ts:24-26 | the comparison key of an address is made letter by letter, so it depends on nothing but the letters in their order |
| PaymentRails.NimiqAddressIsAWallet | src/core/relay.ts:34-39 | a user-friendly address is never read as a rail marker |
| HopCommitment.CommitmentFits | src/core/hop-commitment.ts:36-41 | every commitment has 49 characters, so the 64-byte limit is never reached |
| HopCommitment.WalletListIsTheWalletSet | src/core/hop-commitment.ts:20-25 | two wallet lists give the same canonical list exactly when their normalised sets are equal, whatever order, case or repeats |
| HopCommitment.MaterialIsInjective | src/core/hop-commitment.ts:26-34 | for separator-free fields the pre-image determines every field and the wallet set |
| HopCommitment.Base64UrlIsInjective | src/core/hop-commitment.ts:35 | unpadded base64url loses no byte of the digest |
| HopCommitment.CommitmentBindsTheHop | src/core/hop-commitment.ts:12-42 | equal commitments mean the same hop paid from the same wallets, or two different pre-images with one SHA-256 digest; the same hop never gives such a pair |
| RecipientData.EveryFormComesBack | src/nimiq/rpc-client.ts:33-54 | hex, 0x-hex and byte-array forms, plain or wrapped in raw, all come back as the committed text |
| RecipientData.PlainTextComesBackUnlessHex | src/nimiq/rpc-client.ts:49-53 | unencoded text, whatever characters it has, comes back unchanged exactly when it does not read as hex |
| RecipientData.CommitmentComesBack | src/nimiq/rpc-client.ts:33-54 | a hop commitment never reads as hex, so it also comes back unencoded |
| RecipientData.HexRoundTrip | src/nimiq/rpc-client.ts:49-52 | decoding the hex of any bytes gives the bytes |
| RpcFieldSearch.DeepRpcField | src/nimiq/rpc-client.ts:69-90 | terminates on any reply, cycles included; a result is the wanted field of an object at the least depth that has one, within the limit; no result means no object within the limit has one, or the reply is no object |
| Relay.RelayStore.constructor | src/core/relay.ts:51-65 | hydrating keeps the snapshot and gives an intent without wallets its holder |
| Relay.RelayStore.CreateIntent | src/core/relay.ts:113-168 | the three refusals in order, and otherwise one new intent at the next sequence with distinct wallets and its commitment, one snapshot journalled |
| Relay.RelayStore.CancelIntent | src/core/relay.ts:170-173 | removes the intent and journals only when there was one |
| Relay.RelayStore.FreezeVerifiedPaymentRails | src/core/relay.ts:184-212 | refused without an intent or after a recorded hash; adds each new rail marker once, journals only a change |
| Relay.RelayStore.RecordHop | src/core/relay.ts:215-233 | refuses a hash recorded in another slot; replaces the slot or appends; FINAL moves the holder and closes the intent |
| Relay.RelayStore.UpdateHop | src/core/relay.ts:236-246 | patches the slot without looking at its status; FINAL moves the holder and closes the intent |
| RelayService.CanonicalRelayService.ChooseMatch | src/service/canonical-relay-service.ts:349-365 | the match map over a history yields nothing, the latest entry of the only matching hash, or an ambiguity error |
| RelayService.CanonicalRelayService.DiscoverMatchingBroadcast | src/service/canonical-relay-service.ts:345-366 | discovery is that choice over the recipient's history, none without history support, an error when the history cannot be read |
| RelayService.CanonicalRelayService.RecordObservedBroadcast | src/service/canonical-relay-service.ts:150-173 | attaches a PENDING hop of the intent unless the hash belongs to another slot |
| RelayService.CanonicalRelayService.RecordBroadcast | src/service/canonical-relay-service.ts:175-183 | a stale intent is cancelled and refused, otherwise the hash is attached |
| RelayService.CanonicalRelayService.CancelPass | src/service/canonical-relay-service.ts:185-196 | refused once a hash is recorded in the intent's slot |
| RelayService.CanonicalRelayService.FreezeVerifiedPaymentRails | src/service/canonical-relay-service.ts:289-315 | new candidate rails are frozen together, or none when one cannot be proven; no answer before the flush |
| RelayService.CanonicalRelayService.ApplyObservedTransaction | src/service/canonical-relay-service.ts:368-384 | a failed check marks INVALID, mempool changes nothing, otherwise INCLUDED or FINAL by macro-block finality |
| RelayService.CanonicalRelayService.Reconcile | src/service/canonical-relay-service.ts:386-440 | discovery or lookup, application, and closing of a stale intent as INVALID, branch by branch |
| RelaySafety.MutationKeepsInv | src/core/relay.ts:113-246 | every small change keeps: FINAL slots are 1..n, each FINAL recipient is the next holder, intents are next in line, slots and hashes are unique |
| RelaySafety.MutationKeepsFinal | src/core/relay.ts:215-246 | no such change touches a FINAL hop |
| RelaySafety.CurrentIsHighestFinal | src/core/relay.ts:99-102 | the current sequence is the highest FINAL slot |
| RelaySafety.PutThenGet | src/core/relay.ts:215-233 | replacing a slot changes that slot and no other |
| RelayRuns.ReconciledMoves | src/service/canonical-relay-service.ts:386-440 | a reconcile is a chain of such changes to its own baton, each journalled, that opens and freezes nothing and gives an intent up only once stale |
| RelayRuns.RecordedBroadcastMoves | src/service/canonical-relay-service.ts:175-183 | the same for recording a broadcast |
| RelayRuns.FrozenVerifiedMoves | src/service/canonical-relay-service.ts:289-315 | the same for freezing, which only adds rail markers |
| RelayRuns.MovesExtend | src/core/relay.ts:113-246 | over one operation, in every journalled snapshot too, other batons and FINAL hops stay as they were |
| RelayTheorems.RunsAreSafe | src/core/relay.ts:46-247 | every run of the relay keeps the invariant and every FINAL hop |
| RelayTheorems.NewRelaysStaySafe | src/core/relay.ts:46-247 | the same for every two consecutive runs from an empty relay |
| RelayTheorems.RunsStayHome | src/service/canonical-relay-service.ts:58-440 | a run leaves a baton alone unless one of its events names it |
| RelayTheorems.HydrationKeepsSources | src/core/relay.ts:51-65 | hydrating a snapshot changes nothing but an empty wallet list, which becomes the holder, so the wallets and rails that may pay stay the same |
| Interleaving.UndisturbedStepsReconcile | src/service/canonical-relay-service.ts:386-440 | the steps between the awaits, run one after the other, are the reconcile call |
| Interleaving.FinalSurvivesJudgingExactlyWhen | src/service/canonical-relay-service.ts:368-384 | a hop another call made FINAL survives the slower call's last step exactly when that step is for another slot, or the slower call's own validation, block and head are final or leave nothing to write |
| Interleaving.FinalSurvivesLookingExactlyWhen | src/service/canonical-relay-service.ts:386-432 | it survives the first step exactly when that is for another slot or neither records a discovered payment nor closes a stale intent |
| Interleaving.OthersMayComeBetween | src/service/canonical-relay-service.ts:386-440 | calls of other missions between the steps change neither the answer nor what is left at the call's own mission, unless a discovered hash was recorded elsewhere meanwhile |
| Interleaving.OverlappingCallsLoseFinal | src/service/canonical-relay-service.ts:368-384 | a legal run and two reconcile calls of one mission that overlap: the slower one turns FINAL into INCLUDED, and the intent is gone |
| RelayTheorems.ProvenRailIsFunded | src/service/canonical-relay-service.ts:215-278 | a proven rail rests on an included transfer from a frozen wallet into it, and on an HTLC type the reader named: of the live account, or of both the payment's sender and the funding's recipient |
| RelayTheorems.RailIsProvenExactlyWhen | src/service/canonical-relay-service.ts:215-278 | a rail is proven exactly when the reader shows it as a live HTLC of a frozen wallet with its exact funding, or as the HTLC the payment came from with exactly one creation by a frozen wallet; a failed read is an error, never a proof |
| RelayTheorems.ValidatedExactlyWhen | src/service/canonical-relay-service.ts:328-343 | validation accepts a payment exactly when its payer is authorised and it pays 100,000 Luna to the recipient with the committed data; each way to fail has its own answer, in order |
| RelayTheorems.StrangersAreRefused | src/service/canonical-relay-service.ts:328-343 | a payer outside the frozen wallets and rails whose account, or whose own sender type, is no HTLC is answered WRONG_SENDER, whatever the authorised wallets have paid it |
| RelayTheorems.SquashingDistributes | src/service/canonical-relay-service.ts:234 | account types are compared letter by letter |
| RelayTheorems.BasicIsNoHtlc | src/service/canonical-relay-service.ts:234 | a basic account is not read as an HTLC |
| RelayTheorems.ValidatedMeansPaid | src/core/relay.ts:250-299 | passing validation means exactly 100,000 Luna to the committed recipient with the committed data, from an authorised source |
| RelayTheorems.ReconciledFinalHasEvidence | src/service/canonical-relay-service.ts:386-440 | a slot turned FINAL is the reconciled baton's intent slot, and the reader showed its final, validated payment |
| RelayTheorems.OnlyReconcileFinalises | src/service/canonical-relay-service.ts:175-315 | no other operation makes anything FINAL |
| RelayTheorems.DiscoveryIsExact | src/service/canonical-relay-service.ts:345-366 | none exactly when nothing matches, ambiguous exactly when two matching hashes differ, otherwise the matching payment |
| RelayTheorems.DiscoveryIgnoresOrderExactlyWhen | src/service/canonical-relay-service.ts:349-365 | every history with the same entries, in any order and number, gives the same choice exactly when the choice is ambiguous or all matching entries are equal |
| RelayTheorems.OrderDecidesBetweenTwoListings | src/service/canonical-relay-service.ts:349-365 | two listings of one payment, pending and included: turning them round changes the choice |
| Settlement.RecordedPaymentSettles | src/service/canonical-relay-service.ts:368-384 | a recorded payment that is as agreed or otherwise valid and included is settled by one reconcile, whatever its slot said: FINAL with one NIM, the time and the intent closed once the head is past the boundary, INCLUDED with one NIM, no time and the intent open before it; no other slot changes |
| Settlement.DiscoveredPaymentSettles | src/service/canonical-relay-service.ts:386-440 | the same for a payment discovery found: its hop is recorded with every field of the intent and settled by the same boundary |
| Settlement.FoundPaymentWaits | src/service/canonical-relay-service.ts:386-440 | found in the mempool only, or with the head unreadable, it is recorded PENDING and the intent waits |
| Settlement.RecordedFateExactly | src/service/canonical-relay-service.ts:386-440 | a hop with a hash ends INVALID exactly when the transaction fails validation or is nowhere after the window, or it was INVALID and nothing settled it; the intent closes exactly on FINAL or on a payment gone after the window; otherwise nothing is written |
| Settlement.RefusedDiscoveryIsInvalid | src/service/canonical-relay-service.ts:368-384 | a found payment that fails the second check stays recorded under its hash as INVALID with the intent open |
| Settlement.UnpaidIntentWaits | src/service/canonical-relay-service.ts:386-440 | without a payment nothing happens inside the window; after it the slot is marked INVALID and the intent closed |
| Settlement.UnusableDiscoveryChangesNothing | src/service/canonical-relay-service.ts:345-366 | an unreadable or ambiguous history, or a hash another slot holds, is reported and changes nothing |
| Settlement.ReportedHashExactly | src/mission/coordinator.ts:166-198 | a reported hash is recorded PENDING in the open intent's slot exactly when the intent is for that path, its introduction still accepted, its window open and the hash not in another slot; a stale intent is only closed, anything else changes nothing |
| Settlement.ReconcileAnswersExactly | src/mission/coordinator.ts:200-214 | nothing is projected behind a failed flush, observation or repository read or from a FINAL hop whose introduction is gone; otherwise the answer is the mission's status with the slot or the projected hop |
| Settlement.CancellingExactly | src/service/canonical-relay-service.ts:185-196 | cancelling gives up the open intent exactly while no hash is in its slot |
| Freezing.FreezeExactly | src/service/canonical-relay-service.ts:289-315 | a freeze succeeds exactly when an intent is open within its window, every new rail asked for is shown funded, no hash is in the slot and the flush returns; it then adds exactly the keys asked for and no wallet, a stale intent is closed, anything else changes nothing |
| Freezing.PendingExactly | src/service/canonical-relay-service.ts:297-302 | the rails asked about are the first spelling of each nonempty key that is not frozen yet |
| WriteQueue.ReturnedFlushIsDurable | src/persistence/pg-relay-store.ts:106-145 | under any interleaving of mutations, writes, failures and flushes, a flush that returned left the database at least as new as the state it was called on, and writes never go back |
| WriteQueue.QuietFlushIsExact | src/persistence/pg-relay-store.ts:122-145 | with no mutation since the call, a returned flush left exactly the current state |
| WriteQueue.BarrierHoldsFromTheStart | src/persistence/pg-relay-store.ts:81-145 | both, for every run of a new process |
| WriteQueue.DrainedFlushEndsExactly | src/persistence/pg-relay-store.ts:122-134 | a flush that drained behind a recorded error clears it, writes the latest snapshot once more and, woken when that has settled, returns unless a write failed meanwhile; returned, everything mutated before it drained is in the database; without an error it returns at once |
| WriteQueue.FlushReturns | src/persistence/pg-relay-store.ts:122-145 | a flush whose turn has come returns durable once the jobs before it have settled, however they settled, if the writes after that succeed |
| WriteQueue.FailedOnlyBehindANewError | src/persistence/pg-relay-store.ts:122-134 | a flush fails only if, after it had drained and cleared the error, another write settled with one |
| WriteQueue.FailedFlushesMetANewError | src/persistence/pg-relay-store.ts:81-145 | the same for every run of a new process |
| WriteQueue.StepKeepsInv | src/persistence/pg-relay-store.ts:110-145 | flushes run one at a time, jobs in order, and without a recorded error the latest settled snapshot is stored |
| WriteQueue.PgWriteQueue.OnMutation | src/persistence/pg-relay-store.ts:102-120 | a mutation queues its snapshot |
| WriteQueue.PgWriteQueue.SettleWrite | src/persistence/pg-relay-store.ts:110-120 | the oldest write settles; a failure is remembered |
| WriteQueue.PgWriteQueue.CallFlush | src/persistence/pg-relay-store.ts:141-145 | a flush queues behind earlier flushes |
| WriteQueue.PgWriteQueue.Resume | src/persistence/pg-relay-store.ts:122-134 | drain, retry once after a failure, then return or fail; a return means durable |
| PgRelayTables.WriteSnapshot | src/persistence/pg-relay-store.ts:147-257 | upsert of committed live intents and live hops, then removal of intents at or below a FINAL sequence |
| PgRelayTables.WriteThenLoad | src/persistence/pg-relay-store.ts:147-280 | writing a valid snapshot and reloading gives every mission that still exists the same hops, current sequence and delivered holder, its open committed intent, and none at or below the last FINAL sequence, whatever the snapshot says of deleted missions |
| PgRelayTables.HopsReloadedExactly | src/persistence/pg-relay-store.ts:194-280 | a written hop comes back field by field, but without its nonce, with a null invitation filled, dated as when its slot was first written, and with the time its status keeps; other slots come back as before |
| PgRelayTables.AnotherReloadKeeps | src/persistence/pg-relay-store.ts:194-280 | a further restart changes nothing of a FINAL hop, and of another only the time it was included or refused |
| PgRelayTables.IntentsReloadedExactly | src/persistence/pg-relay-store.ts:147-280 | an intent is open after a restart exactly when the snapshot had it or an earlier row is at the next sequence; it is then that intent with a null invitation filled, or that row |
| PgRelayTables.SupersededIsBelowFinal | src/persistence/pg-relay-store.ts:236-249 | the pruned intents of existing missions are exactly those at or below the last FINAL sequence |
| PgRelayTables.OrphansAreSkipped | src/persistence/pg-relay-store.ts:150-164 | hop rows of missions that no longer exist are neither written nor changed |
| PgRelayTables.OrphanIntentsAreSkipped | src/persistence/pg-relay-store.ts:150-249 | intent rows of missions that no longer exist are never written or changed, only pruned |
| PgRelayTables.LoadExists | src/persistence/pg-relay-store.ts:260-280 | keyed tables can always be loaded, holders from FINAL rows only |
| PgRelayTables.WrittenFits | src/persistence/pg-relay-store.ts:147-257 | tables that hold nothing foreign to the run hold nothing foreign after a write, deleted missions in the snapshot or not, so later snapshots can be written over them |
| MissionRepository.FileMissionRepository.CreateMission | src/mission/file-repository.ts:92-101 | refuses an existing id, otherwise stores the record |
| MissionRepository.FileMissionRepository.CancelMissionPristine | src/mission/file-repository.ts:109-128 | the five refusals in order, otherwise CANCELLED |
| MissionRepository.FileMissionRepository.CreateDestinationClaim | src/mission/file-repository.ts:130-148 | one PENDING claim per unbound ACTIVE mission, token hashes unique |
| MissionRepository.FileMissionRepository.ClaimDestination | src/mission/file-repository.ts:168-211 | idempotent for the same wallet, lapses when due, binds the destination once |
| MissionRepository.FileMissionRepository.ExpireDueDestinationClaims | src/mission/file-repository.ts:213-226 | every due PENDING claim is closed and its mission touched, nothing else; the answer is their number |
| MissionRepository.FileMissionRepository.RevokePendingDestinationClaim | src/mission/file-repository.ts:228-243 | every PENDING claim of the mission is revoked, the mission touched if there was one; the answer is their number |
| MissionRepository.FileMissionRepository.CreateInvitation | src/mission/file-repository.ts:245-269 | refusals in order, otherwise one new invitation by the holder for the next sequence |
| MissionRepository.FileMissionRepository.ReissueInvitation | src/mission/file-repository.ts:277-312 | only EXPIRED invitations are reopened, without looking for another open one |
| MissionRepository.FileMissionRepository.AcceptInvitation | src/mission/file-repository.ts:332-358 | refusals in order, a due invitation is closed, otherwise ACCEPTED with its deadline |
| MissionRepository.FileMissionRepository.CloseInvitation | src/mission/file-repository.ts:360-388 | only open invitations are closed, each kind of closing under its own condition |
| MissionRepository.FileMissionRepository.ExpireDueInvitations | src/mission/file-repository.ts:390-408 | every due INVITED or ACCEPTED invitation is closed and its mission touched; the answer is their number |
| MissionRepository.FileMissionRepository.CompleteDirectFinalHop | src/mission/file-repository.ts:410-439 | arrival only for the bound destination at the next sequence, idempotent afterwards |
| MissionRepository.FileMissionRepository.CompleteFinalHop | src/mission/file-repository.ts:441-483 | the same through an ACCEPTED invitation, which becomes COMPLETED |
| MissionService.ReachMissionService.CreateMission | src/mission/service.ts:122-178 | the signature is for creating a mission; consent and self-delivery guards before the record |
| MissionService.ReachMissionService.CreateDestinationClaim | src/mission/service.ts:180-212 | creator only, unbound, no live claim |
| MissionService.ReachMissionService.ReissueDestinationClaim | src/mission/service.ts:214-234 | the signature names the mission; revokes before opening again |
| MissionService.ReachMissionService.ClaimDestination | src/mission/service.ts:254-301 | token, signature for its mission, status, expiry, self and route guards in order, then binding |
| MissionService.ReachMissionService.CancelMission | src/mission/service.ts:315-323 | the signature names the mission; refused after a recorded broadcast, revokes the claim afterwards |
| MissionService.ReachMissionService.CreateInvitation | src/mission/service.ts:325-368 | the signature names mission and next sequence; holder and route guards |
| MissionService.ReachMissionService.ReissueInvitation | src/mission/service.ts:370-412 | the signature names mission, invitation and next sequence; status, holder, sequence, active recipient and route guards in order |
| MissionService.ReachMissionService.AcceptInvitation | src/mission/service.ts:429-467 | the signature names the invitation; replay by the same wallet is harmless, route guard otherwise |
| MissionService.ReachMissionService.DeclineInvitation | src/mission/service.ts:469-472 | closes the invitation behind the token as declined |
| MissionService.ReachMissionService.WithdrawInvitation | src/mission/service.ts:474-489 | the signature names the invitation; holder only, refused after a recorded broadcast |
| MissionSafety.RecordWise | src/mission/file-repository.ts:109-243 | closing pending claims and moving invitations keeps every mission invariant |
| MissionSafety.ClaimBindsKeeps | src/mission/file-repository.ts:168-211 | binding happens through the latest claim, to a wallet other than the creator, and only when unbound |
| MissionSafety.ClaimCreatedKeeps | src/mission/file-repository.ts:130-148 | a new claim leaves at most one PENDING or CLAIMED claim per mission |
| MissionSafety.CompletionKeeps | src/mission/file-repository.ts:410-483 | a completed delivery arrives at the bound destination with sequence and hop count 1 and touches no other mission |
| MissionOps.OpKeeps | src/mission/service.ts:105-493 | every mission operation keeps the invariant, creators, bound destinations and terminal states, and none makes a mission ARRIVED |
| MissionEffects.CancelExactly | src/mission/service.ts:315-323 | cancelling succeeds exactly for the creator's signature on an ACTIVE mission with no open invitation and no recorded payment; it closes the mission and revokes its pending links, and a refused one changes nothing |
| MissionEffects.WithdrawExactly | src/mission/service.ts:474-489 | withdrawing succeeds exactly for the holder's signature naming an open invitation of a mission with no recorded payment |
| MissionEffects.RecordedPaymentStopsTheOwner | src/mission/service.ts:315-489 | with a hash in its slot neither the mission can be cancelled nor its introduction withdrawn: nothing changes |
| MissionEffects.AcceptExactly | src/mission/service.ts:429-467 | accepting succeeds exactly with a signature naming the link's mission, invitation and sequence, in time, on an ACTIVE mission, by a wallet off the route that is not the inviter and is the one invited, or again by the wallet that has it; a late one only closes the invitation |
| MissionEffects.DeclineExactly | src/mission/service.ts:469-472 | declining succeeds exactly while the invitation is neither accepted nor closed |
| MissionEffects.InviteExactly | src/mission/service.ts:325-368 | inviting succeeds exactly for the holder's signature naming the next sequence of an ACTIVE mission with no open invitation, under a new token, for nobody in particular or a wallet off the route |
| MissionEffects.InviteAgainExactly | src/mission/service.ts:370-412 | reissuing succeeds exactly for the holder's signature naming an expired invitation, under a new token, for the recipient of a live intent if there is one |
| MissionEffects.OpenClaimExactly | src/mission/service.ts:180-212 | a destination link can be opened exactly by the creator of an ACTIVE, unbound mission with no pending link, under a new token |
| MissionEffects.ReissueClaimExactly | src/mission/service.ts:214-234 | reissuing revokes the pending link and opens another, exactly for the creator's signature on an ACTIVE, unbound mission; under a token in use the pending link is revoked all the same |
| MissionEffects.ClaimDestinationExactly | src/mission/service.ts:254-301 | a destination is bound exactly with a signature naming the link's mission, in time, on an ACTIVE mission, by a wallet that is not the creator and off the route, or again by the wallet that has it; a late one closes every link that is due |
| MissionEffects.OpenMissionExactly | src/mission/service.ts:122-178 | a mission is opened exactly under a new id, with a destination only if it consented and is not the creator, and with exactly these fields |
| MissionEffects.ExpireClaimsExactly | src/mission/file-repository.ts:213-231 | claim expiry closes exactly the pending links whose time is over |
| MissionEffects.ExpireInvitationsExactly | src/mission/file-repository.ts:390-408 | invitation expiry closes exactly the unanswered invitations past their link and the accepted ones past their pass deadline |
| MissionEffects.OpStaysHome | src/mission/service.ts:105-493 | one mission's operation leaves every mission, invitation and claim of every other mission as it is, except that a destination link used too late closes all due ones |
| OpenInvitations.OtherOpsKeepOneOpen | src/mission/service.ts:105-493 | no operation but a reissue opens a second invitation of a mission |
| OpenInvitations.ReissueKeepsOneOpenExactlyWhen | src/mission/file-repository.ts:277-312 | a reissue keeps at most one invitation open exactly when it is refused or none of the mission was open |
| OpenInvitations.RunKeepsOneOpen | src/mission/file-repository.ts:245-312 | over every run whose reissues meet that condition each mission has at most one open invitation |
| OpenInvitations.TwoInvitationsAreOpen | src/mission/file-repository.ts:277-312 | a legal run that lets an invitation lapse, opens a second one and reissues the first: both are open |
| Coordinator.ReachMissionCoordinator.constructor | src/mission/coordinator.ts:26-34 | starts with no repair attempts and installs both guards of the mission service |
| Coordinator.ReachMissionCoordinator.ActivePassRecipient | src/mission/coordinator.ts:36-38 | the recipient of the open intent, if there is one |
| Coordinator.ReachMissionCoordinator.AuthorizePass | src/mission/coordinator.ts:48-164 | every guard, the reuse of a matching intent, the renewal of a stale one and the conflict, and no answer before the flush |
| Signatures.ForeignSignaturesChangeNothing | src/mission/coordinator.ts:48-121 | a request whose signature names another action, mission, sequence or invitation, or is not the holder's, is refused and changes nothing |
| Signatures.AuthorizesExactlyWhen | src/mission/coordinator.ts:48-164 | authorizing succeeds exactly when its flush returns and it is the holder's own signed request for an undelivered, bound, ACTIVE mission, along an accepted invitation before its deadline or none, with no other intent in its way; it hands out the live intent or opens exactly the one described, and a refused request changes nothing |
| Signatures.AuthorizableOpens | src/mission/coordinator.ts:122-163 | what it opens: an intent of this mission at sequence 1, from the signer to the bound destination, with the given nonce, distinct wallets, time and a commitment to every field, whether or not the flush returns |
| Signatures.AnsweredIsOwn | src/mission/coordinator.ts:48-164 | whatever an authorization answers is for the mission, the wallet and the invitation that were signed |
| Coordinator.ReachMissionCoordinator.BeginBroadcast | src/mission/coordinator.ts:166-174 | up to the await: an open intent, its commitment, and the path it was authorized on |
| Coordinator.ReachMissionCoordinator.CheckPath | src/mission/coordinator.ts:177-191 | after the repository's answer: the accepted invitation or the claimed destination, for the intent read before |
| Coordinator.ReachMissionCoordinator.FinishBroadcast | src/mission/coordinator.ts:193-197 | the relay's answer for the intent it reads now, hidden by a failed flush |
| Coordinator.ReachMissionCoordinator.RecordBroadcast | src/mission/coordinator.ts:166-198 | left undisturbed, the three stretches one after the other |
| Coordinator.ReachMissionCoordinator.ApplyNextFinalizedHop | src/mission/coordinator.ts:284-329 | projects the FINAL hop of the next sequence, introduced or direct |
| Coordinator.ReachMissionCoordinator.Reconcile | src/mission/coordinator.ts:200-214 | relay, then flush, then projection; a failure stops the rest |
| Coordinator.ReachMissionCoordinator.Visit | src/mission/coordinator.ts:242-279 | one turn of the sweep with its catch clause and its bookkeeping |
| Coordinator.ReachMissionCoordinator.ReconcilePending | src/mission/coordinator.ts:222-282 | every candidate is visited exactly once and the tally is that of the visits |
| System.ReachableStatesAreInStep | src/mission/coordinator.ts:48-329 | over every run with lagging writes, failed flushes, sweeps and crashes, both stores, the pending snapshots and the tables stay in step |
| System.ApplyKeepsSysInv | src/mission/coordinator.ts:48-329 | the same for one step from any such state |
| System.FinalClosesTheMission | src/core/relay.ts:126-135 | once FINAL, the recorded holder is the destination and no intent is open |
| System.PersistKeepsSysInv | src/persistence/pg-relay-store.ts:147-257 | writing any pending snapshot keeps the tables a faithful reload |
| System.ReloadIsGood | src/persistence/pg-relay-store.ts:260-280 | any reload is the snapshot the tables hold, valid and linked to the missions |
| System.ProjectionIsSafe | src/mission/coordinator.ts:284-329 | a projection completes a mission only for a FINAL first hop |
| System.RunKeeps | src/mission/coordinator.ts:48-329 | a property of state and log kept by every legal step holds after every legal run |
| System.LookupExists | src/persistence/pg-relay-store.ts:165-166 | the invitation lookup always has an answer, so no step is ruled out by it |
| Delivery.DeliveredOnceAsAgreed | src/mission/coordinator.ts:122-163 | at most one FINAL hop per mission: 100,000 Luna, hashed, confirmed, from the creator to the bound destination, and no hash in two slots |
| Delivery.NothingOpensAfterFinal | src/mission/coordinator.ts:48-164 | once FINAL every authorization fails and changes nothing |
| Delivery.FlushedFinalIsForever | src/mission/coordinator.ts:200-214 | a flushed FINAL payment stays the mission's only one through every run, crashes included |
| Delivery.ReconcileMakesFinalDurable | src/mission/coordinator.ts:200-208 | an acknowledged reconcile has made every FINAL hop it leaves durable |
| Delivery.ArrivedMeansPaid | src/mission/coordinator.ts:284-329 | ARRIVED means a FINAL payment to the new holder, live and after any reload |
| Delivery.ProjectionSucceedsExactlyWhen | src/mission/coordinator.ts:284-329 | one projection succeeds exactly when the hop is direct or its invitation is still ACCEPTED; then holder, sequence and status match the relay, otherwise nothing changes |
| Delivery.ProjectionExactly | src/mission/coordinator.ts:284-329 | a projection writes the mission one hop on at the hop's own confirmation time and completes its invitation, and nothing else; a missing mission is an error, a terminal or unpaid one is left alone |
| Delivery.CrashWindowRepair | src/mission/coordinator.ts:200-214 | one undisturbed reconcile repairs the crash window, and no later reconcile changes either store |
| Delivery.ReloadedDirectDeliveryProjectsExactlyWhen | src/persistence/pg-relay-store.ts:201-202 | after a write and reload a direct delivery projects exactly when no invitation row fills its column or that invitation is ACCEPTED |
| Delivery.ReloadedDirectIntentIsUsableExactlyWhen | src/persistence/pg-relay-store.ts:165-202 | after a write and reload an open direct intent answers the direct request and can be broadcast exactly when no invitation row fills its column; otherwise authorizing conflicts and broadcasting does not match |
| ConcreteRuns.AReloadedDirectIntentIsUnusable | src/persistence/pg-relay-store.ts:165-202 | a legal run with a withdrawn invitation, an open direct intent, a write and a restart: asking again conflicts and reporting the payment does not match |
| Delivery.MissionsMoveOneWay | src/mission/file-repository.ts:109-243 | over every run creators, bound destinations and the terminal states ARRIVED and CANCELLED never change |
| Delivery.MissionShape | src/mission/file-repository.ts:410-483 | ARRIVED exactly at sequence and hop count 1, otherwise both 0 and held by the creator, at most one live claim |
| AdapterGaps.FileAdapterAuthorizesExactlyWhen | src/mission/coordinator.ts:112-118 | with the file adapter's first claim, a direct request that passes with the latest one passes exactly when the two claims are the same, and is refused as unclaimed otherwise |
| AdapterGaps.FileAdapterRecordsExactlyWhen | src/mission/coordinator.ts:185-189 | the same for recording a direct broadcast of a bound mission |
| AdapterGaps.BlockedForGood | src/mission/file-repository.ts:162-211 | over every run of operations and projections behind the file adapter, a bound mission whose first claim is not the latest has every direct request refused |
| ConcreteRuns.AReissuedClaimBlocksTheFileAdapter | src/mission/file-repository.ts:162-166 | a legal run that reissues a claim and binds through the second: the latest claim lets the direct request pass, the file adapter's refuses it |
| AdapterGaps.FileAdapterProjectsExactlyWhen | src/mission/coordinator.ts:309-318 | with the file adapter's claim lookup a direct delivery projects exactly when the first claim is the latest |
| AdapterGaps.ExpiryStopsAnIntroducedDelivery | src/mission/file-repository.ts:390-408 | closing a due ACCEPTED invitation makes the projection of its FINAL hop fail |
| ConcreteRuns.AnIntroducedDeliveryIsStranded | src/mission/file-repository.ts:390-408 | a legal run in which the expiry sweep closes the introduction of a FINAL payment: it projected before and does not after |
| ConcreteRuns.AReloadedDirectDeliveryIsStranded | src/persistence/pg-relay-store.ts:201-202 | a legal run with a withdrawn invitation and a crash after FINAL: the direct delivery projected before the crash and does not after |
| ConcreteRuns.ACancelledMissionIsPaid | src/mission/file-repository.ts:109-128 | a legal run that authorizes, cancels while no hash is recorded and then discovers the payment: FINAL while CANCELLED |
| HonestRun.FinalMissionHasArrivedExactlyWhen | src/mission/coordinator.ts:200-214 | after an undisturbed reconcile a mission with a FINAL hop has arrived exactly when it already had, or was ACTIVE with a hop that is direct or whose invitation is ACCEPTED |
| HonestRun.AgreedPaymentArrives | src/mission/coordinator.ts:200-214 | from any reachable state a recorded payment made as agreed, direct or along a still accepted invitation, and final on the chain brings its mission to ARRIVED in one undisturbed reconcile |
| HonestRun.DiscoveryFindsTheAgreed | src/service/canonical-relay-service.ts:345-366 | a readable history whose only matching payment is the agreed one leads discovery to it |
| HonestRun.DiscoveredPaymentArrives | src/mission/coordinator.ts:200-214 | the same arrival for an agreed payment nobody reported, found by discovery |
| HonestRun.ADeliveryArrives | src/mission/coordinator.ts:48-329 | a concrete legal run of four steps from the empty system ends with the mission ARRIVED, at the sequence and holder of the relay |
| IntentSpacing.IntentsAreSpaced | src/mission/coordinator.ts:122-163 | after any authorization that leaves the mission with an intent, a reuse included, the next one is opened more than the validity window after that intent was; if the process may crash in between, that answer was flushed |
| IntentSpacing.RunKeepsHeld | src/core/relay.ts:303-305 | until its window is over an opened intent stays, with its nonce and every source, or its delivery is FINAL |
| IntentSpacing.FrozenRailsAreKept | src/service/canonical-relay-service.ts:284-315 | after an acknowledged freeze every reload has the intent with exactly the answered sources, and through every run it keeps them until its window is over or its delivery is FINAL |
| IntentSpacing.RunKeepsOrRenews | src/mission/coordinator.ts:122-163 | without a crash, the intent at the end of a run was there at its start, with every source it had, or was opened by an authorization on the way |
| Attaching.RecordingAttachesExactlyWhen | src/mission/coordinator.ts:166-198 | with any steps between a broadcast's awaits: recorded inside its intent's window the hash goes to that intent, or nowhere because of FINAL or a taken hash; later it goes somewhere exactly when an authorization came in between whose intent is open and not stale and the hash is free, and then to that one |
| StaleGuards.OldAnswersKeepReady | src/mission/coordinator.ts:48-164 | whatever the mission store answered earlier, authorizing with those answers keeps both stores and every pending snapshot in step |
| StaleGuards.OldAnswersAreAsGoodExactlyWhen | src/mission/coordinator.ts:48-164 | earlier answers that let a request pass lead to the same relay and the same reply as fresh ones exactly when those let it pass as well |
| StaleGuards.ACancelledMissionIsAuthorized | src/mission/coordinator.ts:48-164 | a legal run in which the mission is cancelled after the guards were asked: the intent is opened, and fresh answers would refuse it |
| FreezeOverlap.ProofsCarryOverExactlyWhen | src/service/canonical-relay-service.ts:215-315 | whatever the chain shows, rails proven for one intent are proven for another exactly when that one pays from all its wallets |
| FreezeOverlap.ARailOutlivesItsProof | src/service/canonical-relay-service.ts:289-315 | a legal run in which a mission is renewed with fewer wallets while a rail freeze waits: the rail is frozen into the renewed intent, for which the same chain does not prove it |
| Provenance.FinalHopsArePaidByTheirAuthorizers | src/service/canonical-relay-service.ts:198-343 | in every run each FINAL hop was settled by a step that saw its payment from a wallet named in an authorization its holder signed for this mission, this sequence and the invitation it names, or from an HTLC shown funded by such a wallet |
| Provenance.FreezeKeepsSources | src/service/canonical-relay-service.ts:289-315 | freezing never changes the frozen wallets, and every rail it adds was shown funded from them |
| Provenance.NewIntentWallets | src/core/relay.ts:137-168 | a new intent freezes exactly the normalised set of the holder and the given wallets, and no rail |
| Sweep.SweepIsolates | src/mission/coordinator.ts:216-282 | whatever happened to earlier missions, each candidate is found as the sweep began, and no sweep creates or alters an intent |
| Sweep.SweepCountsEveryCandidate | src/mission/coordinator.ts:238-281 | every candidate is checked, skipped or unreadable, and the tally counts exactly those |
| Sweep.SkippingSettledChangesNothing | src/mission/coordinator.ts:224-226 | while settled missions have ended, sweeping without them does what sweeping with them does |
| Sweep.SettledHaveEnded | src/mission/coordinator.ts:224-226 | in every reachable state the settled missions are ARRIVED or CANCELLED |
| Sweep.ReachableSweeps | src/mission/coordinator.ts:216-282 | from every reachable state, leaving the settled missions out changes nothing, missions not visited stay where they were, and no intent is created or altered |
| Sweep.VisitRepairsExactlyWhen | src/mission/coordinator.ts:242-279 | a visit reaches an INVALID broadcast exactly when the mission was planned as such and is pending or read as ACTIVE; then one attempt is booked, and arriving clears the book |
| Sweep.VisitSettlesExactly | src/mission/coordinator.ts:242-279 | a visit that does not fail settles the mission exactly when it has ended, or ARRIVED while an intent is open |
| Sweep.RepairsAreBounded | src/index.ts:127-145 | over every run with at most n sweeps at a time, a process repairs one mission at most 2 + n times |
| RepairRuns.OverlappingSweepsReachTheBound | src/index.ts:127-145 | for every n from one on, a legal run with at most n sweeps at a time in which a process repairs one mission exactly 2 + n times |
| Sweep.AtMostThreeRepairs | src/mission/coordinator.ts:227-235 | in every run from the empty system in which no two sweeps run at once, a process repairs one mission at most three times |
| SweepProgress.VisitsExactly | src/service/canonical-relay-service.ts:93-140 | of the ACTIVE missions a sweep visits exactly those beside a FINAL hop and those whose open intent has an empty, PENDING or INCLUDED slot or an INVALID hash with fewer than three repairs |
| SweepProgress.SweptPaymentArrivesExactlyWhen | src/mission/coordinator.ts:216-282 | after one full sweep from any reachable state, whatever the other visits meet, an ACTIVE mission whose recorded payment is as agreed and shown final has ARRIVED exactly when its slot was PENDING, INCLUDED, or INVALID with fewer than three repairs |
| SweepProgress.SweptDiscoveryArrivesExactlyWhen | src/mission/coordinator.ts:216-282 | the same for a payment nobody reported, where commitments differ: it arrives exactly when the slot was empty, PENDING or INCLUDED |
| SweepProgress.SweptFinalArrivesExactlyWhen | src/mission/coordinator.ts:216-282 | the same sweep brings an ACTIVE mission beside a FINAL hop to ARRIVED exactly when that hop can be projected |
| SweepProgress.CommitmentsKeepApart | src/service/canonical-relay-service.ts:345-366 | where open intents have different commitments and the histories agree on a hash, no other intent's discovery comes up with it |
| LeftoverRuns.ARenewedIntentIsNeverSwept | src/service/canonical-relay-service.ts:93-140 | a legal run that renews an intent in the slot an expired one left INVALID without a hash: one reconcile call would bring the paid mission to ARRIVED, and no sweep ever touches it |
| LeftoverRuns.AClosedIntentComesBack | src/persistence/pg-relay-store.ts:165-257 | a legal run in which an unpaid intent is closed and written, and after a restart is open again |
| MissionView.OfferedSendIsAccepted | src/service/mission-view.ts:182-223 | SEND_1_NIM is offered only to the holder of a mission with no live intent, recorded broadcast or FINAL hop, and a direct request arriving then is authorized |
| MissionView.OfferedPassIsAcceptedExactlyWhen | src/service/mission-view.ts:209-217 | after PASS_1_NIM authorizing succeeds exactly before the pass deadline and when an expired intent has the same invitation |
| ConcreteRuns.ALatePassIsRefused | src/service/mission-view.ts:209-217 | a legal run at whose end PASS_1_NIM is offered and authorizing it is refused with PASS_DEADLINE_EXPIRED |
| MissionView.CheckedPassIsAuthorized | src/mission/coordinator.ts:122-163 | past the guards the relay accepts exactly when an expired intent has the same invitation |
| MissionView.HolderIsOfferedExactly | src/service/mission-view.ts:182-220 | the whole table of what the holder of an ACTIVE mission is offered, by what the two stores hold |
| MissionView.PaymentsAreOfferedExactlyWhen | src/service/mission-view.ts:182-220 | SEND_1_NIM is offered exactly to the holder of an ACTIVE, bound, unpaid mission touched within a day, with no live intent and no invitation; PASS_1_NIM exactly when instead the invitation shown is accepted |
| MissionView.OnlyTheHolderActs | src/service/mission-view.ts:182-223 | nobody but the holder of an ACTIVE mission is offered to share, introduce or pay |
| MissionView.OthersAreOffered | src/service/mission-view.ts:151-223 | an anonymous viewer of a running mission is offered nothing, the destination a look at the route, an invited wallet to wait once it has accepted |
| MissionView.EndedMissionsOfferExactly | src/service/mission-view.ts:151-199 | a cancelled mission offers nothing; after the delivery the creator, the destination, the bridge and signed-in participants are offered a new route, anybody else, and whoever is still invited, a look |
| BroadcastCapability.MemoryBroadcastCapabilityStore.Issue | src/service/broadcast-capability.ts:48-59 | refuses a TTL that is not positive, prunes, then stores one unused capability |
| BroadcastCapability.MemoryBroadcastCapabilityStore.Prune | src/service/broadcast-capability.ts:106-111 | removes every expired record but the preserved token, nothing else |
| BroadcastCapability.MemoryBroadcastCapabilityStore.RequireValid | src/service/broadcast-capability.ts:74-104 | unknown, replayed, expired and mismatched tokens are told apart in that order |
| BroadcastCapability.MemoryBroadcastCapabilityStore.Consume | src/service/broadcast-capability.ts:65-72 | marks a valid token consumed before the caller goes on |
| BroadcastCapability.ConsumedAtMostOnce | src/service/broadcast-capability.ts:65-111 | a token is consumed at most once over any run with pruning, whatever the clock readings |
| BroadcastCapability.OtherTokensExactly | src/service/broadcast-capability.ts:48-111 | any call leaves every other token exactly as it is, unless that one has expired by the call's clock |
| BroadcastCapability.PresentedTokenExactly | src/service/broadcast-capability.ts:48-111 | issuing starts the token anew, a matching use before its time spends it, running out unspent ends it, anything else leaves it |
| BroadcastCapability.IssuedTokenIsAcceptedExactlyWhen | src/service/broadcast-capability.ts:48-111 | an issued token is accepted for its own binding exactly until it expires or is spent, whatever calls for other tokens come in between |
| MissionHttp.MissionHttpServer.AuthorizePass | src/service/mission-http-server.ts:410-446 | authorize, then issue a capability no longer lived than the intent |
| MissionHttp.MissionHttpServer.FreezePaymentRails | src/service/mission-http-server.ts:448-483 | assert the capability of the live intent at one clock reading, then freeze at another and wait for the flush |
| MissionHttp.MissionHttpServer.StartBroadcast | src/service/mission-http-server.ts:485-506 | up to the first await: consume the capability of the live intent, then the coordinator's first checks |
| MissionHttp.MissionHttpServer.Broadcast | src/service/mission-http-server.ts:485-508 | left undisturbed: the first stretch at one clock reading, the path check, and the recording at another |
| MissionHttp.ServingIsHandling | src/service/mission-http-server.ts:410-508 | serving a request leaves in the relay and the capability store what its handler leaves there |
| MissionHttp.IssuedTokenIsAdmittedExactlyWhen | src/service/mission-http-server.ts:410-508 | the token an authorization hands out lets a broadcast start exactly for the same mission, invitation, sequence, nonce and holder, before a quarter of an hour or the intent's window is over, and as long as it has not been spent |
| MissionHttp.FreezeNeedsItsToken | src/service/mission-http-server.ts:448-483 | a freeze goes through exactly with an unspent, unexpired token of the open intent, and does not spend it |
| MissionHttp.LateAnswersGetNoToken | src/service/mission-http-server.ts:410-446 | an authorization whose intent has no time left hands out no token |
| MissionHttp.AdmittedBroadcastIsForItsIntent | src/service/mission-http-server.ts:485-508 | an admitted broadcast spends its token, which was issued for the live intent; with any requests served before its hash is recorded, inside that intent's window the hash goes to it or nowhere, and later exactly to an open, fresh intent authorized in between, whose nonce is another |
| TokenRun.AValidTokenMeetsTheStaleBranch | src/service/canonical-relay-service.ts:175-183 | a legal run of requests in which a token is consumed before it expires and the relay, two milliseconds later, refuses the broadcast as stale and drops the intent |
| TokenRun.AValidTokenAttachesElsewhere | src/mission/coordinator.ts:176-194 | a legal run of requests in which the intent is renewed between the consumption of its token and the recording: the hash goes to the new intent |
| MissionHttp.ServingKeepsInv | src/service/mission-http-server.ts:410-508 | over every run of requests and restarts no capability outlives the intent it was issued for |
| MissionHttp.ReachableCapabilitiesEndInTime | src/service/mission-http-server.ts:410-508 | from a new process on, every capability ends within the window of the intent it was issued for, and every open intent carries its creation time |
| MissionHttp.SpentIsNeverAdmitted | src/service/broadcast-capability.ts:65-72 | a spent token is never admitted again in any later run |

## Left out

- `web/`, `src/mini-app/`, HTTP parsing, rate limits, idempotency cache, email sign-in, user directory: plumbing beside the protocol.
- The legacy `/relay` mutation surface (`src/service/http-server.ts`), which can create and cancel intents outside the coordinator: the run theorems of `System` are about the mission surface without it; `RelayTheorems.RunsAreSafe` covers the bare relay with it.
- The awaits inside authorize, freeze and reconcile are not steps of `System`: `StaleGuards.dfy`, `FreezeOverlap.dfy` and `Interleaving.dfy` treat them call by call.
- SQL text and indexes of the Postgres mission adapter, which also refuse a second invitation of a sequence: the file adapter's transitions are modelled, with the latest destination claim where the adapters differ.
- Verifying wallet signatures and challenges: what a verified signature is bound to is checked as in the code. Audit events, labels, notes, visibility and the redaction of views: they do not reach the payment.
- `getPublicView`, `isDormant`, `toPublicHop` and route entries: pure formatting of state that is modelled.
- Administrative deletion of missions is not a step of `System`; the theorems of `PgRelayTables` hold for the missions that still exist, and `PgRelayTables.OrphansAreSkipped` and `OrphanIntentsAreSkipped` say what writing does about the others.
- Address checksums and `normalizeNimiqAddress`: wallets enter normalised. Case mapping and whitespace are modelled for ASCII and the common space characters.
- UTF-8 decoding is a parameter of `RecipientData.NormalizeRecipientData`; only its values on ASCII bytes and that it never lengthens are used.
- JSON numbers are integers: Luna amounts, block numbers and timestamps in milliseconds.
- The clear-text tag branch of validation is modelled in `Relay.ValidateTransaction` but no mission intent uses it.
- A failed unique-index insert reaches the model as a failed write.
- HopCommitment.MaterialIsInjective: stated for fields without line breaks and wallets without commas, the separators of the pre-image.
- Crash steps reload the relay and reset the process-local books; the mission store is durable by itself.
