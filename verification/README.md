# Verified model of the Meter consensus node

This project models the parts of the Meter proof-of-value node whose correctness rests on
reasoning over whole runs, and proves what those parts promise:

* the **HotStuff-style pacemaker** of one replica — proposals, votes, timeouts, beats, the highest
  certificate, the two-chain commit, the draft map with its pruning — as a state machine, and as a
  class that updates its fields in place and is proved equal to it handler by handler;
* a **network** of such replicas with up to ⌊(n-1)/3⌋ arbitrary ones, each with its memory of
  validated certificates: order of certificates, agreement, and the four conditions it rests on —
  on votes, on bit arrays, on remembered certificates and on the hashes votes carry — each with the
  exact guard and a run that breaks agreement without it;
* the **vote managers** for block and timeout certificates, and the checks their receivers make;
* **building and validating blocks**: the packer's loop and the validator's loop over one abstract
  executor, and duplicate transactions across uncommitted drafts;
* the **chain store**: fork search, fork choice, the flat number index with its cache, and the
  block reader;
* **synchronisation** (common ancestor search), **proposal relay**, the **PoW pool**, the
  **priority cache**, the **gas limit** and the **auction list**.

Layout. Value models and their theorems: `Quorum`, `Blocks`, `Drafts`, `Pacemaker`, `CommitRuns`,
`ProposalRuns`, `ProtocolOrder`, `Acceptance`, `HandlerLaws`, `Network`, `CertificateMemory`, `Scenarios`, `AgreementRuns`,
`DoubleInclusion`, `Votes`, `GasLimit`, `Packing`, `Headers`, `ChainStore`, `TrunkIndex`, `BlockReader`, `Sync`, `SyncBounds`, `Relay`. Objects updated in
place, proved against those functions: `Replica`, `VoteManagers`, `PackerFlow`, `BlockChain`, and,
with their functions in the same file, `PowPool`, `PrioCache`, `Auction`.

## How the code is represented

* A consensus block is an inductive value that contains its parent, so its identifier fixes its
  content and its ancestors; hashing is injective. Chain-store headers are kept under explicit ids.
* A draft's object identity is a number (`handle`); its committed flag is membership of that number
  in a set. What the database returns is a field of the message being handled.
* A nil dereference sets `halted`, after which nothing changes.
* Verdicts of code outside the model — certificate and timeout-certificate validation, execution,
  signing, pool eligibility — arrive as fields of the message, and the network model then
  constrains them (`Network.Allowed`).
* Executing a transaction is a deterministic function value; a failed execution may leave a dirty
  state behind, which the packer must roll back.
* 32- and 64-bit arithmetic is written out wherever it can wrap.
* Lookups that an LRU cache may have evicted take the evicted keys as a parameter, so every
  statement holds for every eviction policy.

## What turned out to hold only under a condition

| promise | when it fails | exact condition proved |
|---|---|---|
| honest replicas agree | the vote guard lets a replica sign a second block at the height of its last vote (`AgreementRuns.GuardAdmitsConflict`) | votes stay single exactly when each repeats the last vote or goes above it: `Network.VoteStaysSingleIff` |
| honest replicas agree | a bit array longer than the committee: its extra bits are counted but no key is checked for them (`AgreementRuns.WideBitsConflict`) | a validated certificate stands for a quorum exactly when its bits within the committee are one: `Network.QuorumIffCounted` |
| honest replicas agree | a remembered certificate, of height 1 where no signature is checked, is accepted again for a block it does not name (`AgreementRuns.RememberedConflict`) | above height 1 a validated certificate verifies for a block exactly when it names it: `Network.VerifiesIffNames`; the condition is both, above height 1 and naming the parent |
| honest replicas agree | a replica puts the hash of whichever vote it visits last into the certificate it collects and acts on it without a check, so one arbitrary validator chooses the hash (`AgreementRuns.MixedHashConflict`) | the hash is backed by a quorum exactly when it is that of the block voted on: `Network.BackedIffTruthful`; a vote manager guarantees that exactly when the last vote of every voter carries it: `VoteManagers.IssuedNamesIff` |
| the last committed block only moves to descendants | a proposal directly on a committed but unflagged block (`Scenarios.UnflaggedCommitStepsBack`) | for every message: `CommitRuns.StepKeepsHistoryIff`; for a proposal: `CommitRuns.ProposalGuardIff` |
| the last committed draft is flagged and the map pruned | a commit ending at a stop-committee, known or unprocessed block (`Scenarios.UnflaggedCommitStepsBack`) | `DoubleInclusion.UpdateSettlesIff`; for every message but a beat: `DoubleInclusion.OrderlyStepIff` |
| a draft rebuilt from the store has its round | blocks after a jump or at the start of rounds on a KBlock | `HandlerLaws.RebuiltRoundIff` |
| the highest certificate is always comparable | a timeout carrying a certificate without a draft, same height, later round; the next proposal halts the replica (`Scenarios.UnpairedHalts`) | `ProtocolOrder.UnpairedReplacesIff` |
| the round counter never decreases | a proposal, vote or timer of the last 32-bit round (`Scenarios.LastRoundWraps`) | for every message: `ProtocolOrder.StepGoesBackIff` |
| a draft chain repeats no transaction | a fork whose first copy was pruned, which gets no vote (`Scenarios.PrunedForkRepeats`); a block whose state cannot be opened, so that nothing is checked, which gets votes (`Scenarios.UnopenedStateRepeats`) | for every accepted proposal: `DoubleInclusion.RepeatsIff`; on top of the committed chain: `DoubleInclusion.AcceptKeepsNoneTwiceIff`; for a block voted for: `DoubleInclusion.VotedIsNewIff` |
| a qualified gas limit is valid | parents well below the floor | `GasLimit.QualifyValidIff` |
| a packed block is accepted | header out of order, or an adopted transaction without a sender | `Packing.PackedBlockValidatesIff` |
| the number index follows the best block | every added block takes over its number, best or not (`TrunkIndex.SideBlockTakesNumber`) | `TrunkIndex.AgreesAfterIff` |
| the exponential step back ends | more than 2^31 blocks above the last common one (`Sync.SeekNeverEnds`) | `Sync.SeekEndsOnPrefixIff`, and for any answers `Sync.SeekEndsIff` |
| the binary search forward ends | the midpoint wraps in 32 bits and never reaches 2^31 | below a peak computed from start and head: `SyncBounds.HuntEndsIffBelowPeak`; if it ends it is right: `Sync.HuntIsRight` |
| the auction total is the sum of what is held | removals naming another amount than the stored one | `Auction.RunWorks` gives the difference exactly |

## Model

| member | source | states |
|---|---|---|
| Quorum.MajorityIsIntegral | block/block.go:132-145 | the floating-point two-thirds test is 3·votes ≥ 2·n for every non-empty committee |
| Quorum.QuorumsOverlap | block/block.go:132-145 | two quorums of any committee share more members than may be faulty |
| Quorum.QuorumsShareHonest | block/block.go:132-145 | two quorums share a validator outside any tolerated faulty set |
| Drafts.CommitReadyIsPathIff | consensus/pacemaker.go:195-207 | the batch collected by the upward walk is a parent-linked, escorted path from the last committed draft to the certified draft's parent exactly when the certified draft lies under it |
| Drafts.CommitChainOrdered | consensus/pacemaker.go:195-207 | in a commit history every block extends every earlier one and none occurs twice |
| Pacemaker.GetByEscortQC | chain/proposal_map.go:82-130 | the draft found for a certificate has its height and round; one from the map is filed under the named block and matches it by hash |
| Pacemaker.Accept | consensus/pacemaker.go:280-393 | an accepted proposal becomes a draft of that block, carrying its round, its certificate and its stored or draft parent |
| Acceptance.AcceptIff | consensus/pacemaker.go:280-393 | a proposal is accepted exactly when it is no lower than the last committed block, its parent is held, its certificate is valid, its round is 0 on genesis or a KBlock, the parent's plus one, or comes with a timeout certificate and rises, it stops the committee only after a KBlock or stop block, and, unless the state could not be opened, it shares no transaction with an uncommitted draft below and did not fail |
| Acceptance.VotesForIff | consensus/pacemaker.go:395-405 | a replica votes exactly on an accepted block it can sign, no lower than its last vote, with the last committed draft among itself and its nine nearest ancestors |
| Acceptance.RunBrings | consensus/pacemaker.go:280-582 | over every run of any messages each draft in the map was there at the start, is an accepted proposal whose round follows its parent's, or was built on a beat for the highest certificate |
| HandlerLaws.EscortIff | chain/proposal_map.go:82-130 | a certificate leads to the draft of the map it names by height, round and hash, and otherwise to the trunk block of its height as a committed draft |
| HandlerLaws.RebuiltRoundIff | chain/proposal_map.go:58-77 | a stored block is rebuilt in the round of the draft it was exactly when that was the round after its certificate's |
| HandlerLaws.RebuiltKeepsRound | chain/proposal_map.go:58-77 | so a block proposed without a jump on the block its certificate names comes back in the round it was proposed in |
| HandlerLaws.CommitKeepsIff | consensus/pacemaker.go:210-278 | committing a batch keeps exactly the drafts above every processed block of it that does not stop the committee, and those blocks |
| HandlerLaws.CommitFlagsIff | chain/proposal_map.go:142-166 | and flags exactly those blocks |
| HandlerLaws.CommittedNowIff | consensus/pacemaker.go:164-208 | a committing update passes on exactly the drafts above the last committed height on the path below the certified one, each with the certificate its child carries |
| HandlerLaws.StepRound | consensus/pacemaker.go:852-887 | every message leaves the round alone or goes on to the round after the one it is about, in 32 bits and never back except to 0 |
| HandlerLaws.LeavesRoundIff | consensus/pacemaker.go:395-461 | a round is left exactly for a vote cast, a certificate raised by a vote, or the own timer inside the committee |
| HandlerLaws.ProposalOutcome | consensus/pacemaker.go:373-418 | what a proposal refused, accepted or voted for leaves of map, voting height, highest certificate and last committed draft |
| HandlerLaws.VoteRaisesIff | consensus/pacemaker.go:420-457 | a vote raises the highest certificate exactly when it is at most one round behind, meant for this next proposer, for a draft held in that round, and completes a higher certificate |
| HandlerLaws.VoteOutcome | consensus/pacemaker.go:420-461 | any other vote changes nothing; that one makes its certificate the highest and moves no other counter but the round |
| HandlerLaws.TimeoutOutcome | consensus/pacemaker.go:554-582 | after a timeout message the highest certificate is the old, the completed or the sender's one, below neither the old one nor a paired sender's, and rounds and voting height stay |
| HandlerLaws.TimeoutCommits | consensus/pacemaker.go:563-570 | a certificate completed by a timeout message is not above the highest one afterwards, and what it commits is committed |
| HandlerLaws.BeatOutcome | consensus/pacemaker.go:504-552 | a beat acts exactly in its epoch or later, above the last round beaten and as proposer, and then adds the child of the highest certificate's draft with the chosen contents |
| CommitRuns.UpdateCommits | consensus/pacemaker.go:164-208 | a committing update appends exactly the collected batch, moves the last committed draft to the certified draft's parent and changes nothing outside map, flags and highest certificate |
| CommitRuns.UpdateIdle | consensus/pacemaker.go:164-208 | an update that does not commit leaves everything but the highest certificate alone |
| CommitRuns.UpdateDescendsIff | consensus/pacemaker.go:164-208 | a committing update moves the last committed draft to itself or a descendant, and extends the history, exactly when the certified draft lies under it |
| CommitRuns.OnCommitFrame | consensus/pacemaker.go:210-278 | committing only removes drafts and adds flags |
| CommitRuns.StepCoherent | consensus/pacemaker.go:280-582 | every message keeps the draft map keyed by block and linked by identifiers |
| CommitRuns.StepKeepsHistoryIff | consensus/pacemaker.go:280-582 | every message keeps the commit history gap-free, parent-linked and escorted exactly when the update it triggers is guarded |
| CommitRuns.RunKeepsHistory | consensus/pacemaker.go:164-278 | over every guarded run of any messages the concatenated batches are one commit history |
| CommitRuns.HistoryIsOneChain | consensus/pacemaker.go:195-207 | a commit history has consecutive heights, later blocks extend earlier ones, none repeats, each is escorted by a child's certificate |
| CommitRuns.ExtendedIsUnder | consensus/pacemaker_assist.go:26-40 | the bounded walk accepts only the last committed draft and its descendants |
| CommitRuns.ProposalGuardIff | consensus/pacemaker.go:395-405 | for a voted, committing proposal the commit stays under the last committed draft exactly when the proposal does not sit directly on it |
| ProposalRuns.OnCommitPrunes | chain/proposal_map.go:142-166 | a batch whose last block reaches pruning, whatever the others do, leaves nothing below the committed height, only the committed draft at it, and flags that draft |
| ProposalRuns.UpdateSettles | consensus/pacemaker.go:164-278 | a committing update under the last committed draft that ends at a draft reaching pruning leaves the map tidy around the new one |
| ProposalRuns.ProposalStep | consensus/pacemaker.go:280-418 | one proposal of any kind whose update, if any, is orderly keeps history and settled map and moves the last committed draft only to itself or a descendant |
| ProposalRuns.CommitLeavesLast | consensus/pacemaker.go:343-418 | a settled replica never commits on the last committed block's own certificate |
| ProposalRuns.OrderlyStep | consensus/pacemaker.go:164-582 | every message whose update stays under the last committed draft and ends pruning keeps history and settled map and moves the last committed draft only to itself or a descendant |
| ProposalRuns.ProposalOrderlyIff | consensus/pacemaker.go:395-405 | for a proposal that names its parent the vote guard gives the first half: it is orderly exactly when its commit ends pruning |
| ProposalRuns.OrderlyRunSettles | consensus/pacemaker.go:164-582 | over every orderly run of proposals, votes, timeouts, beats and round timeouts the batches are one history, the map stays settled and the last committed block only moves to descendants |
| ProposalRuns.ProposalsAreOrderly | consensus/pacemaker.go:280-418 | ordinary executed proposals need no guard: from a settled replica with prunable drafts every sequence of them is an orderly run |
| ProposalRuns.RegulateSettles | consensus/pacemaker.go:596-664 | a regulation on a committed draft, whatever other drafts the map still holds, starts settled on that draft with an empty history |
| ProposalRuns.RegulateEffect | consensus/pacemaker.go:596-664 | what a regulation resets, what it keeps of the map and flags, and the round it enters, outside the committee none |
| ProposalRuns.Regulated | consensus/pacemaker.go:596-664 | the state of a fresh node is the regulation of an empty map, settled on the best block with an empty history and voting height 0 |
| ProposalRuns.SpanCommitsOneChain | consensus/pacemaker.go:164-664 | from a regulation of any settled replica, every orderly run commits one chain on top of the best block |
| ProtocolOrder.ReplacesIffHigher | consensus/pacemaker.go:489-502 | a paired certificate replaces the highest one exactly when its (height, round) is greater |
| ProtocolOrder.UnpairedReplacesIff | consensus/pacemaker.go:489-502 | an unpaired certificate gets in exactly at the same height and a later round, and which comparisons then panic |
| ProtocolOrder.StepForward | consensus/pacemaker.go:402-461 | every regular message moves highest certificate, voting height, beat round and current round forward or leaves them |
| ProtocolOrder.RunForward | consensus/pacemaker.go:402-582 | the same over every run |
| ProtocolOrder.StepGoesBackIff | consensus/pacemaker.go:280-582 | for every message: the round decreases exactly when handling it leaves the last 32-bit round, so that the next one is 0 |
| ProtocolOrder.ProposesOncePerRound | consensus/pacemaker.go:504-552 | over every run proposals are built in strictly increasing rounds |
| Network.RunKeepsOrder | consensus/pacemaker.go:395-405 | in every run of the network each honest validator's signatures ascend in height |
| Network.CertificatesInOrder | consensus/pacemaker.go:395-405 | when blocks at two heights are certified, at least f+1 validators signed both and every honest one signed the lower first |
| Network.OneCertificatePerHeight | block/block.go:132-170 | without double signing at most one block per height has a quorum behind it, arbitrary validators counted for every block |
| Network.ValidatedBacked | consensus/reactor.go:694-778 | a validated certificate, remembered or not, whose bits within the committee are a majority is backed by a quorum of signers of the block it names |
| Network.VerifiesIffNames | block/block.go:147-188 | above height 1 a validated certificate verifies for a block exactly when it names it |
| Network.QuorumIffCounted | block/block.go:132-188 | above height 1 validation guarantees a quorum of signers exactly when the bits within the committee are a majority |
| Network.BackedIffTruthful | consensus/qc_vote_manager.go:89-117 | above height 1 a certificate collected from votes on a block, an arbitrary voter among them, has a quorum behind its hash in every run exactly when the hash is that of the block |
| CertificateMemory.MemoryRunIsNetRun | consensus/reactor.go:694-778 | every run of replicas that remember what they validated is a run of the network model, so its theorems hold with the memory |
| Network.VoteRooted | consensus/pacemaker.go:343-405 | an honest vote on a counted certificate that names the parent rests on a certified parent |
| Network.SupportedOnOneChain | block/block.go:147-170 | without double signing, of two blocks with quorums behind them the higher extends the lower |
| Network.RunKeepsTrust | consensus/pacemaker.go:164-208 | over every sound run, in which accepted certificates are counted, above height 1 and name the parent and collected ones carry the hash voted on, each honest commit has a child with a quorum behind it and honest votes rest on certified parents |
| Network.Agreement | consensus/pacemaker.go:164-582 | in every sound run with single votes any two blocks committed by honest replicas lie on one chain |
| Network.VoteStaysSingleIff | consensus/pacemaker.go:395-405 | a vote the height guard admits keeps the voter single-signed exactly when it repeats the last vote or goes above it |
| Network.AgreementIfVotesAdvance | consensus/pacemaker.go:395-405 | the same with the first condition as a guard on each vote: it repeats the last one or goes above it |
| AgreementRuns.GuardAdmitsConflict | consensus/pacemaker.go:395-405 | with counted certificates and named parents, three honest replicas following the vote guard commit conflicting blocks |
| AgreementRuns.WideBitsConflict | consensus/reactor.go:764-778 | with single votes and named parents, bit arrays longer than the committee let three honest replicas commit conflicting blocks |
| AgreementRuns.RememberedConflict | consensus/reactor.go:698-703 | with single votes and counted certificates, a certificate remembered from its own block and carried by another lets three honest replicas commit conflicting blocks |
| AgreementRuns.MixedHashConflict | consensus/pacemaker.go:554-582 | with single votes, counted certificates and named parents, one arbitrary validator out of four that attaches another hash to its vote lets honest replicas commit conflicting blocks |
| Scenarios.UnflaggedCommitStepsBack | consensus/pacemaker.go:210-278 | a run after which a guarded proposal moves the last committed draft back |
| Scenarios.UnpairedHalts | consensus/pacemaker.go:489-502 | a run in which a timeout makes an unpaired certificate the highest one and the next proposal voted for dereferences its missing draft |
| Scenarios.LastRoundWraps | consensus/pacemaker.go:395-418 | a proposal of the last 32-bit round takes a settled replica from round 2 to round 0 |
| Scenarios.PrunedForkRepeats | consensus/pacemaker_assist.go:112-140 | an honest run from a fresh node after which an accepted draft repeats a transaction whose first draft was pruned; it gets no vote |
| Scenarios.UnopenedStateRepeats | consensus/pacemaker_assist.go:102-109 | an honest run from a fresh node after which a proposal repeating its parent's transaction is accepted and voted for because the state of the best block cannot be opened |
| DoubleInclusion.AcceptedIsNew | consensus/pacemaker_assist.go:112-140 | an accepted, executed proposal above the last committed draft repeats no transaction of its chain |
| DoubleInclusion.RepeatsIff | consensus/pacemaker_assist.go:98-152 | an accepted proposal, executed, known or with no state, repeats a transaction of its chain exactly when its parent's chain does or its block slips through: a transaction in an ancestor that neither the walk nor the trunk lookup that were made could find, or one twice in a block that was not executed |
| DoubleInclusion.AcceptKeepsNoneTwiceIff | consensus/pacemaker.go:373-393 | accepting a proposal keeps every chain on top of the committed one free of repetitions exactly when it adds no draft there, was executed, or does not slip through |
| DoubleInclusion.UpdateKeepsNoneTwice | consensus/pacemaker.go:164-278 | commits and pruning keep every remaining draft chain free of repetitions |
| DoubleInclusion.UpdateSettlesIff | consensus/pacemaker.go:210-278 | a committing update leaves the last committed draft flagged and the replica settled exactly when it ends at a draft that reaches pruning |
| DoubleInclusion.OrderlyStepIff | consensus/pacemaker.go:280-582 | every message but a beat keeps the history and leaves the replica settled exactly when it is orderly |
| DoubleInclusion.StepKeepsSane | consensus/pacemaker.go:280-582 | every honest message of any kind keeps the invariants behind no double inclusion |
| DoubleInclusion.RunKeepsSane | consensus/pacemaker_assist.go:42-170 | over every honest run of proposals, votes, timeouts, beats and round timeouts the invariants behind it hold |
| DoubleInclusion.NoDoubleInclusion | consensus/pacemaker_assist.go:42-170 | from any sane start through every honest run of all five messages no transaction occurs twice on the committed chain or on any draft above it, and on a block voted for next exactly when it was executed or does not slip through |
| DoubleInclusion.VotedIsNewIff | consensus/pacemaker.go:395-405 | a block voted for by a sane replica repeats no transaction of its chain exactly when it was executed or does not slip through |
| DoubleInclusion.PlainRunIsHonest | consensus/pacemaker.go:280-418 | ordinary executed proposals are an honest run without further condition |
| DoubleInclusion.RegulateKeepsSane | consensus/pacemaker.go:596-664 | a regulation on the last committed or a stored block is again a sane start, other drafts in the map included |
| DoubleInclusion.RegulatedIsSane | consensus/pacemaker.go:596-664 | a fresh node on a chain without repetitions is a sane start |
| Replica.ProposalMap.GetOneByEscortQC | chain/proposal_map.go:101-130 | the loop over the map returns what the model function returns |
| Replica.ProposalMap.PruneUpTo | chain/proposal_map.go:142-166 | the pruning loop leaves exactly the drafts the model keeps and sets the same flags |
| Replica.Replica.ExtendedFromLastCommitted | consensus/pacemaker_assist.go:26-40 | the counting loop computes the bounded walk |
| Replica.Replica.UpdateQCHigh | consensus/pacemaker.go:489-502 | the in-place update is the model's, nil dereference included |
| Replica.Replica.OnCommit | consensus/pacemaker.go:210-278 | the commit loop is the model's |
| Replica.Replica.Update | consensus/pacemaker.go:164-208 | the prepending walk and the commit are the model's |
| Replica.Replica.ValidateProposal | consensus/pacemaker_assist.go:42-170 | the transaction cache walk and the checks are the model's |
| Replica.Replica.OnReceiveProposal | consensus/pacemaker.go:280-418 | the handler leaves exactly the modelled state |
| Replica.Replica.OnReceiveVote | consensus/pacemaker.go:420-461 | the handler leaves exactly the modelled state |
| Replica.Replica.OnReceiveTimeout | consensus/pacemaker.go:554-582 | the handler leaves exactly the modelled state |
| Replica.Replica.OnBeat | consensus/pacemaker.go:504-552 | the handler leaves exactly the modelled state |
| Replica.Replica.EnterRound | consensus/pacemaker.go:852-887 | the in-place round change is the model's |
| Votes.Recorded | consensus/qc_vote_manager.go:46-87 | until a certificate is issued the recorded signers are exactly the voters since the last cleanup |
| Votes.SealedIff | consensus/qc_vote_manager.go:46-87 | a key is sealed exactly while its distinct voters since the last cleanup are at least two thirds of the committee |
| Votes.IssuesIff | consensus/qc_vote_manager.go:67-75 | for every committee and run a certificate is issued exactly by the readable vote that brings the distinct voters since the last cleanup from below two thirds to two thirds |
| Votes.IssuedFromVoters | consensus/qc_vote_manager.go:46-117 | a certificate marks exactly the distinct voters, at least two thirds of the committee |
| Votes.OneCertificateBetweenCleanups | consensus/tc_vote_manager.go:40-79 | between two certificates for one key lies a cleanup that forgot it |
| Votes.CleanUpForgetsExactly | consensus/qc_vote_manager.go:119-135 | a cleanup forgets exactly the older keys |
| VoteManagers.Aggregate | consensus/qc_vote_manager.go:89-117 | bits, aggregate and hash of the loop over the votes, in whatever order the map is visited |
| VoteManagers.QCVoteManager.AddVote | consensus/qc_vote_manager.go:46-117 | the nested maps change as in the model and a certificate for that height, round and epoch is returned exactly when the key was open, the signature readable, three times the recorded votes reach twice the committee and the signatures aggregate; a failed aggregation seals the key all the same |
| VoteManagers.QCVoteManager.CleanUpTo | consensus/qc_vote_manager.go:119-135 | the deleting loops leave exactly the keys of blocks at or above the number |
| VoteManagers.TCVoteManager.AddVote | consensus/tc_vote_manager.go:40-106 | the same for timeout votes, failed aggregation included |
| VoteManagers.TCVoteManager.CleanUpTo | consensus/tc_vote_manager.go:108-123 | the deleting loops leave exactly the keys of the epoch or later |
| VoteManagers.VerifyQC | block/block.go:147-188 | the key-gathering loop decides the stated condition, height-1 exemption included |
| VoteManagers.VerifyTC | consensus/pacemaker_assist.go:177-218 | the key-gathering loop decides the stated condition |
| VoteManagers.VerifiesQCIff | block/block.go:147-188 | a certificate is accepted for a block exactly when the block is one of the first two and of its height, or the hash is the block's, the bits are two thirds and the aggregate is exactly one signature of it per marked member |
| VoteManagers.VerifiesTCIff | consensus/pacemaker_assist.go:177-218 | a timeout certificate is accepted exactly when it is of this epoch and round with their hash, marks two thirds and its aggregate is exactly one signature of that hash per marked member |
| VoteManagers.VerifiedTCIsSignedIff | consensus/pacemaker_assist.go:177-218 | an accepted timeout certificate holds every marked member's signature and stands for a quorum of signers exactly when the bits within the committee are two thirds |
| VoteManagers.IssuedQCVerifies | consensus/qc_vote_manager.go:46-117 | over every run a certificate built from proper votes passes its receivers' check and marks exactly the voters |
| VoteManagers.IssuedTCVerifies | consensus/tc_vote_manager.go:40-106 | the same for timeout certificates |
| VoteManagers.IssuedNamesIff | consensus/qc_vote_manager.go:46-117 | over every run, an issued certificate carries the hash of the block voted on, in whatever order the votes are visited, exactly when the last vote of every voter carries it |
| VoteManagers.IssuedIsCollected | consensus/qc_vote_manager.go:46-117 | over every run, with only the honest votes known to be proper, an issued certificate is one the network model lets a replica collect |
| VoteManagers.FullySignedIff | consensus/qc_vote_manager.go:89-117 | an issued certificate guarantees that every voter signed its hash exactly when the votes hold every voter's signature of it, as proper votes do |
| VoteManagers.VerifiedMeansSigned | block/block.go:147-188 | with unforgeable signatures a verified certificate satisfies the network model's check |
| VoteManagers.VerifiedIsCertified | block/block.go:147-188 | above height 1 a verified certificate whose bits within the committee are a majority stands for a quorum of signers |
| VoteManagers.VerifiedIsCertifiedIff | block/block.go:147-188 | and exactly then: otherwise the signatures in it may be all there are |
| VoteManagers.LongBitArrayVerifies | block/block.go:166-188 | bits beyond the committee are counted but have no key, so the previous statement needs its condition |
| GasLimit.QualifyStep | block/gas_limit.go:35-69 | above the floor no conversion overflows and the limit moves straight towards the goal, never past it |
| GasLimit.QualifyValidIff | block/gas_limit.go:18-44 | exactly when a qualified limit is valid, for all 64-bit inputs |
| GasLimit.MovesTowardsGoal | block/gas_limit.go:35-69 | over any number of blocks the limit moves monotonically, never overshoots and covers a least step per block |
| GasLimit.ReachesGoal | block/gas_limit.go:35-69 | it reaches max(target, floor) within an explicit number of blocks |
| GasLimit.NeverTurnsBack | block/gas_limit.go:18-69 | each block's limit lies between its predecessor and the goal and is valid |
| Packing.AdoptIff | packer/flow.go:72-128 | the packer takes a transaction exactly when body checks and replay step pass and its gas fits, and both sides go to the same place |
| Packing.AdoptsIff | packer/flow.go:72-128 | the packer takes a transaction exactly when it is for this chain, in its window, fits in 64 bits, is well formed, new, has its dependency met and executes |
| Packing.RefusalIff | packer/flow.go:72-90 | it calls the block full exactly when a transaction in its window does not fit and nine tenths are used, and one out of turn exactly when its window is ahead, it does not fit with a tenth left, or its dependency is unknown |
| Packing.ReplaysIff | consensus/reactor_validate.go:391-460 | the validator replays a transaction exactly when its sender is known, or zero in a KBlock, it is new, has its dependency met and executes |
| Packing.AdoptedEffect | packer/flow.go:114-128 | an adopted transaction leaves its receipt, its gas, its outcome and the state after it |
| Packing.PackedFields | packer/flow.go:131-175 | what a packed block says of itself, from the parent, the packer's choices and the adopted transactions |
| Packing.AdoptAllStaysReplayable | packer/flow.go:72-128 | after any offers, failed ones rolled back, the validator's replay of the adopted list gives the packer's state, receipts, gas and processed set |
| Packing.PackedBlockValidatesIff | consensus/reactor_validate.go:102-143 | for all offers and headers: the packed block is accepted, with the packer's state and receipts, exactly when its header is in order, field by field, and every adopted sender is known |
| Packing.PackedHeaderPasses | consensus/reactor_validate.go:145-175 | on an orderly parent, keeping time and frugal execution are enough for the header |
| Packing.PackedHeaderPassesIff | consensus/reactor_validate.go:145-175 | the header of a packed block passes exactly when time lies after the parent's and within ten seconds of now, the limit is at least a million and moved at most one 1024th, the gas used is within it, the score can rise, and the last KBlock does not go back and is the local one |
| Packing.ValidatedRises | consensus/reactor_validate.go:145-175 | along any chain of validated blocks timestamps and scores rise by at least one per block and the last KBlock never goes back outside the exempt epoch |
| Packing.ValidatedBounds | consensus/reactor_validate.go:145-175 | none of them used more gas than its limit, has a limit below a million, or lay more than ten seconds ahead |
| Packing.ValidatesIff | consensus/reactor_validate.go:102-143 | a block is accepted exactly when its header is in order and signed, its body is the committed one with the magic number and transactions of known senders for this chain in their windows, and its replay gives the gas, receipts and state it claims |
| Packing.PackedBlockValidates | packer/flow.go:131-175 | under those conditions and known senders every packed block is accepted |
| Packing.PackerGasLimitIsValid | packer/packer.go:74-79 | the packer's own limit is valid on any parent at or above the floor |
| Packing.PackerGasLimitMoves | packer/packer.go:74-79 | without a target the limit stays; with one it moves straight towards it by at most one 1024th |
| Packing.AllAdoptedIffReplays | consensus/reactor_validate.go:372-484 | the packer takes a whole list exactly when the validator replays it, its body checks pass and each declared gas fits at its turn |
| Packing.ReplayedAreNew | consensus/reactor_validate.go:391-433 | an accepted block runs no transaction twice and none already on the parent's chain |
| Packing.ReplayedInOrder | consensus/reactor_validate.go:434-447 | every dependency in an accepted block was met, unreverted, before its turn |
| PackerFlow.PackingFlow.constructor | packer/packer.go:45-72 | the context a flow starts with |
| PackerFlow.PackingFlow.Adopt | packer/flow.go:72-128 | the in-place adoption, with checkpoint and rollback, is the model's |
| PackerFlow.PackingFlow.Seal | packer/flow.go:131-175 | the sealed block is the model's, stop-committee blocks without transactions |
| PackerFlow.SelectTxs | consensus/pacemaker_propose.go:92-124 | the loop offers exactly the eligible transactions, in pool order, up to the first after which it gives up — the block full, or time up on one not merely out of turn — and takes those adopted |
| PackerFlow.EligibleTxsIff | consensus/pacemaker_propose.go:92-108 | eligible are exactly the pooled transactions called executable, of a sender not blacklisted, that no uncommitted draft below has |
| PackerFlow.CollectCached | consensus/pacemaker_propose.go:82-90 | the walking loop gathers exactly the transactions of the uncommitted drafts from the parent down |
| PackerFlow.BuiltBlockIsFresh | consensus/pacemaker_propose.go:82-124 | what is adopted from such a selection is new to the chain of the parent, as an honest beat needs |
| PackerFlow.SelectionIsFresh | consensus/pacemaker_propose.go:82-124 | so whatever the selection loop leaves in the flow is new to the chain of the parent |
| PackerFlow.ValidatedIsVerified | consensus/reactor_validate.go:372-447 | what the acceptance of a block establishes about its transactions is what the protocol model asks of an executed proposal |
| PackerFlow.ReplayBlock | consensus/reactor_validate.go:372-484 | the validator's loop computes the replay |
| Headers.WalkDown | chain/chain.go:701-746 | the two-headed walk finds the fork of two parent-linked chains, or that they have none |
| Headers.BuildFork | chain/chain.go:701-746 | terminates; succeeds exactly when the heads share an ancestor; the ancestor is the lowest one, trunk and branch are exactly the paths above it, oldest first and disjoint |
| Headers.ForkIsUnique | chain/chain.go:692-700 | the fork of two heads is unique |
| ChainStore.BestIsMaximum | chain/chain.go:671-690 | over any run, failed adds included, none of the first best block and all compared since has a higher score, or the same score and an id smaller by number and then hash |
| ChainStore.AddedIsBestIff | chain/chain.go:671-690 | an added block becomes best exactly when its score is higher, or the same with a smaller id |
| ChainStore.AddsIff | chain/chain.go:381-504 | a block is added exactly when its parent is stored, it is new or repeats a stored block just above the best one, and, when it would be best, it meets the best chain and brings a certificate |
| ChainStore.AddEffect | chain/chain.go:381-504 | what every add leaves of index, cache, best block, best certificate and store, failing ones included |
| ChainStore.SameBlocksSameBest | chain/chain.go:381-504 | two nodes that add the same blocks in any successful orders end with the same stored ids and the same best block |
| ChainStore.LookupIsIndexed | chain/ancestor_trie.go:133-148 | under any eviction and any run the cache never changes what a lookup returns |
| ChainStore.TouchCaches | chain/ancestor_trie.go:133-148 | a lookup that is not evicted is answered from the cache next time, and the cache holds only what is indexed |
| ChainStore.OpenedHolds | chain/chain.go:86-113 | a new chain holds genesis alone, best, indexed and cached at 0 |
| TrunkIndex.RootedMeet | chain/chain.go:701-746 | over one genesis the fork search cannot fail |
| TrunkIndex.StepRooted | chain/chain.go:381-504 | adding keeps everything stored rooted in genesis |
| TrunkIndex.AgreesAfterIff | chain/ancestor_trie.go:45-52 | adding a block keeps index and parent links in agreement exactly when it becomes best on an indexed chain, or stays aside off the trunk's numbers |
| TrunkIndex.NamedIffOnTrunk | chain/ancestor_trie.go:87-94 | a stored block below the best one is on the index exactly when it is on the trunk |
| TrunkIndex.SideBlockTakesNumber | chain/chain.go:381-504 | a block that loses the fork choice still takes over its number |
| TrunkIndex.StraightRunAgrees | chain/ancestor_trie.go:87-94 | in every run whose blocks extend the best one, under any eviction, looking up n gives the best block's ancestor at n |
| TrunkIndex.IndexIsTrunk | chain/chain.go:86-113 | so from an empty database on, as long as blocks extend the best one, every number up to it looks up the trunk block |
| BlockReader.ReadOnTrunk | chain/chain.go:863-914 | on the trunk a read gives exactly the next trunk block |
| BlockReader.ReadOffTrunk | chain/chain.go:863-914 | off the trunk and below the best block a read gives the abandoned branch, newest first and obsolete, down to the fork, then the first trunk block above it |
| BlockReader.ReadToFork | chain/chain.go:863-914 | from every stored position a read goes down to the fork, giving the branch as obsolete, and then on as from the fork |
| BlockReader.ReadAboveBest | chain/chain.go:863-914 | above the best block on its own branch a read gives that branch as obsolete and then whatever is indexed next, which may be the same block again |
| BlockReader.FeedStepUpToDate | chain/chain.go:863-914 | one step keeps a reader up to date and a read that is behind moves on by one block |
| BlockReader.ReaderSeesTrunk | chain/chain.go:863-914 | however reads interleave with blocks extending the best one, each later trunk block is given once and in order |
| BlockReader.ReaderFromGenesis | chain/chain.go:863-914 | a reader started at genesis of a new chain has been given exactly the trunk up to its position |
| BlockChain.Chain.constructor | chain/chain.go:86-113 | a new chain stores genesis as best block and indexes it at 0 |
| BlockChain.Chain.Choose | chain/chain.go:456-493 | the fork choice, its verdicts and the reported fork, with what has changed when it fails |
| BlockChain.Chain.AddBlock | chain/chain.go:381-504 | verdict, new state and reported fork, for every error path, including what is already changed when it fails |
| BlockChain.Chain.GetAncestor | chain/ancestor_trie.go:133-143 | the cached lookup returns the indexed id and changes only the cache |
| BlockChain.Reader.Read | chain/chain.go:863-905 | the loop returns the modelled reading and leaves the modelled position, failures included |
| Sync.SeekEndsIff | comm/sync.go:161-181 | the doubling loop ends, within 33 turns, exactly when one of its 33 distances gives a reason; otherwise never |
| Sync.SeekEndsOnPrefixIff | comm/sync.go:161-181 | on chains that agree on a prefix it ends exactly when the last common block is within 2^31 of the head |
| Sync.SeekNeverEnds | comm/sync.go:161-181 | a head of 2^31 + 1 over a common genesis for which it goes on for ever |
| Sync.LowHeadStops | comm/sync.go:161-181 | up to 2^31 the distance reaches the head before it wraps |
| Sync.FastSeek | comm/sync.go:161-181 | the loop's result, an agreeing number or 0, with logarithmically many probes |
| Sync.FindIsLast | comm/sync.go:135-159 | the binary search returns the last agreeing number of its range |
| Sync.FindProbes | comm/sync.go:135-159 | with logarithmically many probes whatever the peer answers |
| Sync.FindEndsHunt | comm/sync.go:135-159 | up to 2^31 the calls with 32-bit midpoints end with the result of the binary search |
| Sync.HuntIsRight | comm/sync.go:135-159 | for every 32-bit head, whatever wraps, a search that ends gives the last agreed number |
| Sync.HuntEndsIff | comm/sync.go:135-159 | above 2^31 it ends exactly when a midpoint of its climb passes the last agreed number, and never when that number is 2^31 or more |
| SyncBounds.HuntEndsIffBelowPeak | comm/sync.go:135-159 | and that is exactly when the last agreed number is below the highest midpoint among the first head + 1, which start and head determine |
| SyncBounds.LowTopEnds | comm/sync.go:135-159 | in particular below half of the head, unless the head is the last 32-bit number |
| Sync.FindCommonAncestor | comm/sync.go:117-191 | for heads up to 2^31: the greatest agreeing number, an error only on a failed probe, logarithmically many probes |
| Sync.TrunksAgreeOnPrefix | comm/sync.go:122-132 | since ids fix parents, two trunks over one genesis agree on exactly a prefix |
| Sync.FindForkPoint | comm/sync.go:117-191 | so over two such trunks the search returns the last number they agree on |
| Relay.FedBy | consensus/reactor_relay.go:16-54 | position j > 0 is fed by position ⌊(j-1)/8⌋ above eight members, and by the proposer otherwise |
| Relay.RelayPeersAt | consensus/reactor_relay.go:16-54 | the positions every position passes on to: everyone up to eight members, then eight each from the upper quarter and four each from the rest |
| Relay.NoThirdLayer | consensus/reactor_relay.go:31-48 | the last layer of the fan-out is never used |
| Relay.RotationInverts | consensus/reactor_relay.go:56-82 | relative positions and committee indexes name each other for every round |
| Relay.RelayCovers | consensus/reactor_relay.go:16-82 | for every size and round all members are reached from the proposer, within d passes when the size is at most 8^d |
| Relay.CalcRelayPeers | consensus/reactor_relay.go:16-54 | the appending loops give the modelled peers |
| Relay.GetRelayPeers | consensus/reactor_relay.go:56-82 | the rotated peers are the modelled ones |
| PowPool.MarkerIsGreatest | powpool/pow_object_map.go:36-46 | after any run the marker holds exactly the highest objects put in since the last flush, in order |
| PowPool.InsertedIsHeld | powpool/pow_object_map.go:64-79 | without removals those are exactly the objects in the pool |
| PowPool.HeldIff | powpool/pow_object_map.go:64-158 | after any run the pool holds exactly the ids offered when they could be taken and neither removed nor flushed since |
| PowPool.AccountIsFair | powpool/pow_object_map.go:188-247 | every account pays each object's beneficiary the coefficient times its difficulty, in all the coefficient times the total, with its raw block, along a hash-linked chain bounded by the height gap and 3000 |
| PowPool.KframeChainIsComplete | powpool/pow_object_map.go:188-247 | an object linked in the pool down to the first object, by no more blocks than the height gap and 3000 allow, is accounted with exactly those blocks |
| PowPool.BrokenChainIsIncomplete | powpool/pow_object_map.go:231-246 | a block missing before that makes the account incomplete |
| PowPool.CompleteIff | powpool/pow_object_map.go:231-246 | an account is complete exactly when some descent comes to the first object within the room or fills the room |
| PowPool.DecisionIsHardest | powpool/pow_pool.go:282-298 | no descent that could be accounted from a latest object has more difficulty than the one decided for |
| PowPool.PowObjectMap.InitialAddKframe | powpool/pow_object_map.go:93-119 | the first object is taken once per epoch |
| PowPool.PowObjectMap.AddObject | powpool/pow_object_map.go:121-147 | objects are refused before the first one and duplicates ignored |
| PowPool.PowObjectMap.RemoveObject | powpool/pow_object_map.go:149-158 | removal leaves the marker alone |
| PowPool.PowObjectMap.Clear | powpool/pow_object_map.go:249-257 | a flush empties pool, marker and first object |
| PowPool.PowObjectMap.FillLatestObjChain | powpool/pow_object_map.go:188-247 | the walk accounts exactly the covered objects and is complete exactly at the first object or at its limit |
| PowPool.PowObjectMap.GetPowDecision | powpool/pow_pool.go:264-307 | a decision is made exactly when the latest objects are sixty blocks above the first one and one of them can be accounted, for the first of the most difficult ones |
| PrioCache.RootIsLowest | cache/prio_cache.go:110-116 | heap order puts a lowest priority at the root |
| PrioCache.Heap.Swap | cache/prio_cache.go:133-137 | swapping keeps every entry's index its slot |
| PrioCache.Heap.Up | cache/prio_cache.go:41-65 | raising restores heap order and only rearranges |
| PrioCache.Heap.Down | cache/prio_cache.go:86-95 | lowering restores heap order, or says that only the way up is left |
| PrioCache.Heap.Push | cache/prio_cache.go:139-143 | one entry more, in order, indexed |
| PrioCache.Heap.Pop | cache/prio_cache.go:145-151 | the root leaves, the rest stays in order and indexed |
| PrioCache.Heap.TakeOut | cache/prio_cache.go:86-95 | the same for any slot |
| PrioCache.Cache.Set | cache/prio_cache.go:41-65 | map and heap hold the same entries within the limit; an overflow drops an entry of lowest priority, the new one included |
| PrioCache.Cache.PopLowest | cache/prio_cache.go:110-116 | drops an entry of lowest priority from map and heap |
| PrioCache.Cache.Remove | cache/prio_cache.go:86-95 | removes exactly the key and returns its entry |
| PrioCache.Cache.Get | cache/prio_cache.go:68-75 | returns what the key holds |
| PrioCache.Cache.CountsKeys | cache/prio_cache.go:34-38 | the length is the number of keys |
| Auction.RunWorks | meter/auction_cb.go:53-140 | after any run the list is strictly sorted, holds what a plain map would, and the total differs from the sum exactly by what removals gave back wrongly |
| Auction.ReceivedIsSum | meter/auction_cb.go:53-73 | with amounts fixed by id the total is the sum of what is held |
| Auction.AuctionCB.IndexOf | meter/auction_cb.go:75-96 | the binary search finds the slot, or the place to insert |
| Auction.AuctionCB.Get | meter/auction_cb.go:98-104 | the search agrees with a plain finite map |
| Auction.AuctionCB.AddAuctionTx | meter/auction_cb.go:53-62 | the in-place insertion is the model's and keeps the list sorted |
| Auction.AuctionCB.RemoveAuctionTx | meter/auction_cb.go:65-73 | the in-place removal is the model's and keeps the list sorted |

## Left out

- BLS, ECDSA, Blake2b and SHA-256: signatures are an unforgeable "validator i signed h" relation and hashes are injective.
- RLP, amino and JSON encodings, and the parse of the bit-array string.
- The EVM, state, trie, transaction pool and governor: execution is an abstract deterministic function, pool verdicts are inputs.
- Epoch change and the bootstrap, hard and staging committee fallbacks of certificate validation: the protocol theorems hold for one committee; a regulation is the state it leaves (ProposalRuns.Regulate), without the vote managers and timers it resets.
- Timers, channels, goroutines, queues, HTTP, peer discovery, LevelDB, metrics and logging: a handler call is one atomic step.
- Timeout certificates as the highest known one and answers to queries (chain/proposal_map.go:29-48): they do not take part in commits.
- Heights of 2^32 and above, and a chain-store block with the last 32-bit number.
- The signature bytes of an arbitrary validator's vote that a replica collects: it counts as a voter whatever they are, and a hash that is no block's counts as that of an unknown block.
- Network.Agreement: states agreement under four conditions — no honest validator signs two blocks at one height, accepted certificates have a majority within the committee, they are above height 1 and name the parent, and collected ones carry the hash of the block voted on — because without any one of them the property is false (AgreementRuns); their exact guards are Network.VoteStaysSingleIff, Network.QuorumIffCounted, Network.VerifiesIffNames and Network.BackedIffTruthful.
- Network.AgreementIfVotesAdvance: the same conditions on certificates.
- Network.RunKeepsTrust: the same conditions on certificates.
- Network.VoteRooted: the same conditions on the one certificate it is about.
- Network.ValidatedBacked: only for a majority within the committee; Network.QuorumIffCounted shows that nothing less is enough.
- VoteManagers.VerifiedIsCertified: the same condition, exact by VoteManagers.VerifiedIsCertifiedIff.
- ProposalRuns.ProposalStep: only for an orderly update, exact by DoubleInclusion.OrderlyStepIff.
- ProposalRuns.OrderlyStep: the same; a beat must build a new block, since one already in the map would replace its draft.
- ProposalRuns.OrderlyRunSettles: the same at every step.
- ProposalRuns.SpanCommitsOneChain: the same, from a regulation on a draft that is stored or flagged; an unflagged one is the case of Scenarios.UnflaggedCommitStepsBack.
- DoubleInclusion.NoDoubleInclusion: over orderly runs in which no draft on top of the committed chain slips through, exact by DoubleInclusion.OrderlyStepIff and DoubleInclusion.AcceptKeepsNoneTwiceIff, and with a store that holds the committed chain.
- Replica.Replica.OnReceiveTimeout: collecting the timeout certificate, which VoteManagers.TCVoteManager.AddVote models, and the beat it schedules are not part of the handler.
- Packing: KBlock transaction matching by unite-hash, KBlock proof-of-work checks and the errors of signing, staging and seeking; the packer's 0.9 fill test is over reals.
- Packing.PackedBlockValidates: assumes that receipts use no more gas than declared and that limit plus declared gas stays below 2^64; Packing.PackedBlockValidatesIff assumes neither.
- Sync.FindCommonAncestor: states nothing for heads above 2^31, where its loops may not end; Sync.SeekEndsIff and SyncBounds.HuntEndsIffBelowPeak say exactly when they do, and Sync.HuntIsRight that the result is then right.
- Sync.FindForkPoint: the same.
- Sync.FastSeek: requires that the loop ends, which is exactly the condition Sync.SeekEndsIff proves.
- ChainStore: database errors, receipts and transaction metadata, best proof-of-work nonce, block pruning and the deprecated trie index.
- PowPool: the coefficient is a given non-negative integer and a block's difficulty a given number; the floating-point coefficient decay and the replay of missing blocks are not modelled.
- PrioCache: priorities are real numbers, so NaN is not modelled; the heap operations are those of Go's container/heap.
- Auction: the other sorted lists of the same package repeat this code.
- Peer names and addresses in the relay list.
