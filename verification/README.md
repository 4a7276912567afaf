# NeuronChain ledger: a model in Dafny and its properties

NeuronChain is a block lattice that runs in browsers: every account has its own chain of signed blocks, a transfer is
a send block on one chain and a receive block on another, blocks are confirmed at once, and stake-weighted votes are
taken only when two blocks name the same parent. Accounts that offer storage mint a daily reward. This project models
the ledger, the vote manager, what a node does with both, and five smaller algorithms (chunked content, provider
selection, Base58, the per-peer token bucket, PIN backoff), and proves properties of them. Check everything with
`dafny verify dfyconfig.toml`.

## How the model is built

The ledger is described twice. `LedgerState`, `Votes` and `Nodes` describe it as values: what `addBlock`, `castVote`,
`processConflicts` and `registerAccount` make of a state, and runs of any such calls in any order. `DagLedger`,
`VoteManager` and `NeuronNode` are classes with the source's fields and loops, updated in place; each method is proved
to take the state to exactly what the value description says, so every theorem about runs is a theorem about the
classes. The theorems are about runs:

- *append-only* runs, forks allowed: nothing stored is rejected and no chain exceeds 5000 blocks;
- *lineal* runs: besides, parents belong to the same account and no two stored blocks of an account share a parent;
- *every* run: with forks, rejections, pruning, resubmissions, votes in any order and any clock.

| modules | subject |
|---|---|
| `DagBlock`, `LedgerState`, `Votes`, `Nodes` | blocks, ledger, votes and runs as values |
| `Consistency`, `Signatures`, `Keys`, `Profiles`, `Refusals` | what is accepted, signatures, key rotation, profiles, reasons of refusal |
| `Lineage`, `Conservation`, `Convergence` | ancestry, supply, order independence |
| `Creators`, `Requests` | block creators: acceptance of what they make, and what it does |
| `Snapshot`, `Bootstrap`, `Rejection`, `Health` | replay, undo, invariants of every run |
| `Rewards`, `RewardFigures`, `Terms` | heartbeats, capacity, what a reward amounts to |
| `VoteSafety`, `VoteCounting`, `VoteAgreement`, `NodeVotes` | slot safety, finality, which votes count, agreement between nodes |
| `VoteManager`, `DagLedger`, `NeuronNode` | the classes |
| `SmokeStore`, `StorageManager`, `Base58`, `PeerLimiter`, `PinCrypto` | the smaller algorithms |
| `Scenarios`, `LedgerScenarios`, `VoteScenarios`, `StorageScenarios` | concrete runs in which what the theorems exclude happens |

## What is assumed

- Blocks that hash alike have the same account and the same parent (`CollisionFree`), wherever a theorem says so; no
  theorem needs more of the digest. `Scenarios.PlainExists` exhibits an environment that meets it. The slot key
  `accountPub:previousHash` is the pair of its parts.
- Signature checks are uninterpreted functions of the environment; the creators' theorem assumes that a key pair's
  signatures verify under its own public key (`KeysBelongTo`).
- Content hashes do not collide and decryption inverts encryption (`Faithful`).
- The clock is a parameter of each call. `addBlock` is one atomic step, although the source awaits inside it.
- JSON payloads are datatypes: unparsable, or the properties that are read; whatever else the text holds is one string
  that the block hash covers.
- Balances, timestamps and epochs are integers with the source's safe-integer bounds; GB figures, scores and the uptime
  factor are exact reals instead of doubles; the vote threshold is `3 * approve >= 2 * total`; tokens are counted in
  hundredths. Insertion orders of JavaScript Maps and Sets that are observable are kept as sequences.

## Where the code does not do what is said of it

The model follows the code. Where a promise fails, a theorem says exactly when it holds and a concrete run shows it fail.

- README.md:187 asks for more than two thirds of the non-abstain stake. The code divides the leader's approve stake by
  the leader's own tally, not by the stake of the whole conflict, and accepts two thirds (src/core/vote.ts:183-185).
  `QuorumAndCode` compares the two in every reachable state: a documented quorum is always decided for, at any clock;
  before the timeout the code decides without one exactly when the leader has at least two thirds of its own tally and at
  most two thirds of the conflict. `TwoThirdsDecide` is a run at exactly two thirds, `HalfDecides` one in which half of
  the stake decides.
- README.md:185 calls the choice deterministic. It is when all counted votes come from nodes that see all siblings
  (`NetworkAgrees`); `NetworkSplits` has two nodes with the same blocks that decide differently, after one vote each, one
  of which breaks the rule.
- README.md:187 names the earliest timestamp as the winner after the timeout. The code takes the greatest approve stake,
  the first registered of equals: `DecidesForIff` says when a sibling wins, `TimeoutPicksLater` is a run in which the
  later block does. `voteIfConflict` votes only on the block that arrives, so a node that stores the earliest sibling
  first never approves it then; `DecidesExactly` says what becomes of a slot with no such approval.
- README.md:188 says the rejected chain is rolled back. Only the rejected block is removed. Its children keep their
  parent exactly when there are none (`ParentsSurviveIff`), receives keep their send exactly when none names it
  (`BackingSurvivesIff`), and a receiver of a rejected send keeps the amount (`RejectedSendKeepsCredit`).
  `RejectedChain` is a run in which all three happen. A rejected send stays in the unclaimed map, where no further
  receive can use it (`RejectedSendStaysListedButUnreceivable`). A key brought by a rejected update block stays in force
  (`KeyOfEveryRun`).
- Conservation holds throughout an append-only run exactly when no stored block opens a gap (`ConservedIffNoGaps`): a
  receive of a send already claimed (`ClaimedTwice`), or a parent whose balance is not the account's own, such as a block
  of another account (`ForeignParent`) or an older block of a fork (`ForkedSupply`). `addBlock` accepts all of these.
- Rejecting a block that was just added does not undo all of it: `RejectUndoesBlock` says for each kind what comes back.
  A receive's rejection restores the unclaimed map exactly when the send had not been claimed before
  (`RejectUndoesReceive`); later, the map is exact again exactly when no other receive names the send
  (`LaterRejectionIff`).
- A rejected block that is submitted again is stored again: `RejectedStayOutIff` has the exact condition,
  `RejectedSendReturns` is a run.
- src/core/dag-block.ts:146 says one reward a day. A repeated reward is refused exactly when the current term, since the
  last deregistration, holds one (`AlreadyRewardedIff`); `RewardedTwice` is a run with two for one epoch. Blocks of the
  create functions keep the promise (`CreatorRunRewardsOnce`).
- The minimum interval of heartbeats is enforced exactly against the current term's last heartbeat, and only when its
  timestamp is positive (`TooSoonIff`): `SpacingForgotten` is a run with two heartbeats at one time, and
  `ManyHeartbeats` gives runs with any number of them in epoch 0.
- A replayed snapshot is accepted in full exactly when every quantum-safe signature verifies under the key its account
  has at that point of the replay (`SnapshotReplays`); `StaleSnapshot` is a run whose own snapshot is not.
- src/core/dag-block.ts:110 and src/core/dag-ledger.ts:477 let a testnet open block pass with no relay credential;
  src/core/dag-ledger.ts:490 demands one (`AcceptedIffAdmissible`, and `OpeningNeedsCredential` for such a block).
- src/core/pin-crypto.ts:22 gives the backoff exponent as attempt minus 3; the code uses attempt minus 4 (`TotalDelay`).

## Model

| member | source | states |
|---|---|---|
| DagBlock.ValidateBlockStructure | src/core/dag-block.ts:256-369 | passes exactly the blocks that carry what their kind requires, follow their parent by one index and its hash, and move its balance by exactly the block's amount within 0..2^53-1 |
| DagBlock.ValidatePayload | src/core/dag-block.ts:277-368 | passes exactly the complete payloads whose balance is the parent's plus the amount moved |
| Consistency.AcceptedIffAdmissible | src/core/dag-ledger.ts:431-502 | a block is stored if and only if it is new, its hash is the digest of its fields, its signature verifies under its account to exactly that hash and its quantum-safe signature under the registered key, it is structurally sound, and: a receive names a stored send to its account of its amount; a reward is for a new epoch, an account registered at its start and with heartbeats in it, and within what they allow; a heartbeat comes from an active provider, spaced and not from the future; an opening is the account's first and has enough endorsements |
| DagBlock.HashCovers | src/core/dag-block.ts:167-192 | two blocks have the same text under the hash if and only if they agree in every field but hash, signatures and credentials |
| Refusals.RefusedBecause | src/core/dag-ledger.ts:431-494 | a block is reported as stored exactly when it is, and every other refusal names something that is so of the block, its parent or the ledger, for each of the reasons |
| Signatures.EveryStoredBlockIsSigned | src/core/dag-ledger.ts:438-440 | in every run every stored block carries a signature of its own account over its own hash |
| Signatures.EveryChainIsSigned | src/core/dag-block.ts:245-254 | only the key of an account extends its chain |
| Signatures.UnsignedIsRefused | src/core/dag-block.ts:245-254 | a new block with any other signature is refused, whatever else the account signed |
| Consistency.CredentialsCounted | src/core/dag-ledger.ts:478-487 | the count of valid credentials is the number of those that endorse the face hash |
| LedgerScenarios.OpeningNeedsCredential | src/core/dag-ledger.ts:488-493 | a testnet opening that is sound and signed but carries no credential, and is refused for that |
| Consistency.AppendOnlyConsistent | src/core/dag-ledger.ts:431-659 | after every append-only run, forks included, chains, unclaimed sends, contracts, provider table and heartbeat index are exactly what the stored blocks imply |
| Consistency.StoreKeepsLinked | src/core/dag-ledger.ts:442-505 | an accepted block keeps every stored block sound against its stored parent and every receive backed by a stored send |
| Consistency.StoreKeepsChains | src/core/dag-ledger.ts:504-506 | an accepted block keeps the chains a partition of the stored blocks by account, without repetition |
| Consistency.StoreKeepsUnclaimed | src/core/dag-ledger.ts:508-513 | an accepted block keeps the unclaimed map equal to the stored sends that no stored receive names, each entry with the account, recipient and amount of its send |
| Consistency.StoreKeepsProviders | src/core/dag-ledger.ts:531-603 | an accepted block keeps every provider profile equal to the replay of its account's chain |
| Consistency.StoreKeepsHeartbeats | src/core/dag-ledger.ts:560-565 | an accepted block keeps the heartbeat index equal to the index built from each chain |
| Consistency.AccountsShowHeads | src/core/dag-ledger.ts:637-638 | in append-only runs that register accounts before their blocks, the cached balance and nonce are those of the chain's head |
| Keys.KeyOfEveryRun | src/core/dag-ledger.ts:109-133 | in every run, rejections and pruning included, an account is known once it is registered, and its quantum-safe key is the one brought by the last update block accepted for it since, stored or rejected later; without one it is the first key registered |
| Keys.KeyShownByChain | src/core/dag-ledger.ts:606-635 | in append-only runs that register accounts before their blocks, the key in force is the one in the last update block of the chain that brings a key, and otherwise the first one registered |
| Profiles.ProfilesShowChains | src/core/dag-ledger.ts:531-603 | in every append-only run a profile shows the date of the term's first registration, the device and capacity of its last one, the stored bytes last reported, and the address and country last given since the last registration |
| Profiles.LastSaidIs | src/core/dag-ledger.ts:531-603 | what the last block of a term that says something says, by position in the chain |
| Profiles.FirstSaidIs | src/core/dag-ledger.ts:531-558 | what the first block of a term that says something says, by position |
| Lineage.PathDescends | src/core/dag-block.ts:256-286 | the stored ancestors of a stored block form a path of length index plus one that starts at an open block |
| Lineage.PathBalance | src/core/dag-block.ts:259-368 | a stored block's balance is the mint plus received plus rewarded minus sent along its path, within the safe range |
| Lineage.EveryBlockHasHistory | src/core/dag-ledger.ts:442-506 | both facts hold of every stored block after every append-only run, forks included |
| Lineage.ParentIsHead | src/core/dag-ledger.ts:441-506 | in a lineal ledger a new block's parent is the head of its account's chain |
| Lineage.LinealRunInOrder | src/core/dag-ledger.ts:504-506 | in lineal runs every chain array is in index order, each block naming the one before |
| Lineage.ChainIsPathOfHead | src/core/dag-ledger.ts:504-506 | in lineal runs the chain array is the ancestry of its head |
| Conservation.SupplyAfter | src/core/dag-ledger.ts:504-513 | a stored block changes supply minus minted by exactly its gap: what it receives a second time, plus its parent's balance less the balance its account should start from |
| Conservation.SupplyAccount | src/core/dag-ledger.ts:431-659 | in every append-only run, with forks and foreign parents, supply minus minted is the sum of the gaps of the stored blocks |
| Conservation.ConservedIffNoGaps | src/core/dag-ledger.ts:431-659 | supply equals minted in every state of an append-only run if and only if no stored block opens a gap |
| Conservation.HeadLeavesInflation | src/core/dag-ledger.ts:441-506 | in a lineal ledger only a repeated claim opens a gap |
| Conservation.SupplyConserved | src/core/dag-ledger.ts:431-659 | in every lineal append-only run, head balances plus unclaimed amounts are at least 10^9 per account plus all rewards, with equality if and only if no send is named by two receives |
| LedgerScenarios.ClaimedTwice | src/core/dag-ledger.ts:443-446 | a lineal run in which one send is received twice and the supply exceeds what was minted |
| LedgerScenarios.ForeignParent | src/core/dag-ledger.ts:441 | a run in which a block is built on another account's block, no send is claimed twice, and the supply falls short by 5 |
| LedgerScenarios.ForkedSupply | src/core/dag-ledger.ts:441 | a run in which an account builds on its own older block, no send is claimed twice, and the supply exceeds what was minted by 5 |
| Convergence.SameChains | src/core/dag-ledger.ts:504-506 | in-order chain tables over the same stored blocks are equal |
| Convergence.LedgersConverge | src/core/dag-ledger.ts:431-645 | two lineal append-only runs that stored the same blocks agree on chains, heads, balances, unclaimed sends, contracts, providers and heartbeat index, whatever the orders |
| Creators.CreatedIsSound | src/core/dag-ledger.ts:207-407 | a created block is structurally sound against its stored parent in every reachable ledger |
| Creators.CreatedPassesSemantics | src/core/dag-ledger.ts:237-407 | a created block passes the checks of its kind at that or any later clock; creator and validator compute the same reward |
| Creators.AcceptedWasLeft | src/core/dag-ledger.ts:431-502 | an accepted created block met the conditions the creator does not check |
| Creators.CreatorsAgreeWithAddBlock | src/core/dag-ledger.ts:207-407 | after every run, a new created block is accepted by addBlock in the same state if and only if the conditions left to the caller hold (safe balance, stored send, anchor given, positive epoch, first open with enough credentials) |
| Requests.MadeIffPermitted | src/core/dag-ledger.ts:207-407 | each create function makes a block exactly under its conditions, stated on head, profile, chain and clock |
| Requests.MadeOnHead | src/core/dag-ledger.ts:207-407 | a made block is the account's, dated now, hashed, signed with its keys, and next on its head |
| Requests.MadeAsAsked | src/core/dag-ledger.ts:207-407 | a made block says what was asked: recipient, amount and balance of a send; sender, amount and balance of a receive; capacity, bytes, address, country, code and keys |
| Requests.CreatorsDoAsAsked | src/core/dag-ledger.ts:207-407 | after every run: both, and once the block is accepted the head is the block and the ledger shows the request done: the sender's balance falls by the amount and its unclaimed entry appears, a receive credits the send's amount and its entry goes, and so on for every request |
| Requests.NotMadeBecause | src/core/dag-ledger.ts:207-407 | each refusal to make a block names something that is so |
| Creators.FollowingHeadIsLineal | src/core/dag-ledger.ts:225-232 | a block built on its account's head adds no fork and no foreign parent |
| Creators.CreatorRunIsLineal | src/core/dag-ledger.ts:207-407 | runs of created blocks have no forks, no foreign parents and no send claimed twice |
| Creators.CreatorRunsConserveSupply | src/core/dag-ledger.ts:207-407 | such runs conserve supply exactly |
| Creators.CreatorRunRewardsOnce | src/core/dag-ledger.ts:365-371 | in append-only runs of created blocks no account holds two rewards for one epoch, across deregistrations too |
| Snapshot.AcceptedAgain | src/core/dag-ledger.ts:437-475 | a block accepted once is accepted at any later clock by a ledger that differs only in accounts, if and only if its quantum-safe signature verifies there |
| Snapshot.SnapshotReplays | src/network/node.ts:738-750 | replaying an append-only run's blocks in insertion order accepts all of them if and only if the quantum-safe signatures check on the way, and then rebuilds everything but the account table |
| Snapshot.ConstantKeysCheck | src/core/dag-block.ts:245-254 | when no accepted block changes a quantum-safe key, the signatures check on the way |
| Snapshot.OwnSnapshotReplays | src/network/node.ts:716-721 | a node's own export of such a run is accepted in full and rebuilds blocks, chains, unclaimed sends, contracts, providers and index |
| LedgerScenarios.StaleSnapshot | src/core/dag-ledger.ts:122 | a run whose own snapshot is refused, because the account registered its quantum-safe key after a block |
| Snapshot.EnrolledIsFresh | src/network/node.ts:744 | registering a snapshot's accounts in an empty ledger yields a ledger to replay from |
| Bootstrap.EnrolledTable | src/network/node.ts:744 | the table then knows exactly the accounts of the snapshot, each with the balance and nonce first entered for it and the first key |
| Rejection.UndoClaim | src/core/dag-ledger.ts:823-828 | rejecting a receive puts its send's entry back, which restores the unclaimed map if and only if the entry was there before |
| Rejection.RejectUndoesReceive | src/core/dag-ledger.ts:814-832 | rejecting a receive that was just added restores blocks, order, chain contents, contracts, providers and index always; the chain table if and only if the account had one; the unclaimed map if and only if the send was unclaimed |
| Rejection.RejectUndoesBlock | src/core/dag-ledger.ts:814-832 | rejecting a block of any kind that was just added restores blocks, order and chain contents; contracts if and only if it deploys none, the heartbeat index if and only if it is no heartbeat, the unclaimed map of a block other than a receive if and only if it is no send; providers stay as the block left them, so a rejected reward keeps its epoch and earnings |
| Rejection.RejectExactly | src/core/dag-ledger.ts:814-832 | in every run, rejecting any stored block takes it alone out of the store and out of its chain, where the blocks before and after it stay, brings back the entry of a receive's stored send, and changes nothing else |
| Rejection.LaterRejectionIff | src/core/dag-ledger.ts:823-828 | rejecting any stored receive leaves the unclaimed map exact if and only if no other stored receive names its send |
| Rejection.RejectedSendStaysListedButUnreceivable | src/core/dag-ledger.ts:443-446 | a rejected send keeps its unclaimed entry, and no receive naming it is accepted afterwards (receives stored before: RejectedSendKeepsCredit) |
| Rejection.ParentsSurviveIff | src/core/dag-ledger.ts:814-832 | after a rejection all blocks still have their parents if and only if the rejected block had no child |
| Rejection.BackingSurvivesIff | src/core/dag-ledger.ts:814-832 | after a rejection all receives still have their sends if and only if none named the rejected block |
| Rejection.RejectedSendKeepsCredit | src/core/dag-ledger.ts:803-832 | a resolution that rejects a send leaves a receive of it stored without its send, and the receiver's chain and balance as they were |
| VoteScenarios.RejectedChain | src/core/dag-ledger.ts:803-832 | a run in which a received send loses to a fork: the receive, the credit, the fork and a child of the send all stay |
| Rewards.IndexEqualsScan | src/core/dag-ledger.ts:560-565 | in append-only runs the heartbeat index equals the count along the chain |
| Rewards.IndexNeverBelowScan | src/core/dag-ledger.ts:753-755 | in every run, rejections and pruning included, the index is never below that count |
| Rewards.CapacityIgnoresLaterBlocks | src/core/dag-ledger.ts:757-780 | the capacity at epoch start depends only on blocks dated before it |
| Rewards.ProfileCapacityIsScan | src/core/dag-ledger.ts:531-558 | the profile's capacity is what the scan finds when all blocks are dated before the epoch, and is positive |
| Rewards.RewardBelowCapacity | src/core/dag-ledger.ts:691-701 | the allowed reward is at most the base rate times the capacity at epoch start, rounded down |
| RewardFigures.CapacityIs | src/core/dag-ledger.ts:757-780 | the capacity at epoch start is the one set by the last register or deregister block dated before it, by position |
| RewardFigures.LatestIs | src/core/dag-ledger.ts:716-735 | the reported bytes are those of the epoch's heartbeat with the greatest positive timestamp, the first of equals, by position, and 0 when there is none |
| RewardFigures.FigureIs | src/core/dag-ledger.ts:380-386 | the effective figure is the lesser of that report in units of 2^30 bytes and the capacity, and the capacity when nothing is reported |
| RewardFigures.OneFigure | src/core/dag-ledger.ts:691-694 | there is only one such figure |
| RewardFigures.AmountIs | src/core/dag-ledger.ts:379-387 | the amount is floor(1000 * figure * min(heartbeats, 6) / 6) |
| RewardFigures.CreatedReward | src/core/dag-ledger.ts:357-407 | in every append-only run a created reward is for the day of the clock and claims exactly that figure, that count and that amount |
| RewardFigures.AcceptedRewardIff | src/core/dag-ledger.ts:671-707 | in every append-only run an otherwise valid reward is accepted if and only if it claims no more storage than that figure and no more than that amount |
| Terms.SpacingAndRewards | src/core/dag-ledger.ts:461-468 | between deregistrations, accepted heartbeats are 14,340,000 ms apart once the earlier timestamp is positive, reward epochs strictly increase, and total earned is the sum of the rewards (exact refusals: TooSoonIff, AlreadyRewardedIff) |
| Terms.TooSoonIff | src/core/dag-ledger.ts:464-468 | in append-only runs a heartbeat of an active provider is refused as too soon if and only if its term's last heartbeat has a positive timestamp and lies less than the minimum gap before it |
| Terms.AlreadyRewardedIff | src/core/dag-ledger.ts:678-680 | in append-only runs a reward of an active provider is refused as repeated if and only if its term holds a reward of that epoch or a later one |
| Terms.ProfileOfRun | src/core/dag-ledger.ts:531-603 | the profile's last heartbeat, last reward epoch and total earned are those of the current term |
| Terms.EveryRewardBounded | src/core/dag-ledger.ts:671-707 | every stored reward is at most the base rate times the capacity its account had at the epoch start |
| Terms.AtMostSevenHeartbeats | src/core/dag-ledger.ts:461-468 | between deregistrations at most seven heartbeats fall into one epoch day after day 0 |
| Terms.ReregistrationReopensEpoch | src/core/dag-ledger.ts:555-558 | right after a reward the check refuses the same reward; after a deregistration and a registration it passes it (in a run: RewardedTwice) |
| StorageScenarios.RewardedTwice | src/core/dag-ledger.ts:555-603 | an append-only run that stores two rewards of one account for one epoch |
| StorageScenarios.SpacingForgotten | src/core/dag-ledger.ts:461-468 | an append-only run that stores two heartbeats of one account with one positive timestamp |
| StorageScenarios.ManyHeartbeats | src/core/dag-ledger.ts:464-468 | for every number a chain can hold, an append-only run with that many heartbeats of one term in epoch 0 |
| Health.EveryRunHealthy | src/core/dag-ledger.ts:431-832 | after every run chains hold distinct stored blocks of their account, stored blocks are complete with safe balances, and unclaimed entries describe their stored sends |
| Health.RejectHealthy | src/core/dag-ledger.ts:814-832 | a rejection keeps these facts |
| Health.PruneHealthy | src/core/dag-ledger.ts:662-667 | pruning keeps these facts |
| Health.PruneKeepsNewest | src/core/dag-ledger.ts:662-667 | pruning keeps exactly the newest 5000 blocks of a longer chain, in chain and store alike, and nothing else changes |
| Health.ChainsBounded | src/core/dag-ledger.ts:662-667 | in every run no chain is longer than 5000 |
| Votes.Leader | src/core/vote.ts:169-181 | the first registered sibling of greatest approve stake |
| Votes.Decision | src/core/vote.ts:155-190 | a resolving slot has several siblings, all with tallies, and the winner has maximal approve stake |
| VoteSafety.RegisterHere | src/core/vote.ts:67-102 | registering leaves a known block's slot alone, confirms a first block, and puts all siblings under vote when a further one joins |
| VoteSafety.RegisterKeepsSafe | src/core/vote.ts:67-102 | registering keeps every slot either under vote throughout or decided for one winner |
| VoteSafety.VoteKeepsSafe | src/core/vote.ts:107-135 | a vote keeps it too, and undoes no decision |
| VoteSafety.ResolvesSlotBySlot | src/core/vote.ts:151-203 | one call resolves each slot by its own tallies alone, whatever the order of slots, confirming the winner and rejecting all others, or leaves it as it was |
| VoteSafety.EveryRunSafe | src/core/vote.ts:67-203 | after every run every slot is under vote throughout or decided for one winner |
| VoteSafety.OneConfirmedPerSlot | src/core/vote.ts:51-102 | in every reachable state at most one block per account and parent is confirmed, and a confirmed one has no tally |
| VoteSafety.ResolutionOfReachable | src/core/vote.ts:151-203 | in every reachable state a slot that resolves was under vote, confirms a sibling of maximal approve stake and rejects all others |
| VoteSafety.DecisionIsFinal | src/core/vote.ts:67-203 | a decided slot stays decided for its winner under any further calls until a further distinct sibling registers |
| VoteSafety.EveryRunListed | src/core/dag-ledger.ts:496-506 | every stored block is listed with the vote manager under its account and parent |
| VoteSafety.ResubmissionStoresRejected | src/core/vote.ts:69 | an accepted submission of a rejected block leaves it stored and rejected |
| VoteScenarios.RejectedSendReturns | src/core/vote.ts:69 | a run that stores a rejected send again |
| VoteSafety.RejectedStayOutIff | src/core/dag-ledger.ts:803-832 | rejected blocks stay out of the store in all states of a run if and only if no rejected block is accepted again |
| VoteSafety.StoredSiblingsAreUnderVote | src/core/dag-ledger.ts:803-832 | in such runs two stored blocks of one account and parent are both still under vote |
| VoteAgreement.EveryTallyAccounted | src/core/vote.ts:107-135 | in every run each tally's approve, reject and abstain stakes are the sums over its recorded votes, the total is approve plus reject, the count is the number of voters, and each recorded vote was cast at some step with, in place of the claimed stake, the positive stake that the state before that step verifies |
| VoteCounting.CountedIff | src/core/vote.ts:107-135 | a vote is counted if and only if its block is under vote, its voter has none there, its signature is unseen, it is at most a minute old, and the chain head it names shows a positive stake: the balance of a stored head of the voter, or the known balance when the head is not stored, nothing for a head of another account or none; then exactly that stake is added on its side, and nothing else changes but the signatures seen |
| VoteCounting.SeenBounded | src/core/vote.ts:110-117 | in every run at most 50,000 signatures are remembered, each once |
| VoteCounting.TallyOpened | src/core/vote.ts:84-99 | in every run the age of a tally counts from the submission since which its block has been under vote |
| VoteAgreement.ClaimedStakeIrrelevant | src/core/dag-ledger.ts:784-801 | the stake a vote claims changes nothing |
| VoteAgreement.SecondVoteIgnored | src/core/vote.ts:110 | a voter's further votes on a block count for nothing, whatever their signatures |
| VoteAgreement.BeforeIsTotal | src/network/node.ts:347 | string order decides every tie, one way |
| VoteAgreement.ExactlyOneApprovable | src/network/node.ts:338-352 | against the full set of siblings exactly one is approvable |
| VoteAgreement.StakeGoesToApprovable | src/core/vote.ts:125-134 | when the counted votes follow the rule, only the approvable sibling has approve stake and it has no reject stake |
| VoteAgreement.CastRuledCountsRuled | src/core/vote.ts:107-135 | when every vote cast follows the rule, so does every vote counted |
| VoteAgreement.DecidesForApprovable | src/core/vote.ts:183-189 | a node that has counted one approval then resolves to the approvable sibling at any clock |
| VoteAgreement.DecidesExactly | src/core/vote.ts:155-190 | a slot under vote whose voters follow the rule resolves to the approvable sibling at any clock if and only if an approval of it is counted; otherwise only to the first registered, after the timeout, when every sibling has a vote and so the approvable one an abstention |
| VoteAgreement.QuorumDecides | src/core/vote.ts:183-189 | a sibling with more than two thirds of the conflict's non-abstain stake is decided for, at any clock |
| VoteAgreement.WithoutQuorumIff | src/core/vote.ts:183-189 | before the timeout a slot resolves although no sibling has such a quorum if and only if the leader has at least two thirds of its own tally and at most two thirds of the conflict |
| VoteAgreement.QuorumAndCode | src/core/vote.ts:151-190 | both hold of every slot under vote in every reachable state |
| VoteAgreement.DecidesForIff | src/core/vote.ts:169-190 | a resolving slot resolves to a sibling if and only if it is the first registered of those with the greatest approve stake |
| VoteAgreement.DecidesIff | src/core/vote.ts:155-190 | a slot resolves if and only if the leader has at least two thirds of its own non-empty tally, or a tally is older than ten seconds and the leader has any approval or every sibling a vote |
| VoteScenarios.TwoThirdsDecide | src/core/vote.ts:183-189 | a run with a slot that resolves with exactly two thirds of the conflict's stake, without the timeout |
| VoteScenarios.HalfDecides | src/core/vote.ts:183-189 | a run with a slot that resolves at once for a sibling that has exactly half of the conflict's stake |
| VoteScenarios.TimeoutPicksLater | src/core/vote.ts:186-189 | a run in which the timeout picks the sibling that is not the earliest |
| Scenarios.PlainExists | src/core/dag-block.ts:167-192 | there is an environment in which these runs can be played, and its digest meets the assumption of the theorems |
| VoteAgreement.NodesAgree | src/network/node.ts:338-360 | two such nodes with the same siblings decide alike, whatever order blocks and votes arrived in |
| VoteScenarios.NetworkSplits | src/network/node.ts:338-360 | two runs with equal ledgers and siblings, each with one approval counted, that decide differently; the counted votes do not all follow the rule |
| VoteAgreement.NodesConfirmSame | src/core/dag-ledger.ts:803-812 | after processConflicts both have that sibling confirmed and all others rejected |
| NeuronNode.CompetitorsAreSiblings | src/core/vote.ts:251-258 | the competitors of a hash are the other siblings of its own slot, if there are any |
| NeuronNode.NodeAppliesRule | src/network/node.ts:335-352 | in every reachable state of a node that stores a block under vote, it approves exactly what the rule approves of the siblings it stores, and nothing of a locked account |
| NeuronNode.NodeVotesFollowRule | src/network/node.ts:318-361 | voteIfConflict, of a node that stores all siblings and for an unlocked account, is a sequence of votes on that block that all follow the rule |
| NeuronNode.NetworkAgrees | src/network/node.ts:318-361 | if every vote two nodes have counted on a conflict was cast by voteIfConflict of some node that stores the same siblings, and both have counted an approval, they confirm the same sibling, the earliest, and reject all others |
| NodeVotes.LocalVoteCounts | src/network/node.ts:353-360 | in every run, after voteIfConflict on a block under vote, the vote of each local account with a positive balance that had none on it, with a fresh signature, is in the block's tally with the account's balance as its stake; it abstains exactly when the parent is missing |
| NodeVotes.LocalVoteSays | src/network/node.ts:318-361 | for a stored block that vote approves if and only if the account is not locked out, the parent is there and no stored sibling is earlier |
| NodeVotes.ApprovingNodeDecides | src/network/node.ts:318-361 | a node that stores all siblings and receives the approvable one has then counted its own approval, and decides for that sibling at any clock |
| NeuronNode.VotingIsCasting | src/network/node.ts:353-360 | voting with all local accounts is a run of single votes on that block with that decision |
| NeuronNode.VotingKeepsLedger | src/network/node.ts:353-360 | voting does not change the ledger |
| NeuronNode.NeuronNode.DecideApproval | src/network/node.ts:335-352 | approves unless locked or some stored competitor is earlier |
| NeuronNode.NeuronNode.CastLocalVotes | src/network/node.ts:353-360 | casts one vote for each local account with a balance; that these votes count, and for how much, is LocalVoteCounts |
| NeuronNode.NeuronNode.VoteIfConflict | src/network/node.ts:318-361 | votes only on a block in conflict, abstains without the parent, otherwise votes as DecideApproval says; what then stands in the tally is LocalVoteSays |
| NeuronNode.NeuronNode.ApplySnapshot | src/network/node.ts:738-750 | applies a snapshot exactly when the ledger has no blocks and the data parse to one of this network; then the ledger is as registering its accounts and replaying its blocks leaves it, otherwise unchanged |
| VoteManager.VoteManager.RegisterBlock | src/core/vote.ts:67-102 | the new vote state and the outcome are those of Register |
| VoteManager.VoteManager.OpenConflict | src/core/vote.ts:84-99 | revokes all siblings' confirmations and opens tallies for those without one |
| VoteManager.VoteManager.AddVote | src/core/vote.ts:107-135 | the new vote state is that of AddVote, with duplicate, replayed and stale votes dropped |
| VoteManager.VoteManager.Survey | src/core/vote.ts:163-181 | finds the leader, the oldest tally and whether all siblings have votes |
| VoteManager.VoteManager.Settle | src/core/vote.ts:189-202 | confirms the winner, rejects the others in order and drops their tallies |
| VoteManager.VoteManager.ResolveKey | src/core/vote.ts:155-202 | resolves one slot as Decision says, or changes nothing |
| VoteManager.VoteManager.ResolveConflicts | src/core/vote.ts:151-203 | the new vote state and both result lists are those of resolving all slots in order |
| VoteManager.VoteManager.GetSiblings | src/core/vote.ts:251-258 | the competitors, in registration order |
| DagLedger.DAGLedger.GetCapacityAtEpochStart | src/core/dag-ledger.ts:762-780 | the backward scan with early exit equals the forward replay of earlier register and deregister blocks |
| DagLedger.DAGLedger.GetActualStoredGBInEpoch | src/core/dag-ledger.ts:716-735 | the latest report of the epoch, the first of equals, in GB |
| DagLedger.DAGLedger.CountValidCredentials | src/core/dag-ledger.ts:479-487 | the number of credentials that endorse the face hash |
| DagLedger.DAGLedger.ValidateStorageReward | src/core/dag-ledger.ts:671-707 | the refusals of the reward check; which rewards it lets pass, by position and in figures, is AcceptedRewardIff, and that its reasons are so is RefusedBecause |
| DagLedger.DAGLedger.CheckBlock | src/core/dag-ledger.ts:434-494 | the refusals before the vote manager is called; what passes is AcceptedIffAdmissible, and that the reasons are so is RefusedBecause |
| DagLedger.DAGLedger.AddBlock | src/core/dag-ledger.ts:431-659 | the verdict is Judge's and the new state of ledger and votes is SubmitBlock's, a refused second open block's registration included |
| DagLedger.DAGLedger.StoreBlock | src/core/dag-ledger.ts:504-638 | the new ledger is the one the theorems call Store, whose parts AppendOnlyConsistent, KeyShownByChain and ProfilesShowChains describe |
| DagLedger.DAGLedger.UpdateUnclaimed | src/core/dag-ledger.ts:508-513 | a send adds its entry, a receive drops the one it names |
| DagLedger.DAGLedger.UpdateProvider | src/core/dag-ledger.ts:531-603 | the profile table changes for the block's account only, as ProviderAfter says |
| DagLedger.DAGLedger.IndexHeartbeat | src/core/dag-ledger.ts:560-565 | the block's epoch count goes up by one |
| DagLedger.DAGLedger.PruneAccountChain | src/core/dag-ledger.ts:662-667 | keeps exactly the newest 5000 blocks of the account, in chains and blocks alike |
| DagLedger.DAGLedger.HandleRejectedBlock | src/core/dag-ledger.ts:814-832 | removes the block and restores its send's entry, as Reject says |
| DagLedger.DAGLedger.RegisterAccount | src/core/dag-ledger.ts:109-133 | a known account only gains a missing quantum-safe key; an unknown one is entered (over runs: KeyOfEveryRun) |
| DagLedger.DAGLedger.OpenAccount | src/core/dag-ledger.ts:207-220 | submits the open block and returns it unless it is refused |
| DagLedger.DAGLedger.CreateSend | src/core/dag-ledger.ts:222-235 | the result is Create's for a send, which CreatorsDoAsAsked describes |
| DagLedger.DAGLedger.CreateReceive | src/core/dag-ledger.ts:237-249 | the result is Create's for a receive, which CreatorsDoAsAsked describes |
| DagLedger.DAGLedger.CreateStorageHeartbeat | src/core/dag-ledger.ts:333-349 | the result is Create's for a heartbeat, which CreatorsDoAsAsked describes |
| DagLedger.DAGLedger.CreateStorageReward | src/core/dag-ledger.ts:357-407 | the result is Create's for a reward, which CreatedReward describes |
| DagLedger.DAGLedger.CastVote | src/core/dag-ledger.ts:784-801 | counts the vote with the verified stake or drops it, as CountedIff says |
| DagLedger.DAGLedger.ProcessConflicts | src/core/dag-ledger.ts:803-812 | resolves and removes every rejected block |
| SmokeStore.FetchIsRange | src/network/smoke-store.ts:866-893 | from any chunk on, the read yields exactly the rest of the range |
| SmokeStore.RangeReadsAreExact | src/network/smoke-store.ts:847-893 | a range read of a stored file is exactly the bytes from start to end or the file's last byte |
| SmokeStore.AdjacentRangesJoin | src/network/smoke-store.ts:847-893 | reads of adjacent ranges concatenate to the read of the joint range |
| SmokeStore.WholeFileReads | src/network/smoke-store.ts:610-625 | reading all chunks yields the file |
| SmokeStore.LaterWritesKeepFiles | src/network/smoke-store.ts:546-564 | a stored file stays stored whatever is written later |
| SmokeStore.StoredFilesAreRead | src/network/smoke-store.ts:610-625 | a file held here reads back whole and by ranges, whatever other places answer |
| SmokeStore.SmokeStore.StoreChunks | src/network/smoke-store.ts:546-564 | afterwards the store holds the file under the returned chunk list and has lost nothing |
| SmokeStore.SmokeStore.StoreChunk | src/network/smoke-store.ts:553-559 | the chunk is named by the hash of its stored bytes, which read back as the slice |
| SmokeStore.ChunkSizes | src/network/smoke-store.ts:546-564 | a stored file is cut into chunks of 8,388,608 bytes, all full but the last |
| SmokeStore.SmokeStore.RetrieveWithMeta | src/network/smoke-store.ts:610-625 | the concatenation of all chunks, each from here or else from elsewhere, or nothing when one cannot be read |
| SmokeStore.SmokeStore.ReadPart | src/network/smoke-store.ts:871-887 | what one chunk contributes to a range |
| SmokeStore.SmokeStore.GetChunkBytes | src/network/smoke-store.ts:847-893 | the loop with early exit yields what Fetch does |
| SmokeStore.ConcatBytes | src/network/smoke-store.ts:1187-1193 | the filled buffer is the concatenation of the parts |
| SmokeStore.SetAt | src/network/smoke-store.ts:1191 | the part is copied to the offset and nothing else changes |
| StorageManager.CandidatesAreEligible | src/network/storage-manager.ts:602-606 | the candidates are exactly the eligible providers, each once: no provider on this device, and except during the warm-up none whose positive last heartbeat is more than a day old |
| StorageManager.GroupByCountry | src/network/storage-manager.ts:619-625 | each country is listed once with exactly its candidates, those without a country under "__" |
| StorageManager.PickWeighted | src/network/storage-manager.ts:628-641 | for every random value: nothing exactly when all are used, otherwise the unused provider into whose share the random fraction of all shares falls |
| StorageManager.Subtract | src/network/storage-manager.ts:634-640 | the loop that subtracts shares stops at the first one that reaches the drawn amount, or at the last |
| StorageManager.PickedOnce | src/network/storage-manager.ts:628-641 | a random fraction falls into exactly one share, so the chances are as the shares |
| StorageManager.DealRound | src/network/storage-manager.ts:645-653 | one round gives each country one pick or exhausts it, until enough are selected |
| StorageManager.DealIsFair | src/network/storage-manager.ts:643-653 | no country is two picks ahead of another that still has providers |
| StorageManager.DealCoversCountries | src/network/storage-manager.ts:643-653 | the selection covers as many countries as its size allows |
| StorageManager.SelectProviders | src/network/storage-manager.ts:592-655 | terminates with min(count, candidates) distinct candidates, covering min(size, countries) countries, fairly, for every random outcome |
| Base58.RepresentationDenotes | src/main.ts:377 | the digits of a number denote it and have no leading zero |
| Base58.Split | src/main.ts:373-393 | a digit string is its leading zeros followed by the representation of its value |
| Base58.RebaseRoundTrip | src/main.ts:373-393 | changing the base and back restores every digit string |
| Base58.DecodeEncode | src/main.ts:373-393 | decoding inverts encoding on every byte sequence, leading and all-zero bytes included |
| Base58.EncodeDecode | src/main.ts:382-393 | a string decodes if and only if it is over the alphabet, and encoding then gives it back |
| Base58.KnownEncoding | src/main.ts:373-393 | the test vector of section 5 of draft-msporny-base58 with two leading zero bytes |
| Base58.Base58Encode | src/main.ts:373-380 | the loops compute the encoding |
| Base58.Base58Decode | src/main.ts:382-393 | the loops compute the decoding, or fail on a foreign character |
| PeerLimiter.PeerLimiter.ConsumePeerToken | src/network/libp2p-network.ts:1354-1367 | admits a message exactly when the refilled bucket has a token, and updates that peer's bucket only |
| PeerLimiter.RunInBounds | src/network/libp2p-network.ts:1362-1366 | along every run whose clock does not run backwards tokens stay within 0 and 50 |
| PeerLimiter.WindowPaid | src/network/libp2p-network.ts:1354-1367 | within a window, admitted messages and tokens left are covered by a full bucket and the refill so far |
| PeerLimiter.RateBound | src/network/libp2p-network.ts:1354-1367 | in any window of any such run at most 50 messages of a peer plus 10 per second get through |
| PeerLimiter.RunsCompose | src/network/libp2p-network.ts:1354-1367 | a run is its first part and then the rest from where that ended, in buckets and in messages admitted |
| PeerLimiter.TokensExact | src/network/libp2p-network.ts:1354-1367 | a bucket holds what it held when it was last full plus the time since, less what was admitted since |
| PeerLimiter.AdmittedIff | src/network/libp2p-network.ts:1354-1367 | in every run whose clock does not run backwards a message is admitted if and only if no window of its peer that ends with it exceeds 50 messages plus 10 per second |
| PinCrypto.PinStore.CheckPinLockout | src/core/pin-crypto.ts:77-86 | locked exactly until the recorded time, with the time left |
| PinCrypto.PinStore.RecordPinFailure | src/core/pin-crypto.ts:88-99 | one more failure, locked for its backoff, other accounts untouched |
| PinCrypto.PinStore.RequirePin | src/main.ts:280-333 | lets an entry through exactly when it is correct and not locked, and records it for that account only |
| PinCrypto.Backoffs | src/core/pin-crypto.ts:63-67 | the backoff after each number of failures, in milliseconds |
| PinCrypto.LetThroughIff | src/core/pin-crypto.ts:77-86 | after any number of failures in a row an entry is let through exactly from the last failure plus its backoff on |
| PinCrypto.FailuresAreDelayed | src/core/pin-crypto.ts:63-99 | from a record without failures, and while no correct entry is let through, the n-th failure comes no earlier than the first plus the backoffs of failures 1 to n-1 |
| PinCrypto.TotalDelay | src/core/pin-crypto.ts:63-67 | those backoffs add up to 10,000 (4^(n-4) - 1) ms for n up to 10 and grow by 24 hours a failure after that |
| PinCrypto.DelayOfNthFailure | src/core/pin-crypto.ts:63-110 | the n-th failure in a row, since the start or since any success, is delayed by at least that |

## Left out

- DagLedger.DAGLedger.AddBlock: is one step, where the source awaits twice, so two calls for one block in flight at once are
  not modelled.
- DagLedger.DAGLedger.StoreBlock: does not keep face counts, the display list of recent blocks, confirmed and pending
  counters and transactions per second, because no promise rests on them; nor the off-chain provider figures (score,
  earning rate, 24-hour heartbeat count, latency, spot checks, gossiped updates of stored bytes).
- DagLedger.DAGLedger.RegisterAccount: is for a free username, because names are display; the other merged fields
  (anchor, face hash, PIN data, key exchange key) are read by nothing modelled here.
- DagLedger.DAGLedger.OpenAccount: does not limit accounts per face, because the counts are not kept.
- SmokeStore.SmokeStore.RetrieveWithMeta: what other places answer is one map that does not change, and fetched chunks are
  not written to the store, because that only saves the next fetch.
- SmokeStore.SmokeStore.ReadPart: likewise.
- SmokeStore.SmokeStore.GetChunkBytes: likewise.
- PinCrypto.PinStore.RequirePin: is one entry of a PIN, for an account that has one and whose key is not cached; two
  prompts of one account open at once are not modelled.
- VoteAgreement.NodesAgree: speaks of unlocked accounts and of voters that hold all siblings, because the rule approves
  nothing for a locked account and depends on the stored siblings otherwise.
- A send's recipient arrives resolved; `purgeAccount` and reset.
- Contract state and execution, and the execution of call blocks; only the deployed entry is kept.
- The creators of deploy, call, update, register and deregister blocks as methods: they are in the function Create and
  in the theorems about it.
- Provider profiles and tallies are values in maps, so aliasing between a map entry and a record a caller holds is not
  modelled.
- Rounding of doubles: rewards, the threshold and tokens are exact.
- Signature checks of votes on arrival, lockout gossip (whether an account is locked is a parameter), the queue of
  blocks that wait for a parent.
- Files of at most one chunk, and the encryption of the chunk list.
- User interface, face recognition, cryptography, libp2p, IndexedDB and OPFS.
