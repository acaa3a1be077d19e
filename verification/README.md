# TENDER: a verified model of the node's core

The project models the state machines and algorithms at the core of TENDER, a blockchain node in Go with a
JavaScript relay and a small C++ virtual machine, and proves what they keep over whole runs.

- `Domain.dfy`: strings as byte sequences, 64-bit integers that wrap, transactions and blocks.
- `Ledger.dfy`: the node's state and every modelled operation on it, as functions. `Blockchain.dfy`: the node as
  a class whose methods perform those operations in place, with the source's loops, each proved to take the state
  exactly where the function says. The operations that runs are made of hold the node's lock in the source, so one
  call is one atomic step.
- `Node.dfy`: runs of the node. `ChainGrowth.dfy`, `Reversal.dfy`, `Nonces.dfy`: what holds over every run.
  `Conservation.dfy`, `Mining.dfy`: what the ledger and the supply gain and lose. `Mempool.dfy`, `Rewards.dfy`: the
  bounded pool and the calendar-based reward limiter, `MinerLimits.dfy` lifting the latter to runs of the node. `Admission.dfy`: when
  mining succeeds. `Acceptance.dfy`: which transactions and blocks are accepted, in one step and over runs.
  `Registry.dfy`, `Operations.dfy`: what blocks and direct operations do to models, accounts and marks.
  `Payments.dfy`: which payments of a block are carried out. `ChainBinding.dfy`, `TxRoot.dfy`: what a
  tip hash and a Merkle root fix. `Linkage.dfy`: which chains the node holds and adopts.
- `Levels.dfy`, `Merkle.dfy`: Merkle trees and membership proofs. `Codec.dfy`: the binary encoding.
  `Signing.dfy`: the bytes that are signed.
- `Relay.dfy`, `Tendermint.dfy`, `RateLimiter.dfy`, `Emission.dfy`, `Vm.dfy`: the relay's log with cursors, the
  consensus step engine, the rate limiter, the emission schedule and the gas-metered machine.

Hash functions, signature verification, the clock, generated ids, the order in which equal keys are sorted, the
nonce found by proof of work and the estimated fees are parameters. A hash is never assumed injective everywhere:
where a result needs no collision, it says so of the strings that are actually hashed. Theorems over runs of the
node take the node's checks as a value (`Rules`) with the one property they need; `NodeRejectsReplays`,
`NodeGuardsReversals`, `NodeBuildsFromAdmitted`, `NodeIsLasting`, `NodeCountsBlocks`, `NodeApprovesLinked` and
`NodeChecksBlocks` show that the node's own checks have it.

Where the code does not do what one would expect, the model follows the code and says exactly when:

- Nonce 2^64-1 makes the next nonce wrap to 0; nonce order, the redundancy of the set lookup and the rebuild hold
  exactly as long as it is unused (`NextIsExactIff`, `NoncesRiseIff`, `RebuildIsIdentityIff`).
- Reusing an escrow id destroys exactly the overwritten amount (`EscrowLoses`, `EscrowLossCase`).
- Block encodings are malleable: the decoder ignores what follows a transaction's last field (`ReencodeBlockIff`,
  `JunkIsIgnored`).
- A length within 8 of 2^64 passes the decoder's bound check and panics (`PopBytesPanics`).
- Signing bytes are ambiguous exactly for transactions with a NUL byte in a string field (`BindingIffNulFree`).
- A Merkle proof can be verified for the concatenation of two child hashes, and with siblings of other lengths for
  more (`InnerStringVerifies`, `OddSiblingVerifies`).
- Nonce 0 has no replay protection (`ZeroNonceRepeatsIff`); universal transfers skip it altogether
  (`DirectRecursIff`).
- Mining's calls to the consensus engine never commit (`MiningNeverCommits`); the engine itself compares neither the
  rounds of votes nor the proposed hash (`AnythingCanBeFinalized`).
- A universal transfer's block has no hash: from then on the node's own chain fails validation
  (`LinkedIffNoneDirect`).
- Transactions of a block are validated together but applied in turn: a transfer that is no longer covered moves
  nothing, stays on the chain and can be reversed (`CarriedIffCovered`, `SecondMovesNothing`, `UnpaidIsReversible`).
- A chain repeating an applied nonzero nonce is never adopted, the node's own included (`AppliedIsNotAdopted`).
- Mining a block that fails validation leaves its fees burned and shared (`MiningAccounts`), and fees are not
  taken from the sender (`FeesLeaveOthers`). That happens exactly when two admitted transactions share an id or lack
  one, or the author is unknown (`MiningSucceedsIff`). The pool, whose key is id, nonce and sender, lets such pairs in
  (`BothQueued`, `SharedIdIsNotMined`, `SharedIdCase`), and every further attempt on them fails and charges them again
  (`StuckPool`).
- A universal transfer moves the amount once if the sender held less than twice as much, otherwise twice
  (`UniversalExact`, `MovedOnceIff`).

The methods of the classes that have no row below are proved against the functions of the same name; the rows are
for the loops and for what is proved of those functions.

## Model

| member | source | states |
|---|---|---|
| `Reversal.CommitIsEarned` | go-chain/blockchain/blockchain.go:461-573 | In every run, a reversal that leaves the pending ones leaves by a commit, in that step's block, by one of its two parties; this very reversal was opened by the original sender's request and confirmed by the receiver in two different earlier blocks, in this order, was not pending before the request, and stayed pending without a break after it |
| `Reversal.AlwaysJustified` | go-chain/blockchain/blockchain.go:536-573 | In every reachable state each requested reversal was opened by a request in an applied block and has been pending since; each confirmed one was confirmed by its receiver in a strictly later block and has been pending since |
| `Reversal.BlockMovesOne` | go-chain/blockchain/blockchain.go:536-573 | A block whose transactions were all validated on the state before it moves each reversal by at most one phase: none to requested, requested to confirmed, confirmed to gone; and each move has its transaction in the block |
| `Reversal.BlockMovesWhenAsked` | go-chain/blockchain/blockchain.go:536-573 | And by exactly one where asked: a reversal appears if and only if such a block requests it, becomes confirmed if and only if the block confirms it, and goes if and only if the block commits it at a moment when its receiver can pay |
| `Reversal.StepMoves` | go-chain/blockchain/blockchain.go:1155-1196 | Every operation of the node (mining, submitting, universal transfer, chain replacement and the plain ones) moves every reversal by at most one phase |
| `Reversal.CommitsPayBack` | go-chain/blockchain/blockchain.go:561-569 | The commits of a block change the ledger by exactly one payment per reversal that has gone, of its recorded amount from receiver to sender, each covered by the balance at that point; only confirmed ones, none twice |
| `Reversal.StepPaysBack` | go-chain/blockchain/blockchain.go:544-573 | The ledger after any step that applies a block: the block's transactions on the step's base state, then one payment of the recorded amount from receiver back to sender for each reversal that leaves in this step and for no other, then for mining the buyback |
| `Reversal.ClosingOnlyFund` | go-chain/blockchain/blockchain.go:602-619 | The buyback that closes a mining step touches no account but the fund |
| `Node.StepLedger` | go-chain/blockchain/blockchain.go:742-938 | The ledger after a step is the one its block leaves, closed by the buyback if the step mined |
| `ChainGrowth.ChainIsAppliedBlocks` | go-chain/blockchain/blockchain.go:742-777 | Without chain replacement, the chain is the initial blocks followed by the applied ones, and every block was validated on exactly those before it |
| `Reversal.OriginalIsEarlier` | go-chain/blockchain/blockchain.go:461-489 | In runs that adopt no foreign chain, the transfer named by a request (same id, parties and amount) is in a block applied strictly before the request's block, or among the blocks the chain started with |
| `Reversal.FindOriginalFinds` | go-chain/blockchain/blockchain.go:525-534 | The lookup returns a transaction with the id from the earliest block that has one, and nothing only if no block has one |
| `Reversal.NodeGuardsReversals` | go-chain/blockchain/blockchain.go:461-523 | The node's block validation implies what the theorems above assume of it: permitted phases, and an original transfer on the validated chain |
| `Nonces.NextIsExactIff` | go-chain/blockchain/blockchain.go:1139-1149 | In every reachable state a sender's next nonce is one above its largest used one (and at most 1 before any use) if and only if it never used nonce 2^64-1 |
| `Nonces.RunKeepsNonces` | go-chain/blockchain/blockchain.go:1155-1158 | In every reachable state the used nonces of a sender are exactly the nonzero nonces of its transactions in the applied blocks |
| `Nonces.NoncesRiseIff` | go-chain/blockchain/blockchain.go:1118-1149 | In every run, a block's nonzero nonces of a sender are above all those of earlier blocks if and only if 2^64-1 is not among the earlier ones |
| `Nonces.NoncesRise` | go-chain/blockchain/blockchain.go:1118-1149 | A sender's nonzero nonces strictly increase from each block to any later one, as long as the largest nonce was not used before |
| `Nonces.NonceNeverRecurs` | go-chain/blockchain/blockchain.go:1118-1149 | In every run, a nonzero nonce in a validated block is in no earlier block of its sender, even after 2^64-1 was used |
| `Nonces.DirectRecursIff` | go-chain/blockchain/blockchain.go:356-368 | The block of a universal transfer, which is not validated, repeats a nonce if and only if the next nonce was used already, which takes nonce 2^64-1 |
| `Nonces.DirectRecursCase` | go-chain/blockchain/blockchain.go:356-368 | A case: nonces 1 and 2^64-1 used, then the second of two universal transfers has nonce 1 again |
| `Nonces.ZeroNonceRepeatsIff` | go-chain/blockchain/blockchain.go:1118-1121 | Nonce 0 is never recorded and never a replay: an applied transfer with it is valid again if and only if the sender can still pay |
| `Nonces.ReachableNonces` | go-chain/blockchain/blockchain.go:209-219 | In reachable states the set lookup of the replay check is redundant and the rebuild at load changes nothing |
| `Nonces.LookupNeededIff` | go-chain/blockchain/blockchain.go:1118-1131 | The set lookup catches something the next nonce does not exactly when the largest nonce was used |
| `Nonces.RebuildIsIdentityIff` | go-chain/blockchain/blockchain.go:209-219 | The rebuilt next nonce is the stored one if and only if the largest nonce is unused or the stored one is 0 |
| `Nonces.LargestNonceWraps` | go-chain/blockchain/blockchain.go:1144-1147 | A concrete failing case: marking nonce 2^64-1 makes the next nonce 0 |
| `Nonces.UniversalAdvances` | go-chain/blockchain/blockchain.go:356-368 | A universal transfer keeps all of this, although it advances the next nonce before the block is applied |
| `Nonces.NodeRejectsReplays` | go-chain/blockchain/blockchain.go:1270-1278 | A block the node approves holds no replay in the state before it |
| `Blockchain.Blockchain.RebuildNextNonces` | go-chain/blockchain/blockchain.go:209-219 | The two loops at load give every sender the rebuilt next nonce and touch nothing else |
| `Blockchain.LargestNonce` | go-chain/blockchain/blockchain.go:210-215 | The inner loop finds the largest nonce, in whatever order the set is visited |
| `Conservation.WealthIsConstant` | go-chain/blockchain/blockchain.go:334-392 | Over any run of block application, staking, validator and model registration, purchases, universal transfers and escrows with fresh ids, balances plus stakes plus escrowed amounts stay what they were |
| `Conservation.NoBalanceWraps` | go-chain/blockchain/blockchain.go:1160-1166 | With that sum below 2^64, no account and no two accounts together reach 2^64 at any point of such a run nor between the transactions and reversals of any block, so no credit wraps |
| `Conservation.NoWrapBetweenHalves` | go-chain/blockchain/blockchain.go:349-368 | Nor between the two halves of a universal transfer |
| `Conservation.StepConserves` | go-chain/blockchain/blockchain.go:621-740 | Each single operation keeps the sum, with sender and receiver possibly the same |
| `Conservation.ApplyBlockConserves` | go-chain/blockchain/blockchain.go:1155-1196 | Applying any block, valid or not, keeps the ledger's total, reversals included |
| `Conservation.MoveConserves` | go-chain/blockchain/blockchain.go:1160-1166 | A transfer takes and adds exactly its amount, touches no third account, and is no change at all between an account and itself |
| `Conservation.EscrowLoses` | go-chain/blockchain/blockchain.go:677-691 | Creating an escrow changes the sum by exactly minus what an escrow of the same id held |
| `Conservation.EscrowConservesIff` | go-chain/blockchain/blockchain.go:677-691 | So it keeps the sum if and only if it does not overwrite one that holds value |
| `Conservation.EscrowLossCase` | go-chain/blockchain/blockchain.go:677-691 | A case: a second escrow of 3 with the id of a first one of 5 leaves 5 less |
| `Conservation.UniversalExact` | go-chain/blockchain/blockchain.go:349-368 | A universal transfer to another account moves exactly the amount if the sender held less than twice as much and exactly twice the amount otherwise, to a receiver made if missing, and changes no other account; to oneself it changes nothing |
| `Conservation.MovedOnceIff` | go-chain/blockchain/blockchain.go:349-368 | It moves the amount asked for if and only if the sender held less than twice as much |
| `Conservation.MovedTwiceCase` | go-chain/blockchain/blockchain.go:349-368 | A case: of 20, a transfer of 10 takes all |
| `Mining.MiningAccounts` | go-chain/blockchain/blockchain.go:866-926 | Every mining attempt accounts for every unit: on success the total changes by shares + reward - buyback and the supply by -burns + the same reward - the same buyback, one charge per fee above zero in the block; the reward counts only if the author has an account; a rejected block leaves the fees charged |
| `Mining.GapGrowsByTotals` | go-chain/blockchain/blockchain.go:873-890 | While no burn is capped by the supply, ledger minus supply grows by exactly the sum of floor(fee * rate / 100), the rate 21 for agent transactions once there were some and while supply is left, else 1 |
| `Mining.CollectCharges` | go-chain/blockchain/blockchain.go:873-890 | There is one charge for each fee above zero, in order, at the rate its transaction calls for, with 70 percent of it burned as far as the supply left by the earlier ones goes and the rest shared |
| `Mining.FeesLeaveOthers` | go-chain/blockchain/blockchain.go:873-890 | Charging fees touches no account but the fund: no fee is taken from its sender |
| `Mining.ProductExactIff` | go-chain/blockchain/blockchain.go:878-880 | The 64-bit product is the true one if and only if it is below 2^64, as for every fee below 2^64 / 21 |
| `Mining.BuybackTotals` | go-chain/blockchain/blockchain.go:602-619 | The buyback lowers ledger total and supply by the same amount |
| `Mining.BuybackIsGreatest` | go-chain/blockchain/blockchain.go:602-619 | The buyback burns the greatest amount of which ten times is within the fund and a hundred times within the supply |
| `Mining.MinedBuyback` | go-chain/blockchain/blockchain.go:924-926 | Mining buys back after the block is applied, once there has been an agent transaction |
| `Mining.CollectPicks` | go-chain/blockchain/blockchain.go:866-895 | The admitted transactions are, in the pool's order, exactly those valid at their turn, with the fees charged so far, that pay what is required |
| `Mining.NodeBuildsFromAdmitted` | go-chain/blockchain/blockchain.go:891-901 | The block the node builds holds exactly the admitted transactions, in order |
| `Mining.ApplyBlockFrame` | go-chain/blockchain/blockchain.go:1155-1196 | Applying a block changes neither chain, pool, supply, escrows, miner statistics nor the set of accounts |
| `Admission.MiningSucceedsIff` | go-chain/blockchain/blockchain.go:866-906 | Mining that is not paused produces a block if and only if the admitted transactions all have ids, no two the same, and the author is one the consensus accepts: the fees charged on the way make no admitted transaction invalid, and the block built always links to the tip |
| `Admission.GoodPoolIsMinedIff` | go-chain/blockchain/blockchain.go:866-906 | What a caller can tell beforehand: a pool of valid transactions that pay enough is mined if and only if its ids are present and distinct and the author is accepted; all of it is admitted |
| `Admission.PoolWithOwnIdsIsMined` | go-chain/blockchain/blockchain.go:866-906 | Any pool whose ids are present and distinct is mined, if the author is accepted |
| `Admission.StuckPool` | go-chain/blockchain/blockchain.go:866-906 | A pool of valid transactions without ids of their own is never mined: however many attempts are made, each fails, pool and chain stay as they were, accounts only gain balance, and each attempt that is not paused admits and charges all of the pool again |
| `Admission.FailureKeepsPool` | go-chain/blockchain/blockchain.go:903-905 | A failed attempt leaves the pool as it was |
| `Admission.BothQueued` | go-chain/blockchain/blockchain.go:791-829 | A pool with room queues two transactions of different senders that it does not hold yet, whatever their ids |
| `Admission.SharedIdIsNotMined` | go-chain/blockchain/blockchain.go:1265-1280 | If the two have the same id, are valid and pay enough, no block is mined from them |
| `Admission.SharedIdCase` | go-chain/blockchain/blockchain.go:414-451 | A case with a fee above the one the node requires: two transactions with one id are queued, mining fails, and something has been burned and something shared |
| `Admission.CollectKeepsAccepted` | go-chain/blockchain/blockchain.go:866-895 | Every admitted transaction is still valid once the fees of all of them are charged |
| `Admission.ValidStays` | go-chain/blockchain/blockchain.go:1074-1116 | A valid transaction stays valid when accounts only gain balance and accounts are only added |
| `Admission.BuiltIsLinked` | go-chain/blockchain/blockchain.go:847-906 | The block mining builds passes every check against its predecessor: index, previous hash, Merkle root, hash |
| `Admission.TipAlwaysIndexed` | go-chain/blockchain/blockchain.go:742-777 | In every reachable state the tip's index is its position in the chain |
| `Acceptance.ValidIff` | go-chain/blockchain/blockchain.go:1074-1116 | A transaction is valid if and only if it is genuine (signed, for this chain, unused nonce, existing sender, something to move unless to oneself) and, by the name of its type, its sender is entitled to it: funds, stake, agent flag, ownership, active model, or the phase of a reversal |
| `Acceptance.BlockValidIff` | go-chain/blockchain/blockchain.go:1247-1289 | A block is valid if and only if it follows its predecessor (index, hashes, root), its transactions have ids of their own and are all valid in the state before it, and its author is known where it must be |
| `Acceptance.AppliedIsValid` | go-chain/blockchain/blockchain.go:742-938 | In every run, every block applied other than by a universal transfer was valid in this sense in the state it was validated in, on the tip of the chain it was added to: no unsigned transaction, none for another chain, none its sender is not entitled to ever gets into an applied block that was validated |
| `Acceptance.JudgedIs` | go-chain/blockchain/blockchain.go:835-905 | That state is the one before the step, with the fees of a mined block charged |
| `Acceptance.KindNames` | go-chain/blockchain/blockchain.go:1092-1115 | The names of the seven transaction types |
| `Registry.BlockRegistry` | go-chain/blockchain/blockchain.go:1167-1183 | After any block, a model's owner and activity are those of the last registration in it, its content id and price those of the last registration or update; a model not named keeps its entry |
| `Registry.BlockCounts` | go-chain/blockchain/blockchain.go:1167-1193 | A block adds the number of its agent transactions to the node's count, modulo 2^64 |
| `Registry.OwnerIsRegistrant` | go-chain/blockchain/blockchain.go:621-640 | Over any run of blocks and direct registrations, the owner on record is whoever registered the model last |
| `Registry.PurchasePaysRegistrant` | go-chain/blockchain/blockchain.go:1184-1192 | A purchase that can be paid credits the account that registered the model last, in this block or before |
| `Registry.CidForm` | go-chain/blockchain/blockchain.go:1168-1168 | The form of a content id |
| `ChainGrowth.AdoptedIff` | go-chain/blockchain/blockchain.go:1059-1072 | A chain is adopted if and only if it is valid and strictly longer; nothing but the chain changes, and otherwise nothing at all |
| `ChainGrowth.ChainNeverShrinks` | go-chain/blockchain/blockchain.go:1059-1072 | No step of any run makes the chain shorter, and every step but an adoption leaves what was there in place |
| `Operations.StakeExact` | go-chain/blockchain/blockchain.go:382-392 | Staking moves the amount from balance to stake of an account that can afford it, and changes nothing else |
| `Operations.RegisterValidatorExact` | go-chain/blockchain/blockchain.go:721-740 | A validator needs a stake of at least 1000000000 that it can afford; it is locked and recorded |
| `Operations.RegisterModelExact` | go-chain/blockchain/blockchain.go:621-640 | A direct registration locks 500000000 of its owner and records the model as given |
| `Operations.PurchaseExact` | go-chain/blockchain/blockchain.go:660-675 | A direct purchase moves the amount from buyer to the model's owner, if model and accounts exist and it is affordable |
| `Operations.EscrowExact` | go-chain/blockchain/blockchain.go:677-691 | An escrow takes the amount from the sender, is recorded as given and marked irreversible |
| `Operations.MarksStay` | go-chain/blockchain/blockchain.go:575-579 | What is marked irreversible stays so through every modelled operation |
| `Operations.MarkedIsNotReversible` | go-chain/blockchain/blockchain.go:461-467 | And no reversal can be requested for it |
| `Operations.SubmittedIff` | go-chain/blockchain/blockchain.go:742-764 | A submitted block is accepted if and only if it takes the next position, is valid on the tip and names a miner |
| `Operations.SubmitRewards` | go-chain/blockchain/blockchain.go:758-769 | 100 go to its author or, if it names none, to its miner, if that has an account |
| `Operations.MinedRewards` | go-chain/blockchain/blockchain.go:906-910 | A mined block's author is credited what it is granted, 0 or 1, if it has an account |
| `Operations.UniversalIff` | go-chain/blockchain/blockchain.go:334-348 | A universal transfer takes place if and only if it is of something, to a known wallet, from an account that can afford it |
| `Operations.AppliedEmptiesPool` | go-chain/blockchain/blockchain.go:742-777 | Whatever applies a block leaves an empty pool |
| `Operations.MinedBlockIs` | go-chain/blockchain/blockchain.go:847-901 | The fields of a mined block |
| `Operations.UniversalBlockIs` | go-chain/blockchain/blockchain.go:356-368 | The fields of a universal transfer's block |
| `ChainBinding.TipBindsChain` | go-chain/blockchain/blockchain.go:1044-1057 | Two chains accepted by validation, possibly in different states, with the same non-genesis tip hash have the same length and the same block at every position after genesis, if the blocks hashed do not collide |
| `ChainBinding.GenesisIsNotBound` | go-chain/blockchain/blockchain.go:1048-1050 | The first block is excluded with reason: any other one carrying the same stored hash passes too |
| `Linkage.LinkedIffNoneDirect` | go-chain/blockchain/blockchain.go:349-368 | In every run without replacement, from a linked chain, the node's chain is linked if and only if none of the applied blocks came from a universal transfer |
| `Linkage.AppliedIsNotAdopted` | go-chain/blockchain/blockchain.go:1059-1072 | In every reachable state, a chain that holds after its first block a transaction whose nonzero nonce an applied block of that sender has used is not adopted |
| `Payments.CarriedIffCovered` | go-chain/blockchain/blockchain.go:1155-1196 | A block carries out all of its transfers and purchases if and only if, in order, each is covered by the balance its sender had before the block with the block's earlier payments; the balances are then what adding them up gives |
| `Payments.SecondMovesNothing` | go-chain/blockchain/blockchain.go:1155-1166 | A case: two transfers of a sender's whole balance pass validation in one block and the second moves nothing |
| `Payments.UnpaidIsReversible` | go-chain/blockchain/blockchain.go:461-489 | A transfer on the chain can be requested to be reversed whether or not it moved anything |
| `TxRoot.RootBindsIds` | go-chain/blockchain/domain.go:553-576 | Equal roots over equally many transactions mean the same ids in the same order, if the strings hashed do not collide |
| `TxRoot.CalculateMerkleRoot` | go-chain/blockchain/domain.go:553-576 | The in-place level loop over digests computes the hex of the recursively defined root, the empty string for no transactions |
| `TxRoot.HexInjective` | go-chain/blockchain/domain.go:573-575 | Hex encoding of byte strings is injective |
| `TxRoot.RootOfThree` | go-chain/blockchain/domain.go:562-575 | The root of three ids: the first two joined, then the third as it is |
| `Mempool.PoolInvariant` | go-chain/blockchain/blockchain.go:791-829 | Over any run of enqueueing from an empty pool: at most 5000 entries, no two with the same id, nonce and sender, none a replay; and whatever was lost, told from the pools alone (a new offer that is no replay and not there afterwards, an entry whose key is gone), was lost to a full pool and paid no more than anything still pending |
| `Mempool.EnqueueExact` | go-chain/blockchain/blockchain.go:791-829 | What one offer does to the pool, told without the code's own verdict: a known key is raised by a higher fee only, a replay changes nothing, a pool with room takes the offer at its end, a full one replaces exactly one entry of the lowest fee if the offer pays more and otherwise stays as it is |
| `Mempool.OfferKeeps` | go-chain/blockchain/blockchain.go:800-829 | One offer keeps size and keys, and whatever it loses is outbid by all that is pending afterwards |
| `Ledger.IndexOfKeyFirst` | go-chain/blockchain/blockchain.go:800-808 | The duplicate found is the first entry with the same id, nonce and sender |
| `Ledger.LowestFeeLowest` | go-chain/blockchain/blockchain.go:814-819 | The entry chosen for eviction is the first with the lowest fee |
| `Rewards.RewardLimits` | go-chain/blockchain/blockchain.go:1517-1617 | With a nondecreasing clock, over any run of reward requests and recorded submissions, at most 2 rewards per calendar month, at most 3 per calendar year, successive ones at least 604800 seconds apart |
| `Rewards.GrantedIff` | go-chain/blockchain/blockchain.go:1517-1602 | Over any such run, a request is granted if and only if it is due by the history: no reward yet; or fewer than three in the year, and in the month none and a week since the last submission, or one and two weeks |
| `Rewards.YearStarts` | go-chain/blockchain/blockchain.go:1473-1486 | The calendar's years start as many days after 1970 as the rule for leap years gives |
| `MinerLimits.MinerRewardLimits` | go-chain/blockchain/blockchain.go:1517-1617 | The same for every miner over any run of the whole node: mining with other miners, submitted blocks, the other modelled operations, and any others that leave chain, reversals, nonces and miner statistics alone |
| `MinerLimits.MinedIsRewardedIff` | go-chain/blockchain/blockchain.go:906-910 | Over any run of the node, a mining call that produces a block is rewarded if and only if a reward is due by its author's rewards so far and the time it last mined |
| `MinerLimits.StatsFollowEvents` | go-chain/blockchain/blockchain.go:906-910 | In every reachable state a miner's statistics, and the times it was rewarded, are those of its own successful mining calls alone |
| `Rewards.MineReward` | go-chain/blockchain/blockchain.go:1517-1602 | The field-by-field update computes the two-step specification (resets, then decision) |
| `Rewards.BeforeYearEnd` | go-chain/blockchain/blockchain.go:1482-1486 | A time is before the year-end timestamp exactly when its calendar year is not later |
| `Rewards.MonthOf` | go-chain/blockchain/blockchain.go:1473-1476 | The month of a time is the one whose first second is at or before it and whose successor starts after it |
| `Blockchain.Blockchain.ApplyBlock` | go-chain/blockchain/blockchain.go:1155-1196 | The loop over transactions, then the reversals, take the state to the specified one |
| `Blockchain.Blockchain.ProcessReversals` | go-chain/blockchain/blockchain.go:536-573 | The loop takes the state to the specified one |
| `Blockchain.Blockchain.FindOriginalTransaction` | go-chain/blockchain/blockchain.go:525-534 | The nested search returns the specified transaction |
| `Blockchain.Blockchain.ValidateTransactions` | go-chain/blockchain/blockchain.go:1265-1280 | The loop with its set of seen ids accepts exactly when every id is present and new and every transaction valid in the state before the block |
| `Blockchain.PassedIff` | go-chain/blockchain/blockchain.go:1265-1280 | What the loop has established after n transactions, as a statement about all of them |
| `Blockchain.Blockchain.ValidateBlock` | go-chain/blockchain/blockchain.go:1247-1289 | Accepts exactly the valid blocks on a predecessor |
| `Blockchain.Blockchain.ValidateChain` | go-chain/blockchain/blockchain.go:1044-1057 | Accepts exactly the chains that start at index 0 and are valid link by link |
| `Blockchain.Blockchain.EnqueueTransaction` | go-chain/blockchain/blockchain.go:791-829 | The search, replay check and eviction loop give the specified pool |
| `Blockchain.Blockchain.FindLowestFee` | go-chain/blockchain/blockchain.go:814-819 | The scan gives the first entry with the lowest fee |
| `Blockchain.Blockchain.CollectTransactions` | go-chain/blockchain/blockchain.go:866-895 | The loop over the sorted pool admits, charges and collects as specified |
| `Blockchain.Blockchain.MineBlockFor` | go-chain/blockchain/blockchain.go:835-938 | Mining as a whole takes the state to the specified one and returns the specified block, or none |
| `Node.StepApplies` | go-chain/blockchain/blockchain.go:742-938 | Every operation but a universal transfer either applies no block and leaves reversals and nonces alone, or applies a block that was approved on the chain and reversals before it |
| `Merkle.EveryItemProves` | go-chain/blockchain/merkle.go:15-99 | Every item of a built tree gets a proof that verifies, of at most ceil(log2 n) entries; nothing is assumed of the hash |
| `Merkle.VerifiedIsMember` | go-chain/blockchain/merkle.go:77-99 | A verifying proof with 64-character siblings has its target among the items, if the strings hashed do not collide and neither target nor items are 128 bytes long |
| `Merkle.InnerStringVerifies` | go-chain/blockchain/merkle.go:77-99 | The length condition is needed: for any tree of two or more items a 128-byte string outside the items verifies with an empty proof |
| `Merkle.OddSiblingVerifies` | go-chain/blockchain/merkle.go:77-99 | The condition on the siblings is needed too: an item that starts with the hash of a string lets that string verify |
| `Merkle.BuildMerkleTree` | go-chain/blockchain/merkle.go:15-39 | The level loop builds the recursively defined tree; no tree for no items |
| `Merkle.FindProof` | go-chain/blockchain/merkle.go:47-68 | The recursive search appends the specified path to the captured proof, and nothing when it fails |
| `Merkle.GenerateProof` | go-chain/blockchain/merkle.go:42-75 | Returns the path to the first node with the target's hash, if there is one |
| `Merkle.FoundIffPresent` | go-chain/blockchain/merkle.go:47-68 | A path is found if and only if some node has the hash |
| `Merkle.VerifyMerkleProof` | go-chain/blockchain/merkle.go:77-99 | The loop decides whether climbing the proof from the target's hash ends at the root, failing on an empty sibling |
| `Merkle.RootOfThree` | go-chain/blockchain/merkle.go:24-38 | The root of three items: the first two joined, then the third as it is |
| `Merkle.SidesOfSiblings` | go-chain/blockchain/merkle.go:86-96 | A sibling marked 1 is joined on the right, one marked 0 on the left |
| `Levels.BottomUpIsSplit` | go-chain/blockchain/merkle.go:24-38 | Pairing level by level gives the same tree as splitting at the largest power of two below n |
| `Levels.LevelLoop` | go-chain/blockchain/merkle.go:24-38 | The loop over levels computes that recursive definition |
| `Levels.NextLevel` | go-chain/blockchain/merkle.go:25-36 | One pass pairs neighbours and carries an odd last node up unchanged |
| `Levels.SplitPointIsPower` | go-chain/blockchain/merkle.go:24-38 | The split point is a power of two (and, by its own bounds, the largest below n) |
| `Levels.CeilLog2IsLeast` | go-chain/blockchain/merkle.go:24-38 | The proof-length bound is the least k with n <= 2^k |
| `Codec.DecodeEncodeTransaction` | go-chain/blockchain/encoding.go:8-75 | Decoding inverts encoding for every transaction, whatever bytes follow |
| `Codec.EncodeDecodeTransaction` | go-chain/blockchain/encoding.go:25-75 | Whenever the decoder succeeds, re-encoding gives back exactly the bytes consumed |
| `Codec.EncodingIsPrefixFree` | go-chain/blockchain/encoding.go:8-23 | The encoding is injective and no encoding is a proper prefix of another |
| `Codec.PopBytesPanics` | go-chain/blockchain/encoding.go:190-200 | The bound check overflows, and the slice expression panics, exactly for announced lengths of 2^64-8 and more |
| `Codec.SmallNumber` | go-chain/blockchain/encoding.go:170-180 | A number takes eight bytes, the most significant first |
| `Codec.TransactionFormat` | go-chain/blockchain/encoding.go:8-23 | The order and form of a transaction's fields, on an example |
| `Codec.BlockFormat` | go-chain/blockchain/encoding.go:77-100 | The same for a block |
| `Codec.EncodeBlockBinary` | go-chain/blockchain/encoding.go:77-100 | The encoder with its loop over transactions writes the specified bytes |
| `Codec.DecodeBlockBinary` | go-chain/blockchain/encoding.go:102-156 | The decoder with its loop reads the specified block, or fails or panics as specified |
| `Codec.DecodeEncodeBlock` | go-chain/blockchain/encoding.go:77-156 | Decoding inverts encoding for every block, whatever bytes follow |
| `Codec.ReencodeBlockIff` | go-chain/blockchain/encoding.go:102-156 | Re-encoding a decoded block gives back the bytes consumed if and only if the bytes of each transaction end with its last field |
| `Codec.JunkIsIgnored` | go-chain/blockchain/encoding.go:141-153 | Block encodings are malleable: bytes added after the last field of any transaction of a block, with its length adjusted, decode to the same block |
| `Codec.AnyReadingDecodes` | go-chain/blockchain/encoding.go:141-153 | Any strings that decode to a block's transactions, with or without something left, make up bytes that decode to the block |
| `Signing.BindingIffNulFree` | go-chain/blockchain/domain.go:530-552 | A transaction's signing bytes determine chain id, parties, key, amount, fee, nonce, type, payload and timestamp if and only if none of its string fields contains a NUL byte |
| `Signing.SigningBytesBind` | go-chain/blockchain/domain.go:530-552 | A transaction without NULs shares its signing bytes with no other content |
| `Signing.SigningFormat` | go-chain/blockchain/domain.go:530-552 | The order and form of the signed fields, on an example |
| `Signing.OtherReading` | go-chain/blockchain/domain.go:530-552 | For every transaction with a NUL, another with different signed content and the same signing bytes |
| `Signing.CanonicalSigningBytes` | go-chain/blockchain/domain.go:530-552 | The builder's steps give the fields separated by NUL bytes |
| `Relay.PullAnswers` | go-chain/relay-worker/src/index.js:91-105 | At any point of any interleaving, a pull answers exactly the broadcasts since the node's last pull that are among the newest 5000, then likewise the messages addressed to it, each in push order |
| `Relay.OrderedNoDuplicates` | go-chain/relay-worker/src/index.js:66-105 | In every interleaving, what the relay answered a node from a channel over all its pulls are messages pushed on it, in push order, each push at most once |
| `Relay.CompleteIffKeepsUp` | go-chain/relay-worker/src/index.js:66-105 | What the relay answered a node from a channel is everything pushed up to its last pull, each once and in order, if and only if at most 5000 were pushed before its first pull and between its successive pulls |
| `Relay.OnlyItsTarget` | go-chain/relay-worker/src/index.js:73-80 | At any point of any run, a pull answers no message addressed to another node |
| `Relay.PeersArePushers` | go-chain/relay-worker/src/index.js:68-72 | The peers list names exactly the nodes that pushed, each once |
| `Relay.NamesDistinct` | go-chain/relay-worker/src/index.js:68-103 | No two uses of the store share a stored key, whatever the nodes are called |
| `Relay.RelayDO.HandlePush` | go-chain/relay-worker/src/index.js:66-89 | One push, performed on the stored entries, is one push event of the run |
| `Relay.RelayDO.HandlePull` | go-chain/relay-worker/src/index.js:91-105 | One pull, performed on the stored entries, is one pull event and returns the specified messages |
| `Tendermint.CommitsAreEarned` | go-chain/blockchain/consensus_tendermint.go:88-190 | Every successful commit or finalize directly follows a proposal, a prevote and a precommit accepted while the engine was in the same height and round |
| `Tendermint.AnythingCanBeFinalized` | go-chain/blockchain/consensus_tendermint.go:88-110 | That is all: after a proposal of one hash and votes labelled with any round, any other hash can be finalized |
| `Tendermint.OneCommitPerRound` | go-chain/blockchain/consensus_tendermint.go:179-190 | Of any two successful commits or finalizes, the later one is in a later height or round |
| `Tendermint.VoteCountsIff` | go-chain/blockchain/consensus_tendermint.go:88-110 | A vote moves the engine if and only if it is for the current height, there are validators and it is of the kind the step waits for; otherwise it changes nothing |
| `Tendermint.ProposalAndCommit` | go-chain/blockchain/consensus_tendermint.go:146-190 | A proposal is taken in the first step only, a commit or finalize in the fourth only, which locks the block; otherwise nothing changes |
| `Tendermint.Advances` | go-chain/blockchain/consensus_tendermint.go:112-130 | What the two advances and a new validator set reset and keep |
| `Tendermint.OnlyAdvancesMove` | go-chain/blockchain/consensus_tendermint.go:112-130 | (height, round) grows lexicographically, and only by the two advances |
| `Tendermint.FinalizedIffCommitted` | go-chain/blockchain/consensus_tendermint.go:273-277 | A block counts as finalized exactly while the commit of the current height and round was for it |
| `Tendermint.ProposerByHeight` | go-chain/blockchain/consensus_tendermint.go:61-73 | In every reachable state the proposer is the validator at position height mod n |
| `Tendermint.EachPositionOnce` | go-chain/blockchain/consensus_tendermint.go:68-73 | In every run with a fixed set of n validators, in any n consecutive heights each position is the proposer's at exactly one: whenever the run is in that height and never in the others |
| `Tendermint.MiningNeverCommits` | go-chain/blockchain/blockchain.go:913-923 | The calls mining makes after a block never commit: from any state only the height advances |
| `RateLimiter.NeverOverLimit` | go-chain/main.go:2804-2821 | With a nondecreasing clock, no closed interval of the window's length ever contains more than `limit` allowed requests of a key |
| `RateLimiter.DecidesByFullCount` | go-chain/main.go:2804-2821 | Each decision on the pruned list is the one counting the full history would give |
| `RateLimiter.PruneInPlace` | go-chain/main.go:2809-2814 | Filtering the slice in its own storage keeps exactly the recent entries, in order |
| `RateLimiter.Limiter.Allow` | go-chain/main.go:2804-2821 | One call on the shared map is one call of that key's run and leaves other keys alone |
| `Emission.BlockReward` | go-chain/main.go:846-856 | The decay loop gives the reward of the height's era and runs at most 10 times |
| `Emission.RewardNonIncreasing` | go-chain/main.go:846-856 | Rewards never rise with height and stay between 21 and 100 |
| `Emission.BonusTable` | go-chain/main.go:846-856 | The bonus of each cycle until it reaches 1 |
| `Emission.TotalRewardsExact` | go-chain/main.go:846-856 | The exact sum of the first n rewards, by whole cycles and the begun one |
| `Emission.TotalRewardsBounded` | go-chain/main.go:78-81 | The first n rewards sum to at most 21 n + 240 * 78914000 |
| `Vm.SucceedsIff` | vm/src/vm.cpp:57-99 | A run succeeds if and only if gas is above zero, every remaining byte is a known opcode and their total cost fits; it then leaves exactly the difference |
| `Vm.LoopStops` | vm/src/vm.cpp:66-98 | Every run stops at the end, at the first instruction its gas does not cover or at the first unknown one, with exactly the gas, memory and trace the instructions before it leave |
| `Vm.AgentInstructions` | vm/src/opcodes.cpp:5-21 | What each agent instruction is called and leaves in the trace |
| `Vm.Instructions` | vm/src/opcodes.cpp:23-39 | What each byte costs and writes, and which are known |
| `Vm.ResumeIsOneRun` | vm/src/vm.cpp:57-99 | A run that stops out of gas, is topped up and resumed, ends with the same gas, pc, memory and verdict as one run with the combined gas |
| `Vm.Execute` | vm/src/vm.cpp:57-99 | The loop takes the context to the specified one and returns the specified verdict |

## Left out

- Tendermint.CommitsAreEarned: for runs of fewer than 2^64 - 1 calls, so that height and round do not wrap; likewise the other run lemmas of the engine.
- ChainBinding.TipBindsChain: for chains of fewer than 2^64 blocks, since block indices wrap there; the block hash is a function of the block, so JSON's treatment of invalid UTF-8 is not part of it.
- Mining.MiningAccounts: for totals that stay below 2^64 with the shares and one reward added; beyond, balances wrap.
- Admission.MiningSucceedsIff: under the same bound on totals, and for a block hash that is not empty; likewise GoodPoolIsMinedIff, PoolWithOwnIdsIsMined, StuckPool and SharedIdIsNotMined.
- Conservation.UniversalExact: for ledger totals below 2^64, beyond which a credit can wrap; likewise MovedOnceIff.
- Codec.ReencodeBlockIff: for inputs shorter than 2^63 bytes, the most Go allows.
- Codec.DecodeEncodeTransaction: for strings shorter than 2^63 bytes, the most Go allows.
- Codec.DecodeBlockBinary: the allocation for an announced transaction count, which can panic by itself, is not modelled.
- Vm.ResumeIsOneRun: leaves out the trace, which records the stop.
- Vm.Execute: only with the default handler; handlers supplied from outside may do anything.
- Rewards.RewardLimits: for clock values after 1970.
- Rewards.MineReward: leaves out the submission counters, the accelerator count and the personal difficulty, which no reward depends on.
- Reversal.OriginalIsEarlier: where a foreign chain was adopted, the original transfer is on the chain the request was validated on, which need not consist of applied blocks.
- Mempool.PoolInvariant: `SubmitTransaction` and the Rosetta handler bypass these rules and are not part of the runs.
- Nonces.RunKeepsNonces: starts from a node without used nonces; a state loaded from disk enters only through the rebuild.
- Blockchain.Blockchain.MineBlockFor: validator selection, the sort, fee estimation and the proof-of-work search enter as inputs; the pause of minting as a flag; key rotation, the bridge notification and saving to disk are not modelled, nor that a failed save turns success into an error.
- Registering a validator keeps only the stake; keys, rotation times and the update of the consensus engine are left out.
- A universal transfer is given the wallet name already trimmed and in lower case.
- Recording a miner's submission keeps only its time.
- The audit trail, the set of seen transaction ids, metrics, difficulty, proposals, agreements, usage meters and finality votes: bookkeeping no modelled decision reads.
- `Slash`, `FundAccount`, `AddAccount`, `LoadGenesis`, `DistributeRewards`, `Burn` and state sync: they change totals by design, so conservation leaves them out; in runs of the node those that leave chain, reversals, nonces and miner statistics alone may happen at any point.
- Payments.CarriedIffCovered: for ledger totals below 2^64, beyond which a credit can wrap; likewise the exact effects in Operations.
- Registry.OwnerIsRegistrant: for runs that start with an empty registry; `UpdateModel` called directly is left out, as it changes neither owner nor activity.
- The near-copy of the node in `go-chain/main.go`, except the emission schedule and the rate limiter.
- HTTP, sockets, peer discovery, persistence, the web interface, bridges, contracts and tools: input and output, or thin wrappers.
