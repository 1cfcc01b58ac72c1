# Nowa rollup: a verified model

A Dafny 4.11 model of the rollup's state pipeline and of the matching and settlement code around it, with proofs
that the separate implementations of the ledger agree. `dafny verify dfyconfig.toml` checks everything.

## What is modelled

**One ledger, four implementations.** The same account tree is kept by the sequencer's database, re-checked by the
circuit, rebuilt by the offline replayer and folded by the L1 contract.

* `Field`, `Modular`, `Merkle` hold the field, its arithmetic and the tree as a recursive function of a leaf map, with the
  theory of paths: what a fold of a path establishes and what it takes to lie about it.
* `SimpleTree` and `MerkleDB` are the in-memory specification tree and the incremental database tree (zero hashes,
  12-byte node keys, balance records, account ids). The database's node table is, after any writes, a function of the leaves
  alone, and serves the nodes the recursive tree computes.
* `Circuit` lays out the constraints of one operation and of a batch as the circuit does, and says what they mean leg by leg.
  `Ledger` gives the operations a reference meaning on accounts and proves soundness and conservation.
  `Honest`, `Batcher`, `Sequencer` and `Trades` prove completeness: what deposits, opening credits and trades record
  satisfies the circuit, under conditions given exactly, and sealed batches satisfy the whole loop with their own public inputs.
  `SequencerLedger` shows that the records describe a ledger on which each recorded change is its operation's reference meaning.
* `Replay` and `CrashReplay` are the offline replayer, its agreement with the circuit, and its restart after being stopped at
  any database write. `EndToEnd` closes the circle: replaying the sealed batches rebuilds the sequencer's own leaves and root.
* `Rollup` is the L1 contract with its settlement chain and escape claims, and what its payouts mean over a run. `PublicHashes` says
  what the public deposit and withdrawal hashes of a batch and of a settled chain bind. `ProofBuilder`
  is the offline tool from replay to escape proof. `MiMC` is the cipher and hash loop over 256-bit words.

**Around it.** `PriceTime` and `Matching` are the matching engine on values and on mutable orders, and `FillPrices` what its fills cost
and bring on the ledger against each order's own limit; `Blob` the EIP-4844
packing; `WideArith`, `Bits`, `MulDiv` and `Sqrt` the orderbook contract's 512-bit multiply-and-divide, logarithm and square
root; `Settlement`, `FillLog` and `OrderFills` its trade validation, transfers, fill tracking and cancels.

## How to read the claims

* **The hash is a parameter.** Every tree theorem holds for every function from lists of field elements to a field element.
  No injectivity is assumed. Soundness is stated as "the conclusion holds, or here are two different inputs
  with the same hash, or an input whose hash is 0", with the inputs named (`LegBreaks`, `ClaimBreaks`, `Clash`). `MiMC`
  shows that the concrete hash is such a function of residues.
* **Depth** is a variable; only the L1 contract fixes 28. **BatchSize** is any positive number.
* **The circuit** is a predicate over canonical representatives of field elements modulo Q, the BN254 scalar order. A
  comparison compares those representatives. Signature verification is an arbitrary relation that holds for the fixture the
  circuit falls back on. Circuit digits are not tied to the leaf's index, so soundness speaks of the position they name.
* **Amounts** are unbounded integers on the Go side and residues in the circuit; contracts that need an amount to
  be canonical or below 2^252 say so, and mostly as one side of an if-and-only-if.
* **Trades** work on four copies of records, as the sequencer does; the copies coincide in pairs when a trader trades with
  itself. Token ids are below 256 and leaf indices below 2^depth.
* **The system is sequential.** The trade queue is a ghost sequence; the database is three maps, justified by
  `NodeKeysDistinct`; a node batch is one atomic write, a balance record another.
* **Time** on the L1 contract is a parameter of each call; what needs it not to run backwards says so (`ClockOk`).
* **EVM calls** return false where the contract reverts, and then have changed nothing. The caller, time, signature validity
  and success of token calls are parameters.
* **Primality of Q** is an assumption of the `MiMC` results that need it, written as `Prime(Q)`. Fermat's little theorem
  is proved in `Modular`.

## Where the code does less than its comments promise

* An escape claim's five words are hashed modulo Q but recorded and compared whole, and nothing checks that they are below Q.
  Payouts are made once per index word, in the token the index word names, to the first depositor under the claimed key words
  (contracts/src/NowaRollup.sol:206-228). `PaymentIsDue` says for each word when that is the leaf's own token, key and balance:
  exactly when it is below Q. `LeafPaidOnce` says when two payouts concern one leaf, `NextClaimExactly` when a second one is
  possible, and `PayAliasedIndex` and `PayAliasedKey` are runs in which a leaf is paid twice and under another depositor.
* Replay assigns no account ids, so the offline tool on a new data directory gives them out in the order keys are asked for. Its
  proof is about the key's own account exactly when that order gives the key the sequencer's id (`RebuiltProof`); the first proof
  asked for is always of account 0 (`FirstProof`).
* A comment says that fill-or-kill orders cannot be filled in part (contracts/src/Nowa_Orderbook.sol:1771-1776). The code checks only
  fills that finish an order: a limit order can be filled in part and stay open (`FillOrKillStaysOpen`), exactly when
  the fill does not finish orders of its type (`FillOrKillOpenExactly`).
* A seller's limit price holds for each fill only up to rounding down. `SellerTotalExactly` says for which fills the total's floor
  is safe; over n fills at most n pips may be missing, and `SellerCanLoseToRounding` is n - 1 short.
* Custody of a token below 8 decimals loses a unit in a trade exactly when `LosesUnit` holds of its net and fee
  (`CustodyChange`, `UnitIsLost`).
* Replay counts nonces in 64 bits and amounts as whole numbers, the circuit both in the field. An accepted transition replays to the
  circuit's root exactly when no counted nonce is lost, that is unless a transfer or withdrawal debits a leaf at nonce 2^64 - 1 that
  the transfer's credit does not rewrite, or a collision is exhibited (`ReplayAgrees`, `NonceWraps`); and it does not replay at all for
  debited amounts of Q or more (`LargeAmountsDoNotReplay`).
* A trade only checks that its circuit signatures are not empty (sequencer/cmd/sequencer/main.go:198-201), and its amounts only as
  whole numbers, so a fill can be applied that can never be proved. `TradeProvable` and `TradeCondition` say exactly when it can.
* A trade writes a leaf it finds unopened, with the lab credit, outside any transition (sequencer/cmd/sequencer/main.go:93-122). Once a
  transition has been logged, the log then no longer chains up, or a break is exhibited (`RootAfterLookups`, `ApplyTrade`). Replay makes
  up for it when the trade is applied, as its legs write all four leaves, and exactly then (`TradeStep`).
* A trader's trade with itself is accepted. The two sides overwrite each other's copies, so the trader gains the amount and loses the
  quote (`SelfTradeMints`), and the transition can be proved only for an amount of 0 modulo Q (`SelfTradeProvable`).
* A deposit whose amount is 2^252 or more after reduction is credited and logged, but its transition cannot be proved
  (`ProcessDeposit`, both directions).

## Model

| member | source | states |
|---|---|---|
| `Merkle.UpdateByPath` | prover/circuits/state_circuit.go:105-115 | the path of a leaf, read before it is overwritten, folds the old leaf to the old root and any new leaf to the root of the updated tree |
| `Merkle.FoldBinds` | prover/circuits/state_circuit.go:105-115 | two folds along the same digits that meet in one root started from the same leaf and siblings, or the two lists of hashed pairs contain an explicit collision |
| `Merkle.LeafBinds` | prover/circuits/state_circuit.go:105-115 | a leaf and path that fold to a tree's root are that tree's own leaf and siblings at the position the digits name, or an explicit collision |
| `Merkle.RootBindsLeaf` | prover/circuits/state_circuit.go:105-115 | two trees with one root agree on every leaf, or the two computations along its path contain an explicit collision |
| `Merkle.EmptySubtree` | sequencer/internal/state/merkle_db.go:43-55 | a subtree with no written leaf has the precomputed zero hash of its level |
| `SimpleTree.SparseMerkleTree.ComputeZeroHashes` | prover/circuits/merkle.go:27-41 | fills in the value of the empty subtree of every level |
| `SimpleTree.SparseMerkleTree.GetPath` | prover/circuits/merkle.go:50-69 | the siblings and binary digits of the index, bottom up, although they are computed from flipped indices |
| `SimpleTree.SparseMerkleTree.Root` | prover/circuits/merkle.go:100-105 | the value of the top node over the current leaves |
| `SimpleTree.GetNodeIsNode` | prover/circuits/merkle.go:72-97 | the bit-setting recursion computes the node above the index: the low digits it carries along never matter |
| `MerkleDB.NodeKeysDistinct` | sequencer/internal/state/merkle_db.go:57-62 | different nodes never share a database key, and no node key of a realistic level can be mistaken for a text key |
| `MerkleDB.LevelDBMerkleTree.constructor` | sequencer/internal/state/merkle_db.go:24-36 | a new database is the tree without leaves |
| `MerkleDB.LevelDBMerkleTree.ComputeZeroHashes` | sequencer/internal/state/merkle_db.go:43-55 | fills in the value of the empty subtree of every level |
| `MerkleDB.LevelDBMerkleTree.Update` | sequencer/internal/state/merkle_db.go:65-94 | after any update the stored nodes are exactly the ancestors of the written leaves with their recursive values, whatever the order of updates |
| `MerkleDB.LevelDBMerkleTree.GetNode` | sequencer/internal/state/merkle_db.go:97-105 | a stored or defaulted node has the value the recursive tree gives it |
| `MerkleDB.LevelDBMerkleTree.GetPath` | sequencer/internal/state/merkle_db.go:108-124 | the same siblings and digits as the in-memory tree over the same leaves |
| `MerkleDB.LevelDBMerkleTree.Root` | sequencer/internal/state/merkle_db.go:127-132 | the same root as the in-memory tree over the same leaves |
| `MerkleDB.RefinesSimpleTree` | sequencer/internal/state/merkle_db.go:97-132 | every node (level, index >> level) served by the database equals the in-memory tree's recursive node |
| `MerkleDB.NodesAfterWrite` | sequencer/internal/state/merkle_db.go:65-94 | rewriting one leaf's ancestors turns the node table of the old leaves into that of the new leaves |
| `MerkleDB.LevelDBMerkleTree.SetBalance` | sequencer/internal/state/merkle_db.go:180-205 | two database writes, record then leaf, after which records and leaves still describe each other |
| `MerkleDB.LevelDBMerkleTree.GetNextAccountID` | sequencer/internal/state/merkle_db.go:228-245 | hands out the counter and advances it |
| `MerkleDB.LevelDBMerkleTree.GetAccountID` | sequencer/internal/state/merkle_db.go:248-265 | a known key keeps its id, an unknown key gets one that no key has |
| `MerkleDB.PrefixIsNoAccount` | sequencer/internal/state/merkle_db.go:247-266 | a key has one id with and without its 0x prefix |
| `Circuit.MerkleRoot` | prover/circuits/state_circuit.go:105-115 | constrains the digits to be boolean and computes the fold |
| `Circuit.OldLeafHash` | prover/circuits/state_circuit.go:97-103 | a genesis leaf is the zero leaf and must claim zero balance and nonce |
| `Circuit.ConditionalVerify` | prover/circuits/state_circuit.go:152-167 | the signature is enforced exactly when active; otherwise the fixture satisfies the gadget |
| `Circuit.ProcessLeg` | prover/circuits/state_circuit.go:226-239 | an active leg is checked against the running root and moves it; an inactive leg leaves the root alone but keeps its shape constraints |
| `Circuit.Flags` | prover/circuits/state_circuit.go:173-182 | the IsZero and Or arithmetic accepts the four operation types only and yields their activity flags and nonce increment |
| `Circuit.ProcessOperation` | prover/circuits/state_circuit.go:169-279 | the constraints hold exactly when amounts are below 2^252, required signatures verify and every active leg is sound in order; the root and both accumulators follow |
| `Circuit.Define` | prover/circuits/state_circuit.go:281-303 | the loop accepts exactly the batches whose operations are satisfied one after the other and end at the three public values (what those bind: Ledger.BatchSound, PublicHashes.AcceptedHashesBind) |
| `Ledger.LegsAreTransact` | prover/circuits/state_circuit.go:222-276 | running an operation's active legs is the reference debit and credit effect of its type, nonce bumped on transfer and withdrawal makers only |
| `Ledger.LegSound` | prover/circuits/state_circuit.go:226-239 | a leg accepted from a ledger's root describes that ledger's own leaf (or an unwritten position for genesis) and moves the root to the updated ledger's, or exhibits a collision or a preimage of 0 |
| `Ledger.OperationSound` | prover/circuits/state_circuit.go:169-279 | every witness accepted from a ledger's root performs exactly the operation on that ledger, or exhibits a collision or a preimage of 0 |
| `Ledger.DebitsAreSigned` | prover/circuits/state_circuit.go:190-208 | the account at each debited position is held by the key whose signature was verified over a message naming that account's own leaf index, maker and (in a trade) taker alike; no account changes its key or index |
| `Ledger.LegsHolders` | prover/circuits/state_circuit.go:222-276 | after accepted legs each leg's position is held by the leg's own key and index, and no earlier holder has changed, or a leg exhibits a break |
| `Ledger.BatchSound` | prover/circuits/state_circuit.go:281-303 | an accepted batch performs its operations in order and ends at the resulting ledger's root, or some operation exhibits a break |
| `Ledger.LegConserves` | prover/circuits/state_circuit.go:233-239 | one leg changes the total of all balances by credit minus debit modulo Q; when the total plus the credit is below Q, as integers and without reducing the new balance |
| `Ledger.OperationConserves` | prover/circuits/state_circuit.go:222-276 | an operation changes the supply by its deposit or withdrawal only; while the supply is below 2^252 as integers, and no new balance of any of its legs is reduced |
| `Ledger.BatchConserves` | prover/circuits/state_circuit.go:281-303 | over an accepted batch the supply changes by deposits minus withdrawals modulo Q; while supply plus deposits stay below 2^252 as integers, and at every leg of every operation the new balance is before - debit + credit unreduced |
| `PublicHashes.ChainBinds` | prover/circuits/state_circuit.go:210-220 | two hash chains that meet took in the same items in the same order, or exhibit a collision or a preimage of 0 |
| `PublicHashes.AcceptedHashes` | prover/circuits/state_circuit.go:299-300 | the public hashes of an accepted batch are the chains over the leaf indices and amounts of its deposits and of its withdrawals |
| `PublicHashes.AcceptedHashesBind` | prover/circuits/state_circuit.go:281-303 | two accepted batches with one deposit hash list the same deposits in the same order, with one withdrawal hash the same withdrawals, or exhibit a break |
| `PublicHashes.ItemsMoveBalances` | prover/circuits/state_circuit.go:210-276 | an accepted deposit or withdrawal credits or debits its listed amount to the account with its listed index, and no other, unless the hash breaks |
| `PublicHashes.ItemsAddUp` | prover/circuits/state_circuit.go:210-220 | the listed amounts add up to what the batch put into the supply and took out |
| `Honest.HonestLegsAccepted` | prover/circuits/state_circuit.go:222-276 | legs whose paths were read just before each write satisfy the circuit exactly when every debit is covered, and the circuit's root follows the tree's |
| `Honest.HonestOperationAccepted` | prover/circuits/state_circuit.go:169-279 | an operation of any of the four types with honest legs is satisfied exactly when its amounts have 252 bits, its debits are covered, the maker has signed (deposits excepted) and the taker has signed (trades only) |
| `Honest.NewLeafIsRecordHash` | prover/circuits/state_circuit.go:85-95 | the leaf the circuit writes is the hash of the record with the integer change applied |
| `Sequencer.SnapshotUpdate` | sequencer/cmd/sequencer/main.go:172-182 | records the leaf's index, balance, nonce, path and digits in the current tree |
| `Sequencer.EmptyStateUpdate` | sequencer/internal/api/account.go:36-43 | filler for inactive legs with a real path |
| `Sequencer.QuoteTokenForBook` | sequencer/cmd/sequencer/main.go:165-170 | the quote token always differs from the base token |
| `Sequencer.DepositProvable` | sequencer/cmd/sequencer/deposit_watcher.go:57-159 | a recorded deposit or opening credit satisfies the circuit from the old root to the new root exactly when its amount, as a field element, is below 2^252 |
| `Sequencer.CreditTree` | sequencer/cmd/sequencer/deposit_watcher.go:79-156 | snapshot, add, write, filler: the recorded transition describes the leaf before the credit and the tree holds the leaf after it |
| `Sequencer.ProcessDeposit` | sequencer/cmd/sequencer/deposit_watcher.go:57-159 | credits exactly the depositing key's leaf, logs one transition from old root to new root, and keeps the system provable exactly when the amount is in range; an undecodable key changes nothing |
| `Sequencer.OpenBalance` | sequencer/internal/api/account.go:58-124 | an opened leaf is returned as it is; an unopened one is credited once, by a logged and always provable transition |
| `Sequencer.SealedBatchesProve` | sequencer/internal/batcher/batcher.go:79-133 | after any run of provable calls every sealed batch satisfies the whole circuit with its own public inputs and consecutive batches share a root |
| `Trades.TradeLegsHonest` | sequencer/cmd/sequencer/main.go:246-273 | each of the four legs carries the path of its leaf as the previous leg's write left the tree |
| `Trades.TradeProvable` | sequencer/cmd/sequencer/main.go:244-295 | a recorded trade between two traders satisfies the circuit from old to new root exactly when amounts are in range, residues of balances cover them and both signatures verify |
| `Trades.TradeConditionExactly` | prover/circuits/state_circuit.go:169-208 | those conditions in the sequencer's terms: 252-bit amounts, covered residues, and each side's own signature under its own key over its two leaf indices |
| `Trades.InRangeTradeProvable` | prover/circuits/state_circuit.go:169-208 | for canonical balances and amounts below 2^252 the only remaining condition is the two signatures |
| `Trades.StaleLeg` | prover/circuits/state_circuit.go:93-115 | a leg recorded from a copy that the tree no longer holds passes exactly when the two balances have one residue and cover the debit, or a break is exhibited |
| `Trades.SelfTradeProvable` | sequencer/cmd/sequencer/main.go:244-295 | a trader's trade with itself satisfies the circuit exactly when, beside the conditions on any trade, amount and quote are 0 modulo Q, or a break is exhibited |
| `Trades.SelfTradeMints` | sequencer/cmd/sequencer/main.go:246-273 | a trade with oneself leaves the base balance higher by the amount and the quote balance lower by the quote |
| `Trades.GetOrCreateBalance` | sequencer/cmd/sequencer/main.go:93-122 | returns the key's record, giving a new key an id; an unopened leaf is written with the lab credit, with zeros for a key that does not decode |
| `Trades.CopiesAreHeld` | sequencer/cmd/sequencer/main.go:214-233 | after the four lookups the four copies are the records the database holds, one account a side and two tokens; nothing else changes, and nothing at all when the four leaves had been opened |
| `Trades.OpenedOwned` | sequencer/cmd/sequencer/main.go:93-122 | the lookups keep every record's owner in order exactly when each leaf they open is for a key that decodes |
| `Trades.OpeningMovesRoot` | sequencer/cmd/sequencer/main.go:93-122 | opening a leaf changes the root, or a zero preimage or a collision is exhibited |
| `Trades.RootAfterLookups` | sequencer/cmd/sequencer/main.go:214-233 | the root is the same after a trade's lookups exactly when all four leaves had been opened, or a break is exhibited |
| `Trades.FillLeaves` | sequencer/cmd/sequencer/main.go:246-293 | the four writes of a fill with a snapshot before each |
| `Trades.ApplyTrade` | sequencer/cmd/sequencer/main.go:186-298 | a fill is applied exactly when the orders oppose, both carry circuit signatures and both payers are covered; the whole new state is stated for every case, and the run stays in order exactly when keys of opened leaves decode, no leaf is opened after a logged transition, the circuit's conditions hold and a trade with oneself moves 0 modulo Q, or a break is exhibited |
| `Trades.FillMoves` | sequencer/cmd/sequencer/main.go:211-293 | an applied trade takes the amount and the amount times the price, the one in base from seller to buyer, the other in quote from buyer to seller, as lookups before and after find the balances |
| `FillPrices.TakeTrade` | sequencer/cmd/sequencer/main.go:186-298 | what applying a queued trade does to the two traders' balances |
| `FillPrices.FillWithinLimit` | sequencer/internal/engine/matching.go:88-128 | of a trade the engine sends, the buyer's quote balance falls by at most its own limit a unit, and the seller's rises by at least its own |
| `FillPrices.LimitHoldsOverFills` | sequencer/internal/engine/matching.go:88-128 | over all applied fills of an order its quote balance falls by at most, or rises by at least, its limit times what was filled |
| `FillPrices.AppliedWithinAmount` | sequencer/internal/engine/matching.go:88-128 | what is applied of an order is never more than it submitted |
| `SequencerLedger.LedgerOfDatabase` | sequencer/internal/state/merkle_db.go:180-205 | the database's records describe a ledger whose leaf map is the database's own |
| `SequencerLedger.DescribedOnce` | sequencer/internal/state/merkle_db.go:180-205 | and only one |
| `SequencerLedger.WellIndexedExactly` | sequencer/internal/state/merkle_db.go:180-205 | its accounts store their own positions exactly when every leaf index is below Q |
| `SequencerLedger.CommittedLedger` | sequencer/internal/state/merkle_db.go:180-205 | for indices within the contract's depth the sequencer's root commits to a ledger as the payout theorems ask for |
| `SequencerLedger.CreditOnLedger` | sequencer/cmd/sequencer/deposit_watcher.go:79-156 | a recorded deposit or opening credit is the reference deposit on the described ledger, and lands on the one the new records describe |
| `SequencerLedger.TradeOnLedger` | sequencer/cmd/sequencer/main.go:244-295 | a recorded trade between two traders is the reference trade on the described ledger, which accepts it exactly when both debits' residues are covered, and then lands on the one the new records describe |
| `Batcher.Batcher.constructor` | sequencer/internal/batcher/batcher.go:37-48 | an empty batcher with batch number 1 open |
| `Batcher.Batcher.MimcHash` | sequencer/internal/batcher/batcher.go:62-75 | hashes the residues of its items in one chain |
| `Batcher.Batcher.AddTransition` | sequencer/internal/batcher/batcher.go:79-133 | sealed groups followed by the open one are exactly the calls in order; a group is sealed exactly when it has BatchSize calls |
| `Batcher.Batcher.GetBatch` | sequencer/internal/batcher/batcher.go:143-148 | batch k is the sealed form of the k-th group: first old root, last new root, its own accumulators |
| `Batcher.Batcher.GetBatchCount` | sequencer/internal/batcher/batcher.go:151-155 | the number of sealed groups |
| `Batcher.GroupsChain` | sequencer/internal/batcher/batcher.go:79-133 | contiguous calls give batches with OldRoot(k+1) = NewRoot(k) |
| `Batcher.AccumulatorsAgree` | prover/circuits/state_circuit.go:210-220 | the batcher's deposit and withdrawal accumulators of a group are those the circuit computes on it |
| `Batcher.SealedBatchAccepted` | prover/circuits/state_circuit.go:281-303 | a sealed batch of provable contiguous transitions satisfies the whole circuit |
| `Batcher.ProvesInOrder` | prover/circuits/state_circuit.go:285-296 | provable contiguous transitions satisfy the loop operation by operation and reach each recorded root |
| `Replay.ApplyLeg` | sequencer/cmd/reconstruct-proof/replay.go:123-150 | writes the absolute record the leg implies, or fails on a negative balance and writes nothing |
| `Replay.ReplayTransition` | sequencer/cmd/reconstruct-proof/replay.go:76-116 | applies the active legs of the operation type in circuit order and stops at the first negative balance |
| `Replay.SameLegs` | sequencer/cmd/reconstruct-proof/replay.go:76-116 | replay runs exactly the circuit's active legs for all four operation types |
| `Replay.CircuitRoot` | sequencer/cmd/reconstruct-proof/replay.go:76-116 | leg by leg, the circuit's running root is that of the tree with the leaves proved so far |
| `Replay.LegsAgree` | sequencer/cmd/reconstruct-proof/replay.go:123-150 | while nonces fit 64 bits, replaying the circuit's legs leaves a tree with the circuit's running root |
| `Replay.ReplayAgrees` | sequencer/cmd/reconstruct-proof/replay.go:76-150 | a transition with tree-produced paths that the circuit accepts from the tree's root replays exactly when the recorded balances cover the debits as whole numbers (always, when recorded canonically), and then to a tree whose root is the circuit's output root exactly when the debited leaf's 64-bit nonce is not lost; if it is, the roots differ or a collision is exhibited |
| `Replay.LargeAmountsDoNotReplay` | sequencer/cmd/reconstruct-proof/replay.go:76-150 | with canonical balances an accepted transition replays exactly when its debited amounts are below Q: the circuit reads them modulo Q, replay whole |
| `Replay.NonceWraps` | sequencer/cmd/reconstruct-proof/replay.go:142-149 | a leg that counts on from the last 64-bit nonce leaves replay's tree with another root than the circuit's, or exhibits a collision, unless a second leg writes the same leaf, and then the trees are equal |
| `CrashReplay.CheckpointRoundTrip` | sequencer/cmd/reconstruct-proof/main.go:115-127 | after saving batch b the next run starts at batch b + 1 |
| `CrashReplay.ReplayOneBatch` | sequencer/cmd/reconstruct-proof/main.go:155-205 | succeeds exactly when every leg is solvent and the rebuilt root is the payload's new root, and then leaves that root; either way the state and the writes are those of the legs up to the first insolvent one |
| `CrashReplay.ReplayAllBatches` | sequencer/cmd/reconstruct-proof/main.go:129-153 | replays the batches from the checkpoint on, with one checkpoint write after each; its state and writes are stated for success and for a batch that fails; success leaves the last payload's root; no checkpoint means batch 0, and one that is not 8 bytes changes nothing |
| `CrashReplay.FinishedRunRebuilds` | sequencer/cmd/reconstruct-proof/main.go:129-205 | a finished run has rebuilt the root its last payload names, with the checkpoint behind that batch |
| `CrashReplay.CheckpointsAreChecked` | sequencer/cmd/reconstruct-proof/main.go:129-205 | every checkpoint that a run writes, finished or not, stands behind a batch of its own whose payload's root the tree then has |
| `CrashReplay.WrongRootStops` | sequencer/cmd/reconstruct-proof/main.go:155-205 | a batch with an insolvent leg, or whose rebuilt root is not its payload's, ends every run that reaches it, with the checkpoint still before it |
| `CrashReplay.StopIsPrefix` | sequencer/cmd/reconstruct-proof/main.go:129-205 | stopping any run after k database writes leaves the state of the first k of its writes, whether or not the run would finish |
| `CrashReplay.WritesErase` | sequencer/internal/state/merkle_db.go:180-205 | writing absolute values erases every disagreement at the places written |
| `CrashReplay.DirtyRunConverges` | sequencer/cmd/reconstruct-proof/main.go:129-205 | running from a state dirtied by some writes of the next batch is running from the clean state |
| `CrashReplay.StoppedIsDirty` | sequencer/cmd/reconstruct-proof/main.go:129-205 | a run of any number of the batches, stopped after any write, leaves a checkpointed clean state dirtied by at most the next batch |
| `CrashReplay.CrashSafe` | sequencer/cmd/reconstruct-proof/main.go:115-205 | however often replay is stopped after any individual database write and restarted, each start seeing its own batch count, it ends as an uninterrupted run does: in the same records, leaves and checkpoint, or in a failed check exactly when that run fails |
| `EndToEnd.TradeReplays` | sequencer/cmd/reconstruct-proof/replay.go:76-116 | replaying a recorded trade leaves exactly the leaves the sequencer left, and its records up to residues of key coordinates |
| `EndToEnd.OpeningTradeReplays` | sequencer/cmd/reconstruct-proof/replay.go:76-116 | replaying a recorded trade also rebuilds the leaves its lookups had opened outside any transition |
| `EndToEnd.CreditReplays` | sequencer/cmd/reconstruct-proof/replay.go:76-116 | replaying a recorded deposit or opening credit leaves exactly the leaves the sequencer left, and its records up to residues of key coordinates |
| `EndToEnd.ReplayKeepsMatch` | sequencer/cmd/reconstruct-proof/replay.go:123-150 | replay keeps records and leaves describing each other |
| `EndToEnd.Resume` | sequencer/cmd/sequencer/main.go:25-34 | a new batcher begins a run in order on whatever an existing database holds |
| `EndToEnd.Start` | sequencer/cmd/sequencer/main.go:22-74 | an empty database and a new batcher begin a run in order |
| `EndToEnd.TradeStep` | sequencer/cmd/sequencer/main.go:186-298 | a trade that is attempted keeps the log replayable to the sequencer's own leaves exactly when it is applied or opens no leaf, and the run in order exactly under the conditions of ApplyTrade as well, or a break is exhibited |
| `EndToEnd.DepositStep` | sequencer/cmd/sequencer/deposit_watcher.go:57-159 | every deposit keeps the log replayable to the sequencer's own leaves and, exactly when in range, provable |
| `EndToEnd.OpenStep` | sequencer/internal/api/account.go:58-124 | opening a leaf keeps the log replayable and provable |
| `EndToEnd.ReplayRebuildsSequencer` | sequencer/cmd/reconstruct-proof/main.go:129-205 | replaying every sealed batch on a database that holds what the sequencer's held when its batcher was made (nothing, for a new one) passes each root check and keeps records and leaves in agreement; once no call is pending it ends with exactly the sequencer's leaves and root, and its records up to residues of key coordinates |
| `EndToEnd.SealedNow` | sequencer/internal/batcher/batcher.go:79-133 | in a run in order every seal leaves a state that the sealed batches reproduce |
| `EndToEnd.ReplayRebuildsSealed` | sequencer/cmd/reconstruct-proof/main.go:129-205 | whatever calls are pending, replaying the sealed batches passes each root check and rebuilds the leaves and records of the state at the last seal |
| `EndToEnd.ReplayFromNothing` | sequencer/cmd/reconstruct-proof/main.go:129-205 | for a sequencer started on an empty database, replay of its sealed batches on an empty database ends with its leaves and records |
| `Rollup.NowaRollup.constructor` | contracts/src/NowaRollup.sol:64-71 | deployment: initial root, no batches, the deployer is owner and prover |
| `Rollup.NowaRollup.SetStateRoot` | contracts/src/NowaRollup.sol:74-77 | only the owner, only before the first batch |
| `Rollup.NowaRollup.RegisterToken` | contracts/src/NowaRollup.sol:94-103 | ids are handed out from 1, one per token, never above 255 |
| `Rollup.NowaRollup.Deposit` | contracts/src/NowaRollup.sol:106-122 | accepted exactly for a registered token, a positive amount and a successful transfer; the first depositor under given key words stays recorded for good |
| `Rollup.NowaRollup.SubmitBatch` | contracts/src/NowaRollup.sol:144-176 | accepted exactly from a prover on the current root with data hash, blob and verifying proof; settled batches form an unbroken root chain with one hash pair each |
| `Rollup.NowaRollup.EmergencyWithdraw` | contracts/src/NowaRollup.sol:206-228 | pays exactly under the contract's checks, once per index word; every payout records its time, amount and root, and the number of batches settled before it |
| `Rollup.AccountLeafOf` | contracts/src/NowaRollup.sol:231-243 | the leaf hash of the residues of the five words |
| `Rollup.FoldMerklePath` | contracts/src/NowaRollup.sol:247-265 | the contract's loop is the circuit's fold over residues |
| `Rollup.ClaimBinds` | contracts/src/NowaRollup.sol:206-265 | a claim that folds to a ledger's root carries, modulo Q, exactly the account at the position its bits name, or exhibits a collision or a preimage of 0 |
| `Rollup.SameLeafExactly` | contracts/src/NowaRollup.sol:206-228 | two claims accepted under roots of sequencer-written ledgers concern the same position exactly when their index words agree modulo Q, or one exhibits a break |
| `Rollup.LeafPaidOnce` | contracts/src/NowaRollup.sol:206-228 | over any run two payouts concern the same leaf exactly when their index words agree modulo Q; with canonical indices each leaf is paid at most once |
| `Rollup.PaymentIsDue` | contracts/src/NowaRollup.sol:206-228 | over any run a payout goes to the first depositor under the claimed key words; it is in the leaf's own token exactly when the index is below Q, under the leaf's own key words exactly when both are below Q, and of the leaf's own balance exactly when that word is below Q |
| `Rollup.PaidOnlyWhenStalled` | contracts/src/NowaRollup.sol:206-228 | over any run every payout was made more than the timeout after the last batch settled before it, or after deployment, and against that batch's root |
| `Rollup.PaidInGap` | contracts/src/NowaRollup.sol:206-228 | a payout means that the next batch settled late, or that none has settled since and the timeout is over |
| `Rollup.NothingPaidWhileSettling` | contracts/src/NowaRollup.sol:165-207 | while every batch settles within the timeout of the one before it, nothing is paid |
| `Rollup.CanonicalRunPaysAsDue` | contracts/src/NowaRollup.sol:206-228 | over any run whose claims have index and key words below Q, each leaf is paid at most once, in its own token, to the first depositor of its own key, or some claim exhibits a break |
| `Rollup.NextClaimExactly` | contracts/src/NowaRollup.sol:206-228 | the same leaf is payable to the same depositor under another index word of the same residue exactly when that word is unpaid and its token is registered |
| `Rollup.PayAliasedIndex` | contracts/src/NowaRollup.sol:206-228 | so a leaf is paid twice, in two tokens, whenever index + Q is a word and the next token is registered: two accepted calls |
| `Rollup.PayAliasedKey` | contracts/src/NowaRollup.sol:106-228 | and a leaf is paid to whoever first deposited under another word of its key coordinate: an accepted deposit and an accepted claim |
| `Rollup.AliasFoldsAlike` | contracts/src/NowaRollup.sol:231-265 | words with the same residues fold to the same root and name the same position and account |
| `ProofBuilder.BuildProof` | sequencer/cmd/reconstruct-proof/main.go:235-269 | the proof is for the id the key has in this database, or for the next free one, which it then gets; it holds that leaf's record (zeros when unopened), path and digits; known keys change nothing |
| `ProofBuilder.BuiltProofPasses` | sequencer/cmd/reconstruct-proof/main.go:235-269 | for an opened leaf the built proof folds to the tree's root; for an unopened one it can only do so by a preimage of 0 or a collision |
| `ProofBuilder.OwnProofPasses` | sequencer/cmd/reconstruct-proof/main.go:235-269 | on the sequencer's own database the proof of a key's opened leaf passes the contract's fold and carries the coordinates the key decodes to and the leaf's balance |
| `ProofBuilder.UnknownKeyHasNoLeaf` | sequencer/cmd/reconstruct-proof/main.go:236-251 | a key the sequencer does not know gets a proof of an unwritten leaf |
| `ProofBuilder.Reconstruct` | sequencer/cmd/reconstruct-proof/main.go:66-101 | replay, comparison with the chain's root, proof: succeeds exactly when replay finishes and its root is the chain's; the database is stated for success and failure, and replay assigns no account ids |
| `ProofBuilder.RebuiltProof` | sequencer/cmd/reconstruct-proof/main.go:83-101 | on a database rebuilt from the sequencer's at the last seal the proof is about the key's own account exactly when that database gives the key the sequencer's id; then it passes with the key's own data, otherwise it names another leaf and, when opened, passes with another key's coordinates |
| `ProofBuilder.FirstProof` | sequencer/cmd/reconstruct-proof/main.go:66-101 | on a new data directory a start that fetches every sealed batch always succeeds, whatever calls the sequencer has pending, and proves account 0's leaf, whoever asks: the key's own exactly when the sequencer gave it id 0, and otherwise, when opened, it passes as another key's |
| `Rollup.SettledChainSound` | contracts/src/NowaRollup.sol:144-176 | if every settled batch is proven, the last root commits to the ledger all operations make of the initial one, or some batch's witness exhibits a break |
| `PublicHashes.SettledItemsBind` | contracts/src/NowaRollup.sol:142-177 | the hashes of a settled chain determine, batch by batch, the deposits and withdrawals of any witnesses that prove it, or a break is exhibited |
| `PublicHashes.SettledChainConserves` | contracts/src/NowaRollup.sol:142-177 | over a proven settled chain the supply changes by the listed deposits minus the listed withdrawals modulo Q, and exactly while it and the deposits stay below 2^252, or a witness exhibits a break |
| `MiMC.Encrypt` | contracts/src/MiMC.sol:122-137 | the loop computes the round function over the constants and adds the key |
| `MiMC.HashData` | contracts/src/MiMC.sol:139-146 | the loop is the chain of encryptions with feed-forward |
| `MiMC.RoundIsFifthPower` | contracts/src/MiMC.sol:122-137 | each round takes the fifth power modulo Q of state, key and constant |
| `MiMC.DigestStep` | contracts/src/MiMC.sol:139-146 | the digest starts at 0, and what a word adds to it, less the word and the digest before, deciphers to the word under that digest, given that Q is prime |
| `MiMC.WordsHashAsResidues` | contracts/src/MiMC.sol:139-146 | hashing 256-bit words is hashing their residues, so the contract's hash is a function of field elements |
| `MiMC.FifthRootInverts` | contracts/src/MiMC.sol:122-137 | given that Q is prime, x^5 is undone by the power (4Q-3)/5 and conversely |
| `MiMC.CipherIsPermutation` | contracts/src/MiMC.sol:122-137 | given that Q is prime, for every key and every list of constants the cipher has a two-sided inverse |
| `MiMC.CipherInjective` | contracts/src/MiMC.sol:122-137 | given that Q is prime, different messages have different ciphertexts under one key |
| `PriceTime.MatchIsMaximal` | sequencer/internal/engine/matching.go:88-125 | an order fills exactly the smaller of its amount and everything resting at prices up to its limit (from it up, for a seller) |
| `PriceTime.MatchTakesInOrder` | sequencer/internal/engine/matching.go:88-125 | the fills hit the first resting orders in price-then-arrival order, at their own prices, each but the last in full, and leave the rest in place |
| `PriceTime.MatchUncrosses` | sequencer/internal/engine/matching.go:88-125 | an order with something left over has taken every order at prices within its limit |
| `PriceTime.MatchConserves` | sequencer/internal/engine/matching.go:115-122 | order by order, matching moves quantity from the book to the trades |
| `PriceTime.InsertPlaces` | sequencer/internal/engine/matching.go:166-183 | the order goes behind every order of at least its priority and in front of the first worse price; nothing else moves |
| `PriceTime.ProcessKeepsWellFormed` | sequencer/internal/engine/matching.go:47-86 | one order keeps both sides sorted by price then arrival, amounts positive, best bid below best ask, trades fair and every order's amount equal to traded plus resting |
| `PriceTime.EveryRunWellFormed` | sequencer/internal/engine/matching.go:47-202 | the same after every run of valid orders |
| `Matching.Orderbook.MatchBids` | sequencer/internal/engine/matching.go:89-125 | the loop over mutable asks ends with the specified trades, remainder and asks |
| `Matching.Orderbook.MatchAsks` | sequencer/internal/engine/matching.go:128-164 | the loop over mutable bids ends with the specified trades, remainder and bids |
| `Matching.Orderbook.InsertBid` | sequencer/internal/engine/matching.go:166-183 | finds the place by scanning and shifts the rest |
| `Matching.Orderbook.InsertAsk` | sequencer/internal/engine/matching.go:185-202 | finds the place by scanning and shifts the rest |
| `Matching.Orderbook.Submit` | sequencer/internal/engine/matching.go:66-85 | matching and resting one order takes the book to the specified one and keeps it well formed |
| `Matching.Engine.GetOrCreateOrderbook` | sequencer/internal/engine/matching.go:34-44 | the token's book, created empty on first use |
| `Matching.Engine.ProcessOrder` | sequencer/internal/engine/matching.go:47-86 | accepted exactly for a positive amount and price and a valid signature; only the order's own book changes, as specified |
| `Blob.PackBlob` | prover/internal/da/blob.go:130-151 | accepts exactly payloads of at most 126,972 bytes; the data bytes hold length prefix and payload, all others are zero |
| `Blob.BlobLayout` | prover/internal/da/blob.go:130-151 | a packed payload's length is in the first four data bytes, its bytes follow 31 to a field element, and each element's first byte is 0 |
| `Blob.UnpackBlob` | prover/internal/da/blob.go:154-167 | collects the data bytes and cuts at the length prefix; an oversized prefix is an error |
| `Blob.BlobRoundTrip` | sequencer/cmd/reconstruct-proof/replay.go:26-39 | unpacking a packed payload, on either side, returns the payload |
| `Blob.PackingInjective` | prover/internal/da/blob.go:130-151 | no two payloads have the same packing |
| `Blob.LimbsAreCanonical` | prover/internal/da/blob.go:146-147 | every 32-byte limb of a packed blob is below the BLS12-381 scalar modulus ("Parameters" section of EIP-4844) |
| `MulDiv.FullProduct` | contracts/src/Nowa_Orderbook.sol:111-116 | the two words recover the full 512-bit product from its residues modulo 2^256 and 2^256 - 1 |
| `MulDiv.TwosOf` | contracts/src/Nowa_Orderbook.sol:127-129 | denominator & -denominator is its largest power of two |
| `MulDiv.Inverse` | contracts/src/Nowa_Orderbook.sol:135-141 | seed and six doubling steps give the inverse of an odd denominator modulo 2^256 |
| `MulDiv.DivideOutTwos` | contracts/src/Nowa_Orderbook.sol:127-133 | shifting out the power of two and or-ing in the flipped high word gives the low word of the exact quotient |
| `MulDiv.LongDivide` | contracts/src/Nowa_Orderbook.sol:118-144 | when the high word is below the denominator the result is the exact floor |
| `MulDiv.MulDivide` | contracts/src/Nowa_Orderbook.sol:109-146 | floor(x * y / denominator) whenever that is a word; otherwise, and for denominator 0, a revert |
| `MulDiv.MulDivideRounded` | contracts/src/Nowa_Orderbook.sol:148-154 | rounding up gives the ceiling, and reverts exactly when there is none below 2^256 |
| `Sqrt.Log2` | contracts/src/Nowa_Orderbook.sol:178-191 | the index of the highest set bit |
| `Sqrt.SeedNearRoot` | contracts/src/Nowa_Orderbook.sol:157-158 | the seed is within a factor of two of the root |
| `Sqrt.FirstStep` | contracts/src/Nowa_Orderbook.sol:160-160 | the first Newton step lands above the root by at most a quarter of it plus 2, without overflow |
| `Sqrt.LaterStep` | contracts/src/Nowa_Orderbook.sol:161-166 | a step from within a k-th of the root lands within a 2k^2-th, without overflow |
| `Sqrt.LastStep` | contracts/src/Nowa_Orderbook.sol:166-167 | the last step is the root or one above, and the minimum corrects it |
| `Sqrt.Root` | contracts/src/Nowa_Orderbook.sol:156-169 | floor of the square root of every 256-bit number |
| `Sqrt.RootRounded` | contracts/src/Nowa_Orderbook.sol:171-176 | rounding up gives the least number whose square reaches the input |
| `OrderFills.NowaOrderbook.UpdateOrderFilledQuantity` | contracts/src/Nowa_Orderbook.sol:1500-1541 | accepted exactly under the stated checks; records, completes or finalises the order, and keeps storage in agreement with the history of fills |
| `OrderFills.NowaOrderbook.UpdateOrderFilledQuantities` | contracts/src/Nowa_Orderbook.sol:1482-1492 | both seats, buy order first: accepted exactly when the buy order and then the sell order are fillable, also when they share a hash; the two fills, completions and partials are stated |
| `OrderFills.NowaOrderbook.ExecuteTrade` | contracts/src/Nowa_Orderbook.sol:1211-1237 | a trade is executed exactly under the stated checks of nonces, validation, signatures, fills and balances, and otherwise changes nothing; its two fills, completions and partials are stated |
| `OrderFills.NowaOrderbook.EmergencyCancel` | contracts/src/Nowa_Orderbook.sol:854-867 | exactly the order's user with a valid signature, once; the order is completed and its partial fill forgotten |
| `OrderFills.NowaOrderbook.EmergencyCancelBatch` | contracts/src/Nowa_Orderbook.sol:872-892 | all or nothing: every listed order is completed, orders already completed are skipped |
| `OrderFills.NowaOrderbook.EmergencyCancelByHash` | contracts/src/Nowa_Orderbook.sol:895-905 | only a registered owner succeeds, and that is the user of an order with this hash |
| `OrderFills.NowaOrderbook.RegisterOrderForCancel` | contracts/src/Nowa_Orderbook.sol:910-922 | registers the user of an open order once |
| `OrderFills.NowaOrderbook.CancelUpTo` | contracts/src/Nowa_Orderbook.sol:841-845 | a user's nonce threshold only rises |
| `FillLog.NeverOverfilled` | contracts/src/Nowa_Orderbook.sol:1507-1518 | over any run the fills of an order never exceed its amount, or two different filled orders share a hash |
| `FillLog.OpenOrderPartial` | contracts/src/Nowa_Orderbook.sol:1522-1540 | an order not completed has its recorded partial equal to the sum of its fills and below its amount, or two different filled orders share a hash |
| `FillLog.ImmediateFilledOnce` | contracts/src/Nowa_Orderbook.sol:1546-1548 | an immediate-or-cancel order is filled at most once |
| `FillLog.FillOrKillExact` | contracts/src/Nowa_Orderbook.sol:1460-1541 | once a fill has completed a fill-or-kill order, all its fills over the run add up to exactly its amount, for good |
| `FillLog.NeverFilledLate` | contracts/src/Nowa_Orderbook.sol:1448-1452 | over any run an order good till a time is not filled after it |
| `FillLog.PostOnlyMakes` | contracts/src/Nowa_Orderbook.sol:1356-1359 | over any run a post-only order is filled only in trades its own side makes |
| `FillLog.QuantityInBase` | contracts/src/Nowa_Orderbook.sol:1507-1518 | over any run orders with a limit are filled by base amount |
| `OrderFills.FillableExactly` | contracts/src/Nowa_Orderbook.sol:1500-1557 | the whole condition of a fill, written out by order type and time in force |
| `OrderFills.FillRecords` | contracts/src/Nowa_Orderbook.sol:1507-1557 | what a fill adds up, and exactly when it finishes its order |
| `OrderFills.FillOrKillStaysOpen` | contracts/src/Nowa_Orderbook.sol:1500-1541 | a fill-or-kill limit order can be filled in part and stay open: a trade for 4 of 10 that passes every check is executed |
| `OrderFills.FillOrKillOpenExactly` | contracts/src/Nowa_Orderbook.sol:1525-1557 | a partial fill of a fill-or-kill order is accepted exactly when it does not finalise an order of that type |
| `FillLog.LimitHoldsOverRun` | contracts/src/Nowa_Orderbook.sol:1297-1306 | over any run an order with a limit in the buy seat pays at most 10^-8 of its limit a unit for all it bought, and in the sell seat gets at least that for all it sold, less one pip a fill and one more |
| `Settlement.LimitOrMarket` | contracts/src/Nowa_Orderbook.sol:1660-1669 | every order type either has a limit or trades at the market |
| `Settlement.TradeValidExactly` | contracts/src/Nowa_Orderbook.sol:1242-1363 | the validation of a trade, written out without quotients: tokens, quantities within both limits, fees below 20.01 percent and taken from gross, post-only and quote-amount rules |
| `Settlement.FeesBounded` | contracts/src/Nowa_Orderbook.sol:1341-1354 | accepted fees are below 20.01 percent of the gross amount of their token |
| `Settlement.BuyLimitHoldsInTotal` | contracts/src/Nowa_Orderbook.sol:1287-1306 | per-fill limit checks imply the limit for the total, however the fills are cut |
| `Settlement.SellLimitHoldsInTotal` | contracts/src/Nowa_Orderbook.sol:1302-1306 | n fills in the sell seat bring at least the total's floor minus n |
| `Settlement.SellerTotalExactly` | contracts/src/Nowa_Orderbook.sol:1293-1306 | a seller's total floor holds for every choice of accepted quotes exactly when the remainders dropped by rounding add up to no more whole pips than there are fills of floor 0, which must pay one pip |
| `Settlement.LeastTotal` | contracts/src/Nowa_Orderbook.sol:1293-1306 | what the least accepted quotes lose against the floor of the total, exactly |
| `Settlement.SellerCanLoseToRounding` | contracts/src/Nowa_Orderbook.sol:1302-1306 | the bound is met to within a pip: n fills of 199999999 at limit 1 may pay n where the total's floor is 2n - 1 |
| `Settlement.SmallFillIsValid` | contracts/src/Nowa_Orderbook.sol:1245-1275 | each of those fills passes the contract's validation |
| `Settlement.UnitsAreLeast` | contracts/src/Nowa_Orderbook.sol:450-458 | token units for an amount of pips are the least worth it, at 10^8 pips and 10^decimals units to the token, and worth exactly it from 8 decimals up |
| `Settlement.WholeTokens` | contracts/src/Nowa_Orderbook.sol:450-458 | k whole tokens are k * 10^decimals units |
| `Settlement.SplitCost` | contracts/src/Nowa_Orderbook.sol:450-458 | paying net and fee separately costs exactly what came in for tokens of 8 decimals or more, and at most one unit more otherwise |
| `Settlement.UnitLostExactly` | contracts/src/Nowa_Orderbook.sol:450-458 | net and fee cost one unit more than gross exactly when, below 8 decimals, neither part is a whole number of units and their remainders fit in one; otherwise they cost the same |
| `Settlement.TokenLedger.CustodyChange` | contracts/src/Nowa_Orderbook.sol:1588-1620 | one trade changes the contract's balance of a token by -1 exactly when splitting off that token's fee loses a unit, and by 0 otherwise |
| `Settlement.TokenLedger.UnitIsLost` | contracts/src/Nowa_Orderbook.sol:1588-1620 | a trade of 50 pips with a fee of 10 passes validation and costs the contract a unit of a 6-decimal token |
| `Settlement.TokenLedger.SettleableExactly` | contracts/src/Nowa_Orderbook.sol:1588-1620 | what the transfers need, in whole tokens: the payers hold what the gross pips are worth, and the contract a unit wherever one is lost |
| `Settlement.TokenLedger.TradeMoves` | contracts/src/Nowa_Orderbook.sol:1588-1620 | outside the contract the buyer gives gross quote for net base, the seller gross base for net quote, the fee receiver gets both fees, whoever has several roles gets their sum, nobody else is touched |
| `Settlement.TokenLedger.Transfer` | contracts/src/Nowa_Orderbook.sol:1589-1599 | moves the amount, or fails changing nothing when the balance is short |
| `Settlement.TokenLedger.TransferAll` | contracts/src/Nowa_Orderbook.sol:1588-1620 | the six transfers succeed exactly when the payers hold the gross amounts and the contract the units it is about to lose |
| `Settlement.TokenLedger.UpdateForOrderBookTrade` | contracts/src/Nowa_Orderbook.sol:1577-1621 | all six transfers or none, exactly when approved, both tokens have at most 32 decimals, the payers hold the gross amounts and the contract the units it loses; after n trades custody of each token is its initial value, or at most n units less for tokens below 8 decimals |

## Left out

- Trades.ApplyTrade: database errors between its writes, after which it returns half way, do not occur.
- SequencerLedger.TradeOnLedger: between two traders only; on a trade with oneself the sequencer departs from the reference (SelfTradeMints).
- MerkleDB.LevelDBMerkleTree.GetNextAccountID: the 64-bit account counter does not wrap here; database errors do not occur.
- MerkleDB.LevelDBMerkleTree.Update: 64-bit leaf indices are unbounded here, since all indices in use are below 2^28.
- Sequencer.CreditTree: processDeposit and openBalance inline these steps separately; the model shares them.
- Circuit.ProcessLeg: the circuit inlines the four legs; the model factors them, quote legs with a zero debit or credit.
- Circuit.ConditionalVerify: EdDSA, and the gadget's own constraint that points lie on the curve, are one abstract relation.
- CrashReplay.ReplayOneBatch: fetching, data-hash checks, decompression and JSON decoding of payloads are not modelled.
- Rollup.NowaRollup.SubmitBatch: Groth16 verification is an arbitrary relation; setProver and the owner's withdraw placeholder are left out.
- Rollup.NowaRollup.EmergencyWithdraw: token amounts are not tracked; the transfer is a parameter.
- Matching.Engine.ProcessOrder: locks, the trade channel and trade ids are left out; nothing is said of the maker order copied into
  a trade, whose amount is shared with the resting order.
- Matching.Orderbook.InsertBid: the slice shift by append and copy is a sequence splice here; backing-array sharing is not modelled.
- OrderFills.NowaOrderbook.ExecuteTrade: stop-price proofs, EIP-712 hashing and signatures are parameters; batch entry points repeat it.
- OrderFills.NowaOrderbook.RegisterOrderForCancel: order hashes are an arbitrary function of the order's fields without its signature.
- Settlement.TokenLedger.UpdateForOrderBookTrade: plain ERC-20 tokens only, with fixed decimals; traders and fee receiver are not the contract.
- MiMC.Encrypt: the 110 round constants are an arbitrary list.
- Pause, ownership transfer, reentrancy guards, view helpers, the token-decimals registry and the remaining rounding overloads: they
  touch none of the state or arithmetic proved about here.
- The indexer, HTTP handlers, command-line tools, transaction building and Blobscan access: input and output.
