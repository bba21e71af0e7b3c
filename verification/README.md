# PyChain verification

A model of PyChain's ledger engine and of the two-node protocol built on it, with proofs.

- **Ledger** (`Transactions`, `Utxo`, `Validation`, `Ownership`, `Processing`, `Reordering`): transactions, the
  unspent-output set, validation, what it guarantees to owners, and sequential batches.  A batch over a
  ledger whose creators are recorded has a static description, created minus spent, from which the permutation
  results follow.
- **Mempool** (`Mempools`, `Survivors`, `PoolTheorems`, `Selection`, `Templates`): the incremental working
  view, exactly which entries survive a removal or a block, greedy selection and block templates.
- **Chain** (`Merkle`, `Blocks`, `Commitments`, `ChainHistory`, `Supply`, `Chains`): block validation, what a header
  commits to, replay, whole-history single spend, conservation of value, and the cached state against replay.
- **Store** (`Stores`, `StateRows`, `PersistentChains`): one atomic record, several openers, crashes around the commit,
  and the rows a ledger state is written to and read from.
- **Network** (`JsonDepth`, `BlockSync`, `SnapshotPages`, `MempoolExport`, `MempoolImport`, `SyncManagers`,
  `InboundBudget`, `Peers`, `Duplicates`): the depth guard, block batches, paged mempool snapshots under byte
  budgets, inbound and outbound accounting, and which of several connections survives.
- **Wallet** (`CoinSelection`, `TransactionBuilder`, `Wallets`, `SendMachine`): coin selection, signing input by
  input, admission of what was built, and the idempotent send operation.

Objects the program updates in place are classes whose methods are proved against functions on values;
properties are then proved of those functions.  Exceptions and error returns are values of result datatypes.

Hashing, canonical serialisation, key parsing and ECDSA are uninterpreted.  A `Crypto` value carries one
function for each, and results hold for every such value.  Their laws are named premises: `DigestLaw`
(digests are 64 hexadecimal characters) and `SignatureLaw` (a signature made with a key verifies under its
public key).  Where distinct transactions must have distinct identifiers this is a premise about the
transactions at hand (`NoAlias`, `PoolOn`); the Merkle result names the collision two computations met
(`Merkle.Clash`).  `GenesisOk` says that the configured genesis hash is the hash of the genesis block.
Clocks and random tokens are parameters.

The repository's own README speaks of ancestor-fee selection; the code ranks entries by their own fee per
byte and waits for their parents, and the model follows the code.

`dafny verify dfyconfig.toml` checks the whole project.

## Model

| member | source | states |
|---|---|---|
| `Transactions.DerivedAddressIsValid` | crypto/address.py:6-40 | every address derived from a public key passes address validation |
| `Utxo.UTXOSet.Add` | transaction/utxo.py:23-27 | an output is added only at a free outpoint; otherwise nothing changes |
| `Utxo.UTXOSet.Spend` | transaction/utxo.py:35-39 | the named output is returned and removed, a missing one is reported and nothing changes |
| `Utxo.UTXOSet.AddTransactionOutputs` | transaction/utxo.py:55-70 | all outputs of a transaction are added or, if one outpoint is taken, none |
| `Utxo.UTXOSet.ApplyValidTransaction` | transaction/utxo.py:72-89 | applied completely (inputs gone, outputs there) exactly when inputs are distinct and present and all outputs free; otherwise unchanged |
| `Utxo.CheckSpendable` | transaction/utxo.py:72-89 | true exactly when no outpoint is spent twice and every one is present |
| `Validation.CheckInputs` | transaction/validation.py:22-64 | the input loop accepts exactly well-formed inputs with pairwise different outpoints |
| `Validation.TotalInputs` | transaction/validation.py:66-83 | a total is returned exactly when every input is owned and signed, and it is the value spent |
| `Validation.ValidatedFee` | transaction/validation.py:22-84 | a fee is returned exactly for transactions valid in the view, and it is inputs minus outputs |
| `Validation.ValidLocal` | transaction/validation.py:66-84 | validity and fee depend only on the outputs the transaction spends |
| `Validation.ValidMonotone` | transaction/validation.py:66-84 | a view that still shows the inputs keeps a valid transaction valid at the same fee |
| `Ownership.PoolIsLawful` | transaction/validation.py:22-84 | every pending entry spends different outputs that are confirmed or made by earlier entries, each under a key whose address that output was paid to and a signature by it over this transaction; amounts out never exceed amounts in and the stored fee is the difference |
| `Ownership.ChainIsLawful` | transaction/validation.py:22-84 | in every replayed chain each transaction that is not a coinbase is lawful in the same sense against the outputs created before it |
| `Processing.ApplyTransactions` | transaction/processing.py:17-49 | the batch loop accepts exactly the batches the step-by-step fold accepts, with its view, identifiers and running fees, on a copy |
| `Processing.SequentialIsStatic` | transaction/processing.py:32-47 | over a view whose creators are recorded, a batch applies one by one exactly when each member fits the set of all outputs made so far, no outpoint is spent twice and no identifier repeats; the result is everything created minus everything spent |
| `Reordering.SameInputs` | transaction/processing.py:32-47 | a transaction meets the same outputs in any parent-closed, parents-first selection as in the whole batch |
| `Reordering.PickedFits` | transaction/processing.py:32-47 | each member of such a selection is acceptable at its new position and pays the same fee there |
| `Reordering.AnyParentsFirstOrder` | transaction/processing.py:17-49 | any parent-closed subset of an accepted batch, in any order that puts parents first, is accepted and pays the sum of the original fees |
| `Mempools.Mempool.constructor` | transaction/mempool.py:43-69 | a new pool is empty over copies of the given view |
| `Mempools.Mempool.Copy` | transaction/mempool.py:86-96 | a copy has the same abstract value and shares no mutable part |
| `Mempools.Mempool.AddTransaction` | transaction/mempool.py:114-140 | returns True exactly when the admission rules hold, then appends one entry and updates view and byte total; otherwise changes nothing |
| `Mempools.Mempool.RemoveTransaction` | transaction/mempool.py:142-158 | returns whether the identifier was pending; the new state is the replay of the other entries |
| `Mempools.Mempool.Revalidate` | transaction/mempool.py:160-171 | the new pool is the replay of unconfirmed entries over the given ledger; the old one is untouched |
| `Mempools.AdmitsIsStep` | transaction/mempool.py:114-140 | admission is the next step of the sequential batch plus the two capacity limits |
| `Mempools.TryAddKeepsInv` | transaction/mempool.py:114-140 | after any call the working view is the fold of the entries, each stored fee is the fee at its position, the byte total is exact and both caps hold |
| `Mempools.RebuildKeepsInv` | transaction/mempool.py:142-171 | the replay loops keep the same invariant over the same ledger and limits |
| `Survivors.StoredFee` | transaction/mempool.py:114-140 | a stored fee is the fee against all outputs the pool ever saw, so it does not depend on position |
| `Survivors.InputOrigin` | transaction/mempool.py:114-140 | an input of an entry is confirmed, or made by exactly one entry, an earlier one |
| `Survivors.FitsNext` | transaction/mempool.py:114-140 | a fresh transaction valid in the working view is admitted whenever there is room |
| `Survivors.RebuildExact` | transaction/mempool.py:142-171 | replaying a pool over a new ledger keeps exactly the entries whose inputs are in the ledger or come from kept entries, with order, fee and size unchanged |
| `PoolTheorems.RemovalExact` | transaction/mempool.py:142-158 | removal takes out exactly the named entry and its transitive spenders |
| `PoolTheorems.RemovalFreesInputs` | transaction/mempool.py:142-158 | no input of a removed entry was spendable before; afterwards it is, exactly when it is confirmed or was created by an entry that stays |
| `PoolTheorems.RevalidationExact` | blockchain/blockchain.py:289-316 | after a block the pool keeps exactly the unconfirmed entries that neither spend an outpoint the block spent nor descend through unconfirmed entries from one that does |
| `PoolTheorems.OwnBlockLeavesUnselected` | blockchain/blockchain.py:289-316 | after a block made of the pool's own entries, parents first, exactly the entries not in the block remain |
| `Selection.FirstCandidate` | transaction/mempool.py:185-215 | the scan of the ranked list finds the best entry that is ready and fits, or proves there is none |
| `Selection.SelectTransactions` | transaction/mempool.py:173-215 | each pick has the highest exact fee per byte of all entries that can be taken, then the first identifier; selection ends only at the count or when nothing fits; negative limits are refused |
| `Selection.BetterTotal` | transaction/mempool.py:185-191 | the ranking is a strict total order on the entries of a pool |
| `Selection.RunIsByRate` | transaction/mempool.py:185-215 | at each turn every other entry that is not taken, fits and has all pending parents taken has at most the fee per byte of the pick, as real numbers, and a later identifier at the same rate; nothing is left that could follow below the count |
| `Selection.SelectionIgnoresInsertionOrder` | transaction/mempool.py:173-215 | two pools with the same set of entries select the same list |
| `Selection.PicksParentsFirst` | transaction/mempool.py:192-213 | selected entries come from the pool with every pending parent before its child |
| `Selection.SelectionApplies` | transaction/mempool.py:173-215 | the selected list applies from the confirmed ledger, its fees are the sum of the stored fees, and both bounds hold |
| `Selection.SelectFromPool` | transaction/mempool.py:173-215 | on a consistent pool the returned list is picked by fee rate and applies as it stands at the stored fees |
| `Merkle.CombinePairs` | blockchain/merkle.py:24-31 | the inner loop computes the next level of a padded level |
| `Merkle.CalculateMerkleRoot` | blockchain/merkle.py:11-33 | the level-by-level loop computes the recursive tree padded with copies of the last branch |
| `Merkle.LevelFirst` | blockchain/merkle.py:18-33 | combining neighbours first or halves first gives the same tree |
| `Merkle.RootCommits` | blockchain/validation.py:81-95 | two repetition-free lists of equal depth with equal roots are equal exactly when no node of the two computations combined different pairs to one value |
| `Merkle.RepeatedTailSameRoot` | blockchain/merkle.py:18-33 | without the uniqueness check the root does not commit: repeating the last of any odd number of identifiers gives the same root |
| `Merkle.InnerNodeAsLeaf` | blockchain/merkle.py:11-33 | without equal depth it does not commit either: an inner hash given as a leaf has the same root |
| `Commitments.RootFixesTransactions` | blockchain/validation.py:81-95 | two accepted blocks with one Merkle root and trees of one depth hold the same identifiers in the same order exactly when their two root computations met no collision |
| `Commitments.SwappedBodyRefused` | blockchain/validation.py:81-95 | other transactions behind the header of an accepted block are refused by every node at every time, or exhibit such a collision |
| `Commitments.ChainLaws` | blockchain/validation.py:47-161 | a replayed chain starts at the genesis hash; each later block links to the one before it, keeps time order, meets the target, commits to distinct transactions with one coinbase in front; no hash occurs twice |
| `Blocks.ApplyBlockTransactions` | blockchain/chainstate.py:17-45 | computes the state after a block with the coinbase output added last, or refuses |
| `Blocks.ValidateAndApplyBlock` | blockchain/validation.py:164-176 | header and body checks followed by the state transition, as one decision |
| `Blocks.RebuildChainState` | blockchain/validation.py:192-232 | the loop over the stored blocks returns exactly the replayed state, or refuses at the first bad block |
| `Blocks.ReplayLaterClock` | blockchain/validation.py:130-161 | blocks accepted at one clock replay to the same state at any later clock |
| `Blocks.ReplayAnchored` | blockchain/chainstate.py:41-43 | in every replayed state the creator of every unspent outpoint is recorded |
| `ChainHistory.ExplainsBlock` | blockchain/chainstate.py:17-45 | appending a block to the history, coinbase last, keeps the state equal to created minus spent |
| `ChainHistory.ReplayExplained` | blockchain/validation.py:192-232 | every replayed state is explained by the whole transaction history |
| `ChainHistory.SpendAfterCreation` | transaction/processing.py:32-47 | every spend in an explained history comes strictly after the transaction that created the outpoint |
| `ChainHistory.SingleSpend` | transaction/utxo.py:55-89 | in an accepted chain each outpoint is created once and spent at most once, after its creation, and is unspent exactly when created and not spent |
| `ChainHistory.CoinbaseSpentLater` | blockchain/chainstate.py:41-43 | a coinbase output is never spent inside its own block or earlier |
| `Supply.AppliedLosesFee` | transaction/validation.py:66-83 | applying a transaction lowers the total of unspent amounts by exactly its fee |
| `Supply.BlockSupply` | mining/coinbase.py:89-100 | a block changes the total by the coinbase amount minus the verified fees, and the coinbase is within subsidy plus fees |
| `Supply.ChainSupply` | mining/coinbase.py:89-100 | unspent value of a chain is minted minus fees, at most 50 per block above genesis, with equality exactly when every coinbase claims its cap |
| `Templates.MempoolTemplate` | blockchain/blockchain.py:235-257 | a template from the pool's selection is refused exactly for an old timestamp, a bad address or a coinbase identifier already seen |
| `Templates.MinedTemplateAccepted` | mining/block_template.py:22-93 | a template mined to the target passes every check on the state it was made for |
| `Templates.OwnTemplateRound` | blockchain/blockchain.py:235-317 | the mined template is added exactly when no stored block has its hash, and then the pool keeps exactly the unselected entries |
| `Templates.TemplateReward` | mining/block_template.py:22-93 | the coinbase of a template pays the given address 50 plus exactly the fees its transactions leave on the ledger of its parent |
| `Templates.CreateMempoolBlockTemplate` | blockchain/blockchain.py:235-257 | on any reachable chain, selection and template fail only for a negative limit, an old timestamp, a bad address or a used coinbase identifier; otherwise the block is the selection by fee rate behind a coinbase of 50 plus the stored fees |
| `Chains.Blockchain.constructor` | blockchain/blockchain.py:32-82 | a new in-memory chain is genesis with empty state and pool |
| `Chains.Blockchain.SubmitTransaction` | blockchain/blockchain.py:180-189 | only the pool changes, as admission says; the answer is the admission decision |
| `Chains.Blockchain.RemovePendingTransaction` | blockchain/blockchain.py:191-200 | only the pool changes, as removal says; the answer is whether the identifier was pending |
| `Chains.Blockchain.AddBlock` | blockchain/blockchain.py:277-317 | blocks, state and pool change together exactly when the block is valid on the tip and new; otherwise nothing changes |
| `Chains.Blockchain.ValidateChain` | blockchain/blockchain.py:319-333 | true exactly when replaying the blocks gives the cached state |
| `Chains.StepKeepsInv` | blockchain/blockchain.py:277-317 | every operation keeps the cached state equal to a replay, only appends blocks, and a refused call changes neither the state nor the clock a replay needs |
| `Chains.RunsAgreeWithReplay` | blockchain/blockchain.py:277-333 | after any run, replay at any clock not before those at which blocks were admitted gives exactly the cached state, and the pool is consistent over it |
| `Stores.ReadPoolRestores` | storage/chainstate_store.py:94-113 | reading the written pool rows back admits every one and gives the same pool |
| `Stores.LoadRestores` | storage/chain_store.py:44-88 | a committed record loads to exactly the blocks, state, pool and revision that were written |
| `Stores.LoadExact` | storage/chain_store.py:44-88 | opening accepts a file exactly when it is the complete record of a chain that replays at the clock with a consistent pool |
| `Stores.WrittenIsDiskOf` | storage/chain_store.py:111-139 | the rows an update leaves behind are the complete record of the next chain at the next revision |
| `Stores.StaleWritersChangeNothing` | storage/chain_store.py:104-139 | a call changes the record only if its instance shows the latest revision; a failed or closed instance serves nothing, and a success is always a new revision |
| `Stores.WriteExact` | blockchain/blockchain.py:112-147 | an accepted call of a live instance replaces the record by that of the next chain exactly when the instance is up to date, the chain can be encoded and the commit was not lost; it returns True at the new revision exactly when moreover nothing failed; otherwise, and always when stale, it fails and stops serving |
| `Stores.RefusalTouchesNothing` | blockchain/blockchain.py:112-147 | an operation the chain refuses returns False and touches neither record nor instance |
| `Stores.CallKeepsInv` | blockchain/blockchain.py:112-147 | every call, with a crash before or after its commit, keeps one revision-ordered history behind the record and all instances |
| `Stores.OpenKeepsInv` | storage/chain_store.py:44-88 | opening the record shows a committed revision |
| `Stores.NextKeepsInv` | storage/chain_store.py:44-139 | committed history is only ever extended |
| `Stores.OneHistory` | storage/chain_store.py:44-139 | over any run of openers, calls and crashes the record is the last of one history, and reopening with a clock not behind the committed admissions restores it |
| `StateRows.AmountText` | storage/codec.py:185-204 | an amount is written as a text exactly when that text is accepted and read as the amount, so the text is unique |
| `StateRows.ReadChainstateRows` | storage/chainstate_store.py:59-77 | the reading loops accept exactly the rows the functional reader accepts, with the same state |
| `StateRows.ReadRowsExact` | storage/chainstate_store.py:59-77 | reading succeeds exactly on well-formed rows that list a state, each identifier and outpoint once, and gives that state |
| `StateRows.EncodeSeen` | storage/chainstate_store.py:32-37 | refused exactly for a malformed identifier; otherwise the rows list the set, each member once, in order |
| `StateRows.EncodeUtxos` | storage/chainstate_store.py:38-45 | refused exactly for an output that cannot be stored; otherwise the rows list the outputs in the order of their outpoints |
| `StateRows.EncodeChainstateRows` | storage/chainstate_store.py:32-45 | succeeds exactly for storable states, and its two sorted row lists list the state |
| `StateRows.RowsRoundTrip` | storage/chainstate_store.py:32-77 | whatever order the tables return the written rows in, reading restores the state |
| `StateRows.ReplayedStorable` | storage/chainstate_store.py:32-45 | a state reached by replay can be written exactly when every output index fits the column |
| `StateRows.ReachedIsEncodable` | storage/chainstate_store.py:32-123 | the encoders accept every reachable chain unless a height, revision or index exceeds the integer column |
| `StateRows.UpToDateWriteLands` | blockchain/blockchain.py:112-147 | in terms of the column width: an up-to-date write lands unless the commit is lost or a height, revision or index outgrows it |
| `PersistentChains.ChainStore.AppendBlock` | storage/chain_store.py:111-127 | the record is replaced only if it is what the writer expects, and a lost answer is never reported as success |
| `PersistentChains.ChainStore.ReplaceMempool` | storage/chain_store.py:129-139 | pool rows and revision change together under the same expectation; blocks and state do not |
| `PersistentChains.PersistentChain.Commit` | blockchain/blockchain.py:112-147 | memory is published only after a confirmed commit; any storage failure closes the instance for good |
| `PersistentChains.PersistentChain.Call` | blockchain/blockchain.py:180-317 | a persistent operation is the abstract effect on record, instance and answer under every fault |
| `JsonDepth.CheckDepth` | network/protocol.py:23-47 | the byte scanner with its early exits decides the fold of its transition over all bytes |
| `JsonDepth.ScanLiteral` | network/protocol.py:31-37 | brackets, quotes and backslashes inside an escaped string never change the nesting depth |
| `JsonDepth.DepthGuardExact` | network/protocol.py:23-47 | on the canonical text of any JSON value the scanner accepts exactly when nesting is at most 32 |
| `CoinSelection.Accumulate` | wallet/coin_selection.py:15-26 | the loop stops at the first prefix that covers the target, at the first worthless coin, or shows that all coins together are too few |
| `CoinSelection.OutcomesExclude` | wallet/coin_selection.py:15-26 | a covering prefix excludes both failures |
| `CoinSelection.OneChoice` | wallet/coin_selection.py:15-26 | there is at most one covering prefix to choose |
| `CoinSelection.SelectUtxos` | wallet/coin_selection.py:15-26 | the shortest covering prefix smallest first, with total and change below the largest coin; each error exactly under its own condition |
| `CoinSelection.PrefixIsSmallestFirst` | wallet/coin_selection.py:15-26 | the choice is made of the smallest coins, none of it is superfluous, and the change is below the last coin |
| `CoinSelection.SelectionIgnoresListing` | wallet/coin_selection.py:19-19 | the order in which a dictionary lists its coins does not matter |
| `TransactionBuilder.SigningBytesLocal` | transaction/transaction.py:51-92 | signing bytes of an input depend only on the common shape and its own public key |
| `TransactionBuilder.SigningKeepsEarlier` | wallet/transaction_builder.py:44-46 | signing later inputs leaves the signatures of earlier ones valid |
| `TransactionBuilder.SignInputs` | transaction/transaction.py:94-129 | the in-place loop signs every input as the functional form does |
| `TransactionBuilder.BuiltPays` | wallet/transaction_builder.py:13-46 | a built transaction spends the coins in order, pays the recipient exactly the amount and the sender exactly what is left after amount and fee, and nobody else |
| `TransactionBuilder.BuildSignedTransaction` | wallet/transaction_builder.py:13-46 | refuses, reports the size limit, or returns the transaction signed at every input that pays exactly as asked |
| `Wallets.PrepareTransaction` | wallet/service.py:71-88 | each of the four outcomes exactly under its own condition: a transaction from the choice coin selection makes within both work limits, too little money, too much work, or a refused request; a prepared transaction spends the smallest coins, none too many, and pays the recipient the amount and the sender the rest less the fee |
| `Wallets.AvailableExactly` | wallet/service.py:73-74 | an output is available exactly when it is confirmed, pays the address and is spent by no pending transaction |
| `Wallets.BuiltIsValid` | wallet/transaction_builder.py:13-46 | a built transaction is valid in any view that shows its coins, and pays exactly the requested fee |
| `Wallets.AvailableInWorkingView` | wallet/service.py:71-75 | a confirmed output that no pending entry spends is still in the pool's working view |
| `Wallets.SpendingAvailableIsFresh` | wallet/service.py:71-88 | a transaction spending such an output is neither confirmed nor pending, unless two transactions share an identifier |
| `Wallets.PreparedIsAdmitted` | wallet/service.py:71-88 | a transaction built from available coins is admitted exactly when the pool has room, with the requested fee |
| `Wallets.PreparedThenSent` | wallet/service.py:71-139 | whatever the service prepares from the node's current view is admitted exactly when the pool has room |
| `SendMachine.NextKeepsInv` | wallet/service.py:90-139 | every step of every task keeps records, locks and logs consistent, and a prepared record never changes its transaction |
| `SendMachine.AtMostOneTransaction` | wallet/service.py:90-139 | for one user and key, over any interleaving with retries, crashes and restarts, one signed transaction at most is handed to the node and every receipt names it |
| `SendMachine.DifferentRequestRefused` | wallet/service.py:93-97 | another request under a recorded key is refused on entry and changes no record, log or other task |
| `SendMachine.OnlyRecordedRequestServed` | wallet/service.py:93-139 | in every run, once a key has a prepared transaction, everything ever handed to the node and every receipt under it belongs to the recorded request |
| `SendMachine.PreparedForEver` | wallet/service.py:118-135 | a record with a prepared transaction keeps it, its request and its final outcome through the rest of every run |
| `SendMachine.ReceiptsAreGrounded` | wallet/service.py:118-139 | in every run a success receipt follows an answer of the node that it knows or admitted the named transaction, and a key is rejected only after the node, asked again, did not know it |
| `SendMachine.SendThenRetry` | wallet/service.py:90-139 | on a free key a build and one admitting answer hand the transaction over once and return its identifier; a retry returns the same receipt and hands nothing over |
| `BlockSync.ServeBlocks` | network/sync.py:142-170 | the unknown anchor and the policy error each exactly under its condition; otherwise the longest batch whose every prefix fits, empty only for a peer that lacks nothing |
| `BlockSync.TakeBlocks` | network/sync.py:189-196 | the loop takes blocks until one is too large for the receiver, does not link, or is refused at the clock read for it |
| `BlockSync.ReceiveBlocks` | network/sync.py:172-198 | the blocks taken and the judgement are those of the functional receiver, with its own item limit and a clock reading per block |
| `BlockSync.AnyReplyIsSafe` | network/sync.py:172-208 | whatever a peer replies, the chain stays replayable and gains only a prefix of the sent blocks |
| `BlockSync.JudgedExactly` | network/sync.py:172-208 | a reply is stale exactly when its anchor left the chain; another anchor or metadata that do not fit are a violation that changes nothing; completion means that all blocks are on the chain, none above the item limit, and end in the advertised tip unless more was announced |
| `BlockSync.NextBlockAccepted` | network/node.py:535-550 | the next block of a longer chain is acceptable to a node holding everything before it exactly when it is not too far ahead of the clock |
| `BlockSync.HonestRound` | network/sync.py:142-208 | an honest reply passes every check exactly when its frame and blocks suit the receiver's limits and clock; then the receiver stays a prefix of the sender and lacks less |
| `BlockSync.CatchesUp` | network/sync.py:142-208 | each round brings at least one block until the chains are equal |
| `BlockSync.CaughtUp` | network/sync.py:142-208 | as many rounds as blocks were missing give the receiver the sender's chain |
| `SnapshotPages.RawSizeExact` | network/sync.py:19-20 | the size computed from a base64 text is the number of encoded bytes |
| `SnapshotPages.ProbedItemFitsAlone` | network/sync.py:240-250 | an item that passed the probe at the largest cursor fits alone on any page |
| `SnapshotPages.PageProgress` | network/sync.py:264-282 | a page of a probed snapshot carries an item or is the last, so the empty-page error cannot happen |
| `SnapshotPages.PagesCover` | network/sync.py:264-286 | pages follow each other without gap or repetition and each one advances |
| `SnapshotPages.AllPagesAreTheExport` | network/sync.py:264-286 | together the pages are exactly the exported list in order |
| `MempoolExport.ServeKeepsBudget` | network/sync.py:210-286 | every request keeps the byte counter equal to the live snapshot sizes and within the global cap, and pages belong to the current tip |
| `MempoolExport.OtherPeersUndisturbed` | network/sync.py:210-286 | serving one peer never touches another's snapshot or waiting time |
| `MempoolExport.SweptKeepsBudget` | network/sync.py:78-83 | subtracting the expired sizes leaves the counter equal to the live sizes |
| `MempoolExport.SweptExactly` | network/sync.py:78-83 | after a tick exactly the snapshots neither idle nor alive too long are left, unchanged |
| `MempoolExport.ServeJudged` | network/sync.py:210-286 | which answer a request gets, case by case: stale tip, expired token, busy, policy, wrong cursor, or the page at the cursor of the snapshot |
| `MempoolExport.RunKeepsBudget` | network/sync.py:52-83 | in every run of requests, departures, tip changes and ticks the counter is exact and every snapshot is of the current tip |
| `MempoolImport.AnyPageIsSafe` | network/sync.py:288-318 | whatever page arrives, the pool stays consistent over the same ledger and the download within count and byte policy |
| `MempoolImport.TakenMeans` | network/sync.py:288-318 | a page is taken only if it answers the download in progress on the current tip at its cursor and no item is over the limit; the download then stands behind its last item |
| `MempoolImport.WireSizeIsSizeTotal` | network/sync.py:303-307 | the receiver's byte total is the sum of the exporter's entry sizes |
| `MempoolImport.ServedPage` | network/sync.py:210-286 | a timely continuing request is answered with the next page of the kept snapshot |
| `MempoolImport.ReceivedPage` | network/sync.py:288-318 | an honest page passes every check and is taken whole |
| `MempoolImport.ExchangeCopiesPool` | network/sync.py:210-318 | an importer over the same ledger with an empty pool and limits no smaller ends with the exporter's pool |
| `MempoolImport.SameChainCopiesPool` | network/sync.py:210-318 | the same between two nodes that hold the same blocks |
| `SyncManagers.SyncManager.DropExport` | network/sync.py:52-55 | one snapshot goes and exactly its bytes are returned |
| `SyncManagers.SyncManager.Disconnected` | network/sync.py:57-61 | export, download and source of that connection are forgotten and no other |
| `SyncManagers.SyncManager.Clear` | network/sync.py:63-67 | everything is forgotten and the counter is zero |
| `SyncManagers.SyncManager.TipChanged` | network/sync.py:69-76 | dropping the exports one by one brings the counter to zero, downloads are forgotten and every session may ask again at once |
| `SyncManagers.SyncManager.ExpireExports` | network/sync.py:78-83 | exactly the snapshots idle or alive too long are dropped |
| `SyncManagers.SyncManager.BuildPage` | network/sync.py:264-277 | the growing loop finds the longest page whose every shorter form fits |
| `SyncManagers.SyncManager.Open` | network/sync.py:224-258 | a snapshot reserves its bytes only if every limit and every probe passes; a refusal gives them back |
| `SyncManagers.SyncManager.ServeMempool` | network/sync.py:210-286 | table, counter and reply change together as the functional exporter says |
| `SyncManagers.SyncManager.ReceiveMempool` | network/sync.py:288-318 | pool, download and judgement are those of the functional importer; other downloads are untouched |
| `InboundBudget.NextKeepsInv` | network/node.py:244-268 | every step of every task keeps the counters equal to the reservations held, within the caps, and events in arrival order |
| `InboundBudget.FrameEnds` | network/peer.py:144-189 | a frame's reservation passes to the queue or is released, never both |
| `InboundBudget.CallsAreQueued` | network/node.py:258-268 | a local command is queued last with its bytes exactly when the node runs and both caps leave room; otherwise nothing changes |
| `InboundBudget.FramesAreQueued` | network/node.py:453-457 | a delivered frame of a known session is queued last while the node runs, with the bytes its reader held and no counter moved; any other frame gives its bytes back |
| `InboundBudget.QueueIsServed` | network/node.py:753-792 | while the node runs, turn by turn the queued events come into dispatch in their order |
| `InboundBudget.FrameIsHandled` | network/node.py:244-268 | a frame begun with room and delivered is dispatched after everything queued before it, and afterwards only the readers hold reservations |
| `InboundBudget.AccountingAlwaysExact` | network/node.py:244-268 | in every interleaving the counters are exact, never above the caps or below zero, and the bounded queue never overflows |
| `InboundBudget.CleanupEndsAtZero` | network/node.py:196-242 | after the drain nothing is reserved and every accepted event has been taken |
| `InboundBudget.CleanupCompletes` | network/node.py:196-242 | from every reachable state shutdown can finish, ending at zero |
| `InboundBudget.Inbound.Reserve` | network/node.py:244-250 | succeeds exactly with room while running, then takes one event and the bytes |
| `InboundBudget.Inbound.Release` | network/node.py:252-256 | gives back one event and the bytes, and reports an underflow |
| `InboundBudget.Inbound.BeginFrame` | network/peer.py:144-166 | the reader reserves the whole wire size before reading the body |
| `InboundBudget.Inbound.EndFrame` | network/peer.py:167-183 | the reader releases exactly what `_on_message` did not take over |
| `InboundBudget.Inbound.Request` | network/node.py:258-268 | a local command is queued exactly when its reservation succeeds |
| `InboundBudget.Inbound.TimerTick` | network/node.py:794-804 | at most one timer event is pending |
| `InboundBudget.Inbound.Dispatch` | network/node.py:753-792 | the oldest event is taken and released even when handling it fails |
| `InboundBudget.Inbound.DrainQueue` | network/node.py:217-222 | draining never underflows and ends with both counters at zero |
| `Peers.Outbound.Send` | network/peer.py:123-142 | a frame is queued exactly when both budgets allow, otherwise the connection closes; order is kept |
| `Peers.Outbound.TakeFrame` | network/peer.py:191-197 | the writer takes the oldest frame and its budget stays reserved |
| `Peers.Outbound.FinishFrame` | network/peer.py:198-206 | the budget is given back however the write ended |
| `Peers.Outbound.Cleanup` | network/peer.py:248-253 | after the drain both budgets are zero and the unsent frames were dropped in order |
| `Peers.GrantsAreBounded` | network/peer.py:31-41 | over any stretch of demands and any clock readings a bucket grants at most a burst plus the refill |
| `Peers.GrantsExactly` | network/peer.py:31-41 | a demand is granted exactly when it fits a burst and what is left plus the refill |
| `Duplicates.RankSymmetric` | network/node.py:575-577 | both ends of a connection compute the same rank |
| `Duplicates.WinnerIsLowest` | network/node.py:604-608 | the kept session has the lowest rank among the session and its duplicates |
| `Duplicates.NextKeepsOneLive` | network/node.py:579-619 | at one node at most one of several connections to the same peer is complete and open, and it is established |
| `Duplicates.LowestNeverClosed` | network/node.py:579-619 | in any order of handshakes at both ends the lowest-ranked connection is never closed by duplicate resolution |
| `Duplicates.LowestMeans` | network/node.py:575-577 | the lowest-ranked connection was dialled by the node with the smaller identifier when both dialled, and has the smallest nonce among those one node dialled |
| `Duplicates.OnlyLowestRemains` | network/node.py:579-619 | when all handshakes between two nodes are done, exactly the lowest-ranked connection is open, at both ends |
| `Duplicates.OneConnectionRemains` | network/node.py:579-619 | from whatever has happened the handshakes can be brought to their end, and then between any two nodes exactly the lowest-ranked connection is open and established at both ends |
| `Duplicates.GroupHasLowest` | network/node.py:575-577 | with distinct ranks every pair of connected nodes has such a lowest connection |

## Left out

- Internals of SHA-256, ECDSA, JSON and base64: uninterpreted functions; sizes on the wire use the length rule of section 4 of RFC 4648.
- Strictness of the transaction and block codecs (storage/codec.py): stored and transferred items are modelled as decoded values, so an item that does not decode appears only through its size limit.
- Dynamic type checks (bool against int, tuple against list): they vanish under Dafny's types.
- SQLite pragmas, schema text, file creation, integrity checks: the file is one record whose commit takes effect or not.
- Stores.LoadRestores: the record holds the output and identifier tables as a map and a set; their rows are the subject of `StateRows`.
- PersistentChains.PersistentChain: holds its chain as a value and replaces it; `Chains.Blockchain` models the in-place updates.
- SendMachine.NextKeepsInv: the send operation is a machine over its await points, not an object; the bookkeeping for shutdown, the build semaphore and the HTTP error texts are not modelled.
- BlockSync.CaughtUp: assumes each single block fits both nodes' limits and is not too far ahead of the receiver's clock, and that the sender's frame limit is not above the receiver's.
- BlockSync.AnyReplyIsSafe: sync states, retry delays and follow-up status requests of a session are not modelled.
- SyncManagers.SyncManager.ExpireExports: only the expiry part of the timer; choosing a block source and issuing requests is not modelled.
- MempoolImport.ExchangeCopiesPool: one exchange without a tip change in between; a tip change drops it on both sides.
- InboundBudget.NextKeepsInv: taking an event and finishing it are separate steps, which allows more interleavings than the program has.
- Duplicates.LowestNeverClosed: the only closures are those of duplicate resolution and of the other end; timeouts, protocol errors and dial bookkeeping are not modelled.
- Selection.SelectTransactions: the ranked list is computed by a verified sort function instead of the library's sort.
- Balances, address listings, explorer lookups and wallet history: plain comprehensions over the modelled state.
- Proof-of-work search and its progress reporting: only the target check on a block is modelled.
- Web front end, HTTP routes, accounts, cookies, key store, rate limits per client, WebSocket manager.
- Peer discovery, dialling and backoff (network/peer_manager.py).
- Sockets, timeouts and task cancellation: only the ownership and ordering steps they induce.
