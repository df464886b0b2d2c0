# blockchain_coin core, in Dafny

A model of a small single-node blockchain with a UTXO ("unspent transaction
output") ledger. The chain is a key-value store mapping a block's hash to the
block, plus the special key "l" holding the hash of the newest block. Blocks
are mined with a SHA-256 proof of work at a fixed difficulty of 8 leading zero
bits. Coins come from coinbase transactions that mint a subsidy of 10 units.
They are spent through transactions whose inputs name earlier outputs.
Ownership is a placeholder: a plain string comparison between an address and
the output's `ScriptPubKey` or the input's `ScriptSig`.

The modules follow the three core files:

- `Bytes` (bytes.dfy): bytes, 32-byte digests, and the big-endian reading of
  a digest as a natural number.
- `Transactions` (transactions.dfy): inputs, outputs, transactions, coinbase
  detection, locking and unlocking, `SetID` and `NewCoinbaseTX`.
- `Blocks` (blocks.dfy): the block record, and the bundle of primitives
  that the core uses but does not define. These are SHA-256, the gob
  encoding of a transaction, `HashTransactions` and `IntToHex`. Each is a
  total function passed in as a parameter.
- `ProofOfWork` (proofofwork.dfy): the target, `prepareData`, the nonce
  search `Run`, `Validate`, and the mined-block constructor that uses them.
- `UtxoScan` (utxoscan.dfy): the scanner as pure reference functions. These
  are the newest-first walk of `FindUnspentTransactions`, the greedy
  selection of `FindSpendableOutputs` and the flattening of `FindUTXO`. The
  module also holds the lemmas about what these functions compute.
- `Chain` (chain.dfy): the store, the `Blockchain` and `BlockchainIterator`
  classes, and the imperative loops of `core/blockchain.go`. Each loop is
  proved equal to its reference function in `UtxoScan`.
- `Spending` (spending.dfy): `NewUTXOTransaction`, which builds inputs from
  the selected outputs, then a payment output and an optional change output.

The source's quirks are kept:

- `FindUnspentTransactions` appends a transaction once for every unspent
  output of it that the address can unlock.
- `FindUTXO` lists every unlockable output of every listed transaction, with
  no second check of whether that output was spent.

`UtxoScan.ScanOutputsCounts` and `UtxoScan.DoubleListing` state the first
outright. `UtxoScan.SpentOutputStillListed` states the second: an output
spent by a newer block is still reported by `FindUTXO`.

## Model

| member | source | states |
|---|---|---|
| Transactions.CoinbaseInput | core/transaction.go:77 | the coinbase input has an empty txid, `vout == -1` and the data as ScriptSig, so any transaction whose only input it is counts as coinbase |
| Transactions.CoinbaseIffSingleMarkerInput | core/transaction.go:33-35 | a transaction is coinbase iff its input list is exactly one coinbase input (some data) |
| Transactions.NewTXOutput | core/transaction.go:60-63 | the output carries the value and is unlockable by the address |
| Transactions.UnlockingIsExactMatch | core/transaction.go:51-58 | an input or output unlocks with `d` iff its ScriptSig / ScriptPubKey is exactly `d` |
| Transactions.SetID | core/transaction.go:38-49 | only the ID changes; it becomes the 32-byte hash of the encoded transaction, inputs and outputs unchanged |
| Transactions.NewCoinbaseTX | core/transaction.go:66-82 | exactly one input `(empty, -1, data)`, whose data is the given string when it is non-empty and the random filler otherwise, exactly one output `(subsidy, to)`, the ID is the hash of the ID-less transaction, and the result is coinbase |
| Bytes.BytesToNatBound | core/proofofwork.go:51 | a big-endian reading of `n` bytes is below 256^n |
| Bytes.LeadingByteZero | core/proofofwork.go:51-53 | a byte string reads below 256^(n-1) iff its first byte is zero |
| ProofOfWork.NewProofofWork | core/proofofwork.go:20-24 | the proof of work keeps the block, and its target is `Pow(2, 256 - targetBits)`, that is `1 << 248` |
| ProofOfWork.TargetIsPowerOfTwo | core/proofofwork.go:18-22 | the target is `1 << (256 - targetBits)` with `targetBits = 8` |
| ProofOfWork.TargetMeansLeadingZeroByte | core/proofofwork.go:18-22 | a 32-byte hash is below the target iff its first byte is zero |
| ProofOfWork.PrepareData | core/proofofwork.go:26-39 | the data starts with the previous hash and ends with the nonce's hex |
| ProofOfWork.PrepareDataReadsHeaderOnly | core/proofofwork.go:26-39 | the data depends only on the previous hash, the transactions, the timestamp and the nonce given |
| ProofOfWork.Run | core/proofofwork.go:41-65 | returns the least nonce in `[0, maxNonce)` whose hash is below the target, with that hash; every smaller nonce fails; if none succeeds it returns `maxNonce` without wrapping |
| ProofOfWork.RunResultUnique | core/proofofwork.go:47-60 | the search result is determined: two nonces meeting Run's contract are equal |
| ProofOfWork.ValidateIffLeadingZeroByte | core/proofofwork.go:67-73 | Validate holds iff the hash for the stored nonce has a zero first byte |
| ProofOfWork.ValidateAcceptsFoundNonce | core/proofofwork.go:67-73 | storing a nonce that met the search test makes Validate true |
| ProofOfWork.NewBlock | core/blockchain.go:108 | a mined block keeps the given transactions, previous hash and timestamp, has a 32-byte hash, the least passing nonce, and passes Validate when a nonce was found |
| ProofOfWork.NewGenesisBlock | core/blockchain.go:68 | the genesis block holds only the coinbase, links to nothing, carries the least passing nonce, and when a nonce was found passes Validate and has the proof-of-work hash at that nonce |
| UtxoScan.Append | core/blockchain.go:223 | appending an index under a key extends only that key's list |
| UtxoScan.ListsAppend | core/blockchain.go:202-223 | after appending `(key, k)` a pair is listed iff it was listed before or is `(key, k)`; for `spentTXOs` this is spent-ness |
| UtxoScan.ScanOutputsCounts | core/blockchain.go:199-214 | the outputs loop appends the transaction exactly once per unspent output the address unlocks |
| UtxoScan.ScanOutputsOwned | core/blockchain.go:199-213 | everything the outputs loop appends is that transaction, and it has an output the address unlocks |
| UtxoScan.UnspentHaveOwnedOutput | core/blockchain.go:187-235 | every returned transaction has at least one output the address can unlock |
| UtxoScan.RecordSpendsMarks | core/blockchain.go:218-225 | after the inputs loop a pair is spent iff it was before or some input the address unlocks names it |
| UtxoScan.ScanTxsMarks | core/blockchain.go:195-227 | spends are recorded only for non-coinbase transactions, and only for inputs whose ScriptSig is the address |
| UtxoScan.ScanBlocksMarks | core/blockchain.go:192-232 | after the walk a pair is recorded spent iff some matching input of some non-coinbase transaction on the chain names it |
| UtxoScan.OwnedOutputsLocked | core/blockchain.go:278-282 | every output kept for one transaction is one of its outputs and is locked to the address |
| UtxoScan.UTXOsLocked | core/blockchain.go:273-285 | every output FindUTXO lists is locked to the address and comes from a listed transaction |
| UtxoScan.BalanceConcat | core/blockchain.go:258 | the sum of values is additive over concatenation |
| UtxoScan.CandidatesWellFormed | core/blockchain.go:252-255 | every candidate `(tx, outIdx, out)` is an output position of a listed transaction |
| UtxoScan.GreedyCoveredStays | core/blockchain.go:262-264 | once the amount is covered, later candidates change nothing (the `break Work`) |
| UtxoScan.GreedySum | core/blockchain.go:257-259 | the accumulated value equals the sum of the values of the selected outputs |
| UtxoScan.GreedyPicksOwned | core/blockchain.go:257 | each selected output is a candidate locked to `from` |
| UtxoScan.GreedyPicksWhileShort | core/blockchain.go:257 | every output was selected while the running total was still below the amount |
| UtxoScan.GreedyNothingToCover | core/blockchain.go:257 | for `amount <= 0` the result is `(0, empty map)` |
| UtxoScan.GreedyShortTakesAll | core/blockchain.go:250-267 | when the result is short of the amount, every unlockable candidate was selected |
| UtxoScan.UTXOsAreOwnedCandidates | core/blockchain.go:250-285 | FindUTXO's list is exactly the unlockable candidates of FindSpendableOutputs, in order |
| UtxoScan.ShortSelectionIsWholeBalance | core/blockchain.go:250-285 | a result short of the amount is the whole balance FindUTXO reports |
| UtxoScan.IndexMapLists | core/blockchain.go:259 | `(txid, k)` is in the returned map iff some selected output is output `k` of a transaction with that ID |
| UtxoScan.IndexMapNonNegative | core/blockchain.go:255-259 | every listed output index is non-negative |
| UtxoScan.DoubleListing | core/blockchain.go:199-213 | a transaction with two unspent outputs for the address is listed twice, and FindUTXO then lists each output twice |
| UtxoScan.SpentOutputStillListed | core/blockchain.go:273-285 | an output spent by an input of a newer block is marked spent and still reported by FindUTXO, because its transaction is listed for its other, unspent output |
| UtxoScan.SingleOutputListing | core/blockchain.go:199-213 | a one-block chain whose one transaction has one output for the address lists that transaction once and that output once |
| Chain.ChainDistinct | core/blockchain.go:192-231 | no hash repeats along a linked chain, so the walk from the tip visits each block once |
| Chain.ExtendLinked | core/blockchain.go:108-121 | storing a block linked to the tip, under a fresh 32-byte hash, keeps the chain linked and prepends it to the walk |
| Chain.ExtendPuzzles | core/blockchain.go:108-112 | adding a block whose puzzle holds keeps every stored block's puzzle holding |
| Chain.BlockchainIterator.constructor | core/blockchain.go:181-184 | the iterator holds the given hash and store |
| Chain.BlockchainIterator.Next | core/blockchain.go:165-179 | returns the block stored under the current hash and moves the current hash to that block's previous hash |
| Chain.Blockchain.WalkFromTip | core/blockchain.go:165-179 | from the tip, each `prevBlockHash` names the next block of the chain; only the last block has an empty `prevBlockHash` |
| Chain.Blockchain.ChainAt | core/blockchain.go:192-231 | the block `i` steps back is stored; it is genesis iff it is the last one, and otherwise links to the next one |
| Chain.Blockchain.Create | core/blockchain.go:53-93 | the store holds exactly the genesis block with the coinbase for `address`, stored under its hash; "l" and the tip are that hash |
| Chain.Blockchain.CreatedBalance | core/blockchain.go:65-84 | right after creation the address owns exactly the subsidy output, and its balance is 10 |
| Chain.Blockchain.MineBlock | core/blockchain.go:96-127 | the new block links to the old "l" value, carries the least passing nonce, and when a nonce was found passes Validate and has as hash the proof-of-work hash at that nonce; it is stored under that hash; "l" and the tip are that hash; no other key changes; without a hash collision the chain stays well linked, with the new block in front |
| Chain.Blockchain.ExtendedValid | core/blockchain.go:110-121 | after the store update the chain invariant holds again, with the new block in front |
| Chain.Blockchain.Iterator | core/blockchain.go:181-184 | a fresh iterator starts at the tip, on the same store |
| Chain.Blockchain.FindUnspentTransactions | core/blockchain.go:187-235 | the loop visits the chain from the tip and stops right after the genesis block; it returns what the reference scan over the chain returns |
| Chain.Blockchain.FindSpendableOutputs | core/blockchain.go:245-270 | returns the greedy selection's total and its txid-to-indices map, computed over the unspent transactions |
| Chain.Blockchain.FindUTXO | core/blockchain.go:273-285 | returns the unlockable outputs of the unspent transactions, in scan order |
| Chain.SelectOutputs | core/blockchain.go:248-269 | the labelled loop computes the greedy selection and its index map |
| Chain.CollectUTXOs | core/blockchain.go:274-284 | the flattening loop computes `UTXOs` |
| Chain.ScanBlockTransactions | core/blockchain.go:195-227 | the transactions loop of one block advances the scan state as the reference scan does |
| Chain.CollectUnspentOutputs | core/blockchain.go:199-214 | the outputs loop with `continue Outputs` appends what the reference outputs scan appends |
| Chain.RecordInputs | core/blockchain.go:217-226 | the inputs loop records exactly the spends of the reference function |
| Spending.VoutsForMembers | core/transaction.go:104-107 | `k` is among the indices the inputs name for `txid` iff some input names `(txid, k)` |
| Spending.InputsForVouts | core/transaction.go:104-107 | the inputs built for `txid` name exactly its listed indices, and nothing for any other ID |
| Spending.InputsMatchSelection | core/transaction.go:97-108 | an input names `(txid, k)` iff the selection lists `k` under `txid` |
| Spending.InputsArePicks | core/transaction.go:97-108 | an input names `(txid, k)` iff output `k` of a transaction with that ID was selected |
| Spending.SpendingNotCoinbase | core/transaction.go:97-108 | every input index of a spend is `>= 0`, so the spend is never coinbase |
| Spending.NewUTXOTransaction | core/transaction.go:85-122 | fails iff the selection is short of the amount; otherwise exactly one input per selected pair, each with ScriptSig `from`; the first output is `(amount, to)`; a change output `(acc - amount, from)` exists iff `acc > amount`; the ID is the hash of the ID-less transaction; never coinbase |
| Spending.BuildInputs | core/transaction.go:97-108 | the inputs built from the selection name exactly the selected pairs, all with ScriptSig `from` |
| Spending.AppendEntry | core/transaction.go:104-107 | the inner loop appends one input per listed index |
| Spending.SpendBalances | core/transaction.go:111-116 | the outputs of a spend sum to `acc`, which is the sum of the selected outputs' values |

## Left out

- BoltDB is not modelled. The store is a map from hash to block, plus the value under "l". Each `View` and `Update` callback of `core/blockchain.go` is one atomic step, and its error paths (`log.Panic`) are not modelled.
- `NewBlockchain` is not modelled. It exits when no chain exists, opens the store and loads the tip from "l". `dbExists` is not modelled either; it only checks with `os.Stat` whether the file exists. The only way to get a `Chain.Blockchain` is `Create`, and the `db.last == tip` part of its invariant is what `NewBlockchain`'s load would establish. `CreateBlockchain`'s "already exists" exit is also left out, because the file system is not modelled.
- Block serialisation is not modelled. `Serialize` and `DeserializeBlock` store and load blocks as values.
- The primitives are not modelled. SHA-256, gob encoding, `HashTransactions` and `IntToHex` are total function parameters, and a SHA-256 result is any 32 bytes.
- `NewBlock` and the block record live in block.go, which is not part of this model. The call sites give only the arguments. `ProofOfWork.NewBlock` assumes the usual body: a block with an empty hash and nonce 0, then `Run`'s nonce and hash stored in it. The clock reading is a `timestamp` parameter. The puzzle clauses of `ProofOfWork.NewBlock`, `ProofOfWork.NewGenesisBlock`, `Chain.Blockchain.MineBlock` and the chain invariant rest on that assumption.
- The `crypto/rand` filler of `NewCoinbaseTX` is a `randomFiller` parameter. `Blockchain.Create` passes the fixed genesis data, so the filler is never used there.
- Console output (`fmt.Printf` in `Run`, the CLI) and core/cli.go as a whole are not modelled.
- Txids are used directly as map keys. The hex encoding of the source is injective, so nothing depends on it.
- The order of Go map iteration in `NewUTXOTransaction` is left open. The loop picks any remaining txid, and the inputs are specified per txid, not by position.
- The commented-out `AddBlock` is not modelled, since it is dead code.
- Transactions.SetID: modelled as a function returning the updated transaction rather than a mutation of `tx.ID`. The source only applies it to a fresh local value, so no aliasing is lost.
- Chain.Blockchain.FindSpendableOutputs: does not model the wrap-around of the `int` (64-bit) accumulator or of output values. Sums are unbounded integers.
- Chain.Blockchain.MineBlock: keeps the chain invariant only when the mined hash is not already a key. A SHA-256 collision would overwrite a stored block, and the contract then states only the store update.
- Chain.BlockchainIterator.Next: requires a block to be stored under the current hash. The source panics while decoding in that case.
- Spending.NewUTXOTransaction: requires a well-linked chain, because it calls the scan. The insufficient-funds `log.Panic` becomes the `InsufficientFunds` result.
- ProofOfWork.NewProofofWork: the target is written as the literal 2^248, and `ProofOfWork.TargetIsPowerOfTwo` proves it equals `1 << (256 - targetBits)`.
- Chain.SelectOutputs, Chain.CollectUTXOs, Chain.ScanBlockTransactions, Chain.CollectUnspentOutputs and Chain.RecordInputs are the inner loops of the source's methods. Each is written as a method of its own, with the same iteration.
