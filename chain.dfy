/** The ledger (core/blockchain.go): a store of blocks keyed by hash with the
    tip under the reserved key "l", an iterator walking from the tip back to
    genesis, and the UTXO queries that walk the whole chain. */
module Chain {
  import opened Bytes
  import opened Transactions
  import opened Blocks
  import opened ProofOfWork
  import opened UtxoScan

  const genesisCoinbaseData: string := "The Times 03/Jan/2009 Chancellor on brink of second bailout for banks"

  /** The "blocks" bucket: block records by hash, and `last`, the value
      stored under the reserved key "l" (a one-byte key, so it cannot clash
      with a 32-byte block hash). */
  class Store {
    var blocks: map<seq<byte>, Block>
    var last: seq<byte>

    constructor ()
      ensures blocks == map[] && last == []
    {
      blocks := map[];
      last := [];
    }
  }

  /** Unless the nonce search ran out, a stored block satisfies the puzzle
      and its hash is the proof-of-work hash at its nonce. */
  predicate PuzzleHolds(b: Block, prims: Primitives)
  {
    && (b.nonce < maxNonce ==> Validate(NewProofofWork(b), prims))
    && (b.nonce < maxNonce ==> b.hash == HashAt(NewProofofWork(b), b.nonce, prims))
  }

  /** A block of `transactions` stamped `timestamp` that links to `prev`,
      has a 32-byte hash, satisfies the puzzle, and carries the least nonce
      that does. */
  predicate MinedOn(b: Block, prev: seq<byte>, transactions: seq<Transaction>, timestamp: int, prims: Primitives)
  {
    && b.prevBlockHash == prev && b.transactions == transactions && b.timestamp == timestamp
    && |b.hash| == 32 && PuzzleHolds(b, prims)
    && 0 <= b.nonce <= maxNonce
    && (forall n :: 0 <= n < b.nonce ==> !Meets(NewProofofWork(b), n, prims))
  }

  /** The blocks named by `chain`, looked up in `blocks`. */
  function Walk(blocks: map<seq<byte>, Block>, chain: seq<seq<byte>>): (bs: seq<Block>)
    requires forall i :: 0 <= i < |chain| ==> chain[i] in blocks
    ensures |bs| == |chain| && forall i :: 0 <= i < |chain| ==> bs[i] == blocks[chain[i]]
  {
    seq(|chain|, i requires 0 <= i < |chain| => blocks[chain[i]])
  }

  /** `chain` lists the hashes from the tip back to genesis: each block is
      stored under its own 32-byte hash and links to the next one, the last
      one is the genesis block, and the store holds no other block. */
  ghost predicate Linked(blocks: map<seq<byte>, Block>, chain: seq<seq<byte>>)
  {
    && |chain| > 0
    && (forall i :: 0 <= i < |chain| ==> chain[i] in blocks && blocks[chain[i]].hash == chain[i] && |chain[i]| == 32)
    && (forall i :: 0 <= i < |chain| - 1 ==> blocks[chain[i]].prevBlockHash == chain[i + 1])
    && IsGenesis(blocks[chain[|chain| - 1]])
    && (forall h :: h in blocks ==> h in chain)
  }

  /** A linked chain visits each block once: no hash repeats. */
  lemma {:induction false} ChainDistinct(blocks: map<seq<byte>, Block>, chain: seq<seq<byte>>, i: nat, j: nat)
    requires Linked(blocks, chain) && i < j < |chain|
    ensures chain[i] != chain[j]
    decreases |chain| - i
  {
    if j < |chain| - 1 {
      if i + 1 < j + 1 {
        ChainDistinct(blocks, chain, i + 1, j + 1);
      }
      assert blocks[chain[i]].prevBlockHash == chain[i + 1];
      assert blocks[chain[j]].prevBlockHash == chain[j + 1];
    } else {
      assert IsGenesis(blocks[chain[j]]);
      assert blocks[chain[i]].prevBlockHash == chain[i + 1];
      assert |chain[i + 1]| == 32;
    }
  }

  /** Every stored block satisfies the puzzle. */
  ghost predicate AllPuzzlesHold(blocks: map<seq<byte>, Block>, prims: Primitives)
  {
    forall h :: h in blocks ==> PuzzleHolds(blocks[h], prims)
  }

  ghost predicate WellLinked(blocks: map<seq<byte>, Block>, chain: seq<seq<byte>>, prims: Primitives)
  {
    Linked(blocks, chain) && AllPuzzlesHold(blocks, prims)
  }

  /** Putting a new block that links to the tip, under a hash not yet
      stored, keeps the chain linked and puts the block in front. */
  lemma ExtendLinked(blocks: map<seq<byte>, Block>, chain: seq<seq<byte>>, nb: Block)
    requires Linked(blocks, chain)
    requires nb.hash !in blocks && |nb.hash| == 32 && nb.prevBlockHash == chain[0]
    ensures Linked(blocks[nb.hash := nb], [nb.hash] + chain)
    ensures Walk(blocks[nb.hash := nb], [nb.hash] + chain) == [nb] + Walk(blocks, chain)
  {
    ExtendStored(blocks, chain, nb);
    ExtendLinks(blocks, chain, nb);
    ExtendKeys(blocks, chain, nb);
    ExtendWalk(blocks, chain, nb);
  }

  lemma ExtendStored(blocks: map<seq<byte>, Block>, chain: seq<seq<byte>>, nb: Block)
    requires Linked(blocks, chain)
    requires nb.hash !in blocks && |nb.hash| == 32
    ensures forall i :: 0 <= i < |chain| + 1 ==>
              ([nb.hash] + chain)[i] in blocks[nb.hash := nb]
              && blocks[nb.hash := nb][([nb.hash] + chain)[i]].hash == ([nb.hash] + chain)[i]
              && |([nb.hash] + chain)[i]| == 32
    ensures blocks[nb.hash := nb][chain[|chain| - 1]] == blocks[chain[|chain| - 1]]
  {
    var blocks', chain' := blocks[nb.hash := nb], [nb.hash] + chain;
    forall i | 0 <= i < |chain'|
      ensures chain'[i] in blocks' && blocks'[chain'[i]].hash == chain'[i] && |chain'[i]| == 32
    {
      if i > 0 {
        assert chain'[i] == chain[i - 1] && chain[i - 1] in blocks;
      }
    }
    assert chain[|chain| - 1] in blocks;
  }

  lemma ExtendLinks(blocks: map<seq<byte>, Block>, chain: seq<seq<byte>>, nb: Block)
    requires Linked(blocks, chain)
    requires nb.hash !in blocks && nb.prevBlockHash == chain[0]
    ensures forall i :: 0 <= i < |chain| ==>
              blocks[nb.hash := nb][([nb.hash] + chain)[i]].prevBlockHash == ([nb.hash] + chain)[i + 1]
  {
    var blocks', chain' := blocks[nb.hash := nb], [nb.hash] + chain;
    forall i | 0 <= i < |chain'| - 1
      ensures blocks'[chain'[i]].prevBlockHash == chain'[i + 1]
    {
      if i > 0 {
        assert chain'[i] == chain[i - 1] && chain[i - 1] in blocks;
      }
    }
  }

  lemma ExtendKeys(blocks: map<seq<byte>, Block>, chain: seq<seq<byte>>, nb: Block)
    requires Linked(blocks, chain)
    ensures forall h :: h in blocks[nb.hash := nb] ==> h in [nb.hash] + chain
  {
    forall h | h in blocks[nb.hash := nb]
      ensures h in [nb.hash] + chain
    {
      if h != nb.hash {
        assert h in blocks;
      }
    }
  }

  lemma ExtendWalk(blocks: map<seq<byte>, Block>, chain: seq<seq<byte>>, nb: Block)
    requires Linked(blocks, chain)
    requires nb.hash !in blocks && |nb.hash| == 32
    ensures Walk(blocks[nb.hash := nb], [nb.hash] + chain) == [nb] + Walk(blocks, chain)
  {
    ExtendStored(blocks, chain, nb);
    var blocks', chain' := blocks[nb.hash := nb], [nb.hash] + chain;
    var w, w' := Walk(blocks, chain), Walk(blocks', chain');
    forall i | 0 <= i < |w'|
      ensures w'[i] == ([nb] + w)[i]
    {
      if i > 0 {
        assert chain'[i] == chain[i - 1] && chain[i - 1] in blocks;
      }
    }
  }

  /** Storing a block that satisfies the puzzle keeps every stored block
      satisfying it. */
  lemma ExtendPuzzles(blocks: map<seq<byte>, Block>, nb: Block, prims: Primitives)
    requires AllPuzzlesHold(blocks, prims) && PuzzleHolds(nb, prims)
    ensures AllPuzzlesHold(blocks[nb.hash := nb], prims)
  {
    var blocks' := blocks[nb.hash := nb];
    forall h | h in blocks'
      ensures PuzzleHolds(blocks'[h], prims)
    {
      if h != nb.hash {
        assert blocks'[h] == blocks[h];
      }
    }
  }

  class BlockchainIterator {
    var currentHash: seq<byte>
    const db: Store

    constructor (currentHash: seq<byte>, db: Store)
      ensures this.currentHash == currentHash && this.db == db
    {
      this.currentHash := currentHash;
      this.db := db;
    }

    /** Returns the block stored under `currentHash` and moves to its
      predecessor. (The source panics when no block is stored there.) */
    method Next() returns (block: Block)
      requires currentHash in db.blocks
      modifies this
      ensures block == db.blocks[old(currentHash)]
      ensures currentHash == block.prevBlockHash
    {
      block := db.blocks[currentHash];
      currentHash := block.prevBlockHash;
    }
  }

  class Blockchain {
    var tip: seq<byte>
    const db: Store
    const prims: Primitives
    /** Hashes from the tip back to genesis. */
    ghost var chain: seq<seq<byte>>

    ghost predicate Valid()
      reads this, db
    {
      WellLinked(db.blocks, chain, prims) && chain[0] == tip && db.last == tip
    }

    /** The chain's blocks, newest first. */
    ghost function Blocks(): seq<Block>
      reads this, db
      requires Valid()
    {
      Walk(db.blocks, chain)
    }

    /** Following `prevBlockHash` from the tip visits `Blocks()` in order;
      the genesis block is the last one and the only one with an empty
      `prevBlockHash`. */
    lemma WalkFromTip()
      requires Valid()
      ensures Blocks()[0] == db.blocks[tip]
      ensures forall i :: 0 <= i < |Blocks()| - 1 ==>
                !IsGenesis(Blocks()[i]) && Blocks()[i].prevBlockHash in db.blocks
                && db.blocks[Blocks()[i].prevBlockHash] == Blocks()[i + 1]
      ensures IsGenesis(Blocks()[|Blocks()| - 1])
    {
      var bs := Blocks();
      forall i | 0 <= i < |bs| - 1
        ensures !IsGenesis(bs[i]) && bs[i].prevBlockHash in db.blocks && db.blocks[bs[i].prevBlockHash] == bs[i + 1]
      {
        assert bs[i].prevBlockHash == chain[i + 1];
      }
    }

    /** The block `i` steps back from the tip: stored under `chain[i]`, the
      genesis block exactly when it is the last, and otherwise linking to
      `chain[i + 1]`. */
    lemma ChainAt(i: nat)
      requires Valid() && i < |chain|
      ensures chain[i] in db.blocks && db.blocks[chain[i]] == Blocks()[i]
      ensures IsGenesis(Blocks()[i]) <==> i == |chain| - 1
      ensures i < |chain| - 1 ==> Blocks()[i].prevBlockHash == chain[i + 1]
    {
      if i < |chain| - 1 {
        assert |chain[i + 1]| == 32;
      }
    }

    /** `CreateBlockchain`: a store holding exactly the genesis block, whose
      coinbase pays `address`; "l" and the tip are its hash. */
    constructor Create(address: string, timestamp: int, prims: Primitives)
      ensures Valid() && fresh(db) && this.prims == prims
      ensures db.blocks.Keys == {tip} && db.last == tip
      ensures Blocks() == [db.blocks[tip]]
      ensures db.blocks[tip].transactions == [NewCoinbaseTX(address, genesisCoinbaseData, "", prims.encodeTx, prims.sha256)]
      ensures IsGenesis(db.blocks[tip]) && db.blocks[tip].timestamp == timestamp
    {
      var cbtx := NewCoinbaseTX(address, genesisCoinbaseData, "", prims.encodeTx, prims.sha256);
      var genesis := NewGenesisBlock(cbtx, timestamp, prims);
      var store := new Store();
      store.blocks := store.blocks[genesis.hash := genesis];
      store.last := genesis.hash;
      db := store;
      this.prims := prims;
      tip := genesis.hash;
      chain := [genesis.hash];
    }

    /** A chain just created for `address` holds the subsidy for it. */
    lemma CreatedBalance(address: string)
      requires Valid() && Blocks() == [db.blocks[tip]]
      requires db.blocks[tip].transactions == [NewCoinbaseTX(address, genesisCoinbaseData, "", prims.encodeTx, prims.sha256)]
      ensures UTXOs(UnspentTransactions(Blocks(), address), address) == [NewTXOutput(subsidy, address)]
      ensures Balance(UTXOs(UnspentTransactions(Blocks(), address), address)) == subsidy
    {
      var cb := NewCoinbaseTX(address, genesisCoinbaseData, "", prims.encodeTx, prims.sha256);
      SingleOutputListing(db.blocks[tip], cb, address);
      BalanceSingle(NewTXOutput(subsidy, address));
    }

    /** Builds a block of `transactions` on top of the block named by "l",
      stores it under its hash and advances "l" and the tip; no other key
      changes. The chain stays well linked unless the new hash collides with
      a stored one. */
    method MineBlock(transactions: seq<Transaction>, timestamp: int)
      requires Valid()
      modifies this, db
      ensures db.last == tip && tip in db.blocks && db.blocks[tip].hash == tip
      ensures db.blocks == old(db.blocks)[tip := db.blocks[tip]]
      ensures MinedOn(db.blocks[tip], old(db.last), transactions, timestamp, prims)
      ensures tip !in old(db.blocks) ==> Valid() && Blocks() == [db.blocks[tip]] + old(Blocks())
    {
      ghost var blocks0, chain0, bs0 := db.blocks, chain, Blocks();
      var lastHash := db.last;
      var newBlock := NewBlock(transactions, lastHash, timestamp, prims);
      db.blocks := db.blocks[newBlock.hash := newBlock];
      db.last := newBlock.hash;
      tip := newBlock.hash;
      chain := [newBlock.hash] + chain;
      if newBlock.hash !in blocks0 {
        ExtendedValid(blocks0, chain0, newBlock);
      }
    }

    /** The state `MineBlock` leaves when the new hash was not stored yet. */
    lemma ExtendedValid(blocks0: map<seq<byte>, Block>, chain0: seq<seq<byte>>, nb: Block)
      requires WellLinked(blocks0, chain0, prims) && nb.hash !in blocks0
      requires |nb.hash| == 32 && nb.prevBlockHash == chain0[0] && PuzzleHolds(nb, prims)
      requires db.blocks == blocks0[nb.hash := nb] && chain == [nb.hash] + chain0
      requires tip == nb.hash && db.last == tip
      ensures Valid() && Blocks() == [nb] + Walk(blocks0, chain0)
    {
      ExtendLinked(blocks0, chain0, nb);
      ExtendPuzzles(blocks0, nb, prims);
    }

    method Iterator() returns (bci: BlockchainIterator)
      ensures fresh(bci) && bci.currentHash == tip && bci.db == db
    {
      bci := new BlockchainIterator(tip, db);
    }

    /** Walks the chain from the tip and returns the transactions with an
      output `address` can unlock that is not marked spent by an
      `address`-unlocked input of a non-coinbase transaction scanned before
      it, once per such output. */
    method FindUnspentTransactions(address: string) returns (unspentTXs: seq<Transaction>)
      requires Valid()
      ensures unspentTXs == UnspentTransactions(Blocks(), address)
    {
      unspentTXs := [];
      var spentTXOs: OutputIndex := map[];
      var bci := Iterator();
      ghost var bs := Blocks();
      ghost var i := 0;
      while true
        invariant 0 <= i < |chain|
        invariant bci.currentHash == chain[i] && bci.db == db
        invariant ScanState(unspentTXs, spentTXOs) == ScanBlocks(bs[..i], address)
        decreases |chain| - i
      {
        ChainAt(i);
        var block := bci.Next();
        unspentTXs, spentTXOs := ScanBlockTransactions(block.transactions, unspentTXs, spentTXOs, address);
        ScanBlocksStep(bs, i, address);
        if |block.prevBlockHash| == 0 {
          assert bs[..i + 1] == bs;
          break;
        }
        i := i + 1;
      }
    }

    /** Picks outputs of `from` in scan order until their values cover
      `amount`; returns the total picked and the picks as txid -> indices. */
    method FindSpendableOutputs(from: string, amount: int) returns (accumulated: int, unspentOutputs: OutputIndex)
      requires Valid()
      ensures var s := Spendable(UnspentTransactions(Blocks(), from), from, amount);
        accumulated == s.accumulated && unspentOutputs == IndexMap(s.picks)
    {
      var unspentTXs := FindUnspentTransactions(from);
      accumulated, unspentOutputs := SelectOutputs(unspentTXs, from, amount);
    }

    /** The owned outputs of the unspent transactions, flattened; spent
      status is not looked at again. */
    method FindUTXO(address: string) returns (utxos: seq<TXOutput>)
      requires Valid()
      ensures utxos == UTXOs(UnspentTransactions(Blocks(), address), address)
    {
      var unspentTransactions := FindUnspentTransactions(address);
      utxos := CollectUTXOs(unspentTransactions, address);
    }
  }

  /** The selection loop of `FindSpendableOutputs` over the unspent
      transactions: picks outputs of `from` in order until their values
      cover `amount`, and stops there. */
  method SelectOutputs(unspentTXs: seq<Transaction>, from: string, amount: int)
    returns (accumulated: int, unspentOutputs: OutputIndex)
    ensures var s := Spendable(unspentTXs, from, amount);
      accumulated == s.accumulated && unspentOutputs == IndexMap(s.picks)
  {
    unspentOutputs := map[];
    accumulated := 0;
    ghost var picks: seq<OutPoint> := [];
    label Work:
    for i := 0 to |unspentTXs|
      invariant Selection(accumulated, picks) == Greedy(Candidates(unspentTXs[..i]), from, amount)
      invariant unspentOutputs == IndexMap(picks)
    {
      var tx := unspentTXs[i];
      var txID := tx.id;
      ghost var prefix := Candidates(unspentTXs[..i]);
      assert prefix + PointsOf(tx)[..0] == prefix;
      for outIdx := 0 to |tx.vout|
        invariant Selection(accumulated, picks) == Greedy(prefix + PointsOf(tx)[..outIdx], from, amount)
        invariant unspentOutputs == IndexMap(picks)
      {
        var out := tx.vout[outIdx];
        GreedyPointsStep(prefix, tx, outIdx, from, amount);
        if CanBeUnlockedWith(out, from) && accumulated < amount {
          accumulated := accumulated + out.value;
          unspentOutputs := Append(unspentOutputs, txID, outIdx);
          IndexMapStep(picks, OutPoint(tx, outIdx, out));
          picks := picks + [OutPoint(tx, outIdx, out)];
          if accumulated >= amount {
            CoveredStopsScan(unspentTXs, i, outIdx, from, amount);
            break Work;
          }
        }
      }
      CandidatesWhole(unspentTXs, i);
    }
    assert unspentTXs[..|unspentTXs|] == unspentTXs;
  }

  /** The outputs loop of `FindUTXO`. */
  method CollectUTXOs(unspentTransactions: seq<Transaction>, address: string) returns (utxos: seq<TXOutput>)
    ensures utxos == UTXOs(unspentTransactions, address)
  {
    utxos := [];
    for i := 0 to |unspentTransactions|
      invariant utxos == UTXOs(unspentTransactions[..i], address)
    {
      var tx := unspentTransactions[i];
      ghost var before := utxos;
      for k := 0 to |tx.vout|
        invariant utxos == before + OwnedOutputs(tx.vout[..k], address)
      {
        assert tx.vout[..k + 1][..k] == tx.vout[..k];
        if CanBeUnlockedWith(tx.vout[k], address) {
          utxos := utxos + [tx.vout[k]];
        }
      }
      assert tx.vout[..|tx.vout|] == tx.vout;
      assert unspentTransactions[..i + 1][..i] == unspentTransactions[..i];
    }
    assert unspentTransactions[..|unspentTransactions|] == unspentTransactions;
  }

  /** The transactions loop of `FindUnspentTransactions` for one block. */
  method ScanBlockTransactions(txs: seq<Transaction>, unspentTXs: seq<Transaction>, spentTXOs: OutputIndex,
                               address: string) returns (unspent': seq<Transaction>, spent': OutputIndex)
    ensures ScanState(unspent', spent') == ScanTxs(ScanState(unspentTXs, spentTXOs), txs, address)
  {
    unspent', spent' := unspentTXs, spentTXOs;
    for t := 0 to |txs|
      invariant ScanState(unspent', spent') == ScanTxs(ScanState(unspentTXs, spentTXOs), txs[..t], address)
    {
      var tx := txs[t];
      unspent' := CollectUnspentOutputs(tx, unspent', spent', address);
      if !IsCoinbase(tx) {
        spent' := RecordInputs(tx, spent', address);
      }
      assert txs[..t + 1][..t] == txs[..t];
    }
    assert txs[..|txs|] == txs;
  }

  /** The outputs loop of `FindUnspentTransactions` for one transaction:
      appends `tx` once for every output `address` can unlock whose index is
      not listed under `tx.id` in `spentTXOs`. */
  method CollectUnspentOutputs(tx: Transaction, unspentTXs: seq<Transaction>, spentTXOs: OutputIndex,
                               address: string) returns (unspent': seq<Transaction>)
    ensures unspent' == unspentTXs + ScanOutputs(tx, |tx.vout|, spentTXOs, address)
  {
    unspent' := unspentTXs;
    var txID := tx.id;
    label Outputs:
    for outIdx := 0 to |tx.vout|
      invariant unspent' == unspentTXs + ScanOutputs(tx, outIdx, spentTXOs, address)
    {
      var out := tx.vout[outIdx];
      if txID in spentTXOs {
        var spentOuts := spentTXOs[txID];
        for s := 0 to |spentOuts|
          invariant forall s' :: 0 <= s' < s ==> spentOuts[s'] != outIdx
        {
          if spentOuts[s] == outIdx {
            continue Outputs;
          }
        }
      }
      if CanBeUnlockedWith(out, address) {
        unspent' := unspent' + [tx];
      }
    }
  }

  /** The inputs loop of `FindUnspentTransactions`: every input `address`
      can unlock marks the output it refers to as spent. */
  method RecordInputs(tx: Transaction, spentTXOs: OutputIndex, address: string) returns (spent': OutputIndex)
    ensures spent' == RecordSpends(tx.vin, spentTXOs, address)
  {
    spent' := spentTXOs;
    for j := 0 to |tx.vin|
      invariant spent' == RecordSpends(tx.vin[..j], spentTXOs, address)
    {
      var input := tx.vin[j];
      assert tx.vin[..j + 1][..j] == tx.vin[..j];
      if CanUnlockOutputWith(input, address) {
        spent' := Append(spent', input.txid, input.vout);
      }
    }
    assert tx.vin[..|tx.vin|] == tx.vin;
  }

  lemma ScanBlocksStep(bs: seq<Block>, i: nat, address: string)
    requires i < |bs|
    ensures ScanBlocks(bs[..i + 1], address) == ScanTxs(ScanBlocks(bs[..i], address), bs[i].transactions, address)
  {
    assert bs[..i + 1][..i] == bs[..i];
  }

  lemma GreedyPointsStep(prefix: seq<OutPoint>, tx: Transaction, k: nat, from: string, amount: int)
    requires k < |tx.vout|
    ensures Greedy(prefix + PointsOf(tx)[..k + 1], from, amount)
         == Pick(Greedy(prefix + PointsOf(tx)[..k], from, amount), OutPoint(tx, k, tx.vout[k]), from, amount)
  {
    assert (prefix + PointsOf(tx)[..k + 1])[..|prefix| + k] == prefix + PointsOf(tx)[..k];
  }

  lemma IndexMapStep(picks: seq<OutPoint>, p: OutPoint)
    ensures IndexMap(picks + [p]) == Append(IndexMap(picks), p.tx.id, p.index)
  {
    assert (picks + [p])[..|picks|] == picks;
  }

  lemma CandidatesWhole(txs: seq<Transaction>, i: nat)
    requires i < |txs|
    ensures Candidates(txs[..i + 1]) == Candidates(txs[..i]) + PointsOf(txs[i])[..|txs[i].vout|]
  {
    CandidatesStep(txs, i);
    assert PointsOf(txs[i])[..|txs[i].vout|] == PointsOf(txs[i]);
  }

  lemma CandidatesStep(txs: seq<Transaction>, i: nat)
    requires i < |txs|
    ensures Candidates(txs[..i + 1]) == Candidates(txs[..i]) + PointsOf(txs[i])
  {
    assert txs[..i + 1][..i] == txs[..i];
  }

  lemma {:induction false} CandidatesConcat(a: seq<Transaction>, b: seq<Transaction>)
    ensures Candidates(a + b) == Candidates(a) + Candidates(b)
  {
    if b != [] {
      assert (a + b)[..|a + b| - 1] == a + b[..|b| - 1];
      CandidatesConcat(a, b[..|b| - 1]);
    } else {
      assert a + b == a;
    }
  }

  /** Breaking out once the amount is covered gives the same selection as
      running over every remaining candidate. */
  lemma CoveredStopsScan(txs: seq<Transaction>, i: nat, k: nat, from: string, amount: int)
    requires i < |txs| && k < |txs[i].vout|
    requires Greedy(Candidates(txs[..i]) + PointsOf(txs[i])[..k + 1], from, amount).accumulated >= amount
    ensures Greedy(Candidates(txs), from, amount)
         == Greedy(Candidates(txs[..i]) + PointsOf(txs[i])[..k + 1], from, amount)
  {
    var head, points, tail := Candidates(txs[..i]), PointsOf(txs[i]), Candidates(txs[i + 1..]);
    CandidatesAround(txs, i, k);
    GreedyCoveredStays(head + points[..k + 1], points[k + 1..] + tail, from, amount);
  }

  /** The candidates of `txs`, cut after output `k` of transaction `i`. */
  lemma CandidatesAround(txs: seq<Transaction>, i: nat, k: nat)
    requires i < |txs| && k < |txs[i].vout|
    ensures Candidates(txs)
         == (Candidates(txs[..i]) + PointsOf(txs[i])[..k + 1]) + (PointsOf(txs[i])[k + 1..] + Candidates(txs[i + 1..]))
  {
    var head, points, tail := Candidates(txs[..i]), PointsOf(txs[i]), Candidates(txs[i + 1..]);
    CandidatesSplit(txs, i);
    CandidatesStep(txs, i);
    RegroupAt(head, points, tail, k + 1);
  }

  lemma RegroupAt(head: seq<OutPoint>, points: seq<OutPoint>, tail: seq<OutPoint>, k: nat)
    requires k <= |points|
    ensures (head + points) + tail == (head + points[..k]) + (points[k..] + tail)
  {
    assert points == points[..k] + points[k..];
  }

  lemma CandidatesSplit(txs: seq<Transaction>, i: nat)
    requires i < |txs|
    ensures Candidates(txs) == Candidates(txs[..i + 1]) + Candidates(txs[i + 1..])
  {
    assert txs == txs[..i + 1] + txs[i + 1..];
    CandidatesConcat(txs[..i + 1], txs[i + 1..]);
  }
}
