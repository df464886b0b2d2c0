/** What the scanning loops of core/blockchain.go compute, as functions over
    the chain's blocks listed newest first. Each fold is written so that one
    more element at the end is one more loop iteration. */
module UtxoScan {
  import opened Bytes
  import opened Transactions
  import opened Blocks

  /** txid -> output indices; the shape of `spentTXOs` and `unspentOutputs`. */
  type OutputIndex = map<seq<byte>, seq<int>>

  /** `m[key] = append(m[key], k)` */
  function Append(m: OutputIndex, key: seq<byte>, k: int): (r: OutputIndex)
    ensures r.Keys == m.Keys + {key}
    ensures r[key] == (if key in m then m[key] else []) + [k]
    ensures forall other :: other in m && other != key ==> r[other] == m[other]
  {
    m[key := (if key in m then m[key] else []) + [k]]
  }

  /** Output `index` of `txid` is listed in `m`. */
  predicate Lists(m: OutputIndex, txid: seq<byte>, index: int)
  {
    txid in m && index in m[txid]
  }

  /** The scan's reading of `spentTXOs`: a listed output is spent. */
  predicate IsSpent(spent: OutputIndex, txid: seq<byte>, index: int)
  {
    Lists(spent, txid, index)
  }

  lemma ListsAppend(m: OutputIndex, key: seq<byte>, k: int, txid: seq<byte>, index: int)
    ensures Lists(Append(m, key, k), txid, index) <==> Lists(m, txid, index) || (txid == key && index == k)
  {
  }

  // ---------------------------------------------------------------------
  // FindUnspentTransactions

  datatype ScanState = ScanState(unspent: seq<Transaction>, spent: OutputIndex)

  /** The outputs loop over the first `n` outputs of `tx`: the transaction is
      appended once for every output not yet marked spent that `address` can
      unlock. */
  function ScanOutputs(tx: Transaction, n: nat, spent: OutputIndex, address: string): seq<Transaction>
    requires n <= |tx.vout|
  {
    if n == 0 then []
    else ScanOutputs(tx, n - 1, spent, address)
         + (if !IsSpent(spent, tx.id, n - 1) && CanBeUnlockedWith(tx.vout[n - 1], address) then [tx] else [])
  }

  /** The inputs loop: every input `address` unlocks marks its output spent. */
  function RecordSpends(vin: seq<TXInput>, spent: OutputIndex, address: string): OutputIndex
  {
    if vin == [] then spent
    else
      var m := RecordSpends(vin[..|vin| - 1], spent, address);
      var input := vin[|vin| - 1];
      if CanUnlockOutputWith(input, address) then Append(m, input.txid, input.vout) else m
  }

  /** One transaction: outputs first, then (for non-coinbase) its inputs. */
  function ScanTx(st: ScanState, tx: Transaction, address: string): ScanState
  {
    ScanState(st.unspent + ScanOutputs(tx, |tx.vout|, st.spent, address),
              if IsCoinbase(tx) then st.spent else RecordSpends(tx.vin, st.spent, address))
  }

  function ScanTxs(st: ScanState, txs: seq<Transaction>, address: string): ScanState
  {
    if txs == [] then st
    else ScanTx(ScanTxs(st, txs[..|txs| - 1], address), txs[|txs| - 1], address)
  }

  /** The scan over `blocks`, newest first, from an empty state. */
  function ScanBlocks(blocks: seq<Block>, address: string): ScanState
  {
    if blocks == [] then ScanState([], map[])
    else ScanTxs(ScanBlocks(blocks[..|blocks| - 1], address), blocks[|blocks| - 1].transactions, address)
  }

  function UnspentTransactions(blocks: seq<Block>, address: string): seq<Transaction>
  {
    ScanBlocks(blocks, address).unspent
  }

  /** The indices of the outputs among the first `n` that are not marked
      spent and that `address` can unlock. */
  ghost function UnspentOwned(tx: Transaction, n: nat, spent: OutputIndex, address: string): set<int>
    requires n <= |tx.vout|
  {
    set k | 0 <= k < n && !IsSpent(spent, tx.id, k) && CanBeUnlockedWith(tx.vout[k], address)
  }

  /** The outputs loop appends `tx` exactly once per output that is unspent
      and unlockable; an output already in `spent` never causes an append. */
  lemma {:induction false} ScanOutputsCounts(tx: Transaction, n: nat, spent: OutputIndex, address: string)
    requires n <= |tx.vout|
    ensures ScanOutputs(tx, n, spent, address) == seq(|UnspentOwned(tx, n, spent, address)|, _ => tx)
  {
    if n > 0 {
      ScanOutputsCounts(tx, n - 1, spent, address);
      UnspentOwnedStep(tx, n, spent, address);
    }
  }

  lemma UnspentOwnedStep(tx: Transaction, n: nat, spent: OutputIndex, address: string)
    requires 0 < n <= |tx.vout|
    ensures var before, now := UnspentOwned(tx, n - 1, spent, address), UnspentOwned(tx, n, spent, address);
      if !IsSpent(spent, tx.id, n - 1) && CanBeUnlockedWith(tx.vout[n - 1], address)
      then |now| == |before| + 1 else now == before
  {
    var before := UnspentOwned(tx, n - 1, spent, address);
    var now := UnspentOwned(tx, n, spent, address);
    UnspentOwnedMembers(tx, n, spent, address);
    if !IsSpent(spent, tx.id, n - 1) && CanBeUnlockedWith(tx.vout[n - 1], address) {
      assert now == before + {n - 1};
    } else {
      assert now == before;
    }
  }

  lemma UnspentOwnedMembers(tx: Transaction, n: nat, spent: OutputIndex, address: string)
    requires 0 < n <= |tx.vout|
    ensures forall k :: k in UnspentOwned(tx, n, spent, address) <==>
              (k in UnspentOwned(tx, n - 1, spent, address)
               || (k == n - 1 && !IsSpent(spent, tx.id, n - 1) && CanBeUnlockedWith(tx.vout[n - 1], address)))
    ensures n - 1 !in UnspentOwned(tx, n - 1, spent, address)
  {
  }

  /** Does `tx` have an output that `address` can unlock? */
  predicate HasOwnedOutput(tx: Transaction, address: string)
  {
    exists k :: 0 <= k < |tx.vout| && CanBeUnlockedWith(tx.vout[k], address)
  }

  lemma {:induction false} ScanOutputsOwned(tx: Transaction, n: nat, spent: OutputIndex, address: string)
    requires n <= |tx.vout|
    ensures forall t :: t in ScanOutputs(tx, n, spent, address) ==> t == tx && HasOwnedOutput(tx, address)
  {
    if n > 0 {
      ScanOutputsOwned(tx, n - 1, spent, address);
    }
  }

  lemma {:induction false} ScanTxsOwned(st: ScanState, txs: seq<Transaction>, address: string)
    requires forall t :: t in st.unspent ==> HasOwnedOutput(t, address)
    ensures forall t :: t in ScanTxs(st, txs, address).unspent ==> HasOwnedOutput(t, address)
  {
    if txs != [] {
      var tx := txs[|txs| - 1];
      ScanTxsOwned(st, txs[..|txs| - 1], address);
      ScanOutputsOwned(tx, |tx.vout|, ScanTxs(st, txs[..|txs| - 1], address).spent, address);
    }
  }

  /** Every transaction the scan returns has an output `address` can unlock. */
  lemma {:induction false} UnspentHaveOwnedOutput(blocks: seq<Block>, address: string)
    ensures forall t :: t in UnspentTransactions(blocks, address) ==> HasOwnedOutput(t, address)
  {
    if blocks != [] {
      UnspentHaveOwnedOutput(blocks[..|blocks| - 1], address);
      ScanTxsOwned(ScanBlocks(blocks[..|blocks| - 1], address), blocks[|blocks| - 1].transactions, address);
    }
  }

  // What gets marked spent.

  predicate InputSpends(input: TXInput, address: string, txid: seq<byte>, index: int)
  {
    CanUnlockOutputWith(input, address) && input.txid == txid && input.vout == index
  }

  /** `tx` is not coinbase and one of its inputs with unlocking data
      `address` names output `index` of `txid`. */
  predicate TxSpends(tx: Transaction, address: string, txid: seq<byte>, index: int)
  {
    !IsCoinbase(tx) && exists j :: 0 <= j < |tx.vin| && InputSpends(tx.vin[j], address, txid, index)
  }

  predicate TxsSpend(txs: seq<Transaction>, address: string, txid: seq<byte>, index: int)
  {
    exists t :: 0 <= t < |txs| && TxSpends(txs[t], address, txid, index)
  }

  predicate BlocksSpend(blocks: seq<Block>, address: string, txid: seq<byte>, index: int)
  {
    exists b :: 0 <= b < |blocks| && TxsSpend(blocks[b].transactions, address, txid, index)
  }

  lemma {:induction false} RecordSpendsMarks(vin: seq<TXInput>, spent: OutputIndex, address: string,
                                             txid: seq<byte>, index: int)
    ensures IsSpent(RecordSpends(vin, spent, address), txid, index)
        <==> IsSpent(spent, txid, index) || exists j :: 0 <= j < |vin| && InputSpends(vin[j], address, txid, index)
  {
    if vin != [] {
      var init, last := vin[..|vin| - 1], vin[|vin| - 1];
      RecordSpendsMarks(init, spent, address, txid, index);
      var m := RecordSpends(init, spent, address);
      if CanUnlockOutputWith(last, address) {
        ListsAppend(m, last.txid, last.vout, txid, index);
      }
      if exists j :: 0 <= j < |vin| && InputSpends(vin[j], address, txid, index) {
        var j :| 0 <= j < |vin| && InputSpends(vin[j], address, txid, index);
        if j < |vin| - 1 {
          assert init[j] == vin[j];
        }
      }
      if exists j :: 0 <= j < |init| && InputSpends(init[j], address, txid, index) {
        var j :| 0 <= j < |init| && InputSpends(init[j], address, txid, index);
        assert vin[j] == init[j];
      }
    }
  }

  lemma {:induction false} ScanTxsMarks(st: ScanState, txs: seq<Transaction>, address: string,
                                        txid: seq<byte>, index: int)
    ensures IsSpent(ScanTxs(st, txs, address).spent, txid, index)
        <==> IsSpent(st.spent, txid, index) || TxsSpend(txs, address, txid, index)
  {
    if txs != [] {
      var init, last := txs[..|txs| - 1], txs[|txs| - 1];
      ScanTxsMarks(st, init, address, txid, index);
      var mid := ScanTxs(st, init, address);
      if !IsCoinbase(last) {
        RecordSpendsMarks(last.vin, mid.spent, address, txid, index);
      }
      if TxsSpend(txs, address, txid, index) {
        var t :| 0 <= t < |txs| && TxSpends(txs[t], address, txid, index);
        if t < |txs| - 1 {
          assert init[t] == txs[t];
        }
      }
      if TxsSpend(init, address, txid, index) {
        var t :| 0 <= t < |init| && TxSpends(init[t], address, txid, index);
        assert txs[t] == init[t];
      }
    }
  }

  /** After the whole scan, an output is marked spent exactly when some
      non-coinbase transaction in the scanned blocks has an input that
      `address` unlocks naming that output. */
  lemma {:induction false} ScanBlocksMarks(blocks: seq<Block>, address: string, txid: seq<byte>, index: int)
    ensures IsSpent(ScanBlocks(blocks, address).spent, txid, index) <==> BlocksSpend(blocks, address, txid, index)
  {
    if blocks != [] {
      var init, last := blocks[..|blocks| - 1], blocks[|blocks| - 1];
      ScanBlocksMarks(init, address, txid, index);
      ScanTxsMarks(ScanBlocks(init, address), last.transactions, address, txid, index);
      if BlocksSpend(blocks, address, txid, index) {
        var b :| 0 <= b < |blocks| && TxsSpend(blocks[b].transactions, address, txid, index);
        if b < |blocks| - 1 {
          assert init[b] == blocks[b];
        }
      }
      if BlocksSpend(init, address, txid, index) {
        var b :| 0 <= b < |init| && TxsSpend(init[b].transactions, address, txid, index);
        assert blocks[b] == init[b];
      }
    }
  }

  // ---------------------------------------------------------------------
  // FindUTXO

  /** The outputs `address` can unlock, in order. */
  function OwnedOutputs(outs: seq<TXOutput>, address: string): seq<TXOutput>
  {
    if outs == [] then []
    else OwnedOutputs(outs[..|outs| - 1], address)
         + (if CanBeUnlockedWith(outs[|outs| - 1], address) then [outs[|outs| - 1]] else [])
  }

  /** The flattening loop: the owned outputs of each listed transaction,
      with no second look at whether they were spent. */
  function UTXOs(txs: seq<Transaction>, address: string): seq<TXOutput>
  {
    if txs == [] then []
    else UTXOs(txs[..|txs| - 1], address) + OwnedOutputs(txs[|txs| - 1].vout, address)
  }

  /** Sum of the values (the balance the CLI prints). */
  function Balance(outs: seq<TXOutput>): int
  {
    if outs == [] then 0 else Balance(outs[..|outs| - 1]) + outs[|outs| - 1].value
  }

  lemma BalanceSingle(o: TXOutput)
    ensures Balance([o]) == o.value
  {
    assert [o][..0] == [];
  }

  lemma {:induction false} BalanceConcat(a: seq<TXOutput>, b: seq<TXOutput>)
    ensures Balance(a + b) == Balance(a) + Balance(b)
  {
    if b != [] {
      assert (a + b)[..|a + b| - 1] == a + b[..|b| - 1];
      BalanceConcat(a, b[..|b| - 1]);
    } else {
      assert a + b == a;
    }
  }

  lemma {:induction false} OwnedOutputsLocked(outs: seq<TXOutput>, address: string)
    ensures forall o :: o in OwnedOutputs(outs, address) ==> o in outs && CanBeUnlockedWith(o, address)
  {
    if outs != [] {
      OwnedOutputsLocked(outs[..|outs| - 1], address);
    }
  }

  /** Every output FindUTXO returns is locked to `address` and belongs to a
      transaction the scan returned. */
  lemma {:induction false} UTXOsLocked(txs: seq<Transaction>, address: string)
    ensures forall o :: o in UTXOs(txs, address) ==>
              CanBeUnlockedWith(o, address) && exists t :: t in txs && o in t.vout
  {
    if txs != [] {
      var init, last := txs[..|txs| - 1], txs[|txs| - 1];
      UTXOsLocked(init, address);
      OwnedOutputsLocked(last.vout, address);
      forall o | o in UTXOs(txs, address)
        ensures CanBeUnlockedWith(o, address) && exists t :: t in txs && o in t.vout
      {
        if o in UTXOs(init, address) {
          var t :| t in init && o in t.vout;
          assert t in txs;
        } else {
          assert last in txs;
        }
      }
    }
  }

  // ---------------------------------------------------------------------
  // FindSpendableOutputs

  /** Output `index` of `tx`, carried with the output itself. */
  datatype OutPoint = OutPoint(tx: Transaction, index: nat, out: TXOutput)

  function PointsOf(tx: Transaction): (ps: seq<OutPoint>)
    ensures |ps| == |tx.vout|
    ensures forall k :: 0 <= k < |ps| ==> ps[k] == OutPoint(tx, k, tx.vout[k])
  {
    seq(|tx.vout|, k requires 0 <= k < |tx.vout| => OutPoint(tx, k, tx.vout[k]))
  }

  /** Every output of every listed transaction, in loop order. */
  function Candidates(txs: seq<Transaction>): seq<OutPoint>
  {
    if txs == [] then [] else Candidates(txs[..|txs| - 1]) + PointsOf(txs[|txs| - 1])
  }

  lemma {:induction false} CandidatesWellFormed(txs: seq<Transaction>)
    ensures forall c :: c in Candidates(txs) ==> c.tx in txs && c.index < |c.tx.vout| && c.out == c.tx.vout[c.index]
  {
    if txs != [] {
      CandidatesWellFormed(txs[..|txs| - 1]);
      forall c | c in Candidates(txs)
        ensures c.tx in txs && c.index < |c.tx.vout| && c.out == c.tx.vout[c.index]
      {
        if c in Candidates(txs[..|txs| - 1]) {
          assert c.tx in txs[..|txs| - 1];
        }
      }
    }
  }

  datatype Selection = Selection(accumulated: int, picks: seq<OutPoint>)

  /** One step of the selection loop. */
  function Pick(s: Selection, c: OutPoint, from: string, amount: int): Selection
  {
    if CanBeUnlockedWith(c.out, from) && s.accumulated < amount
    then Selection(s.accumulated + c.out.value, s.picks + [c])
    else s
  }

  /** The selection loop over `cands`. Once `accumulated >= amount` no
      further step changes anything, so this also describes the loop that
      breaks out at that point. */
  function Greedy(cands: seq<OutPoint>, from: string, amount: int): Selection
  {
    if cands == [] then Selection(0, [])
    else Pick(Greedy(cands[..|cands| - 1], from, amount), cands[|cands| - 1], from, amount)
  }

  function Spendable(txs: seq<Transaction>, from: string, amount: int): Selection
  {
    Greedy(Candidates(txs), from, amount)
  }

  /** The picks as the txid -> indices map the source returns. */
  function IndexMap(picks: seq<OutPoint>): OutputIndex
  {
    if picks == [] then map[]
    else Append(IndexMap(picks[..|picks| - 1]), picks[|picks| - 1].tx.id, picks[|picks| - 1].index)
  }

  function OutputsOf(ps: seq<OutPoint>): (outs: seq<TXOutput>)
    ensures |outs| == |ps| && forall i :: 0 <= i < |ps| ==> outs[i] == ps[i].out
  {
    seq(|ps|, i requires 0 <= i < |ps| => ps[i].out)
  }

  /** The candidates whose output `address` can unlock. */
  function Owned(cands: seq<OutPoint>, address: string): seq<OutPoint>
  {
    if cands == [] then []
    else Owned(cands[..|cands| - 1], address)
         + (if CanBeUnlockedWith(cands[|cands| - 1].out, address) then [cands[|cands| - 1]] else [])
  }

  /** Once the amount is covered, further candidates change nothing. */
  lemma {:induction false} GreedyCoveredStays(cands: seq<OutPoint>, rest: seq<OutPoint>, from: string, amount: int)
    requires Greedy(cands, from, amount).accumulated >= amount
    ensures Greedy(cands + rest, from, amount) == Greedy(cands, from, amount)
  {
    if rest != [] {
      assert (cands + rest)[..|cands + rest| - 1] == cands + rest[..|rest| - 1];
      GreedyCoveredStays(cands, rest[..|rest| - 1], from, amount);
    } else {
      assert cands + rest == cands;
    }
  }

  /** `accumulated` is the sum of the values of the selected outputs. */
  lemma {:induction false} GreedySum(cands: seq<OutPoint>, from: string, amount: int)
    ensures Greedy(cands, from, amount).accumulated == Balance(OutputsOf(Greedy(cands, from, amount).picks))
  {
    if cands != [] {
      var c := cands[|cands| - 1];
      var s0 := Greedy(cands[..|cands| - 1], from, amount);
      GreedySum(cands[..|cands| - 1], from, amount);
      if CanBeUnlockedWith(c.out, from) && s0.accumulated < amount {
        assert OutputsOf(s0.picks + [c]) == OutputsOf(s0.picks) + [c.out];
        BalanceConcat(OutputsOf(s0.picks), [c.out]);
        assert Balance([c.out]) == c.out.value;
      }
    }
  }

  /** Every selected output is one of the candidates and is locked to `from`. */
  lemma {:induction false} GreedyPicksOwned(cands: seq<OutPoint>, from: string, amount: int)
    ensures forall p :: p in Greedy(cands, from, amount).picks ==> p in cands && CanBeUnlockedWith(p.out, from)
  {
    if cands != [] {
      GreedyPicksOwned(cands[..|cands| - 1], from, amount);
      forall p | p in Greedy(cands[..|cands| - 1], from, amount).picks
        ensures p in cands
      {
        assert p in cands[..|cands| - 1];
      }
    }
  }

  /** Each pick was made while the running total was still below `amount`:
      the loop stops as soon as the amount is covered. */
  lemma {:induction false} GreedyPicksWhileShort(cands: seq<OutPoint>, from: string, amount: int)
    ensures var s := Greedy(cands, from, amount);
      forall i :: 0 <= i < |s.picks| ==> Balance(OutputsOf(s.picks[..i])) < amount
  {
    if cands != [] {
      var c := cands[|cands| - 1];
      var s0 := Greedy(cands[..|cands| - 1], from, amount);
      var s := Greedy(cands, from, amount);
      GreedyPicksWhileShort(cands[..|cands| - 1], from, amount);
      if CanBeUnlockedWith(c.out, from) && s0.accumulated < amount {
        GreedySum(cands[..|cands| - 1], from, amount);
        forall i | 0 <= i < |s.picks|
          ensures Balance(OutputsOf(s.picks[..i])) < amount
        {
          if i < |s0.picks| {
            assert s.picks[..i] == s0.picks[..i];
          } else {
            assert s.picks[..i] == s0.picks;
          }
        }
      }
    }
  }

  /** Nothing is selected when `amount <= 0`. */
  lemma {:induction false} GreedyNothingToCover(cands: seq<OutPoint>, from: string, amount: int)
    requires amount <= 0
    ensures Greedy(cands, from, amount) == Selection(0, [])
  {
    if cands != [] {
      GreedyNothingToCover(cands[..|cands| - 1], from, amount);
    }
  }

  /** When the amount is not covered, every candidate `from` can unlock was
      selected, in order. */
  lemma {:induction false} GreedyShortTakesAll(cands: seq<OutPoint>, from: string, amount: int)
    requires Greedy(cands, from, amount).accumulated < amount
    ensures Greedy(cands, from, amount).picks == Owned(cands, from)
  {
    if cands != [] {
      GreedyShortTakesAll(cands[..|cands| - 1], from, amount);
    }
  }

  lemma {:induction false} OwnedConcat(a: seq<OutPoint>, b: seq<OutPoint>, address: string)
    ensures Owned(a + b, address) == Owned(a, address) + Owned(b, address)
  {
    if b != [] {
      assert (a + b)[..|a + b| - 1] == a + b[..|b| - 1];
      OwnedConcat(a, b[..|b| - 1], address);
    } else {
      assert a + b == a;
    }
  }

  lemma {:induction false} OwnedPointsOf(tx: Transaction, j: nat, address: string)
    requires j <= |tx.vout|
    ensures OutputsOf(Owned(PointsOf(tx)[..j], address)) == OwnedOutputs(tx.vout[..j], address)
  {
    if j > 0 {
      OwnedPointsOf(tx, j - 1, address);
      assert PointsOf(tx)[..j][..j - 1] == PointsOf(tx)[..j - 1];
      assert tx.vout[..j][..j - 1] == tx.vout[..j - 1];
    }
  }

  /** FindUTXO's outputs are the outputs of the owned candidates, so both
      queries see the same coins. */
  lemma {:induction false} UTXOsAreOwnedCandidates(txs: seq<Transaction>, address: string)
    ensures UTXOs(txs, address) == OutputsOf(Owned(Candidates(txs), address))
  {
    if txs != [] {
      var init, last := txs[..|txs| - 1], txs[|txs| - 1];
      UTXOsAreOwnedCandidates(init, address);
      OwnedConcat(Candidates(init), PointsOf(last), address);
      OwnedPointsOfAll(last, address);
      OutputsOfConcat(Owned(Candidates(init), address), Owned(PointsOf(last), address));
    }
  }

  lemma OwnedPointsOfAll(tx: Transaction, address: string)
    ensures OutputsOf(Owned(PointsOf(tx), address)) == OwnedOutputs(tx.vout, address)
  {
    OwnedPointsOf(tx, |tx.vout|, address);
    assert PointsOf(tx)[..|tx.vout|] == PointsOf(tx);
    assert tx.vout[..|tx.vout|] == tx.vout;
  }

  lemma OutputsOfConcat(a: seq<OutPoint>, b: seq<OutPoint>)
    ensures OutputsOf(a + b) == OutputsOf(a) + OutputsOf(b)
  {
  }

  /** An insufficient selection returns the whole balance FindUTXO reports. */
  lemma ShortSelectionIsWholeBalance(txs: seq<Transaction>, from: string, amount: int)
    requires Spendable(txs, from, amount).accumulated < amount
    ensures Spendable(txs, from, amount).accumulated == Balance(UTXOs(txs, from))
  {
    GreedySum(Candidates(txs), from, amount);
    GreedyShortTakesAll(Candidates(txs), from, amount);
    UTXOsAreOwnedCandidates(txs, from);
  }

  /** Some pick is output `k` of a transaction with ID `txid`. */
  predicate Picked(picks: seq<OutPoint>, txid: seq<byte>, k: int)
  {
    exists i :: 0 <= i < |picks| && picks[i].tx.id == txid && picks[i].index == k
  }

  /** `k` is listed under `txid` exactly when some pick is output `k` of a
      transaction with that ID; all listed indices are output positions. */
  lemma {:induction false} IndexMapLists(picks: seq<OutPoint>, txid: seq<byte>, k: int)
    ensures Lists(IndexMap(picks), txid, k) <==> Picked(picks, txid, k)
  {
    if picks != [] {
      var init, p := picks[..|picks| - 1], picks[|picks| - 1];
      IndexMapLists(init, txid, k);
      ListsAppend(IndexMap(init), p.tx.id, p.index, txid, k);
      if Picked(picks, txid, k) {
        var i :| 0 <= i < |picks| && picks[i].tx.id == txid && picks[i].index == k;
        if i < |picks| - 1 {
          assert init[i] == picks[i];
        }
      }
      if Picked(init, txid, k) {
        var i :| 0 <= i < |init| && init[i].tx.id == txid && init[i].index == k;
        assert picks[i] == init[i];
      }
    }
  }

  lemma {:induction false} IndexMapNonNegative(picks: seq<OutPoint>)
    ensures forall id :: id in IndexMap(picks) ==> forall j :: 0 <= j < |IndexMap(picks)[id]| ==> IndexMap(picks)[id][j] >= 0
  {
    if picks != [] {
      IndexMapNonNegative(picks[..|picks| - 1]);
    }
  }

  // ---------------------------------------------------------------------
  // Consequences of the scan's counting

  /** A transaction whose two outputs are both locked to `address` is
      returned twice by the scan, and FindUTXO then lists each of its
      outputs twice. */
  lemma DoubleListing(b: Block, tx: Transaction, address: string)
    requires b.transactions == [tx] && |tx.vout| == 2
    requires CanBeUnlockedWith(tx.vout[0], address) && CanBeUnlockedWith(tx.vout[1], address)
    ensures UnspentTransactions([b], address) == [tx, tx]
    ensures UTXOs(UnspentTransactions([b], address), address) == tx.vout + tx.vout
  {
    OneBlockScan(b, tx, address);
    assert ScanOutputs(tx, 1, map[], address) == [tx];
    assert ScanOutputs(tx, 2, map[], address) == [tx, tx];
    OwnedOutputsAllLocked(tx.vout, address);
    assert [tx, tx][..1] == [tx];
    UTXOsSingle(tx, address);
  }

  lemma {:induction false} OwnedOutputsAllLocked(outs: seq<TXOutput>, address: string)
    requires forall k :: 0 <= k < |outs| ==> CanBeUnlockedWith(outs[k], address)
    ensures OwnedOutputs(outs, address) == outs
  {
    if outs != [] {
      OwnedOutputsAllLocked(outs[..|outs| - 1], address);
    }
  }

  lemma UTXOsSingle(tx: Transaction, address: string)
    ensures UTXOs([tx], address) == OwnedOutputs(tx.vout, address)
  {
    assert [tx][..0] == [];
  }

  /** The scan of a single block holding a single transaction. */
  lemma OneBlockScan(b: Block, tx: Transaction, address: string)
    requires b.transactions == [tx]
    ensures UnspentTransactions([b], address) == ScanOutputs(tx, |tx.vout|, map[], address)
  {
    var st0 := ScanState([], map[]);
    assert [b][..0] == [];
    assert ScanBlocks([b], address) == ScanTxs(st0, [tx], address);
    assert [tx][..0] == [];
    assert ScanTxs(st0, [tx], address) == ScanTx(st0, tx, address);
  }

  /** The scan of one block holding a single transaction with a single
      output locked to `address` lists that transaction once, and its
      output once. */
  lemma SingleOutputListing(b: Block, tx: Transaction, address: string)
    requires b.transactions == [tx] && |tx.vout| == 1
    requires CanBeUnlockedWith(tx.vout[0], address)
    ensures UnspentTransactions([b], address) == [tx]
    ensures UTXOs(UnspentTransactions([b], address), address) == tx.vout
  {
    assert UnspentTransactions([b], address) == [tx] by {
      OneBlockScan(b, tx, address);
      assert ScanOutputs(tx, 1, map[], address) == [tx];
    }
    assert UTXOs([tx], address) == tx.vout by {
      UTXOsSingle(tx, address);
      assert tx.vout[..0] == [];
      assert tx.vout == [tx.vout[0]];
    }
  }

  /** FindUTXO does not look at spent marks again: output 0 of `t2` is spent
      by the newer block `b1`, so the scan lists `t2` once (for output 1),
      and FindUTXO then reports both of `t2`'s outputs, the spent one too. */
  lemma SpentOutputStillListed(b1: Block, t1: Transaction, b0: Block, t2: Transaction, address: string)
    requires b1.transactions == [t1] && t1.vout == [] && t1.vin == [TXInput(t2.id, 0, address)]
    requires b0.transactions == [t2] && |t2.vout| == 2
    requires CanBeUnlockedWith(t2.vout[0], address) && CanBeUnlockedWith(t2.vout[1], address)
    ensures UnspentTransactions([b1, b0], address) == [t2]
    ensures IsSpent(ScanBlocks([b1, b0], address).spent, t2.id, 0)
    ensures UTXOs(UnspentTransactions([b1, b0], address), address) == t2.vout
  {
    var spent := RecordSpends(t1.vin, map[], address);
    assert ScanBlocks([b1], address) == ScanState([], spent) by {
      OneTxBlockScan(b1, t1, address);
      assert !IsCoinbase(t1);
    }
    assert IsSpent(spent, t2.id, 0) && !IsSpent(spent, t2.id, 1) by {
      RecordSpendsOne(TXInput(t2.id, 0, address), address);
      ListsAppend(map[], t2.id, 0, t2.id, 0);
      ListsAppend(map[], t2.id, 0, t2.id, 1);
    }
    TwoBlockScan(b1, b0, address);
    OneTxScan(ScanState([], spent), t2, address);
    RecordSpendsMarks(t2.vin, spent, address, t2.id, 0);
    assert ScanOutputs(t2, 2, spent, address) == [t2] by {
      assert ScanOutputs(t2, 1, spent, address) == [];
    }
    assert UTXOs([t2], address) == t2.vout by {
      UTXOsSingle(t2, address);
      OwnedOutputsPair(t2.vout, address);
    }
  }

  lemma OwnedOutputsPair(outs: seq<TXOutput>, address: string)
    requires |outs| == 2 && CanBeUnlockedWith(outs[0], address) && CanBeUnlockedWith(outs[1], address)
    ensures OwnedOutputs(outs, address) == outs
  {
    assert outs[..1][..0] == [];
    assert outs[..1] == [outs[0]];
    assert OwnedOutputs(outs[..1], address) == [outs[0]];
    assert outs == [outs[0]] + [outs[1]];
  }

  lemma RecordSpendsOne(input: TXInput, address: string)
    requires CanUnlockOutputWith(input, address)
    ensures RecordSpends([input], map[], address) == Append(map[], input.txid, input.vout)
  {
    assert [input][..0] == [];
  }

  lemma OneTxScan(st: ScanState, tx: Transaction, address: string)
    ensures ScanTxs(st, [tx], address) == ScanTx(st, tx, address)
  {
    assert [tx][..0] == [];
  }

  lemma OneTxBlockScan(b: Block, tx: Transaction, address: string)
    requires b.transactions == [tx]
    ensures ScanBlocks([b], address) == ScanTx(ScanState([], map[]), tx, address)
  {
    assert [b][..0] == [];
    OneTxScan(ScanState([], map[]), tx, address);
  }

  lemma TwoBlockScan(b1: Block, b0: Block, address: string)
    ensures ScanBlocks([b1, b0], address) == ScanTxs(ScanBlocks([b1], address), b0.transactions, address)
  {
    assert [b1, b0][..1] == [b1];
  }
}
