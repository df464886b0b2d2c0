/** Building a transaction that spends coins of one address
    (`NewUTXOTransaction`, core/transaction.go). */
module Spending {
  import opened Bytes
  import opened Transactions
  import opened UtxoScan
  import opened Chain

  /** The source panics on insufficient funds; here that is a result. */
  datatype SpendResult = Ok(tx: Transaction) | InsufficientFunds

  /** The `vout`s of the inputs that name `txid`, in input order. */
  function VoutsFor(inputs: seq<TXInput>, txid: seq<byte>): seq<int>
  {
    if inputs == [] then []
    else VoutsFor(inputs[..|inputs| - 1], txid)
         + (if inputs[|inputs| - 1].txid == txid then [inputs[|inputs| - 1].vout] else [])
  }

  lemma {:induction false} VoutsForConcat(a: seq<TXInput>, b: seq<TXInput>, txid: seq<byte>)
    ensures VoutsFor(a + b, txid) == VoutsFor(a, txid) + VoutsFor(b, txid)
  {
    if b != [] {
      assert (a + b)[..|a + b| - 1] == a + b[..|b| - 1];
      VoutsForConcat(a, b[..|b| - 1], txid);
    } else {
      assert a + b == a;
    }
  }

  /** Some input names output `k` of `txid`. */
  predicate HasInput(inputs: seq<TXInput>, txid: seq<byte>, k: int)
  {
    exists i :: 0 <= i < |inputs| && inputs[i].txid == txid && inputs[i].vout == k
  }

  /** `k` is among the `vout`s listed for `txid` exactly when some input
      names output `k` of `txid`. */
  lemma {:induction false} VoutsForMembers(inputs: seq<TXInput>, txid: seq<byte>, k: int)
    ensures k in VoutsFor(inputs, txid) <==> HasInput(inputs, txid, k)
  {
    if inputs != [] {
      var init := inputs[..|inputs| - 1];
      VoutsForMembers(init, txid, k);
      if HasInput(init, txid, k) {
        var i :| 0 <= i < |init| && init[i].txid == txid && init[i].vout == k;
        assert inputs[i] == init[i];
      }
      if HasInput(inputs, txid, k) {
        var i :| 0 <= i < |inputs| && inputs[i].txid == txid && inputs[i].vout == k;
        if i < |inputs| - 1 {
          assert init[i] == inputs[i];
        }
      }
    }
  }

  /** The inputs the inner loop builds for one entry `txid -> outs`. */
  function InputsFor(txid: seq<byte>, outs: seq<int>, from: string): (ins: seq<TXInput>)
    ensures |ins| == |outs| && forall k :: 0 <= k < |outs| ==> ins[k] == TXInput(txid, outs[k], from)
  {
    seq(|outs|, k requires 0 <= k < |outs| => TXInput(txid, outs[k], from))
  }

  /** An entry's inputs list exactly its indices under its own txid and
      nothing under any other. */
  lemma {:induction false} InputsForVouts(txid: seq<byte>, outs: seq<int>, from: string, other: seq<byte>)
    ensures VoutsFor(InputsFor(txid, outs, from), other) == if other == txid then outs else []
  {
    if outs != [] {
      InputsForVouts(txid, outs[..|outs| - 1], from, other);
      assert InputsFor(txid, outs, from)[..|outs| - 1] == InputsFor(txid, outs[..|outs| - 1], from);
      if other == txid {
        assert outs[..|outs| - 1] + [outs[|outs| - 1]] == outs;
      }
    }
  }

  /** `inputs` spends exactly what `selected` lists, each input unlocked
      by `from`: every input names a selected txid, and for each selected
      txid its inputs carry its indices in order. Only the order of the
      txids is left open (it is Go's map order). */
  ghost predicate SpendsExactly(inputs: seq<TXInput>, selected: OutputIndex, from: string)
  {
    && (forall x :: x in inputs ==> x.txid in selected && x.scriptSig == from)
    && (forall id :: id in selected ==> VoutsFor(inputs, id) == selected[id])
  }

  /** Under `SpendsExactly`, an input names output `k` of `txid` exactly
      when `(txid, k)` is listed in `selected`. */
  lemma InputsMatchSelection(inputs: seq<TXInput>, selected: OutputIndex, from: string, txid: seq<byte>, k: int)
    requires SpendsExactly(inputs, selected, from)
    ensures HasInput(inputs, txid, k) <==> Lists(selected, txid, k)
  {
    VoutsForMembers(inputs, txid, k);
    if HasInput(inputs, txid, k) {
      var i :| 0 <= i < |inputs| && inputs[i].txid == txid && inputs[i].vout == k;
      assert inputs[i] in inputs;
    }
  }

  /** Spending exactly a selection made by `FindSpendableOutputs`: an input
      names output `k` of `txid` exactly when that output was picked. */
  lemma InputsArePicks(inputs: seq<TXInput>, picks: seq<OutPoint>, from: string, txid: seq<byte>, k: int)
    requires SpendsExactly(inputs, IndexMap(picks), from)
    ensures HasInput(inputs, txid, k) <==> Picked(picks, txid, k)
  {
    InputsMatchSelection(inputs, IndexMap(picks), from, txid, k);
    IndexMapLists(picks, txid, k);
  }

  /** No input spending a selection is a coinbase marker: every `vout` is
      an output position, so the transaction is not a coinbase. */
  lemma SpendingNotCoinbase(tx: Transaction, picks: seq<OutPoint>, from: string)
    requires SpendsExactly(tx.vin, IndexMap(picks), from)
    ensures forall x :: x in tx.vin ==> x.vout >= 0
    ensures !IsCoinbase(tx)
  {
    var selected := IndexMap(picks);
    IndexMapNonNegative(picks);
    forall x | x in tx.vin
      ensures x.vout >= 0
    {
      var i :| 0 <= i < |tx.vin| && tx.vin[i] == x;
      VoutsForMembers(tx.vin, x.txid, x.vout);
      assert x.vout in selected[x.txid];
    }
    if |tx.vin| == 1 {
      assert tx.vin[0] in tx.vin;
    }
  }

  /** `NewUTXOTransaction`: selects outputs of `from` covering `amount`;
      fails when they do not; otherwise spends every selected output with
      an input unlocked by `from`, pays `amount` to `to` and returns the
      excess to `from` as change. */
  method NewUTXOTransaction(from: string, to: string, amount: int, bc: Blockchain) returns (r: SpendResult)
    requires bc.Valid()
    ensures var s := Spendable(UnspentTransactions(bc.Blocks(), from), from, amount);
      && (r.InsufficientFunds? <==> s.accumulated < amount)
      && (r.Ok? ==> SpendsExactly(r.tx.vin, IndexMap(s.picks), from))
      && (r.Ok? ==> 1 <= |r.tx.vout| <= 2 && r.tx.vout[0] == TXOutput(amount, to))
      && (r.Ok? ==> (|r.tx.vout| == 2 <==> s.accumulated > amount))
      && (r.Ok? && |r.tx.vout| == 2 ==> r.tx.vout[1] == NewTXOutput(s.accumulated - amount, from))
      && (r.Ok? ==> r.tx.id == bc.prims.sha256(bc.prims.encodeTx(Transaction([], r.tx.vin, r.tx.vout))))
      && (r.Ok? ==> !IsCoinbase(r.tx))
  {
    var acc, validOutputs := bc.FindSpendableOutputs(from, amount);
    if acc < amount {
      return InsufficientFunds;
    }
    var inputs := BuildInputs(validOutputs, from);
    var outputs := [TXOutput(amount, to)];
    if acc > amount {
      outputs := outputs + [NewTXOutput(acc - amount, from)];
    }
    var tx := SetID(Transaction([], inputs, outputs), bc.prims.encodeTx, bc.prims.sha256);
    SpendingNotCoinbase(tx, Spendable(UnspentTransactions(bc.Blocks(), from), from, amount).picks, from);
    r := Ok(tx);
  }

  /** The inputs loop of `NewUTXOTransaction`: for each txid of
      `validOutputs`, in an order left open, one input per listed index. */
  method BuildInputs(validOutputs: OutputIndex, from: string) returns (inputs: seq<TXInput>)
    ensures SpendsExactly(inputs, validOutputs, from)
  {
    inputs := [];
    var remaining := validOutputs.Keys;
    ghost var done: set<seq<byte>> := {};
    while remaining != {}
      invariant remaining + done == validOutputs.Keys && remaining !! done
      invariant BuiltFor(inputs, validOutputs, done, from)
      decreases |remaining|
    {
      var txid :| txid in remaining;
      var outs := validOutputs[txid];
      ghost var before := inputs;
      inputs := AppendEntry(inputs, txid, outs, from);
      AddEntry(before, txid, validOutputs, from, done);
      remaining := remaining - {txid};
      done := done + {txid};
    }
    BuiltForAll(inputs, validOutputs, done, from);
  }

  lemma BuiltForAll(inputs: seq<TXInput>, selected: OutputIndex, done: set<seq<byte>>, from: string)
    requires BuiltFor(inputs, selected, done, from) && done == selected.Keys
    ensures SpendsExactly(inputs, selected, from)
  {
  }

  /** The inner loop over one entry `txid -> outs`: one input per index,
      in order, each unlocked by `from`. */
  method AppendEntry(inputs: seq<TXInput>, txid: seq<byte>, outs: seq<int>, from: string)
    returns (inputs': seq<TXInput>)
    ensures inputs' == inputs + InputsFor(txid, outs, from)
  {
    inputs' := inputs;
    for j := 0 to |outs|
      invariant inputs' == inputs + InputsFor(txid, outs[..j], from)
    {
      InputsForStep(txid, outs, j, from);
      inputs' := inputs' + [TXInput(txid, outs[j], from)];
    }
    assert outs[..|outs|] == outs;
  }

  /** The inputs loop's invariant: the inputs so far are those of the
      entries in `done`. */
  ghost predicate BuiltFor(inputs: seq<TXInput>, selected: OutputIndex, done: set<seq<byte>>, from: string)
  {
    && done <= selected.Keys
    && (forall x :: x in inputs ==> x.txid in done && x.scriptSig == from)
    && (forall id :: id in done ==> VoutsFor(inputs, id) == selected[id])
    && (forall id :: id !in done ==> VoutsFor(inputs, id) == [])
  }

  lemma InputsForStep(txid: seq<byte>, outs: seq<int>, j: nat, from: string)
    requires j < |outs|
    ensures InputsFor(txid, outs[..j + 1], from) == InputsFor(txid, outs[..j], from) + [TXInput(txid, outs[j], from)]
  {
  }

  /** Appending the inputs of one more entry of `selected` keeps the
      inputs loop's invariant, with that txid now done. */
  lemma AddEntry(before: seq<TXInput>, txid: seq<byte>, selected: OutputIndex, from: string, done: set<seq<byte>>)
    requires txid in selected && txid !in done
    requires BuiltFor(before, selected, done, from)
    ensures BuiltFor(before + InputsFor(txid, selected[txid], from), selected, done + {txid}, from)
  {
    var outs := selected[txid];
    AddEntryVouts(before, txid, outs, from);
    AddEntryInputs(before, txid, outs, from);
    AddEntryOwners(before, txid, outs, done, from);
    AddEntryListed(before, txid, selected, done, from);
    AddEntryUnlisted(before, txid, outs, done, from);
  }

  lemma AddEntryOwners(before: seq<TXInput>, txid: seq<byte>, outs: seq<int>, done: set<seq<byte>>, from: string)
    requires forall x :: x in before ==> x.txid in done && x.scriptSig == from
    requires forall x :: x in before + InputsFor(txid, outs, from) ==> x in before || (x.txid == txid && x.scriptSig == from)
    ensures forall x :: x in before + InputsFor(txid, outs, from) ==> x.txid in done + {txid} && x.scriptSig == from
  {
  }

  lemma AddEntryListed(before: seq<TXInput>, txid: seq<byte>, selected: OutputIndex, done: set<seq<byte>>, from: string)
    requires txid in selected && txid !in done && done <= selected.Keys
    requires forall id :: id in done ==> VoutsFor(before, id) == selected[id]
    requires forall id :: id !in done ==> VoutsFor(before, id) == []
    requires forall id :: VoutsFor(before + InputsFor(txid, selected[txid], from), id)
                        == VoutsFor(before, id) + (if id == txid then selected[txid] else [])
    ensures forall id :: id in done + {txid} ==> VoutsFor(before + InputsFor(txid, selected[txid], from), id) == selected[id]
  {
    var after := before + InputsFor(txid, selected[txid], from);
    forall id | id in done + {txid}
      ensures VoutsFor(after, id) == selected[id]
    {
      if id == txid {
        assert VoutsFor(after, id) == [] + selected[txid];
      } else {
        assert VoutsFor(after, id) == VoutsFor(before, id) + [];
      }
    }
  }

  lemma AddEntryUnlisted(before: seq<TXInput>, txid: seq<byte>, outs: seq<int>, done: set<seq<byte>>, from: string)
    requires forall id :: id !in done ==> VoutsFor(before, id) == []
    requires forall id :: VoutsFor(before + InputsFor(txid, outs, from), id)
                        == VoutsFor(before, id) + (if id == txid then outs else [])
    ensures forall id :: id !in done + {txid} ==> VoutsFor(before + InputsFor(txid, outs, from), id) == []
  {
    forall id | id !in done + {txid}
      ensures VoutsFor(before + InputsFor(txid, outs, from), id) == []
    {
      assert VoutsFor(before + InputsFor(txid, outs, from), id) == [] + [];
    }
  }

  lemma AddEntryVouts(before: seq<TXInput>, txid: seq<byte>, outs: seq<int>, from: string)
    ensures forall id :: VoutsFor(before + InputsFor(txid, outs, from), id)
                      == VoutsFor(before, id) + (if id == txid then outs else [])
  {
    forall id
      ensures VoutsFor(before + InputsFor(txid, outs, from), id) == VoutsFor(before, id) + (if id == txid then outs else [])
    {
      VoutsForConcat(before, InputsFor(txid, outs, from), id);
      InputsForVouts(txid, outs, from, id);
    }
  }

  lemma AddEntryInputs(before: seq<TXInput>, txid: seq<byte>, outs: seq<int>, from: string)
    ensures forall x :: x in before + InputsFor(txid, outs, from) ==> x in before || (x.txid == txid && x.scriptSig == from)
  {
  }

  /** The outputs of a transaction `NewUTXOTransaction` builds from the
      unspent transactions `txs` carry exactly the value of the outputs it
      spends: payment plus change is the accumulated total. */
  lemma SpendBalances(txs: seq<Transaction>, from: string, to: string, amount: int, outs: seq<TXOutput>)
    requires var s := Spendable(txs, from, amount);
      && s.accumulated >= amount
      && 1 <= |outs| <= 2 && outs[0] == TXOutput(amount, to)
      && (|outs| == 2 <==> s.accumulated > amount)
      && (|outs| == 2 ==> outs[1] == NewTXOutput(s.accumulated - amount, from))
    ensures Balance(outs) == Spendable(txs, from, amount).accumulated
    ensures Balance(outs) == Balance(OutputsOf(Spendable(txs, from, amount).picks))
  {
    GreedySum(Candidates(txs), from, amount);
    BalanceSingle(outs[0]);
    if |outs| == 2 {
      BalanceSingle(outs[1]);
      assert outs == [outs[0]] + [outs[1]];
      BalanceConcat([outs[0]], [outs[1]]);
    } else {
      assert outs == [outs[0]];
    }
  }
}
