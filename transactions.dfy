/** Transactions, their inputs and outputs, and the placeholder
    string-equality authorisation (core/transaction.go). */
module Transactions {
  import opened Bytes

  /** Units minted by a coinbase transaction. */
  const subsidy: int := 10

  /** `Txid`/`Vout` point at an output of an earlier transaction; `ScriptSig`
      is the unlocking data. A coinbase input has an empty `txid` and
      `vout == -1`. */
  datatype TXInput = TXInput(txid: seq<byte>, vout: int, scriptSig: string)

  datatype TXOutput = TXOutput(value: int, scriptPubKey: string)

  datatype Transaction = Transaction(id: seq<byte>, vin: seq<TXInput>, vout: seq<TXOutput>)

  /** The input a coinbase transaction carries instead of a real spend. */
  function CoinbaseInput(data: string): (r: TXInput)
    ensures r.txid == [] && r.vout == -1 && r.scriptSig == data
    ensures forall id, outs :: IsCoinbase(Transaction(id, [r], outs))
  {
    TXInput([], -1, data)
  }

  predicate IsCoinbase(tx: Transaction)
  {
    |tx.vin| == 1 && |tx.vin[0].txid| == 0 && tx.vin[0].vout == -1
  }

  /** Coinbase detection recognises exactly the transactions whose input list
      is a single coinbase input, whatever its data. */
  lemma CoinbaseIffSingleMarkerInput(tx: Transaction)
    ensures IsCoinbase(tx) <==> exists data :: tx.vin == [CoinbaseInput(data)]
  {
    if IsCoinbase(tx) {
      assert tx.vin == [CoinbaseInput(tx.vin[0].scriptSig)];
    }
  }

  predicate CanUnlockOutputWith(input: TXInput, unlockingData: string)
  {
    input.scriptSig == unlockingData
  }

  predicate CanBeUnlockedWith(output: TXOutput, unlockingData: string)
  {
    output.scriptPubKey == unlockingData
  }

  function NewTXOutput(value: int, address: string): (r: TXOutput)
    ensures r.value == value && CanBeUnlockedWith(r, address)
  {
    TXOutput(value, address)
  }

  /** Unlocking is exact equality: an input unlocks with `d` precisely when
      it is the same input carrying `d`, and an output is unlocked by `d`
      precisely when it is the output of its value locked to `d`. */
  lemma UnlockingIsExactMatch(input: TXInput, output: TXOutput, d: string)
    ensures CanUnlockOutputWith(input, d) <==> input == TXInput(input.txid, input.vout, d)
    ensures CanBeUnlockedWith(output, d) <==> output == NewTXOutput(output.value, d)
  {
  }

  /** `SetID`: the ID becomes the hash of the encoded transaction; inputs and
      outputs are untouched. The encoding (gob) is a parameter. */
  function SetID(tx: Transaction, encode: Transaction -> seq<byte>, sha256: Sha256): (r: Transaction)
    ensures r.vin == tx.vin && r.vout == tx.vout
    ensures r.id == sha256(encode(tx)) && |r.id| == 32
  {
    tx.(id := sha256(encode(tx)))
  }

  /** The data carried by a coinbase input: `data`, or the random filler when
      `data` is empty. The filler is a parameter (it comes from crypto/rand). */
  function CoinbaseData(data: string, randomFiller: string): (d: string)
    ensures data != "" ==> d == data
    ensures data == "" ==> d == randomFiller
  {
    if data == "" then randomFiller else data
  }

  function NewCoinbaseTX(to: string, data: string, randomFiller: string,
                         encode: Transaction -> seq<byte>, sha256: Sha256): (r: Transaction)
    ensures r.vin == [CoinbaseInput(CoinbaseData(data, randomFiller))]
    ensures data != "" ==> r.vin[0].scriptSig == data
    ensures data == "" ==> r.vin[0].scriptSig == randomFiller
    ensures r.vout == [NewTXOutput(subsidy, to)]
    ensures r.id == sha256(encode(Transaction([], r.vin, r.vout)))
    ensures IsCoinbase(r)
  {
    var txin := CoinbaseInput(CoinbaseData(data, randomFiller));
    var txout := NewTXOutput(subsidy, to);
    SetID(Transaction([], [txin], [txout]), encode, sha256)
  }
}
