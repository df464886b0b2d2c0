/** Blocks, and the primitives the core uses but does not define: SHA-256,
    the gob encoding of a transaction, `Block.HashTransactions` and
    `IntToHex`. Each is passed in as a total function. */
module Blocks {
  import opened Bytes
  import opened Transactions

  datatype Block = Block(
    timestamp: int,
    transactions: seq<Transaction>,
    prevBlockHash: seq<byte>,
    hash: seq<byte>,
    nonce: int)

  datatype Primitives = Primitives(
    sha256: Sha256,
    encodeTx: Transaction -> seq<byte>,
    hashTransactions: seq<Transaction> -> seq<byte>,
    intToHex: int -> seq<byte>)

  /** The genesis block is the one that links to nothing. */
  predicate IsGenesis(b: Block)
  {
    |b.prevBlockHash| == 0
  }
}
