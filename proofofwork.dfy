/** The proof-of-work puzzle (core/proofofwork.go) and the construction of a
    mined block that uses it. */
module ProofOfWork {
  import opened Bytes
  import opened Transactions
  import opened Blocks

  /** Number of leading zero bits a block hash needs. */
  const targetBits: nat := 8

  /** `math.MaxInt64`: the nonce search stops here. */
  const maxNonce: int := 0x7FFF_FFFF_FFFF_FFFF

  datatype ProofOfWork = ProofOfWork(block: Block, target: nat)

  /** 1 << (256 - targetBits), that is 2^248, written out. */
  const targetValue: nat := 0x100_0000_0000_0000_0000_0000_0000_0000_0000_0000_0000_0000_0000_0000_0000_0000

  /** The puzzle for `block`: its target is 1 shifted left by
      256 - targetBits. */
  function NewProofofWork(block: Block): (pow: ProofOfWork)
    ensures pow.block == block && pow.target == targetValue
    ensures pow.target == Pow(2, 256 - targetBits)
  {
    TargetIsPowerOfTwo();
    ProofOfWork(block, targetValue)
  }

  /** The literal target is 1 shifted left by 256 - targetBits. */
  lemma TargetIsPowerOfTwo()
    ensures targetValue == Pow(2, 256 - targetBits)
  {
    assert Pow(2, 8) == 0x100;
    PowAdd(2, 8, 8);
    assert Pow(2, 16) == 0x1_0000;
    PowAdd(2, 16, 16);
    assert Pow(2, 32) == 0x1_0000_0000;
    PowAdd(2, 32, 32);
    assert Pow(2, 64) == 0x1_0000_0000_0000_0000;
    PowAdd(2, 64, 64);
    assert Pow(2, 128) == 0x1_0000_0000_0000_0000_0000_0000_0000_0000;
    PowAdd(2, 128, 64);
    PowAdd(2, 192, 32);
    PowAdd(2, 224, 16);
    PowAdd(2, 240, 8);
  }

  /** With targetBits = 8, a 32-byte hash is below the target exactly when
      its first byte is zero. */
  lemma TargetMeansLeadingZeroByte(block: Block, h: Hash)
    ensures BytesToNat(h) < NewProofofWork(block).target <==> h[0] == 0
  {
    TargetIsPowerOfTwo();
    PowTwoBytes(31);
    LeadingByteZero(h);
  }

  /** The bytes hashed for a given nonce: previous hash, the transactions'
      hash, then the timestamp, the difficulty and the nonce as hex. */
  function PrepareData(pow: ProofOfWork, nonce: int, prims: Primitives): (data: seq<byte>)
    ensures |data| >= |pow.block.prevBlockHash| + |prims.intToHex(nonce)|
    ensures data[..|pow.block.prevBlockHash|] == pow.block.prevBlockHash
    ensures data[|data| - |prims.intToHex(nonce)|..] == prims.intToHex(nonce)
  {
    var b := pow.block;
    b.prevBlockHash + prims.hashTransactions(b.transactions) + prims.intToHex(b.timestamp)
      + prims.intToHex(targetBits) + prims.intToHex(nonce)
  }

  /** `PrepareData` depends on the previous hash, the transactions and the
      timestamp of the block and on the nonce it is given, and on nothing
      else: not on the block's stored nonce or hash. */
  lemma PrepareDataReadsHeaderOnly(b1: Block, b2: Block, nonce: int, prims: Primitives)
    requires b1.prevBlockHash == b2.prevBlockHash
    requires b1.transactions == b2.transactions
    requires b1.timestamp == b2.timestamp
    ensures PrepareData(NewProofofWork(b1), nonce, prims) == PrepareData(NewProofofWork(b2), nonce, prims)
  {
  }

  function HashAt(pow: ProofOfWork, nonce: int, prims: Primitives): Hash
  {
    prims.sha256(PrepareData(pow, nonce, prims))
  }

  /** `hashInt.Cmp(pow.target) == -1` for the hash of this nonce. */
  predicate Meets(pow: ProofOfWork, nonce: int, prims: Primitives)
  {
    BytesToNat(HashAt(pow, nonce, prims)) < pow.target
  }

  /** Linear search: returns the first nonce in [0, maxNonce) whose hash is
      below the target, with that hash; otherwise stops at maxNonce with
      the hash of the last nonce tried. */
  method Run(pow: ProofOfWork, prims: Primitives) returns (nonce: int, hash: Hash)
    ensures 0 <= nonce <= maxNonce
    ensures forall n :: 0 <= n < nonce ==> !Meets(pow, n, prims)
    ensures nonce < maxNonce ==> Meets(pow, nonce, prims) && hash == HashAt(pow, nonce, prims)
    ensures nonce == maxNonce ==> hash == HashAt(pow, maxNonce - 1, prims)
  {
    nonce := 0;
    hash := seq(32, _ => 0 as byte);
    while nonce < maxNonce
      invariant 0 <= nonce <= maxNonce
      invariant forall n :: 0 <= n < nonce ==> !Meets(pow, n, prims)
      invariant 0 < nonce ==> hash == HashAt(pow, nonce - 1, prims)
      decreases maxNonce - nonce
    {
      var data := PrepareData(pow, nonce, prims);
      hash := prims.sha256(data);
      if BytesToNat(hash) < pow.target {
        break;
      }
      nonce := nonce + 1;
    }
  }

  /** Re-checks the puzzle with the block's stored nonce. */
  predicate Validate(pow: ProofOfWork, prims: Primitives)
  {
    BytesToNat(prims.sha256(PrepareData(pow, pow.block.nonce, prims))) < pow.target
  }

  /** `Validate` holds exactly when the hash for the stored nonce starts with
      a zero byte. */
  lemma ValidateIffLeadingZeroByte(block: Block, prims: Primitives)
    ensures Validate(NewProofofWork(block), prims) <==> HashAt(NewProofofWork(block), block.nonce, prims)[0] == 0
  {
    TargetMeansLeadingZeroByte(block, HashAt(NewProofofWork(block), block.nonce, prims));
  }

  /** Storing a nonce that passes the search test makes `Validate` true,
      whatever hash is stored beside it. */
  lemma ValidateAcceptsFoundNonce(block: Block, nonce: int, hash: seq<byte>, prims: Primitives)
    requires Meets(NewProofofWork(block), nonce, prims)
    ensures Validate(NewProofofWork(block.(nonce := nonce, hash := hash)), prims)
  {
    PrepareDataReadsHeaderOnly(block, block.(nonce := nonce, hash := hash), nonce, prims);
  }

  /** The search result is determined by the block header: two nonces that
      both satisfy Run's postcondition are equal. */
  lemma RunResultUnique(pow: ProofOfWork, n1: int, n2: int, prims: Primitives)
    requires 0 <= n1 <= maxNonce && 0 <= n2 <= maxNonce
    requires forall n :: 0 <= n < n1 ==> !Meets(pow, n, prims)
    requires forall n :: 0 <= n < n2 ==> !Meets(pow, n, prims)
    requires n1 < maxNonce ==> Meets(pow, n1, prims)
    requires n2 < maxNonce ==> Meets(pow, n2, prims)
    ensures n1 == n2
  {
  }

  /** `NewBlock` (block.go, not part of this model, described by its call
      sites): a block linking to `prevBlockHash`, stamped with the clock
      reading `timestamp`, whose nonce and hash come from `Run`. */
  method NewBlock(transactions: seq<Transaction>, prevBlockHash: seq<byte>, timestamp: int,
                  prims: Primitives) returns (b: Block)
    ensures b.transactions == transactions && b.prevBlockHash == prevBlockHash
    ensures b.timestamp == timestamp && |b.hash| == 32
    ensures 0 <= b.nonce <= maxNonce
    ensures forall n :: 0 <= n < b.nonce ==> !Meets(NewProofofWork(b), n, prims)
    ensures b.nonce < maxNonce ==> Validate(NewProofofWork(b), prims)
    ensures b.nonce < maxNonce ==> b.hash == HashAt(NewProofofWork(b), b.nonce, prims)
  {
    var block := Block(timestamp, transactions, prevBlockHash, [], 0);
    var pow := NewProofofWork(block);
    var nonce, hash := Run(pow, prims);
    b := block.(hash := hash, nonce := nonce);
    forall n | 0 <= n < b.nonce
      ensures !Meets(NewProofofWork(b), n, prims)
    {
      PrepareDataReadsHeaderOnly(block, b, n, prims);
      assert !Meets(pow, n, prims);
      assert HashAt(NewProofofWork(b), n, prims) == HashAt(pow, n, prims);
    }
    PrepareDataReadsHeaderOnly(block, b, nonce, prims);
  }

  method NewGenesisBlock(coinbase: Transaction, timestamp: int, prims: Primitives) returns (b: Block)
    ensures b.transactions == [coinbase] && IsGenesis(b)
    ensures b.timestamp == timestamp && |b.hash| == 32
    ensures 0 <= b.nonce <= maxNonce
    ensures forall n :: 0 <= n < b.nonce ==> !Meets(NewProofofWork(b), n, prims)
    ensures b.nonce < maxNonce ==> Validate(NewProofofWork(b), prims)
    ensures b.nonce < maxNonce ==> b.hash == HashAt(NewProofofWork(b), b.nonce, prims)
  {
    b := NewBlock([coinbase], [], timestamp, prims);
  }
}
