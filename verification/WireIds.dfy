/** What the object ids hash, and that no two of them hash the same bytes
    (types/transactions.go, types/filecontracts.go, types/block.go). */
module WireIds {
  import opened Types
  import opened Numerals
  import opened Wire
  import opened WireTypes
  import opened WireRecords

  // "spacecash output", "file contract", "storage proof", padded with zeros
  const SPECIFIER_OUTPUT: Specifier := [115, 112, 97, 99, 101, 99, 97, 115, 104, 32, 111, 117, 116, 112, 117, 116]
  const SPECIFIER_CONTRACT: Specifier := [102, 105, 108, 101, 32, 99, 111, 110, 116, 114, 97, 99, 116, 0, 0, 0]
  const SPECIFIER_PROOF_OUTPUT: Specifier := [115, 116, 111, 114, 97, 103, 101, 32, 112, 114, 111, 111, 102, 0, 0, 0]

  /** SiacoinOutputID. */
  function OutputPreimage(t: Transaction<Digest>, i: uint64): bytes {
    SPECIFIER_OUTPUT + UnsignedCodec().put(t, LittleEndian(i, 8))
  }

  /** FileContractID. */
  function ContractPreimage(t: Transaction<Digest>, i: uint64): bytes {
    SPECIFIER_CONTRACT + UnsignedCodec().put(t, LittleEndian(i, 8))
  }

  /** MinerPayoutID. */
  function PayoutPreimage(block: Digest, i: uint64): bytes {
    block + LittleEndian(i, 8)
  }

  /** StorageProofOutputID. */
  function ProofOutputPreimage(contract: Digest, valid: bool, i: uint64): bytes {
    SPECIFIER_PROOF_OUTPUT + (contract + ([if valid then 1 else 0] + LittleEndian(i, 8)))
  }

  lemma {:induction false} UnsignedReads(t: Transaction<Digest>, tail: bytes)
    requires TransactionFits(t)
    ensures |UnsignedCodec().put(t, tail)| == UnsignedSize(t) + |tail|
    ensures UnsignedSize(t) <= MAX_OBJECT_SIZE ==>
              UnsignedCodec().parse(Stream(UnsignedCodec().put(t, tail), 0))
              == Some((t.(transactionSignatures := []), Stream(tail, UnsignedSize(t))))
  {
    hide Good, UnsignedCodec, TransactionFits, UnsignedSize;
    var u := t.(transactionSignatures := []);
    UnsignedPut(t, tail);
    WithoutSignatures(t);
    UnsignedGood(u);
    Reads(UnsignedCodec(), u, UnsignedSize(u), tail, 0);
  }

  /** What the ids hash does not depend on the signatures. */
  lemma {:induction false} UnsignedPut(t: Transaction<Digest>, tail: bytes)
    ensures UnsignedCodec().put(t, tail) == UnsignedCodec().put(t.(transactionSignatures := []), tail)
  {
    hide InputsCodec, OutputsCodec, ContractsCodec, RevisionsCodec, ProofsCodec, FeesCodec, BlobsCodec, Via, Then;
    var c := Then(InputsCodec(), Then(OutputsCodec(), Then(ContractsCodec(), Then(RevisionsCodec(),
               Then(ProofsCodec(), Then(FeesCodec(), BlobsCodec()))))));
    ViaPut(c, UnsignedFields, UnsignedOf, t, tail);
    ViaPut(c, UnsignedFields, UnsignedOf, t.(transactionSignatures := []), tail);
  }

  lemma {:induction false} UnsignedInjective(t: Transaction<Digest>, i: uint64, t': Transaction<Digest>, i': uint64)
    requires TransactionFits(t) && TransactionFits(t')
    requires UnsignedSize(t) <= MAX_OBJECT_SIZE && UnsignedSize(t') <= MAX_OBJECT_SIZE
    requires UnsignedCodec().put(t, LittleEndian(i, 8)) == UnsignedCodec().put(t', LittleEndian(i', 8))
    ensures t.(transactionSignatures := []) == t'.(transactionSignatures := []) && i == i'
  {
    hide TransactionFits, UnsignedSize, LittleEndian, UnsignedCodec;
    UnsignedReads(t, LittleEndian(i, 8));
    UnsignedReads(t', LittleEndian(i', 8));
    WordInjective(i, i');
  }

  lemma {:induction false} WordInjective(i: uint64, i': uint64)
    requires LittleEndian(i, 8) == LittleEndian(i', 8)
    ensures i == i'
  {
    assert Pow256(8) == 0x1_0000_0000_0000_0000;
    LittleEndianRoundTrip(i, 8);
    LittleEndianRoundTrip(i', 8);
  }

  /** Equal ids of the same kind name the same object: what is hashed
      determines the transaction (but for its signatures) and the index. */
  lemma {:induction false} SameKindSameObject(t: Transaction<Digest>, i: uint64, t': Transaction<Digest>, i': uint64)
    requires TransactionFits(t) && TransactionFits(t')
    requires UnsignedSize(t) <= MAX_OBJECT_SIZE && UnsignedSize(t') <= MAX_OBJECT_SIZE
    ensures OutputPreimage(t, i) == OutputPreimage(t', i') <==>
              t.(transactionSignatures := []) == t'.(transactionSignatures := []) && i == i'
    ensures ContractPreimage(t, i) == ContractPreimage(t', i') <==>
              t.(transactionSignatures := []) == t'.(transactionSignatures := []) && i == i'
    ensures OutputPreimage(t, i) != ContractPreimage(t', i')
  {
    hide TransactionFits, UnsignedSize, LittleEndian, UnsignedCodec;
    var b, b' := UnsignedCodec().put(t, LittleEndian(i, 8)), UnsignedCodec().put(t', LittleEndian(i', 8));
    assert (SPECIFIER_OUTPUT + b)[16..] == b && (SPECIFIER_OUTPUT + b')[16..] == b';
    assert (SPECIFIER_CONTRACT + b)[16..] == b && (SPECIFIER_CONTRACT + b')[16..] == b';
    assert OutputPreimage(t, i)[0] == 115 && ContractPreimage(t', i')[0] == 102;
    if b == b' {
      UnsignedInjective(t, i, t', i');
    }
    UnsignedPut(t, LittleEndian(i, 8));
    UnsignedPut(t', LittleEndian(i', 8));
  }

  /** Ids of outputs of different kinds never hash the same bytes, and the
      fixed-size kinds are injective. */
  lemma {:induction false} KindsNeverCoincide(t: Transaction<Digest>, i: uint64, block: Digest, j: uint64,
                                              contract: Digest, valid: bool, k: uint64)
    requires TransactionFits(t)
    ensures OutputPreimage(t, i) != PayoutPreimage(block, j)
    ensures OutputPreimage(t, i) != ProofOutputPreimage(contract, valid, k)
    ensures PayoutPreimage(block, j) != ProofOutputPreimage(contract, valid, k)
  {
    hide TransactionFits, LittleEndian, ListSize, UnsignedCodec;
    UnsignedReads(t, LittleEndian(i, 8));
    assert UnsignedSize(t) >= 56;
    assert |PayoutPreimage(block, j)| == 40 && |ProofOutputPreimage(contract, valid, k)| == 57;
  }

  lemma {:induction false} FixedKindsInjective(a: Digest, v: bool, i: uint64, a': Digest, v': bool, i': uint64)
    ensures PayoutPreimage(a, i) == PayoutPreimage(a', i') <==> a == a' && i == i'
    ensures ProofOutputPreimage(a, v, i) == ProofOutputPreimage(a', v', i') <==> a == a' && v == v' && i == i'
  {
    if PayoutPreimage(a, i) == PayoutPreimage(a', i') {
      assert a == PayoutPreimage(a, i)[..32] == PayoutPreimage(a', i')[..32] == a';
      assert LittleEndian(i, 8) == PayoutPreimage(a, i)[32..] == PayoutPreimage(a', i')[32..] == LittleEndian(i', 8);
      WordInjective(i, i');
    }
    var p, p' := ProofOutputPreimage(a, v, i), ProofOutputPreimage(a', v', i');
    if p == p' {
      assert a == p[16..48] == p'[16..48] == a';
      assert (if v then 1 else 0) == p[48] == p'[48] == (if v' then 1 else 0);
      assert LittleEndian(i, 8) == p[49..] == p'[49..] == LittleEndian(i', 8);
      WordInjective(i, i');
    }
  }
}
