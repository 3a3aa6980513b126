/** Sizes and limits of the encoded consensus records (types/encoding.go).

    MarshalSiaSize is a formula of its own for each record, and the decoder
    refuses slices whose elements would take too much memory. Module
    WireRecords proves what both mean for the encodings. */
module WireTypes {
  import opened Types
  import opened Numerals
  import opened Wire

  // ---------------------------------------------------------------- MarshalSiaSize

  function DataSize(b: bytes): nat { 8 + |b| }

  function WordSize(u: uint64): nat { 8 }

  function DigestSize<H>(d: H): nat { 32 }

  function OutputSize<H>(o: SiacoinOutput<H>): nat { CurrencySize(o.value) + 32 }

  function PublicKeySize(k: SiaPublicKey): nat { 16 + DataSize(k.key) }

  function ConditionsSize(uc: UnlockConditions): nat { 8 + SliceSize(PublicKeySize, uc.publicKeys) + 8 }

  function InputSize<H>(i: SiacoinInput<H>): nat { 32 + ConditionsSize(i.unlockConditions) }

  function ContractSize<H>(fc: FileContract<H>): nat {
    8 + 32 + 8 + 8 + CurrencySize(fc.payout) + SliceSize(OutputSize<H>, fc.validProofOutputs)
    + SliceSize(OutputSize<H>, fc.missedProofOutputs) + 32 + 8
  }

  function RevisionSize<H>(r: FileContractRevision<H>): nat {
    32 + ConditionsSize(r.unlockConditions) + 8 + 8 + 32 + 8 + 8 + SliceSize(OutputSize<H>, r.newValidProofOutputs)
    + SliceSize(OutputSize<H>, r.newMissedProofOutputs) + 32
  }

  function ProofSize<H>(p: StorageProof<H>): nat { 32 + 64 + SliceSize(DigestSize<H>, p.hashSet) }

  function CoveredFieldsSize(cf: CoveredFields): nat {
    1 + SliceSize(WordSize, cf.siacoinInputs) + SliceSize(WordSize, cf.siacoinOutputs)
      + SliceSize(WordSize, cf.fileContracts)
    + SliceSize(WordSize, cf.fileContractRevisions) + SliceSize(WordSize, cf.storageProofs)
      + SliceSize(WordSize, cf.minerFees)
    + SliceSize(WordSize, cf.arbitraryData) + SliceSize(WordSize, cf.transactionSignatures)
  }

  function SignatureSize<H>(ts: TransactionSignature<H>): nat {
    32 + 8 + 8 + CoveredFieldsSize(ts.coveredFields) + DataSize(ts.signature)
  }

  function UnsignedSize<H>(t: Transaction<H>): nat {
    SliceSize(InputSize<H>, t.siacoinInputs) + SliceSize(OutputSize<H>, t.siacoinOutputs)
    + SliceSize(ContractSize<H>, t.fileContracts) + SliceSize(RevisionSize<H>, t.fileContractRevisions)
    + SliceSize(ProofSize<H>, t.storageProofs) + SliceSize(CurrencySize, t.minerFees)
      + SliceSize(DataSize, t.arbitraryData)
  }

  function TransactionSize<H>(t: Transaction<H>): nat {
    UnsignedSize(t) + SliceSize(SignatureSize<H>, t.transactionSignatures)
  }

  function BlockSize<H>(b: Block<H>): nat {
    32 + 8 + 8 + SliceSize(OutputSize<H>, b.minerPayouts) + SliceSize(TransactionSize<H>, b.transactions)
  }

  // ---------------------------------------------------------------- within the decoder's limits

  // unsafe.Sizeof of the slice elements on a 64-bit platform
  const SIZEOF_UINT64: nat := 8
  const SIZEOF_HASH: nat := 32
  const SIZEOF_BYTES: nat := 24
  const SIZEOF_CURRENCY: nat := 32
  const SIZEOF_PUBLIC_KEY: nat := 40
  const SIZEOF_INPUT: nat := 72
  const SIZEOF_OUTPUT: nat := 64
  const SIZEOF_CONTRACT: nat := 176
  const SIZEOF_REVISION: nat := 216
  const SIZEOF_PROOF: nat := 120
  const SIZEOF_SIGNATURE: nat := 272
  const SIZEOF_TRANSACTION: nat := 192

  predicate SliceFits<T>(xs: seq<T>, elemSize: nat) { |xs| * elemSize <= MAX_SLICE_SIZE }

  predicate DataFits(b: bytes) { |b| <= MAX_SLICE_SIZE }

  predicate CurrencyFits(c: nat) { |BigEndian(c)| <= MAX_SLICE_SIZE }

  predicate OutputsFit<H>(os: seq<SiacoinOutput<H>>) {
    SliceFits(os, SIZEOF_OUTPUT) && forall i :: 0 <= i < |os| ==> CurrencyFits(os[i].value)
  }

  predicate ConditionsFit(uc: UnlockConditions) {
    SliceFits(uc.publicKeys, SIZEOF_PUBLIC_KEY) && forall i :: 0 <= i < |uc.publicKeys| ==>
      DataFits(uc.publicKeys[i].key)
  }

  predicate ContractFits<H>(fc: FileContract<H>) {
    CurrencyFits(fc.payout) && OutputsFit(fc.validProofOutputs) && OutputsFit(fc.missedProofOutputs)
  }

  predicate RevisionFits<H>(r: FileContractRevision<H>) {
    ConditionsFit(r.unlockConditions) && OutputsFit(r.newValidProofOutputs) && OutputsFit(r.newMissedProofOutputs)
  }

  predicate CoveredFit(cf: CoveredFields) {
    && SliceFits(cf.siacoinInputs, SIZEOF_UINT64) && SliceFits(cf.siacoinOutputs, SIZEOF_UINT64)
    && SliceFits(cf.fileContracts, SIZEOF_UINT64) && SliceFits(cf.fileContractRevisions, SIZEOF_UINT64)
    && SliceFits(cf.storageProofs, SIZEOF_UINT64) && SliceFits(cf.minerFees, SIZEOF_UINT64)
    && SliceFits(cf.arbitraryData, SIZEOF_UINT64) && SliceFits(cf.transactionSignatures, SIZEOF_UINT64)
  }

  predicate SignatureFits<H>(ts: TransactionSignature<H>) {
    CoveredFit(ts.coveredFields) && DataFits(ts.signature)
  }

  predicate TransactionFits<H>(t: Transaction<H>) {
    && SliceFits(t.siacoinInputs, SIZEOF_INPUT)
    && (forall i :: 0 <= i < |t.siacoinInputs| ==> ConditionsFit(t.siacoinInputs[i].unlockConditions))
    && OutputsFit(t.siacoinOutputs)
    && SliceFits(t.fileContracts, SIZEOF_CONTRACT)
    && (forall i :: 0 <= i < |t.fileContracts| ==> ContractFits(t.fileContracts[i]))
    && SliceFits(t.fileContractRevisions, SIZEOF_REVISION)
    && (forall i :: 0 <= i < |t.fileContractRevisions| ==> RevisionFits(t.fileContractRevisions[i]))
    && SliceFits(t.storageProofs, SIZEOF_PROOF)
    && (forall i :: 0 <= i < |t.storageProofs| ==> SliceFits(t.storageProofs[i].hashSet, SIZEOF_HASH))
    && SliceFits(t.minerFees, SIZEOF_CURRENCY)
    && (forall i :: 0 <= i < |t.minerFees| ==> CurrencyFits(t.minerFees[i]))
    && SliceFits(t.arbitraryData, SIZEOF_BYTES)
    && (forall i :: 0 <= i < |t.arbitraryData| ==> DataFits(t.arbitraryData[i]))
    && SliceFits(t.transactionSignatures, SIZEOF_SIGNATURE)
    && (forall i :: 0 <= i < |t.transactionSignatures| ==> SignatureFits(t.transactionSignatures[i]))
  }

  predicate BlockFits<H>(b: Block<H>) {
    && OutputsFit(b.minerPayouts)
    && SliceFits(b.transactions, SIZEOF_TRANSACTION)
    && (forall i :: 0 <= i < |b.transactions| ==> TransactionFits(b.transactions[i]))
  }
}
