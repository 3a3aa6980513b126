/** The consensus data types of the `types` package.

    Every digest in the source is a `crypto.Hash`; the types below are generic
    in the digest type `H` so that the wire format (32-byte strings) and the
    ledger (symbolic digests, see module Hashing) share one set of records. */
module Types {

  /** The number of values of a uint64. */
  const WORD: nat := 0x1_0000_0000_0000_0000

  // types/constants.go, standard network
  const GENESIS_TIMESTAMP: uint64 := 1_532_510_521
  const BLOCK_SIZE_LIMIT: nat := 2_000_000

  type uint8 = x: int | 0 <= x < 0x100
  type uint64 = x: int | 0 <= x < 0x1_0000_0000_0000_0000
  type bytes = seq<uint8>

  /** Fixed-size byte arrays of the source. */
  type Specifier = b: bytes | |b| == 16 witness seq(16, _ => 0)
  type Nonce = b: bytes | |b| == 8 witness seq(8, _ => 0)
  type Segment = b: bytes | |b| == 64 witness seq(64, _ => 0)

  datatype Option<+T> = None | Some(value: T) {
    predicate IsFailure() { None? }

    function PropagateFailure<U>(): Option<U>
      requires None?
    {
      None
    }

    function Extract(): T
      requires Some?
    {
      value
    }
  }

  datatype SiacoinOutput<H> = SiacoinOutput(value: nat, unlockHash: H)

  datatype SiaPublicKey = SiaPublicKey(algorithm: Specifier, key: bytes)

  datatype UnlockConditions = UnlockConditions(timelock: uint64, publicKeys: seq<SiaPublicKey>,
    signaturesRequired: uint64)

  datatype SiacoinInput<H> = SiacoinInput(parentID: H, unlockConditions: UnlockConditions)

  datatype FileContract<H> = FileContract(
    fileSize: uint64,
    fileMerkleRoot: H,
    windowStart: uint64,
    windowEnd: uint64,
    payout: nat,
    validProofOutputs: seq<SiacoinOutput<H>>,
    missedProofOutputs: seq<SiacoinOutput<H>>,
    unlockHash: H,
    revisionNumber: uint64)

  datatype FileContractRevision<H> = FileContractRevision(
    parentID: H,
    unlockConditions: UnlockConditions,
    newRevisionNumber: uint64,
    newFileSize: uint64,
    newFileMerkleRoot: H,
    newWindowStart: uint64,
    newWindowEnd: uint64,
    newValidProofOutputs: seq<SiacoinOutput<H>>,
    newMissedProofOutputs: seq<SiacoinOutput<H>>,
    newUnlockHash: H)

  datatype StorageProof<H> = StorageProof(parentID: H, segment: Segment, hashSet: seq<H>)

  datatype CoveredFields = CoveredFields(
    wholeTransaction: bool,
    siacoinInputs: seq<uint64>,
    siacoinOutputs: seq<uint64>,
    fileContracts: seq<uint64>,
    fileContractRevisions: seq<uint64>,
    storageProofs: seq<uint64>,
    minerFees: seq<uint64>,
    arbitraryData: seq<uint64>,
    transactionSignatures: seq<uint64>)

  datatype TransactionSignature<H> = TransactionSignature(
    parentID: H,
    publicKeyIndex: uint64,
    timelock: uint64,
    coveredFields: CoveredFields,
    signature: bytes)

  datatype Transaction<H> = Transaction(
    siacoinInputs: seq<SiacoinInput<H>>,
    siacoinOutputs: seq<SiacoinOutput<H>>,
    fileContracts: seq<FileContract<H>>,
    fileContractRevisions: seq<FileContractRevision<H>>,
    storageProofs: seq<StorageProof<H>>,
    minerFees: seq<nat>,
    arbitraryData: seq<bytes>,
    transactionSignatures: seq<TransactionSignature<H>>)

  datatype Block<H> = Block(
    parentID: H,
    nonce: Nonce,
    timestamp: uint64,
    minerPayouts: seq<SiacoinOutput<H>>,
    transactions: seq<Transaction<H>>)

  /** The sum of a list of output values. */
  function ValueSum<H>(outputs: seq<SiacoinOutput<H>>): nat {
    if outputs == [] then 0
    else ValueSum(outputs[..|outputs| - 1]) + outputs[|outputs| - 1].value
  }

  /** The sum of a list of currencies. */
  function CurrencySum(values: seq<nat>): nat {
    if values == [] then 0
    else CurrencySum(values[..|values| - 1]) + values[|values| - 1]
  }
}
