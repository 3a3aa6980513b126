/** Symbolic digests.

    The ids of the source are BLAKE2b digests of encoded objects. They are
    modelled as the free algebra over what is hashed: two ids are equal exactly
    when they hash the same object with the same specifier. This is the usual
    idealisation of a collision-free hash; module WireIds proves, on the byte
    encodings, that the preimages behind the constructors of `Source` never
    coincide. */
module Hashing {
  import opened Types

  datatype Hash =
    | Opaque(n: nat)                                     // a digest without a known preimage
    | BlockID(block: Block<Hash>)
    | ItemID(source: Source, index: nat)
    | EntryID(reverted: seq<Hash>, applied: seq<Hash>)   // id of a change log entry
    | AddressOf(conditions: UnlockConditions)            // UnlockConditions.UnlockHash

  /** Where an indexed id comes from. */
  datatype Source =
    | TxnOutputs(txn: Transaction<Hash>)
    | TxnContracts(txn: Transaction<Hash>)
    | Payouts(block: Hash)
    | ProofOutputs(contract: Hash, valid: bool)

  type Output = SiacoinOutput<Hash>
  type Contract = FileContract<Hash>
  type Revision = FileContractRevision<Hash>
  type Proof = StorageProof<Hash>
  type Input = SiacoinInput<Hash>
  type Txn = Transaction<Hash>
  type Blk = Block<Hash>

  /** The all-zero digest. */
  const ZERO := Opaque(0)

  /** What a transaction id hashes: everything but the signatures. */
  function Unsigned(t: Txn): Txn {
    t.(transactionSignatures := [])
  }
}
