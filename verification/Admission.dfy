/** The rules of StandaloneValid that concern a transaction's size, its
    timelocks and its signatures (types/validtransaction.go). */
module Admission {
  import opened Types
  import opened Signatures
  import opened WireTypes

  const OAK_TXN_SIZE_LIMIT: nat := 64_000

  predicate FitsInABlock<H>(t: Transaction<H>) {
    TransactionSize(t) <= BLOCK_SIZE_LIMIT - 5_000 && TransactionSize(t) <= OAK_TXN_SIZE_LIMIT
  }

  predicate TimelocksMet<H>(t: Transaction<H>, height: nat) {
    && (forall i :: 0 <= i < |t.siacoinInputs| ==> t.siacoinInputs[i].unlockConditions.timelock <= height)
    && (forall i :: 0 <= i < |t.fileContractRevisions| ==>
       t.fileContractRevisions[i].unlockConditions.timelock <= height)
  }

  ghost predicate Admissible<H(!new)>(t: Transaction<H>, height: nat, verify: Verifier<H>) {
    FitsInABlock(t) && TimelocksMet(t, height) && ProperlySigned(t, height, verify)
  }

  /** Both loops of validUnlockConditions. */
  method ValidUnlockConditions<H>(t: Transaction<H>, height: nat) returns (ok: bool)
    ensures ok <==> TimelocksMet(t, height)
  {
    for i := 0 to |t.siacoinInputs|
      invariant forall j :: 0 <= j < i ==> t.siacoinInputs[j].unlockConditions.timelock <= height
    {
      if t.siacoinInputs[i].unlockConditions.timelock > height {
        return false;
      }
    }
    for i := 0 to |t.fileContractRevisions|
      invariant forall j :: 0 <= j < i ==> t.fileContractRevisions[j].unlockConditions.timelock <= height
    {
      if t.fileContractRevisions[i].unlockConditions.timelock > height {
        return false;
      }
    }
    return true;
  }

  method Admit<H(==, !new)>(t: Transaction<H>, height: nat, verify: Verifier<H>) returns (ok: bool)
    ensures ok <==> Admissible(t, height, verify)
  {
    if !FitsInABlock(t) {
      return false;
    }
    ok := ValidUnlockConditions(t, height);
    if ok {
      var err := ValidSignatures(t, height, verify);
      ok := err == NoError;
    }
  }
}
