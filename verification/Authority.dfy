/** Who may spend an output and who may revise a contract: on every valid chain
    only the holders of enough keys of the unlock conditions behind its address,
    once the timelock has passed. */
module Authority {
  import opened Types
  import opened Hashing
  import opened Ledger
  import opened Signatures
  import opened Admission
  import opened Validation
  import opened Freshness
  import opened Conservation
  import opened BlockEffects
  import opened Revisions
  import opened Chain
  import opened BlockTree
  import opened Footprint
  import opened Provenance

  // ---------------------------------------------------------------- m of n keys

  /** Which of the first n signatures name a parent. */
  ghost function Naming<H>(sigs: seq<TransactionSignature<H>>, n: nat, parent: H): set<nat>
    requires n <= |sigs|
  {
    set i: nat | i < n && sigs[i].parentID == parent
  }

  /** The signatures of a transaction that name a parent. */
  ghost function SignersOf<H>(t: Transaction<H>, parent: H): set<nat> {
    Naming(t.transactionSignatures, |t.transactionSignatures|, parent)
  }

  /** Signature i is made with a key of the unlock conditions. A key of an
      unknown algorithm signs anything, an entropy key nothing. */
  ghost predicate Signs<H>(t: Transaction<H>, i: nat, uc: UnlockConditions, height: nat, verify: Verifier<H>) {
    && i < |t.transactionSignatures|
    && CoveredFieldsOk(t, t.transactionSignatures[i].coveredFields)
    && var sig := t.transactionSignatures[i];
    && sig.timelock <= height && sig.publicKeyIndex < |uc.publicKeys|
    && var key := uc.publicKeys[sig.publicKeyIndex];
    && key.algorithm != SIGNATURE_ENTROPY
    && (key.algorithm == SIGNATURE_ED25519 ==> verify(SigHash(t, i), key.key, sig.signature))
  }

  /** Two of the signatures are made with the same key. */
  ghost predicate SameKey<H>(t: Transaction<H>, i: nat, j: nat) {
    && i < |t.transactionSignatures| && j < |t.transactionSignatures|
    && t.transactionSignatures[i].publicKeyIndex == t.transactionSignatures[j].publicKeyIndex
  }

  /** As many signatures as required, each with another of the keys. */
  ghost predicate SignedBy<H>(t: Transaction<H>, signers: set<nat>, uc: UnlockConditions, height: nat,
                              verify: Verifier<H>) {
    && |signers| == uc.signaturesRequired
    && (forall i :: i in signers ==> Signs(t, i, uc, height, verify))
    && (forall i, j :: i in signers && j in signers && SameKey(t, i, j) ==> i == j)
  }

  /** Every input is signed for. */
  ghost predicate InputsSigned<H>(t: Transaction<H>, height: nat, verify: Verifier<H>) {
    forall k :: 0 <= k < |t.siacoinInputs| ==>
      SignedBy(t, SignersOf(t, t.siacoinInputs[k].parentID), t.siacoinInputs[k].unlockConditions, height, verify)
  }

  /** Every revision is signed for. */
  ghost predicate RevisionsSigned<H>(t: Transaction<H>, height: nat, verify: Verifier<H>) {
    forall k :: 0 <= k < |t.fileContractRevisions| ==>
      SignedBy(t, SignersOf(t, t.fileContractRevisions[k].parentID), t.fileContractRevisions[k].unlockConditions,
        height, verify)
  }

  /** No parent is named twice by the inputs and revisions. */
  ghost predicate ParentsDiffer<H>(t: Transaction<H>) {
    && (forall i, j :: 0 <= i < j < |t.siacoinInputs| ==> t.siacoinInputs[i].parentID != t.siacoinInputs[j].parentID)
    && (forall i, j :: 0 <= i < j < |t.fileContractRevisions| ==>
          t.fileContractRevisions[i].parentID != t.fileContractRevisions[j].parentID)
    && (forall i, j :: 0 <= i < |t.siacoinInputs| && 0 <= j < |t.fileContractRevisions| ==>
          t.siacoinInputs[i].parentID != t.fileContractRevisions[j].parentID)
  }

  /** Something in the transaction is to be signed for under this id. */
  ghost predicate IsParent<H>(t: Transaction<H>, id: H) {
    || (exists k :: 0 <= k < |t.siacoinInputs| && t.siacoinInputs[k].parentID == id)
    || (exists k :: 0 <= k < |t.fileContractRevisions| && t.fileContractRevisions[k].parentID == id)
  }

  ghost predicate NoneFrivolous<H>(t: Transaction<H>) {
    forall i :: 0 <= i < |t.transactionSignatures| ==> IsParent(t, t.transactionSignatures[i].parentID)
  }

  lemma {:induction false} NamingStep<H>(sigs: seq<TransactionSignature<H>>, n: nat, parent: H)
    requires n < |sigs|
    ensures n !in Naming(sigs, n, parent)
    ensures Naming(sigs, n + 1, parent) == Naming(sigs, n, parent) + if sigs[n].parentID == parent then {n} else {}
  {
  }

  lemma {:induction false} CountIs<H>(sigs: seq<TransactionSignature<H>>, n: nat, parent: H)
    requires n <= |sigs|
    ensures |Naming(sigs, n, parent)| == CountFor(sigs[..n], parent)
  {
    hide Naming;
    if n > 0 {
      CountIs(sigs, n - 1, parent);
      NamingStep(sigs, n - 1, parent);
      assert sigs[..n][..n - 1] == sigs[..n - 1];
    } else {
      NamesNothing(sigs, parent);
    }
  }

  lemma {:induction false} NamesNothing<H>(sigs: seq<TransactionSignature<H>>, parent: H)
    ensures Naming(sigs, 0, parent) == {}
  {
  }

  lemma {:induction false} SignersAre<H>(t: Transaction<H>, parent: H)
    ensures |SignersOf(t, parent)| == CountFor(t.transactionSignatures, parent)
  {
    hide Naming;
    var n := |t.transactionSignatures|;
    CountIs(t.transactionSignatures, n, parent);
    assert t.transactionSignatures[..n] == t.transactionSignatures;
  }

  /** The conditions of a parent, when parents differ. */
  lemma {:induction false} ConditionsAt<H(!new)>(ps: seq<(H, UnlockConditions)>, k: nat)
    requires k < |ps| && DistinctParents(ps)
    ensures ps[k].0 in Conditions(ps) && Conditions(ps)[ps[k].0] == ps[k].1
  {
    if k < |ps| - 1 {
      ConditionsAt(ps[..|ps| - 1], k);
    }
  }

  lemma {:induction false} ParentsAre<H>(t: Transaction<H>)
    ensures var ps, n := Parents(t), |t.siacoinInputs|;
            && |ps| == n + |t.fileContractRevisions|
            && (forall k :: 0 <= k < n ==>
                  ps[k] == (t.siacoinInputs[k].parentID, t.siacoinInputs[k].unlockConditions))
            && (forall k :: n <= k < |ps| ==>
                  ps[k] == (t.fileContractRevisions[k - n].parentID, t.fileContractRevisions[k - n].unlockConditions))
  {
  }

  lemma {:induction false} ParentsDifferIs<H>(t: Transaction<H>)
    ensures DistinctParents(Parents(t)) <==> ParentsDiffer(t)
  {
    hide Parents;
    ParentsAre(t);
    var ps, n := Parents(t), |t.siacoinInputs|;
    if DistinctParents(ps) {
      forall i, j | 0 <= i < j < |t.siacoinInputs|
        ensures t.siacoinInputs[i].parentID != t.siacoinInputs[j].parentID
      {
        assert ps[i].0 != ps[j].0;
      }
      forall i, j | 0 <= i < j < |t.fileContractRevisions|
        ensures t.fileContractRevisions[i].parentID != t.fileContractRevisions[j].parentID
      {
        assert ps[n + i].0 != ps[n + j].0;
      }
      forall i, j | 0 <= i < |t.siacoinInputs| && 0 <= j < |t.fileContractRevisions|
        ensures t.siacoinInputs[i].parentID != t.fileContractRevisions[j].parentID
      {
        assert ps[i].0 != ps[n + j].0;
      }
    }
  }

  lemma {:induction false} IsParentIs<H(!new)>(t: Transaction<H>, id: H)
    ensures id in Conditions(Parents(t)) <==> IsParent(t, id)
  {
    hide Parents;
    ParentsAre(t);
    var ps, n := Parents(t), |t.siacoinInputs|;
    if k :| 0 <= k < |t.siacoinInputs| && t.siacoinInputs[k].parentID == id {
      assert ps[k].0 == id;
    }
    if k :| 0 <= k < |t.fileContractRevisions| && t.fileContractRevisions[k].parentID == id {
      assert ps[n + k].0 == id;
    }
  }

  /** The rule of ProperlySigned for one parent. */
  ghost predicate PaidFor<H(!new)>(t: Transaction<H>, id: H, height: nat, verify: Verifier<H>) {
    id in Conditions(Parents(t)) ==> SignedBy(t, SignersOf(t, id), Conditions(Parents(t))[id], height, verify)
  }

  lemma {:induction false} OneByOne<H(!new)>(t: Transaction<H>, height: nat, verify: Verifier<H>)
    requires DistinctParents(Parents(t))
    ensures InputsSigned(t, height, verify) && RevisionsSigned(t, height, verify)
       <==> forall id :: PaidFor(t, id, height, verify)
  {
    hide Parents, Conditions, SignedBy, SignersOf;
    ParentsAre(t);
    var ps, n := Parents(t), |t.siacoinInputs|;
    if InputsSigned(t, height, verify) && RevisionsSigned(t, height, verify) {
      forall id | id in Conditions(ps)
        ensures SignedBy(t, SignersOf(t, id), Conditions(ps)[id], height, verify)
      {
        var k :| 0 <= k < |ps| && ps[k].0 == id;
        ConditionsAt(ps, k);
      }
    }
    if forall id :: PaidFor(t, id, height, verify) {
      forall k | 0 <= k < |ps|
        ensures SignedBy(t, SignersOf(t, ps[k].0), ps[k].1, height, verify)
      {
        ConditionsAt(ps, k);
        assert PaidFor(t, ps[k].0, height, verify);
      }
      forall k | 0 <= k < |t.fileContractRevisions|
        ensures SignedBy(t, SignersOf(t, t.fileContractRevisions[k].parentID),
                  t.fileContractRevisions[k].unlockConditions, height, verify)
      {
        assert ps[n + k].0 == t.fileContractRevisions[k].parentID;
      }
    }
  }

  /** What the signature rule comes to: the covered fields of every signature
      are in order, every input and every revision is signed for with as many
      different keys as its unlock conditions ask, and there are no other
      signatures. */
  lemma {:induction false} SignedExactly<H(!new)>(t: Transaction<H>, height: nat, verify: Verifier<H>)
    ensures ProperlySigned(t, height, verify)
       <==> && AllCoveredFieldsOk(t) && ParentsDiffer(t) && NoneFrivolous(t)
            && InputsSigned(t, height, verify) && RevisionsSigned(t, height, verify)
  {
    hide Parents, Conditions, SignedBy, CoveredFieldsOk, AllCoveredFieldsOk, CountFor, KeyReused, Belongs, IsParent,
         DistinctParents, ParentsDiffer, InputsSigned, RevisionsSigned;
    ParentsDifferIs(t);
    if AllCoveredFieldsOk(t) && DistinctParents(Parents(t)) {
      OneByOne(t, height, verify);
      if ProperlySigned(t, height, verify) {
        ProperIsSigned(t, height, verify);
      }
      if NoneFrivolous(t) && forall id :: PaidFor(t, id, height, verify) {
        SignedIsProper(t, height, verify);
      }
    }
  }

  lemma {:induction false} ProperIsSigned<H(!new)>(t: Transaction<H>, height: nat, verify: Verifier<H>)
    requires ProperlySigned(t, height, verify)
    ensures NoneFrivolous(t) && forall id :: PaidFor(t, id, height, verify)
  {
    hide Parents, Conditions, CoveredFieldsOk, CountFor, IsParent, SigHash;
    var sigs, conds := t.transactionSignatures, Conditions(Parents(t));
    forall i | 0 <= i < |sigs|
      ensures IsParent(t, sigs[i].parentID)
    {
      assert Belongs(t, i, conds, height, verify);
      IsParentIs(t, sigs[i].parentID);
    }
    forall id | id in conds
      ensures SignedBy(t, SignersOf(t, id), conds[id], height, verify)
    {
      SignersAre(t, id);
      forall i | i in SignersOf(t, id)
        ensures Signs(t, i, conds[id], height, verify)
      {
        assert Belongs(t, i, conds, height, verify);
      }
      forall i, j | i in SignersOf(t, id) && j in SignersOf(t, id) && i < j
        ensures !SameKey(t, i, j)
      {
        assert !KeyReused(sigs, i, j);
      }
    }
  }

  lemma {:induction false} SignedIsProper<H(!new)>(t: Transaction<H>, height: nat, verify: Verifier<H>)
    requires AllCoveredFieldsOk(t) && DistinctParents(Parents(t)) && NoneFrivolous(t)
    requires forall id :: PaidFor(t, id, height, verify)
    ensures ProperlySigned(t, height, verify)
  {
    hide Parents, Conditions, CoveredFieldsOk, CountFor, IsParent, SigHash;
    var sigs, conds := t.transactionSignatures, Conditions(Parents(t));
    forall i | 0 <= i < |sigs|
      ensures Belongs(t, i, conds, height, verify)
    {
      IsParentIs(t, sigs[i].parentID);
      assert PaidFor(t, sigs[i].parentID, height, verify) && i in SignersOf(t, sigs[i].parentID);
      assert Signs(t, i, conds[sigs[i].parentID], height, verify);
    }
    forall i, j | 0 <= i < j < |sigs|
      ensures !KeyReused(sigs, i, j)
    {
      var id := sigs[i].parentID;
      IsParentIs(t, id);
      assert PaidFor(t, id, height, verify) && i in SignersOf(t, id);
      assert sigs[j].parentID == id ==> j in SignersOf(t, id);
      assert SameKey(t, i, j) <==> sigs[i].publicKeyIndex == sigs[j].publicKeyIndex;
    }
    forall id | id in conds
      ensures CountFor(sigs, id) == conds[id].signaturesRequired
    {
      assert PaidFor(t, id, height, verify);
      SignersAre(t, id);
    }
  }

  // ---------------------------------------------------------------- on every valid chain

  /** Unlock conditions open an address at a height. */
  ghost predicate Opens(t: Txn, parent: Hash, uc: UnlockConditions, address: Hash, height: nat,
                        verify: Verifier<Hash>) {
    && AddressOf(uc) == address && uc.timelock <= height
    && SignedBy(t, SignersOf(t, parent), uc, height, verify)
  }

  /** The revisions of a contract before transaction j of a block. */
  ghost function Before(id: Hash, j: nat): History
    requires id.BlockID? && j <= |id.block.transactions|
  {
    c => RevisionsAt(id.block.parentID, c) + RevisionsOf(id.block.transactions[..j], c)
  }

  /** Every input in a valid block spends the output that its id names, with
      the unlock conditions behind its address, their timelock passed and their
      signatures made. */
  lemma {:induction false} SpendsAreAuthorised(r: Rules, id: Hash, j: nat, k: nat) returns (out: Output)
    requires id.BlockID? && id != GenesisID() && Valid(r, id) && j < |id.block.transactions|
    requires k < |id.block.transactions[j].siacoinInputs|
    ensures var t, i := id.block.transactions[j], id.block.transactions[j].siacoinInputs[k];
            && Height(id) > 0 && Named(Before(id, j), i.parentID, out)
            && Opens(t, i.parentID, i.unlockConditions, out.unlockHash, Height(id) - 1, r.oracle.verify)
  {
    hide StateAt, Height, GenesisID, Valid, TxnsEffect, Opened, Record, Healthy, RevisionsOf, SeenAt, RevisionsAt,
         Named, DelayedNamed, ContractsNamed, ProperlySigned, SignedBy, Parents, Conditions, NoRepeats, SpentValue,
         SiacoinOutputSum, ValidStorageProofs, ValidFileContractRevisions, FitsInABlock, RevisionsSigned,
         AllCoveredFieldsOk, NoneFrivolous, ParentsDiffer;
    MidBlock(r, id, j);
    var p, h, ts := id.block.parentID, Height(id), id.block.transactions;
    var s, i := TxnsEffect(Opened(StateAt(p), h), ts[..j], h), ts[j].siacoinInputs[k];
    assert InputUnlocks(s.outputs, i);
    out := s.outputs[i.parentID];
    SignedExactly(ts[j], h - 1, r.oracle.verify);
  }

  /** Every revision in a valid block amends the contract that its id names, as
      earlier revisions left it: not after its window has begun, with a higher
      number, for the same payout, with the unlock conditions behind its
      address, their timelock passed and their signatures made. */
  lemma {:induction false} RevisionsAreAuthorised(r: Rules, id: Hash, j: nat, k: nat) returns (fc: Contract)
    requires id.BlockID? && id != GenesisID() && Valid(r, id) && j < |id.block.transactions|
    requires k < |id.block.transactions[j].fileContractRevisions|
    ensures var t, v := id.block.transactions[j], id.block.transactions[j].fileContractRevisions[k];
            && Height(id) > 0 && IsContractID(v.parentID)
            && Amends(FirstContract(v.parentID), Before(id, j)(v.parentID), fc)
            && Opens(t, v.parentID, v.unlockConditions, fc.unlockHash, Height(id) - 1, r.oracle.verify)
            && fc.revisionNumber < v.newRevisionNumber
            && Height(id) - 1 <= fc.windowStart
            && Height(id) <= v.newWindowStart < v.newWindowEnd
            && ValueSum(v.newValidProofOutputs) == ValueSum(v.newMissedProofOutputs) == fc.payout
  {
    hide StateAt, Height, GenesisID, Valid, TxnsEffect, Opened, Record, Healthy, RevisionsOf, SeenAt, RevisionsAt,
         OutputsNamed, DelayedNamed, IsContractID, Amends, ProperlySigned, SignedBy, Parents, Conditions, NoRepeats,
         ValidSiacoins, ValidStorageProofs, FitsInABlock, InputsSigned, AllCoveredFieldsOk, NoneFrivolous,
         ParentsDiffer;
    MidBlock(r, id, j);
    var p, h, ts := id.block.parentID, Height(id), id.block.transactions;
    var s, v := TxnsEffect(Opened(StateAt(p), h), ts[..j], h), ts[j].fileContractRevisions[k];
    assert RevisionOk(s, v) && RevisionCorrect(v, h - 1);
    fc := s.contracts[v.parentID];
    SignedExactly(ts[j], h - 1, r.oracle.verify);
    MidBalanced(r, id, j);
  }

  lemma {:induction false} MidBalanced(r: Rules, id: Hash, j: nat)
    requires id.BlockID? && id != GenesisID() && Valid(r, id) && j <= |id.block.transactions|
    ensures var h := Height(id);
            Balanced(TxnsEffect(Opened(StateAt(id.block.parentID), h), id.block.transactions[..j], h).contracts, h - 1)
  {
    hide StateAt, Height, GenesisID, Valid, TxnsEffect, Opened, Record, Balanced, Fresh, Worth, OnlyPays,
         SeenAt, ValidTransactions;
    StepFacts(r, id);
    var p, h, ts := id.block.parentID, Height(id), id.block.transactions;
    var s0 := Opened(StateAt(p), h);
    OpenedIsFit(StateAt(p), SeenAt(p));
    BlockIsValid(r, id);
    ValidPrefix(r.oracle, s0, ts, h, j);
    TransactionsConserve(r.oracle, s0, SeenAt(p), h - 1, ts[..j]);
  }

  /** Every contract formed in a valid block has its window after the block
      before, and pays the same whether it is proved or missed; everything a
      transaction pays is more than nothing; and one with a storage proof
      creates and revises nothing. */
  lemma {:induction false} ContractsAreFormed(r: Rules, id: Hash, j: nat)
    requires id.BlockID? && id != GenesisID() && Valid(r, id) && j < |id.block.transactions|
    ensures forall fc :: fc in id.block.transactions[j].fileContracts ==>
              && Height(id) <= fc.windowStart < fc.windowEnd
              && 0 < fc.payout == ValueSum(fc.validProofOutputs) == ValueSum(fc.missedProofOutputs)
    ensures forall out :: out in id.block.transactions[j].siacoinOutputs ==> out.value > 0
    ensures forall fee :: fee in id.block.transactions[j].minerFees ==> fee > 0
    ensures var t := id.block.transactions[j];
            t.storageProofs != [] ==> t.siacoinOutputs == [] && t.fileContracts == [] && t.fileContractRevisions == []
  {
    hide StateAt, Height, GenesisID, Valid, TxnsEffect, Opened, Record, Traced, RevisionsOf, SeenAt, RevisionsAt,
         NoRepeats, ValidSiacoins, ValidStorageProofs, ValidFileContractRevisions, Admissible;
    MidBlock(r, id, j);
  }

  // ---------------------------------------------------------------- signatures do not make a transaction another

  /** Transactions give their outputs and contracts the same ids if and only if
      they are the same but for their signatures. */
  lemma {:induction false} IdsNameBodies(t: Txn, t': Txn, i: nat, j: nat)
    ensures ItemID(TxnOutputs(Unsigned(t)), i) == ItemID(TxnOutputs(Unsigned(t')), j) <==> SameBody(t, t') && i == j
    ensures ItemID(TxnContracts(Unsigned(t)), i) == ItemID(TxnContracts(Unsigned(t')), j) <==> SameBody(t, t') && i == j
  {
    var u, u' := Unsigned(t), Unsigned(t');
    assert SameBody(t, t') ==> u == u';
  }

  lemma {:induction false} SeenStays(id: Hash, k: nat, j: nat)
    requires Rooted(id) && 0 < k < |Ancestry(id)| && Ancestry(id)[k].BlockID?
    requires j < |Ancestry(id)[k].block.transactions|
    ensures Unsigned(Ancestry(id)[k].block.transactions[j]) in SeenAt(id)
  {
    hide Unsigned, GenesisID, Record;
    if id != GenesisID() {
      var p, ts := id.block.parentID, id.block.transactions;
      if k < |Ancestry(p)| {
        assert Ancestry(id)[k] == Ancestry(p)[k];
        SeenStays(p, k, j);
        RecordKeeps(SeenAt(p), ts, Unsigned(Ancestry(id)[k].block.transactions[j]));
      } else {
        Entered(SeenAt(p), ts, j);
      }
    }
  }

  lemma {:induction false} RecordKeeps(seen: set<Txn>, ts: seq<Txn>, u: Txn)
    requires u in seen
    ensures u in Record(seen, ts)
  {
    if ts != [] {
      RecordKeeps(seen, ts[..|ts| - 1], u);
    }
  }

  /** No transaction that spends something is on a chain twice, also not with
      other signatures. */
  lemma {:induction false} BodiesNeverRepeat(r: Rules, id: Hash, i: nat, k: nat, j: nat)
    requires id.BlockID? && id != GenesisID() && Valid(r, id)
    requires i < |id.block.transactions| && id.block.transactions[i].siacoinInputs != []
    requires 0 < k < |Ancestry(id)| && Ancestry(id)[k].BlockID? && j < |Ancestry(id)[k].block.transactions|
    requires k == |Ancestry(id)| - 1 ==> j < i
    ensures !SameBody(id.block.transactions[i], Ancestry(id)[k].block.transactions[j])
  {
    hide GenesisID, Record, StateAt, ValidChain, SeenAt;
    var p, ts := id.block.parentID, id.block.transactions;
    var t := Ancestry(id)[k].block.transactions[j];
    NoReplay(r.oracle, r.devFund, id, i);
    ValidIsRooted(r.oracle, r.devFund, id);
    if k < |Ancestry(id)| - 1 {
      assert Ancestry(id)[k] == Ancestry(p)[k];
      SeenStays(p, k, j);
      RecordKeeps(SeenAt(p), ts[..i], Unsigned(t));
    } else {
      Entered(SeenAt(p), ts[..i], j);
    }
    assert Unsigned(ts[i]) != Unsigned(t);
  }
}
