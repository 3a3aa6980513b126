/** Transaction signatures (types/signatures.go): which signatures a
    transaction must carry, and what each of them covers. */
module Signatures {
  import opened Types

  const SIGNATURE_ED25519: Specifier := [101, 100, 50, 53, 53, 49, 57, 0, 0, 0, 0, 0, 0, 0, 0, 0]
  const SIGNATURE_ENTROPY: Specifier := [101, 110, 116, 114, 111, 112, 121, 0, 0, 0, 0, 0, 0, 0, 0, 0]

  /** What SigHash feeds to the hasher. */
  datatype SigPreimage<H> =
    | Whole(txn: Transaction<H>, parentID: H, publicKeyIndex: uint64, timelock: uint64,
            signatures: seq<TransactionSignature<H>>)
    | Partial(siacoinInputs: seq<SiacoinInput<H>>, siacoinOutputs: seq<SiacoinOutput<H>>,
              fileContracts: seq<FileContract<H>>, fileContractRevisions: seq<FileContractRevision<H>>,
              storageProofs: seq<StorageProof<H>>, minerFees: seq<nat>, arbitraryData: seq<bytes>,
              signatures: seq<TransactionSignature<H>>)

  /** VerifyHash on the hash of a preimage: hash, public key, signature. */
  type Verifier<!H> = (SigPreimage<H>, bytes, bytes) -> bool

  datatype SigError = NoError | CoveredFieldsViolation | DoubleSpend | FrivolousSignature | PublicKeyOveruse
                    | InvalidPubKeyIndex | PrematureSignature | EntropyKey | InvalidSignature | MissingSignatures

  // ---------------------------------------------------------------- covered fields

  ghost predicate StrictlyIncreasingBelow(elems: seq<uint64>, max: nat) {
    && (forall i, j :: 0 <= i < j < |elems| ==> elems[i] < elems[j])
    && (forall i :: 0 <= i < |elems| ==> elems[i] < max)
  }

  /** sortedUnique scans once and compares only the last element with max. */
  method SortedUnique(elems: seq<uint64>, max: nat) returns (ok: bool)
    ensures ok <==> StrictlyIncreasingBelow(elems, max)
  {
    if |elems| == 0 {
      return true;
    }
    var biggest := elems[0];
    for k := 1 to |elems|
      invariant biggest == elems[k - 1]
      invariant forall i, j :: 0 <= i < j < k ==> elems[i] < elems[j]
    {
      if elems[k] <= biggest {
        assert !(elems[k - 1] < elems[k]);
        return false;
      }
      biggest := elems[k];
    }
    return biggest < max;
  }

  /** The index lists of a CoveredFields with the lengths that bound them, in
      the order of the source's fieldMaxs table. */
  function FieldMaxs<H>(t: Transaction<H>, cf: CoveredFields): (r: seq<(seq<uint64>, nat)>)
    ensures |r| == 8
  {
    [(cf.siacoinInputs, |t.siacoinInputs|),
     (cf.siacoinOutputs, |t.siacoinOutputs|),
     (cf.fileContracts, |t.fileContracts|),
     (cf.fileContractRevisions, |t.fileContractRevisions|),
     (cf.storageProofs, |t.storageProofs|),
     (cf.minerFees, |t.minerFees|),
     (cf.arbitraryData, |t.arbitraryData|),
     (cf.transactionSignatures, |t.transactionSignatures|)]
  }

  ghost predicate CoveredFieldsOk<H>(t: Transaction<H>, cf: CoveredFields) {
    var fields := FieldMaxs(t, cf);
    && (if cf.wholeTransaction then forall k :: 0 <= k < 7 ==> fields[k].0 == []
        else exists k :: 0 <= k < 8 && fields[k].0 != [])
    && (forall k :: 0 <= k < 8 ==> StrictlyIncreasingBelow(fields[k].0, fields[k].1))
  }

  ghost predicate AllCoveredFieldsOk<H>(t: Transaction<H>) {
    forall i :: 0 <= i < |t.transactionSignatures| ==> CoveredFieldsOk(t, t.transactionSignatures[i].coveredFields)
  }

  method ValidCoveredFields<H>(t: Transaction<H>) returns (ok: bool)
    ensures ok <==> AllCoveredFieldsOk(t)
  {
    for i := 0 to |t.transactionSignatures|
      invariant forall j :: 0 <= j < i ==> CoveredFieldsOk(t, t.transactionSignatures[j].coveredFields)
    {
      var cf := t.transactionSignatures[i].coveredFields;
      var fields := FieldMaxs(t, cf);
      if cf.wholeTransaction {
        for k := 0 to 7
          invariant forall m :: 0 <= m < k ==> fields[m].0 == []
        {
          if |fields[k].0| != 0 {
            assert !CoveredFieldsOk(t, cf);
            return false;
          }
        }
      } else {
        var allEmpty, k := true, 0;
        while k < 8 && allEmpty
          invariant 0 <= k <= 8
          invariant allEmpty ==> forall m :: 0 <= m < k ==> fields[m].0 == []
          invariant allEmpty || (1 <= k && fields[k - 1].0 != [])
        {
          if |fields[k].0| != 0 {
            allEmpty := false;
          }
          k := k + 1;
        }
        if allEmpty {
          assert !CoveredFieldsOk(t, cf);
          return false;
        }
      }
      for k := 0 to 8
        invariant forall m :: 0 <= m < k ==> StrictlyIncreasingBelow(fields[m].0, fields[m].1)
      {
        var sorted := SortedUnique(fields[k].0, fields[k].1);
        if !sorted {
          assert !CoveredFieldsOk(t, cf);
          return false;
        }
      }
    }
    return true;
  }

  /** The elements of `items` at the given positions. */
  function Select<T>(items: seq<T>, at: seq<uint64>): (r: seq<T>)
    requires forall i :: 0 <= i < |at| ==> at[i] < |items|
    ensures |r| == |at| && forall i :: 0 <= i < |at| ==> r[i] == items[at[i]]
  {
    seq(|at|, i requires 0 <= i < |at| => items[at[i]])
  }

  /** SigHash: every list access is in range once the covered fields are valid. */
  function SigHash<H>(t: Transaction<H>, i: nat): SigPreimage<H>
    requires i < |t.transactionSignatures|
    requires CoveredFieldsOk(t, t.transactionSignatures[i].coveredFields)
  {
    var sig := t.transactionSignatures[i];
    var cf := sig.coveredFields;
    assert forall k :: 0 <= k < 8 ==> StrictlyIncreasingBelow(FieldMaxs(t, cf)[k].0, FieldMaxs(t, cf)[k].1);
    assert StrictlyIncreasingBelow(FieldMaxs(t, cf)[0].0, |t.siacoinInputs|);
    assert StrictlyIncreasingBelow(FieldMaxs(t, cf)[1].0, |t.siacoinOutputs|);
    assert StrictlyIncreasingBelow(FieldMaxs(t, cf)[2].0, |t.fileContracts|);
    assert StrictlyIncreasingBelow(FieldMaxs(t, cf)[3].0, |t.fileContractRevisions|);
    assert StrictlyIncreasingBelow(FieldMaxs(t, cf)[4].0, |t.storageProofs|);
    assert StrictlyIncreasingBelow(FieldMaxs(t, cf)[5].0, |t.minerFees|);
    assert StrictlyIncreasingBelow(FieldMaxs(t, cf)[6].0, |t.arbitraryData|);
    assert StrictlyIncreasingBelow(FieldMaxs(t, cf)[7].0, |t.transactionSignatures|);
    if cf.wholeTransaction then
      Whole(t.(transactionSignatures := []), sig.parentID, sig.publicKeyIndex, sig.timelock,
            Select(t.transactionSignatures, cf.transactionSignatures))
    else
      Partial(Select(t.siacoinInputs, cf.siacoinInputs), Select(t.siacoinOutputs, cf.siacoinOutputs),
              Select(t.fileContracts, cf.fileContracts), Select(t.fileContractRevisions, cf.fileContractRevisions),
              Select(t.storageProofs, cf.storageProofs), Select(t.minerFees, cf.minerFees),
              Select(t.arbitraryData, cf.arbitraryData),
              Select(t.transactionSignatures, cf.transactionSignatures))
  }

  // ---------------------------------------------------------------- what a signature covers

  /** Everything but the signatures is the same. */
  predicate SameBody<H(==)>(t: Transaction<H>, t': Transaction<H>) {
    && t.siacoinInputs == t'.siacoinInputs
    && t.siacoinOutputs == t'.siacoinOutputs
    && t.fileContracts == t'.fileContracts
    && t.fileContractRevisions == t'.fileContractRevisions
    && t.storageProofs == t'.storageProofs
    && t.minerFees == t'.minerFees
    && t.arbitraryData == t'.arbitraryData
  }

  /** Two lists agree at the positions given for each. */
  predicate AgreeAt<T(==)>(xs: seq<T>, at: seq<uint64>, ys: seq<T>, at': seq<uint64>) {
    && |at| == |at'|
    && forall k :: 0 <= k < |at| ==> at[k] < |xs| && at'[k] < |ys| && xs[at[k]] == ys[at'[k]]
  }

  lemma {:induction false} SelectAgrees<T>(xs: seq<T>, at: seq<uint64>, ys: seq<T>, at': seq<uint64>)
    requires forall k :: 0 <= k < |at| ==> at[k] < |xs|
    requires forall k :: 0 <= k < |at'| ==> at'[k] < |ys|
    ensures Select(xs, at) == Select(ys, at') <==> AgreeAt(xs, at, ys, at')
  {
    hide Select;
    if Select(xs, at) == Select(ys, at') {
      forall k | 0 <= k < |at|
        ensures xs[at[k]] == ys[at'[k]]
      {
        assert Select(xs, at)[k] == Select(ys, at')[k];
      }
    }
  }

  /** The covered positions are in range. */
  lemma {:induction false} CoveredInRange<H>(t: Transaction<H>, cf: CoveredFields)
    requires CoveredFieldsOk(t, cf)
    ensures forall k :: 0 <= k < |cf.siacoinInputs| ==> cf.siacoinInputs[k] < |t.siacoinInputs|
    ensures forall k :: 0 <= k < |cf.siacoinOutputs| ==> cf.siacoinOutputs[k] < |t.siacoinOutputs|
    ensures forall k :: 0 <= k < |cf.fileContracts| ==> cf.fileContracts[k] < |t.fileContracts|
    ensures forall k :: 0 <= k < |cf.fileContractRevisions| ==> cf.fileContractRevisions[k] < |t.fileContractRevisions|
    ensures forall k :: 0 <= k < |cf.storageProofs| ==> cf.storageProofs[k] < |t.storageProofs|
    ensures forall k :: 0 <= k < |cf.minerFees| ==> cf.minerFees[k] < |t.minerFees|
    ensures forall k :: 0 <= k < |cf.arbitraryData| ==> cf.arbitraryData[k] < |t.arbitraryData|
    ensures forall k :: 0 <= k < |cf.transactionSignatures| ==> cf.transactionSignatures[k] < |t.transactionSignatures|
  {
    var fs := FieldMaxs(t, cf);
    assert forall k :: 0 <= k < 8 ==> StrictlyIncreasingBelow(fs[k].0, fs[k].1);
    assert StrictlyIncreasingBelow(fs[0].0, |t.siacoinInputs|) && StrictlyIncreasingBelow(fs[1].0, |t.siacoinOutputs|);
    assert StrictlyIncreasingBelow(fs[2].0, |t.fileContracts|);
    assert StrictlyIncreasingBelow(fs[3].0, |t.fileContractRevisions|);
    assert StrictlyIncreasingBelow(fs[4].0, |t.storageProofs|) && StrictlyIncreasingBelow(fs[5].0, |t.minerFees|);
    assert StrictlyIncreasingBelow(fs[6].0, |t.arbitraryData|);
    assert StrictlyIncreasingBelow(fs[7].0, |t.transactionSignatures|);
  }

  /** A signature of the whole transaction hashes everything but the signatures,
      what it says about itself, and the signatures it covers; two that hash the
      same agree in all of it, and conversely. */
  lemma {:induction false} WholeCovers<H>(t: Transaction<H>, i: nat, t': Transaction<H>, j: nat)
    requires i < |t.transactionSignatures| && CoveredFieldsOk(t, t.transactionSignatures[i].coveredFields)
    requires j < |t'.transactionSignatures| && CoveredFieldsOk(t', t'.transactionSignatures[j].coveredFields)
    requires t.transactionSignatures[i].coveredFields.wholeTransaction
    requires t'.transactionSignatures[j].coveredFields.wholeTransaction
    ensures var sig, sig' := t.transactionSignatures[i], t'.transactionSignatures[j];
            SigHash(t, i) == SigHash(t', j)
            <==> && SameBody(t, t')
                 && sig.parentID == sig'.parentID && sig.publicKeyIndex == sig'.publicKeyIndex
                 && sig.timelock == sig'.timelock
                 && AgreeAt(t.transactionSignatures, sig.coveredFields.transactionSignatures,
                            t'.transactionSignatures, sig'.coveredFields.transactionSignatures)
  {
    hide Select, AgreeAt, CoveredFieldsOk;
    var cf, cf' := t.transactionSignatures[i].coveredFields, t'.transactionSignatures[j].coveredFields;
    CoveredInRange(t, cf);
    CoveredInRange(t', cf');
    SelectAgrees(t.transactionSignatures, cf.transactionSignatures,
      t'.transactionSignatures, cf'.transactionSignatures);
  }

  /** A signature of parts hashes exactly the listed positions of each list. */
  lemma {:induction false} PartialCovers<H>(t: Transaction<H>, i: nat, t': Transaction<H>, j: nat)
    requires i < |t.transactionSignatures| && CoveredFieldsOk(t, t.transactionSignatures[i].coveredFields)
    requires j < |t'.transactionSignatures| && CoveredFieldsOk(t', t'.transactionSignatures[j].coveredFields)
    requires !t.transactionSignatures[i].coveredFields.wholeTransaction
    requires !t'.transactionSignatures[j].coveredFields.wholeTransaction
    ensures var cf, cf' := t.transactionSignatures[i].coveredFields, t'.transactionSignatures[j].coveredFields;
            SigHash(t, i) == SigHash(t', j)
            <==> && AgreeAt(t.siacoinInputs, cf.siacoinInputs, t'.siacoinInputs, cf'.siacoinInputs)
                 && AgreeAt(t.siacoinOutputs, cf.siacoinOutputs, t'.siacoinOutputs, cf'.siacoinOutputs)
                 && AgreeAt(t.fileContracts, cf.fileContracts, t'.fileContracts, cf'.fileContracts)
                 && AgreeAt(t.fileContractRevisions, cf.fileContractRevisions,
                            t'.fileContractRevisions, cf'.fileContractRevisions)
                 && AgreeAt(t.storageProofs, cf.storageProofs, t'.storageProofs, cf'.storageProofs)
                 && AgreeAt(t.minerFees, cf.minerFees, t'.minerFees, cf'.minerFees)
                 && AgreeAt(t.arbitraryData, cf.arbitraryData, t'.arbitraryData, cf'.arbitraryData)
                 && AgreeAt(t.transactionSignatures, cf.transactionSignatures,
                            t'.transactionSignatures, cf'.transactionSignatures)
  {
    hide Select, AgreeAt, CoveredFieldsOk;
    var cf, cf' := t.transactionSignatures[i].coveredFields, t'.transactionSignatures[j].coveredFields;
    CoveredInRange(t, cf);
    CoveredInRange(t', cf');
    SelectAgrees(t.siacoinInputs, cf.siacoinInputs, t'.siacoinInputs, cf'.siacoinInputs);
    SelectAgrees(t.siacoinOutputs, cf.siacoinOutputs, t'.siacoinOutputs, cf'.siacoinOutputs);
    SelectAgrees(t.fileContracts, cf.fileContracts, t'.fileContracts, cf'.fileContracts);
    SelectAgrees(t.fileContractRevisions, cf.fileContractRevisions,
      t'.fileContractRevisions, cf'.fileContractRevisions);
    SelectAgrees(t.storageProofs, cf.storageProofs, t'.storageProofs, cf'.storageProofs);
    SelectAgrees(t.minerFees, cf.minerFees, t'.minerFees, cf'.minerFees);
    SelectAgrees(t.arbitraryData, cf.arbitraryData, t'.arbitraryData, cf'.arbitraryData);
    SelectAgrees(t.transactionSignatures, cf.transactionSignatures,
      t'.transactionSignatures, cf'.transactionSignatures);
  }

  /** A signature of the whole transaction never hashes what one of parts does. */
  lemma {:induction false} WholeIsNotPartial<H>(t: Transaction<H>, i: nat, t': Transaction<H>, j: nat)
    requires i < |t.transactionSignatures| && CoveredFieldsOk(t, t.transactionSignatures[i].coveredFields)
    requires j < |t'.transactionSignatures| && CoveredFieldsOk(t', t'.transactionSignatures[j].coveredFields)
    requires t.transactionSignatures[i].coveredFields.wholeTransaction
    requires !t'.transactionSignatures[j].coveredFields.wholeTransaction
    ensures SigHash(t, i) != SigHash(t', j)
  {
  }

  // ---------------------------------------------------------------- the threshold rule

  /** The objects a transaction must sign for: its inputs, then its revisions. */
  function Parents<H>(t: Transaction<H>): seq<(H, UnlockConditions)> {
    seq(|t.siacoinInputs|, i requires 0 <= i < |t.siacoinInputs| =>
          (t.siacoinInputs[i].parentID, t.siacoinInputs[i].unlockConditions))
    + seq(|t.fileContractRevisions|, i requires 0 <= i < |t.fileContractRevisions| =>
            (t.fileContractRevisions[i].parentID, t.fileContractRevisions[i].unlockConditions))
  }

  ghost predicate DistinctParents<H>(ps: seq<(H, UnlockConditions)>) {
    forall i, j :: 0 <= i < j < |ps| ==> ps[i].0 != ps[j].0
  }

  /** The unlock conditions by parent id. */
  function Conditions<H(==, !new)>(ps: seq<(H, UnlockConditions)>): (r: map<H, UnlockConditions>)
    ensures forall id :: id in r <==> exists j :: 0 <= j < |ps| && ps[j].0 == id
  {
    if ps == [] then map[]
    else
      var last := ps[|ps| - 1];
      Conditions(ps[..|ps| - 1])[last.0 := last.1]
  }

  /** How many of the signatures name the given parent. */
  function CountFor<H(==)>(sigs: seq<TransactionSignature<H>>, parent: H): nat {
    if sigs == [] then 0
    else CountFor(sigs[..|sigs| - 1], parent) + if sigs[|sigs| - 1].parentID == parent then 1 else 0
  }

  /** Signature i is good for the unlock conditions uc. */
  ghost predicate SignatureOk<H>(t: Transaction<H>, i: nat, uc: UnlockConditions, height: nat, verify: Verifier<H>)
    requires i < |t.transactionSignatures| && AllCoveredFieldsOk(t)
  {
    var sig := t.transactionSignatures[i];
    && sig.publicKeyIndex < |uc.publicKeys|
    && sig.timelock <= height
    && uc.publicKeys[sig.publicKeyIndex].algorithm != SIGNATURE_ENTROPY
    && (uc.publicKeys[sig.publicKeyIndex].algorithm == SIGNATURE_ED25519 ==>
          verify(SigHash(t, i), uc.publicKeys[sig.publicKeyIndex].key, sig.signature))
  }

  /** Signature i belongs to some parent and is good for it. */
  ghost predicate Belongs<H>(t: Transaction<H>, i: nat, conds: map<H, UnlockConditions>, height: nat,
                             verify: Verifier<H>)
    requires i < |t.transactionSignatures| && AllCoveredFieldsOk(t)
  {
    var parent := t.transactionSignatures[i].parentID;
    parent in conds && SignatureOk(t, i, conds[parent], height, verify)
  }

  ghost predicate KeyReused<H>(sigs: seq<TransactionSignature<H>>, i: nat, j: nat)
    requires i < j < |sigs|
  {
    sigs[i].parentID == sigs[j].parentID && sigs[i].publicKeyIndex == sigs[j].publicKeyIndex
  }

  /** The rule validSignatures enforces, without reference to its counters. */
  ghost predicate ProperlySigned<H(!new)>(t: Transaction<H>, height: nat, verify: Verifier<H>) {
    var sigs := t.transactionSignatures;
    var conds := Conditions(Parents(t));
    && AllCoveredFieldsOk(t)
    && DistinctParents(Parents(t))
    && (forall i :: 0 <= i < |sigs| ==> Belongs(t, i, conds, height, verify))
    && (forall i, j :: 0 <= i < j < |sigs| ==> !KeyReused(sigs, i, j))
    && (forall id :: id in conds ==> CountFor(sigs, id) == conds[id].signaturesRequired)
  }

  lemma {:induction false} CountForMonotone<H>(sigs: seq<TransactionSignature<H>>, n: nat, parent: H)
    requires n <= |sigs|
    ensures CountFor(sigs[..n], parent) <= CountFor(sigs, parent)
  {
    if n == |sigs| {
      assert sigs[..n] == sigs;
    } else {
      CountForMonotone(sigs[..|sigs| - 1], n, parent);
      assert sigs[..|sigs| - 1][..n] == sigs[..n];
    }
  }

  /** The key indices used so far for a parent. */
  function KeysFor<H(==)>(sigs: seq<TransactionSignature<H>>, parent: H): (r: set<uint64>)
    ensures forall k :: k in r <==>
            exists i :: 0 <= i < |sigs| && sigs[i].parentID == parent && sigs[i].publicKeyIndex == k
  {
    if sigs == [] then {}
    else
      var last := sigs[|sigs| - 1];
      KeysFor(sigs[..|sigs| - 1], parent) + if last.parentID == parent then {last.publicKeyIndex} else {}
  }

  /** inputSignatures: what is still owed for one parent. */
  datatype InputSignatures = InputSignatures(remaining: nat, possibleKeys: seq<SiaPublicKey>, usedKeys: set<uint64>)

  /** The bookkeeping for one parent after the given signatures. */
  ghost predicate Tracks<H>(entry: InputSignatures, id: H, uc: UnlockConditions, done: seq<TransactionSignature<H>>) {
    && entry.possibleKeys == uc.publicKeys
    && entry.remaining + CountFor(done, id) == uc.signaturesRequired
    && entry.usedKeys == KeysFor(done, id)
  }

  ghost predicate SigMapTracks<H>(sigMap: map<H, InputSignatures>, conds: map<H, UnlockConditions>,
                                  done: seq<TransactionSignature<H>>) {
    && sigMap.Keys == conds.Keys
    && (forall id :: id in conds ==> Tracks(sigMap[id], id, conds[id], done))
  }

  lemma AddParent<H(!new)>(sigMap: map<H, InputSignatures>, ps: seq<(H, UnlockConditions)>, i: nat)
    requires i < |ps| && DistinctParents(ps[..i]) && SigMapTracks(sigMap, Conditions(ps[..i]), []) && ps[i].0 !in sigMap
    ensures DistinctParents(ps[..i + 1])
    ensures SigMapTracks(sigMap[ps[i].0 := InputSignatures(ps[i].1.signaturesRequired, ps[i].1.publicKeys, {})],
            Conditions(ps[..i + 1]), [])
  {
    assert ps[..i + 1][..i] == ps[..i];
    forall j | 0 <= j < i
      ensures ps[j].0 != ps[i].0
    {
      assert ps[..i][j] == ps[j];
    }
  }

  /** The first two loops of validSignatures: one entry per parent. */
  method BuildSigMap<H(==, !new)>(t: Transaction<H>) returns (ok: bool, sigMap: map<H, InputSignatures>)
    ensures ok <==> DistinctParents(Parents(t))
    ensures ok ==> SigMapTracks(sigMap, Conditions(Parents(t)), [])
  {
    hide Tracks, Parents;
    var ps := Parents(t);
    sigMap := map[];
    for i := 0 to |ps|
      invariant DistinctParents(ps[..i])
      invariant SigMapTracks(sigMap, Conditions(ps[..i]), [])
    {
      if ps[i].0 in sigMap {
        ghost var j :| 0 <= j < i && ps[..i][j].0 == ps[i].0;
        assert ps[j].0 == ps[i].0;
        return false, sigMap;
      }
      AddParent(sigMap, ps, i);
      sigMap := sigMap[ps[i].0 := InputSignatures(ps[i].1.signaturesRequired, ps[i].1.publicKeys, {})];
    }
    assert ps[..|ps|] == ps;
    return true, sigMap;
  }

  /** One accepted signature keeps the books. */
  lemma TrackStep<H>(sigMap: map<H, InputSignatures>, conds: map<H, UnlockConditions>,
                     sigs: seq<TransactionSignature<H>>, n: nat)
    requires n < |sigs| && SigMapTracks(sigMap, conds, sigs[..n])
    requires sigs[n].parentID in sigMap && sigMap[sigs[n].parentID].remaining > 0
    ensures var e := sigMap[sigs[n].parentID];
            SigMapTracks(sigMap[sigs[n].parentID :=
              InputSignatures(e.remaining - 1, e.possibleKeys, e.usedKeys + {sigs[n].publicKeyIndex})],
                         conds, sigs[..n + 1])
  {
    assert sigs[..n + 1][..n] == sigs[..n];
  }

  /** The checks on one signature, against the entry of its parent. */
  method CheckSignature<H(==)>(t: Transaction<H>, i: nat, inSig: InputSignatures, height: nat, verify: Verifier<H>)
    returns (err: SigError)
    requires i < |t.transactionSignatures| && AllCoveredFieldsOk(t)
    ensures forall uc: UnlockConditions :: uc.publicKeys == inSig.possibleKeys ==>
              (err == NoError <==>
                 && inSig.remaining != 0
                 && t.transactionSignatures[i].publicKeyIndex !in inSig.usedKeys
                 && SignatureOk(t, i, uc, height, verify))
  {
    var sig := t.transactionSignatures[i];
    if inSig.remaining == 0 {
      return FrivolousSignature;
    }
    if sig.publicKeyIndex in inSig.usedKeys {
      return PublicKeyOveruse;
    }
    if sig.publicKeyIndex >= |inSig.possibleKeys| {
      return InvalidPubKeyIndex;
    }
    if sig.timelock > height {
      return PrematureSignature;
    }
    var publicKey := inSig.possibleKeys[sig.publicKeyIndex];
    if publicKey.algorithm == SIGNATURE_ENTROPY {
      return EntropyKey;
    }
    if publicKey.algorithm == SIGNATURE_ED25519 {
      if !verify(SigHash(t, i), publicKey.key, sig.signature) {
        return InvalidSignature;
      }
    }
    return NoError;
  }

  /** A signature that fails its checks makes the transaction improperly signed. */
  lemma RejectionIsRight<H(!new)>(t: Transaction<H>, i: nat, entry: InputSignatures, height: nat, verify: Verifier<H>)
    requires AllCoveredFieldsOk(t) && i < |t.transactionSignatures|
    requires var conds := Conditions(Parents(t)); var sig := t.transactionSignatures[i];
             && sig.parentID in conds
             && Tracks(entry, sig.parentID, conds[sig.parentID], t.transactionSignatures[..i])
             && !(entry.remaining != 0 && sig.publicKeyIndex !in entry.usedKeys
                  && SignatureOk(t, i, conds[sig.parentID], height, verify))
    ensures !ProperlySigned(t, height, verify)
  {
    hide AllCoveredFieldsOk, Parents, DistinctParents, Conditions, SignatureOk, KeyReused, CountFor, KeysFor;
    var sigs := t.transactionSignatures;
    var conds := Conditions(Parents(t));
    if entry.remaining == 0 {
      OneTooMany(sigs, i);
    } else if sigs[i].publicKeyIndex in entry.usedKeys {
      UsedAgain(sigs, i);
    } else {
      assert !Belongs(t, i, conds, height, verify);
    }
  }

  lemma {:induction false} OneTooMany<H>(sigs: seq<TransactionSignature<H>>, i: nat)
    requires i < |sigs|
    ensures CountFor(sigs, sigs[i].parentID) > CountFor(sigs[..i], sigs[i].parentID)
  {
    assert sigs[..i + 1][..i] == sigs[..i];
    CountForMonotone(sigs, i + 1, sigs[i].parentID);
  }

  lemma {:induction false} UsedAgain<H>(sigs: seq<TransactionSignature<H>>, i: nat)
    requires i < |sigs| && sigs[i].publicKeyIndex in KeysFor(sigs[..i], sigs[i].parentID)
    ensures exists m :: 0 <= m < i && KeyReused(sigs, m, i)
  {
    var m :| 0 <= m < i && sigs[..i][m].parentID == sigs[i].parentID
      && sigs[..i][m].publicKeyIndex == sigs[i].publicKeyIndex;
    assert KeyReused(sigs, m, i);
  }

  /** So does one that belongs to nothing. */
  lemma {:induction false} FrivolousIsWrong<H(!new)>(t: Transaction<H>, i: nat, height: nat, verify: Verifier<H>)
    requires AllCoveredFieldsOk(t) && i < |t.transactionSignatures|
    requires t.transactionSignatures[i].parentID !in Conditions(Parents(t))
    ensures !ProperlySigned(t, height, verify)
  {
    hide AllCoveredFieldsOk, Parents, DistinctParents, Conditions, SignatureOk, KeyReused, CountFor;
    assert !Belongs(t, i, Conditions(Parents(t)), height, verify);
  }

  /** The last loop of validSignatures: nothing is owed any more. */
  method AllSatisfied<H(==)>(sigMap: map<H, InputSignatures>) returns (ok: bool)
    ensures ok <==> forall id :: id in sigMap ==> sigMap[id].remaining == 0
  {
    var todo := sigMap.Keys;
    while todo != {}
      invariant todo <= sigMap.Keys
      invariant forall id :: id in sigMap.Keys - todo ==> sigMap[id].remaining == 0
    {
      var id :| id in todo;
      if sigMap[id].remaining != 0 {
        return false;
      }
      todo := todo - {id};
    }
    return true;
  }

  /** The first n signatures belong and use each key once. */
  ghost predicate PrefixSigned<H>(t: Transaction<H>, n: nat, conds: map<H, UnlockConditions>, height: nat,
                                  verify: Verifier<H>)
    requires n <= |t.transactionSignatures| && AllCoveredFieldsOk(t)
  {
    && (forall i :: 0 <= i < n ==> Belongs(t, i, conds, height, verify))
    && (forall i, j :: 0 <= i < j < n ==> !KeyReused(t.transactionSignatures, i, j))
  }

  lemma {:induction false} NoneSigned<H>(t: Transaction<H>, conds: map<H, UnlockConditions>, height: nat,
                                         verify: Verifier<H>)
    requires AllCoveredFieldsOk(t)
    ensures PrefixSigned(t, 0, conds, height, verify)
  {
  }

  lemma PrefixStep<H>(t: Transaction<H>, n: nat, entry: InputSignatures, conds: map<H, UnlockConditions>, height: nat,
                      verify: Verifier<H>)
    requires AllCoveredFieldsOk(t) && n < |t.transactionSignatures| && PrefixSigned(t, n, conds, height, verify)
    requires var sig := t.transactionSignatures[n];
             && Belongs(t, n, conds, height, verify)
             && Tracks(entry, sig.parentID, conds[sig.parentID], t.transactionSignatures[..n])
             && sig.publicKeyIndex !in entry.usedKeys
    ensures PrefixSigned(t, n + 1, conds, height, verify)
  {
    var sigs := t.transactionSignatures;
    forall m | 0 <= m < n
      ensures !KeyReused(sigs, m, n)
    {
      assert sigs[..n][m] == sigs[m];
    }
  }

  /** The signature loop of validSignatures. */
  method CheckSignatures<H(==, !new)>(t: Transaction<H>, start: map<H, InputSignatures>, height: nat,
                           verify: Verifier<H>)
    returns (err: SigError, sigMap: map<H, InputSignatures>)
    requires AllCoveredFieldsOk(t) && SigMapTracks(start, Conditions(Parents(t)), [])
    ensures err == NoError ==>
              && PrefixSigned(t, |t.transactionSignatures|, Conditions(Parents(t)), height, verify)
              && SigMapTracks(sigMap, Conditions(Parents(t)), t.transactionSignatures)
    ensures err != NoError ==> !ProperlySigned(t, height, verify)
  {
    hide AllCoveredFieldsOk, Parents, Conditions, SignatureOk, KeyReused, CountFor, KeysFor, ProperlySigned,
         PrefixSigned;
    ghost var conds := Conditions(Parents(t));
    var sigs := t.transactionSignatures;
    sigMap := start;
    NoneSigned(t, conds, height, verify);
    for i := 0 to |sigs|
      invariant SigMapTracks(sigMap, conds, sigs[..i])
      invariant PrefixSigned(t, i, conds, height, verify)
    {
      var sig := sigs[i];
      if sig.parentID !in sigMap {
        FrivolousIsWrong(t, i, height, verify);
        return FrivolousSignature, sigMap;
      }
      var inSig := sigMap[sig.parentID];
      assert Tracks(inSig, sig.parentID, conds[sig.parentID], sigs[..i]);
      err := CheckSignature(t, i, inSig, height, verify);
      if err != NoError {
        RejectionIsRight(t, i, inSig, height, verify);
        return err, sigMap;
      }
      PrefixStep(t, i, inSig, conds, height, verify);
      TrackStep(sigMap, conds, sigs, i);
      sigMap := sigMap[sig.parentID :=
        InputSignatures(inSig.remaining - 1, inSig.possibleKeys, inSig.usedKeys + {sig.publicKeyIndex})];
    }
    assert sigs[..|sigs|] == sigs;
    return NoError, sigMap;
  }

  /** validSignatures accepts a transaction exactly when it is properly signed. */
  method ValidSignatures<H(==, !new)>(t: Transaction<H>, height: nat, verify: Verifier<H>) returns (err: SigError)
    ensures err == NoError <==> ProperlySigned(t, height, verify)
  {
    hide AllCoveredFieldsOk, Parents, DistinctParents, Conditions, Belongs, KeyReused;
    var covered := ValidCoveredFields(t);
    if !covered {
      return CoveredFieldsViolation;
    }
    var distinct, sigMap := BuildSigMap(t);
    if !distinct {
      return DoubleSpend;
    }
    ghost var conds := Conditions(Parents(t));
    err, sigMap := CheckSignatures(t, sigMap, height, verify);
    if err != NoError {
      return;
    }
    assert forall id :: id in conds ==> Tracks(sigMap[id], id, conds[id], t.transactionSignatures);
    var ok := AllSatisfied(sigMap);
    if !ok {
      return MissingSignatures;
    }
    return NoError;
  }
}
