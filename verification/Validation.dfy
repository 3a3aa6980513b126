/** When a transaction is valid in a state (modules/consensus/validtransaction.go,
    types/validtransaction.go): the rules as predicates, and the loops that
    check them. */
module Validation {
  import opened Types
  import opened Hashing
  import opened Ledger
  import Signatures
  import opened Admission

  /** Calls into the crypto package: the verification of a signature and of a
      Merkle proof (segment, hash set, number of segments, index, root), and
      digests taken as numbers. */
  datatype Oracle = Oracle(
    verify: Signatures.Verifier<Hash>,
    verifySegment: (bytes, seq<Hash>, nat, nat, Hash) -> bool,
    seed: (Hash, Hash) -> nat,                        // HashAll of the trigger block's id and a contract's id
    digest: Hash -> nat)                              // a block id

  // ---------------------------------------------------------------- rules on the transaction alone

  predicate FollowsStorageProofRules(t: Txn) {
    t.storageProofs != [] ==> t.siacoinOutputs == [] && t.fileContracts == [] && t.fileContractRevisions == []
  }

  ghost predicate Distinct(ids: seq<Hash>) {
    forall i, j :: 0 <= i < j < |ids| ==> ids[i] != ids[j]
  }

  function InputParents(t: Txn): seq<Hash> {
    seq(|t.siacoinInputs|, i requires 0 <= i < |t.siacoinInputs| => t.siacoinInputs[i].parentID)
  }

  function ProofParents(t: Txn): seq<Hash> {
    seq(|t.storageProofs|, i requires 0 <= i < |t.storageProofs| => t.storageProofs[i].parentID)
  }

  function RevisionParents(t: Txn): seq<Hash> {
    seq(|t.fileContractRevisions|, i requires 0 <= i < |t.fileContractRevisions| => t.fileContractRevisions[i].parentID)
  }

  ghost predicate NoRepeats(t: Txn) {
    Distinct(InputParents(t)) && Distinct(ProofParents(t) + RevisionParents(t))
  }

  predicate FollowsMinimumValues(t: Txn) {
    && (forall i :: 0 <= i < |t.siacoinOutputs| ==> t.siacoinOutputs[i].value > 0)
    && (forall i :: 0 <= i < |t.fileContracts| ==> t.fileContracts[i].payout > 0)
    && (forall i :: 0 <= i < |t.minerFees| ==> t.minerFees[i] > 0)
  }

  predicate ContractCorrect(fc: Contract, height: nat) {
    && fc.windowStart > height
    && fc.windowEnd > fc.windowStart
    && ValueSum(fc.validProofOutputs) == fc.payout
    && ValueSum(fc.missedProofOutputs) == fc.payout
  }

  predicate RevisionCorrect(r: Revision, height: nat) {
    && r.newWindowStart > height
    && r.newWindowEnd > r.newWindowStart
    && ValueSum(r.newValidProofOutputs) == ValueSum(r.newMissedProofOutputs)
  }

  ghost predicate StandaloneValid(o: Oracle, t: Txn, height: nat) {
    && FollowsStorageProofRules(t)
    && NoRepeats(t)
    && FollowsMinimumValues(t)
    && (forall i :: 0 <= i < |t.fileContracts| ==> ContractCorrect(t.fileContracts[i], height))
    && (forall i :: 0 <= i < |t.fileContractRevisions| ==> RevisionCorrect(t.fileContractRevisions[i], height))
    && Admissible(t, height, o.verify)
  }

  // ---------------------------------------------------------------- rules in a state

  /** The value of the outputs that a list of inputs spends. */
  function SpentValue(outputs: map<Hash, Output>, inputs: seq<Input>): nat {
    if inputs == [] then 0
    else
      var last := inputs[|inputs| - 1].parentID;
      SpentValue(outputs, inputs[..|inputs| - 1]) + if last in outputs then outputs[last].value else 0
  }

  function PayoutSum(fcs: seq<Contract>): nat {
    if fcs == [] then 0 else PayoutSum(fcs[..|fcs| - 1]) + fcs[|fcs| - 1].payout
  }

  /** SiacoinOutputSum: outputs, contract payouts and miner fees. */
  function SiacoinOutputSum(t: Txn): nat {
    ValueSum(t.siacoinOutputs) + PayoutSum(t.fileContracts) + CurrencySum(t.minerFees)
  }

  predicate InputUnlocks(outputs: map<Hash, Output>, i: Input) {
    i.parentID in outputs && AddressOf(i.unlockConditions) == outputs[i.parentID].unlockHash
  }

  predicate ValidSiacoins(s: State, t: Txn) {
    && (forall i :: 0 <= i < |t.siacoinInputs| ==> InputUnlocks(s.outputs, t.siacoinInputs[i]))
    && SpentValue(s.outputs, t.siacoinInputs) == SiacoinOutputSum(t)
  }

  const SEGMENT_SIZE: nat := 64

  /** CalculateLeaves. */
  function Leaves(fileSize: nat): (n: nat)
    ensures n > 0
  {
    fileSize / SEGMENT_SIZE + if fileSize == 0 || fileSize % SEGMENT_SIZE != 0 then 1 else 0
  }

  /** storageProofSegment: which segment must be proved. */
  function SegmentIndex(o: Oracle, trigger: Hash, contract: Hash, fileSize: nat): nat {
    o.seed(trigger, contract) % Leaves(fileSize)
  }

  /** How much of it. */
  function SegmentLength(fileSize: nat, index: nat): (n: nat)
    ensures 0 < n <= SEGMENT_SIZE
  {
    var n := if index == Leaves(fileSize) - 1 then fileSize % SEGMENT_SIZE else SEGMENT_SIZE;
    if n == 0 then SEGMENT_SIZE else n
  }

  /** The segment to be proved lies in the file and is cut off exactly where the
      file ends. */
  lemma {:induction false} SegmentInFile(o: Oracle, trigger: Hash, contract: Hash, fileSize: nat)
    requires fileSize > 0
    ensures var i := SegmentIndex(o, trigger, contract, fileSize);
            && i < Leaves(fileSize) && SEGMENT_SIZE * i < fileSize
            && SegmentLength(fileSize, i) == if fileSize - SEGMENT_SIZE * i < SEGMENT_SIZE
               then fileSize - SEGMENT_SIZE * i else SEGMENT_SIZE
  {
    var i, q, r := SegmentIndex(o, trigger, contract, fileSize), fileSize / SEGMENT_SIZE, fileSize % SEGMENT_SIZE;
    assert fileSize == SEGMENT_SIZE * q + r;
    if i < q {
      assert SEGMENT_SIZE * i <= SEGMENT_SIZE * (q - 1);
    }
  }

  /** The contract is open, its window has begun, and the segment verifies
      (an empty file needs no verification). */
  predicate ProofOk(o: Oracle, s: State, p: Proof) {
    && p.parentID in s.contracts
    && var fc := s.contracts[p.parentID];
    && 0 < fc.windowStart <= |s.path|
    && var index := SegmentIndex(o, s.path[fc.windowStart - 1], p.parentID, fc.fileSize);
          fc.fileSize > 0 ==>
            o.verifySegment(p.segment[..SegmentLength(fc.fileSize, index)], p.hashSet, Leaves(fc.fileSize), index,
              fc.fileMerkleRoot)
  }

  /** How many bytes of a file segment i holds. */
  function BytesOf(fileSize: nat, i: nat): nat {
    if fileSize >= 64 * (i + 1) then 64 else if fileSize >= 64 * i then fileSize - 64 * i else 0
  }

  /** n segments of 64 bytes hold a file, and no fewer do. */
  predicate Segments(fileSize: nat, n: nat) { n > 0 && 64 * (n - 1) < fileSize <= 64 * n }

  /** Segment i of n is the one that a seed picks. */
  predicate Picks(seed: nat, n: nat, i: nat)
    requires n > 0
  {
    i < n && (seed - i) % n == 0
  }

  /** What a storage proof must prove: the seed of the contract and of the block
      before its window picks one segment, the proof must be of that one and of
      all of its bytes, and nothing else is asked. */
  lemma {:induction false} ProofDemands(o: Oracle, s: State, p: Proof, n: nat, i: nat)
    requires p.parentID in s.contracts && 0 < s.contracts[p.parentID].windowStart <= |s.path|
    requires Segments(s.contracts[p.parentID].fileSize, n)
    requires Picks(o.seed(s.path[s.contracts[p.parentID].windowStart - 1], p.parentID), n, i)
    ensures var fc := s.contracts[p.parentID];
            0 < BytesOf(fc.fileSize, i) <= 64
            && (ProofOk(o, s, p) <==>
                  o.verifySegment(p.segment[..BytesOf(fc.fileSize, i)], p.hashSet, n, i, fc.fileMerkleRoot))
  {
    var fc := s.contracts[p.parentID];
    var trigger := s.path[fc.windowStart - 1];
    assert Leaves(fc.fileSize) == n;
    PickIsOne(o.seed(trigger, p.parentID), n, i);
    SegmentInFile(o, trigger, p.parentID, fc.fileSize);
  }

  /** A seed picks one segment, its remainder. */
  lemma {:induction false} PickIsOne(seed: nat, n: nat, i: nat)
    requires n > 0
    ensures Picks(seed, n, i) <==> i == seed % n
  {
    var q, r := seed / n, seed % n;
    assert seed == q * n + r;
    if i < n {
      if (seed - i) % n == 0 {
        var k := (seed - i) / n;
        assert seed - i == k * n;
        assert (q - k) * n == i - r;
        SmallMultiple(q - k, n);
      }
      if i == r {
        ExactMultiple(q, n);
      }
    }
  }

  lemma SmallMultiple(k: int, n: int)
    requires -n < k * n < n
    ensures k == 0
  {
  }

  lemma ExactMultiple(q: nat, n: nat)
    requires n > 0
    ensures (q * n) % n == 0
  {
    var d, m := (q * n) / n, (q * n) % n;
    assert q * n == d * n + m;
    assert (q - d) * n == m;
    SmallMultiple(q - d, n);
  }

  /** Any segment may be asked for: whatever the state, some seed picks it. */
  lemma {:induction false} AnySegment(o: Oracle, s: State, p: Proof, n: nat, i: nat) returns (o': Oracle)
    requires p.parentID in s.contracts && 0 < s.contracts[p.parentID].windowStart <= |s.path|
    requires Segments(s.contracts[p.parentID].fileSize, n) && i < n
    ensures o'.verifySegment == o.verifySegment && o'.verify == o.verify && o'.digest == o.digest
    ensures var fc := s.contracts[p.parentID];
            0 < BytesOf(fc.fileSize, i) <= 64
            && (ProofOk(o', s, p) <==>
                  o.verifySegment(p.segment[..BytesOf(fc.fileSize, i)], p.hashSet, n, i, fc.fileMerkleRoot))
  {
    o' := o.(seed := (_, _) => i);
    PickIsOne(i, n, i);
    ProofDemands(o', s, p, n, i);
  }

  /** Without an open contract whose window has begun a proof is refused, and for
      an empty file it is accepted. */
  lemma {:induction false} ProofRefused(o: Oracle, s: State, p: Proof)
    ensures ProofOk(o, s, p) ==> p.parentID in s.contracts && 0 < s.contracts[p.parentID].windowStart <= |s.path|
    ensures (&& p.parentID in s.contracts && 0 < s.contracts[p.parentID].windowStart <= |s.path|
             && s.contracts[p.parentID].fileSize == 0) ==> ProofOk(o, s, p)
  {
  }

  predicate RevisionOk(s: State, r: Revision) {
    && r.parentID in s.contracts
    && var fc := s.contracts[r.parentID];
    && |s.path| - 1 <= fc.windowStart
    && fc.revisionNumber < r.newRevisionNumber
    && AddressOf(r.unlockConditions) == fc.unlockHash
    && ValueSum(r.newValidProofOutputs) == ValueSum(fc.validProofOutputs)
    && ValueSum(r.newMissedProofOutputs) == ValueSum(fc.validProofOutputs)
  }

  predicate ValidStorageProofs(o: Oracle, s: State, t: Txn) {
    forall i :: 0 <= i < |t.storageProofs| ==> ProofOk(o, s, t.storageProofs[i])
  }

  predicate ValidFileContractRevisions(s: State, t: Txn) {
    forall i :: 0 <= i < |t.fileContractRevisions| ==> RevisionOk(s, t.fileContractRevisions[i])
  }

  /** validTransaction, in the state before the transaction. The height it
      uses is that of the current block, the parent of the block being built. */
  ghost predicate ValidTransaction(o: Oracle, s: State, t: Txn)
    requires s.path != []
  {
    && StandaloneValid(o, t, |s.path| - 1)
    && ValidSiacoins(s, t)
    && ValidStorageProofs(o, s, t)
    && ValidFileContractRevisions(s, t)
  }

  // ---------------------------------------------------------------- the checks

  /** The map-filling loops of noRepeats. */
  method AllDistinct(ids: seq<Hash>) returns (ok: bool)
    ensures ok <==> Distinct(ids)
  {
    var seen: set<Hash> := {};
    for i := 0 to |ids|
      invariant forall h :: h in seen <==> h in ids[..i]
      invariant forall j, k :: 0 <= j < k < i ==> ids[j] != ids[k]
    {
      if ids[i] in seen {
        ghost var j :| 0 <= j < i && ids[j] == ids[i];
        return false;
      }
      seen := seen + {ids[i]};
    }
    return true;
  }

  method OutputValueSum(outputs: seq<Output>) returns (sum: nat)
    ensures sum == ValueSum(outputs)
  {
    sum := 0;
    for i := 0 to |outputs|
      invariant sum == ValueSum(outputs[..i])
    {
      assert outputs[..i + 1][..i] == outputs[..i];
      sum := sum + outputs[i].value;
    }
    assert outputs[..|outputs|] == outputs;
  }

  /** SiacoinOutputSum, as the source accumulates it. */
  method SumOutputs(t: Txn) returns (sum: nat)
    ensures sum == SiacoinOutputSum(t)
  {
    sum := OutputValueSum(t.siacoinOutputs);
    for i := 0 to |t.fileContracts|
      invariant sum == ValueSum(t.siacoinOutputs) + PayoutSum(t.fileContracts[..i])
    {
      assert t.fileContracts[..i + 1][..i] == t.fileContracts[..i];
      sum := sum + t.fileContracts[i].payout;
    }
    assert t.fileContracts[..|t.fileContracts|] == t.fileContracts;
    for i := 0 to |t.minerFees|
      invariant sum == ValueSum(t.siacoinOutputs) + PayoutSum(t.fileContracts) + CurrencySum(t.minerFees[..i])
    {
      assert t.minerFees[..i + 1][..i] == t.minerFees[..i];
      sum := sum + t.minerFees[i];
    }
    assert t.minerFees[..|t.minerFees|] == t.minerFees;
  }

  method CheckContracts(fcs: seq<Contract>, height: nat) returns (ok: bool)
    ensures ok <==> forall i :: 0 <= i < |fcs| ==> ContractCorrect(fcs[i], height)
  {
    for i := 0 to |fcs|
      invariant forall j :: 0 <= j < i ==> ContractCorrect(fcs[j], height)
    {
      if fcs[i].windowStart <= height || fcs[i].windowEnd <= fcs[i].windowStart {
        return false;
      }
      var validSum := OutputValueSum(fcs[i].validProofOutputs);
      var missedSum := OutputValueSum(fcs[i].missedProofOutputs);
      if validSum != fcs[i].payout || missedSum != fcs[i].payout {
        return false;
      }
    }
    return true;
  }

  method CheckRevisions(rs: seq<Revision>, height: nat) returns (ok: bool)
    ensures ok <==> forall i :: 0 <= i < |rs| ==> RevisionCorrect(rs[i], height)
  {
    for i := 0 to |rs|
      invariant forall j :: 0 <= j < i ==> RevisionCorrect(rs[j], height)
    {
      if rs[i].newWindowStart <= height || rs[i].newWindowEnd <= rs[i].newWindowStart {
        return false;
      }
      var validSum := OutputValueSum(rs[i].newValidProofOutputs);
      var missedSum := OutputValueSum(rs[i].newMissedProofOutputs);
      if validSum != missedSum {
        return false;
      }
    }
    return true;
  }

  /** validSiacoins. */
  method CheckSiacoins(s: State, t: Txn) returns (ok: bool)
    ensures ok <==> ValidSiacoins(s, t)
  {
    var inputSum := 0;
    for i := 0 to |t.siacoinInputs|
      invariant inputSum == SpentValue(s.outputs, t.siacoinInputs[..i])
      invariant forall j :: 0 <= j < i ==> InputUnlocks(s.outputs, t.siacoinInputs[j])
    {
      var sci := t.siacoinInputs[i];
      if sci.parentID !in s.outputs || AddressOf(sci.unlockConditions) != s.outputs[sci.parentID].unlockHash {
        return false;
      }
      assert t.siacoinInputs[..i + 1][..i] == t.siacoinInputs[..i];
      inputSum := inputSum + s.outputs[sci.parentID].value;
    }
    assert t.siacoinInputs[..|t.siacoinInputs|] == t.siacoinInputs;
    var outputSum := SumOutputs(t);
    return inputSum == outputSum;
  }

  /** StandaloneValid accepts exactly the transactions that follow all its rules. */
  method CheckStandalone(o: Oracle, t: Txn, height: nat) returns (ok: bool)
    ensures ok <==> StandaloneValid(o, t, height)
  {
    if !FollowsStorageProofRules(t) {
      return false;
    }
    ok := AllDistinct(InputParents(t));
    if !ok {
      return;
    }
    ok := AllDistinct(ProofParents(t) + RevisionParents(t));
    if !ok || !FollowsMinimumValues(t) {
      return false;
    }
    ok := CheckContracts(t.fileContracts, height);
    if !ok {
      return;
    }
    ok := CheckRevisions(t.fileContractRevisions, height);
    if !ok {
      return;
    }
    ok := Admit(t, height, o.verify);
  }

  /** validTransaction accepts exactly the transactions that are valid in the state. */
  method CheckTransaction(o: Oracle, s: State, t: Txn) returns (ok: bool)
    requires s.path != []
    ensures ok <==> ValidTransaction(o, s, t)
  {
    hide StandaloneValid, ValidSiacoins, ProofOk, RevisionOk;
    ok := CheckStandalone(o, t, |s.path| - 1);
    if !ok {
      return;
    }
    ok := CheckSiacoins(s, t);
    if !ok {
      return;
    }
    return ValidStorageProofs(o, s, t) && ValidFileContractRevisions(s, t);
  }
}
