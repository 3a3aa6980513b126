/** The consensus state and the effect of a block on it, as map algebra.

    These are reference definitions: no diffs, no loops over buckets. The
    database operations that build and commit diffs are in module
    Buckets and are proved to have these effects. */
module Ledger {
  import opened Types
  import opened Hashing
  import opened Diffs

  /** types/constants.go, standard network. */
  const MATURITY_DELAY: nat := 144

  /** The part of the database that consensusChecksum covers, without the
      expiration index, which is determined by the open contracts
      (see ExpirationsMatch). */
  datatype State = State(
    outputs: map<Hash, Output>,       // SiacoinOutputs
    contracts: map<Hash, Contract>,   // FileContracts
    delayed: Delayed,                 // dsco_<height>
    path: seq<Hash>)                  // BlockPath, position = height

  /** fcex_<height>: bucket of ids per height. */
  type Expirations = map<nat, set<Hash>>

  /** A contract is listed at a height exactly when it is open and ends there. */
  ghost predicate ExpirationsMatch(contracts: map<Hash, Contract>, expirations: Expirations) {
    forall h: nat, id: Hash :: Listed(expirations, h, id) <==> EndsAt(contracts, h, id)
  }

  predicate Listed(expirations: Expirations, h: nat, id: Hash) {
    h in expirations && id in expirations[h]
  }

  predicate EndsAt(contracts: map<Hash, Contract>, h: nat, id: Hash) {
    id in contracts && contracts[id].windowEnd == h
  }

  // ---------------------------------------------------------------- transactions

  /** Adds vs[0], vs[1], ... under the ids that src gives them. */
  function AddItems<V>(m: map<Hash, V>, src: Source, vs: seq<V>): map<Hash, V> {
    if vs == [] then m
    else AddItems(m, src, vs[..|vs| - 1])[ItemID(src, |vs| - 1) := vs[|vs| - 1]]
  }

  function InputIDs(inputs: seq<Input>): set<Hash> {
    set i | 0 <= i < |inputs| :: inputs[i].parentID
  }

  function Revised(fc: Contract, r: Revision): Contract {
    FileContract(r.newFileSize, r.newFileMerkleRoot, r.newWindowStart, r.newWindowEnd, fc.payout,
                 r.newValidProofOutputs, r.newMissedProofOutputs, r.newUnlockHash, r.newRevisionNumber)
  }

  function ReviseAll(contracts: map<Hash, Contract>, revisions: seq<Revision>): (r: map<Hash, Contract>)
    ensures r.Keys == contracts.Keys
  {
    if revisions == [] then contracts
    else
      var cs := ReviseAll(contracts, revisions[..|revisions| - 1]);
      var r := revisions[|revisions| - 1];
      if r.parentID in cs then cs[r.parentID := Revised(cs[r.parentID], r)] else cs
  }

  /** Adds outputs to the delayed bucket of a height. */
  function PayInto(delayed: Delayed, height: nat, src: Source, outputs: seq<Output>): (r: Delayed)
    ensures r.Keys == delayed.Keys
  {
    if height in delayed then delayed[height := AddItems(delayed[height], src, outputs)] else delayed
  }

  /** A storage proof closes its contract and pays the valid-proof outputs. */
  function Prove(s: State, id: Hash, payHeight: nat): State {
    if id in s.contracts then
      s.(contracts := s.contracts - {id},
         delayed := PayInto(s.delayed, payHeight, ProofOutputs(id, true), s.contracts[id].validProofOutputs))
    else s
  }

  function ProveAll(s: State, proofs: seq<Proof>, payHeight: nat): State {
    if proofs == [] then s
    else Prove(ProveAll(s, proofs[..|proofs| - 1], payHeight), proofs[|proofs| - 1].parentID, payHeight)
  }

  /** Everything but the storage proofs. */
  function TxnExchange(s: State, t: Txn): State {
    s.(outputs := AddItems(s.outputs - InputIDs(t.siacoinInputs), TxnOutputs(Unsigned(t)), t.siacoinOutputs),
       contracts := ReviseAll(AddItems(s.contracts, TxnContracts(Unsigned(t)), t.fileContracts),
         t.fileContractRevisions))
  }

  /** A transaction in a block at the given height. */
  function TxnEffect(s: State, t: Txn, height: nat): State {
    ProveAll(TxnExchange(s, t), t.storageProofs, height + MATURITY_DELAY)
  }

  function TxnsEffect(s: State, ts: seq<Txn>, height: nat): State {
    if ts == [] then s
    else TxnEffect(TxnsEffect(s, ts[..|ts| - 1], height), ts[|ts| - 1], height)
  }

  // ---------------------------------------------------------------- blocks

  function OpenBucket(delayed: Delayed, height: nat): Delayed {
    if height in delayed then delayed else delayed[height := map[]]
  }

  /** Delayed outputs of this height become spendable. */
  function Mature(s: State, height: nat): State {
    if height < MATURITY_DELAY || height !in s.delayed then s
    else s.(outputs := s.outputs + s.delayed[height], delayed := s.delayed - {height})
  }

  function Expiring(contracts: map<Hash, Contract>, height: nat): set<Hash> {
    set id | id in contracts && contracts[id].windowEnd == height
  }

  /** The missed-proof outputs of a set of contracts, under their ids. */
  function MissedItems(contracts: map<Hash, Contract>, ids: set<Hash>): map<Hash, Output> {
    map id, i | id in ids && id in contracts && 0 <= i < |contracts[id].missedProofOutputs| ::
      ItemID(ProofOutputs(id, false), i) := contracts[id].missedProofOutputs[i]
  }

  /** Contracts that end at this height close and pay the missed-proof outputs. */
  function Expire(s: State, height: nat): State {
    var ids := Expiring(s.contracts, height);
    var k := height + MATURITY_DELAY;
    s.(contracts := s.contracts - ids,
       delayed := if k in s.delayed then s.delayed[k := s.delayed[k] + MissedItems(s.contracts, ids)] else s.delayed)
  }

  /** The state in which the transactions of a block are applied. */
  function Opened(s: State, height: nat): State {
    s.(delayed := OpenBucket(s.delayed, height + MATURITY_DELAY))
  }

  /** Block-level alterations after the transactions. */
  function Maintained(s: State, b: Blk, height: nat): State {
    Expire(Mature(s.(delayed := PayInto(s.delayed, height + MATURITY_DELAY, Payouts(BlockID(b)), b.minerPayouts)),
      height), height)
  }

  /** The effect of a whole block at a height. */
  function Effect(s: State, b: Blk, height: nat): State {
    var s' := Maintained(TxnsEffect(Opened(s, height), b.transactions, height), b, height);
    s'.(path := s'.path + [BlockID(b)])
  }
}
