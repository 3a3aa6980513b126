/** What a contract says after it has been revised: the terms of the last
    revision that names it, and the payout it was formed with. */
module Revisions {
  import opened Types
  import opened Hashing
  import opened Ledger
  import opened Validation
  import opened Freshness
  import opened Conservation
  import opened BlockEffects

  /** The terms of a contract are those of a revision, field by field. */
  predicate Terms(fc: Contract, r: Revision) {
    && fc.fileSize == r.newFileSize
    && fc.fileMerkleRoot == r.newFileMerkleRoot
    && fc.windowStart == r.newWindowStart
    && fc.windowEnd == r.newWindowEnd
    && fc.validProofOutputs == r.newValidProofOutputs
    && fc.missedProofOutputs == r.newMissedProofOutputs
    && fc.unlockHash == r.newUnlockHash
    && fc.revisionNumber == r.newRevisionNumber
  }

  /** The revisions of a list that name a contract, in order. */
  function RevisionsIn(rs: seq<Revision>, c: Hash): (found: seq<Revision>)
    ensures forall r :: r in found <==> r in rs && r.parentID == c
  {
    if rs == [] then []
    else
      var r := rs[|rs| - 1];
      RevisionsIn(rs[..|rs| - 1], c) + if r.parentID == c then [r] else []
  }

  /** The same of a list of transactions. */
  function RevisionsOf(ts: seq<Txn>, c: Hash): seq<Revision> {
    if ts == [] then []
    else RevisionsOf(ts[..|ts| - 1], c) + RevisionsIn(ts[|ts| - 1].fileContractRevisions, c)
  }

  /** What becomes of a contract through a history of revisions. */
  predicate Amends(before: Contract, history: seq<Revision>, after: Contract) {
    && after.payout == before.payout
    && if history == [] then after == before else Terms(after, history[|history| - 1])
  }

  /** The same contracts, each after the revisions of a list that name it. */
  ghost predicate AmendedBy(before: map<Hash, Contract>, after: map<Hash, Contract>, rs: seq<Revision>) {
    && after.Keys == before.Keys
    && forall c :: c in after ==> Amends(before[c], RevisionsIn(rs, c), after[c])
  }

  /** An id that a transaction gives to one of its contracts. */
  predicate IsContractID(c: Hash) {
    c.ItemID? && c.source.TxnContracts? && c.index < |c.source.txn.fileContracts|
  }

  /** The contract as it was formed: its id says so. */
  function FirstContract(c: Hash): Contract
    requires IsContractID(c)
  {
    c.source.txn.fileContracts[c.index]
  }

  /** Every contract that is open afterwards was open before or has been formed,
      and has been through the revisions that name it and no others. */
  ghost predicate Renewed(before: map<Hash, Contract>, after: map<Hash, Contract>, ts: seq<Txn>) {
    forall c :: c in after ==>
      if c in before then Amends(before[c], RevisionsOf(ts, c), after[c])
      else IsContractID(c) && Amends(FirstContract(c), RevisionsOf(ts, c), after[c])
  }

  // ---------------------------------------------------------------- one transaction

  lemma {:induction false} ReviseAmends(contracts: map<Hash, Contract>, rs: seq<Revision>, c: Hash)
    requires c in contracts
    ensures Amends(contracts[c], RevisionsIn(rs, c), ReviseAll(contracts, rs)[c])
  {
    if rs != [] {
      ReviseAmends(contracts, rs[..|rs| - 1], c);
    }
  }

  lemma {:induction false} AmendsBoth(a: Contract, h1: seq<Revision>, b: Contract, h2: seq<Revision>, c: Contract)
    requires Amends(a, h1, b) && Amends(b, h2, c)
    ensures Amends(a, h1 + h2, c)
  {
    hide Terms;
    if h2 == [] {
      assert h1 + h2 == h1;
    } else {
      assert (h1 + h2)[|h1 + h2| - 1] == h2[|h2| - 1];
    }
  }

  /** A transaction that forms a contract comes before all that revise it. */
  lemma {:induction false} RevisedExists(o: Oracle, s: State, seen: set<Txn>, n: nat, t: Txn, c: Hash)
    requires Fresh(s, seen, n) && s.path != [] && ValidTransaction(o, s, t)
    ensures RevisionsIn(t.fileContractRevisions, c) != [] ==> c in s.contracts && Created(seen, c)
  {
    hide StandaloneValid, ValidSiacoins, ValidStorageProofs;
    var found := RevisionsIn(t.fileContractRevisions, c);
    if found != [] {
      assert found[0] in t.fileContractRevisions;
      var i :| 0 <= i < |t.fileContractRevisions| && t.fileContractRevisions[i] == found[0];
      assert RevisionOk(s, t.fileContractRevisions[i]);
    }
  }

  /** What a valid transaction makes of one contract, before its proofs. */
  lemma {:induction false} ExchangeRenews(o: Oracle, s: State, seen: set<Txn>, n: nat, t: Txn, c: Hash)
    requires Fresh(s, seen, n) && s.path != [] && ValidTransaction(o, s, t)
    requires c in TxnExchange(s, t).contracts
    ensures var fc, rs := TxnExchange(s, t).contracts[c], RevisionsIn(t.fileContractRevisions, c);
            if c in s.contracts then Amends(s.contracts[c], rs, fc)
            else && IsContractID(c) && c.source.txn == Unsigned(t) && Unsigned(t) !in seen
                 && Amends(FirstContract(c), rs, fc)
  {
    hide Fresh, ValidTransaction, ReviseAll, AddItems, Amends;
    var src := TxnContracts(Unsigned(t));
    var formed := AddItems(s.contracts, src, t.fileContracts);
    FormedAreNew(o, s, seen, n, t);
    AddItemsSplit(s.contracts, src, t.fileContracts);
    ItemsKeys(src, t.fileContracts);
    ReviseAmends(formed, t.fileContractRevisions, c);
  }

  /** And after them. */
  lemma {:induction false} TransactionRenews(o: Oracle, s: State, seen: set<Txn>, n: nat, t: Txn, height: nat, c: Hash)
    requires Fresh(s, seen, n) && s.path != [] && ValidTransaction(o, s, t)
    requires c in TxnEffect(s, t, height).contracts
    ensures var fc, rs := TxnEffect(s, t, height).contracts[c], RevisionsIn(t.fileContractRevisions, c);
            if c in s.contracts then Amends(s.contracts[c], rs, fc)
            else && IsContractID(c) && c.source.txn == Unsigned(t) && Unsigned(t) !in seen
                 && Amends(FirstContract(c), rs, fc)
  {
    hide Fresh, ValidTransaction, TxnExchange, ProveAll, Amends;
    ProveAllCloses(TxnExchange(s, t), t.storageProofs, height + MATURITY_DELAY);
    ExchangeRenews(o, s, seen, n, t, c);
  }

  // ---------------------------------------------------------------- one block

  lemma {:induction false} RevisedAreCreated(o: Oracle, s: State, seen: set<Txn>, ts: seq<Txn>, c: Hash)
    requires s.path != [] && Fresh(s, seen, |s.path| - 1) && Balanced(s.contracts, |s.path| - 1)
    requires |s.path| + MATURITY_DELAY in s.delayed && ValidTransactions(o, s, ts, |s.path|)
    ensures RevisionsOf(ts, c) != [] ==> Created(Record(seen, ts), c)
  {
    hide Fresh, Balanced, ValidTransaction, TxnsEffect, RevisionsIn, Worth, OnlyPays;
    if ts != [] {
      var pre, t := ts[..|ts| - 1], ts[|ts| - 1];
      RevisedAreCreated(o, s, seen, pre, c);
      TransactionsConserve(o, s, seen, |s.path| - 1, pre);
      RevisedExists(o, TxnsEffect(s, pre, |s.path|), Record(seen, pre), |s.path| - 1, t, c);
    }
  }

  /** What the transactions of a block make of one contract. */
  lemma {:induction false} TransactionsRenew(o: Oracle, s: State, seen: set<Txn>, ts: seq<Txn>, c: Hash)
    requires s.path != [] && Fresh(s, seen, |s.path| - 1) && Balanced(s.contracts, |s.path| - 1)
    requires |s.path| + MATURITY_DELAY in s.delayed && ValidTransactions(o, s, ts, |s.path|)
    requires c in TxnsEffect(s, ts, |s.path|).contracts
    ensures var fc, rs := TxnsEffect(s, ts, |s.path|).contracts[c], RevisionsOf(ts, c);
            if c in s.contracts then Amends(s.contracts[c], rs, fc)
            else IsContractID(c) && c.source.txn !in seen && Amends(FirstContract(c), rs, fc)
  {
    hide Fresh, Balanced, ValidTransaction, TxnEffect, Worth, OnlyPays, RevisionsIn;
    if ts != [] {
      var pre, t, h := ts[..|ts| - 1], ts[|ts| - 1], |s.path|;
      var s1, seen1 := TxnsEffect(s, pre, h), Record(seen, pre);
      TransactionsConserve(o, s, seen, h - 1, pre);
      TransactionRenews(o, s1, seen1, h - 1, t, h, c);
      RecordGrows(seen, pre);
      if c in s1.contracts {
        TransactionsRenew(o, s, seen, pre, c);
        var first := if c in s.contracts then s.contracts[c] else FirstContract(c);
        AmendsBoth(first, RevisionsOf(pre, c), s1.contracts[c], RevisionsIn(t.fileContractRevisions, c),
          TxnEffect(s1, t, h).contracts[c]);
      } else {
        RevisedAreCreated(o, s, seen, pre, c);
        assert RevisionsOf(ts, c) == RevisionsIn(t.fileContractRevisions, c);
        ContractsAreCreated(s, seen, |s.path| - 1, c);
      }
    }
  }

  lemma {:induction false} RecordGrows(seen: set<Txn>, ts: seq<Txn>)
    ensures seen <= Record(seen, ts)
  {
    if ts != [] {
      RecordGrows(seen, ts[..|ts| - 1]);
    }
  }

  lemma {:induction false} ContractsAreCreated(s: State, seen: set<Txn>, n: nat, c: Hash)
    requires Fresh(s, seen, n)
    ensures c in s.contracts ==> Created(seen, c)
  {
  }

  /** The contracts after maintenance are those that do not end. */
  lemma {:induction false} MaintainedContracts(s: State, b: Blk, h: nat, c: Hash)
    ensures var cs := Maintained(s, b, h).contracts;
            && (c in cs <==> c in s.contracts && s.contracts[c].windowEnd != h)
            && (c in cs ==> cs[c] == s.contracts[c])
  {
    hide AddItems, MissedItems;
  }

  /** A valid block revises contracts exactly as its revisions say. */
  lemma {:induction false} BlockRenews(o: Oracle, s: State, seen: set<Txn>, b: Blk)
    requires Healthy(s, seen) && ValidTransactions(o, Opened(s, |s.path|), b.transactions, |s.path|)
    ensures Renewed(s.contracts, Effect(s, b, |s.path|).contracts, b.transactions)
    ensures forall c :: c in Effect(s, b, |s.path|).contracts && c !in s.contracts ==> !Created(seen, c)
  {
    hide Fresh, Balanced, Worth, ValidTransactions, TxnsEffect, Maintained, Opened, Floors, Window, Amends, RevisionsOf,
         IsContractID, FirstContract;
    var h, ts := |s.path|, b.transactions;
    OpenStep(s, seen);
    var s0, s1 := Opened(s, h), TxnsEffect(Opened(s, h), ts, h);
    forall c | c in Effect(s, b, h).contracts
      ensures if c in s.contracts then Amends(s.contracts[c], RevisionsOf(ts, c), Effect(s, b, h).contracts[c])
              else IsContractID(c) && Amends(FirstContract(c), RevisionsOf(ts, c), Effect(s, b, h).contracts[c])
      ensures c !in s.contracts ==> !Created(seen, c)
    {
      MaintainedContracts(s1, b, h, c);
      TransactionsRenew(o, s0, seen, ts, c);
    }
  }
}
