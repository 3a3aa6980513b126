/** What every id stands for: on every valid chain, each spendable or delayed
    output is the one its id names, and each open contract is the one its id
    names, with the terms of its last revision. */
module Provenance {
  import opened Types
  import opened Hashing
  import opened Diffs
  import opened Ledger
  import opened Validation
  import opened Freshness
  import opened Conservation
  import opened BlockEffects
  import opened Revisions
  import opened Chain
  import opened Buckets
  import opened BlockTree
  import opened Footprint

  type History = Hash -> seq<Revision>

  /** The revisions of a contract on the chain up to a block. */
  ghost function RevisionsAt(id: Hash, c: Hash): seq<Revision> {
    if id == GenesisID() || !id.BlockID? then []
    else RevisionsAt(id.block.parentID, c) + RevisionsOf(id.block.transactions, c)
  }

  ghost function HistoryAt(id: Hash): History { c => RevisionsAt(id, c) }

  /** What a contract pays after a history of revisions, if it is proved or missed. */
  function Pays(c: Hash, history: seq<Revision>, valid: bool): seq<Output>
    requires IsContractID(c)
  {
    if history == [] then
      if valid then FirstContract(c).validProofOutputs else FirstContract(c).missedProofOutputs
    else
      var last := history[|history| - 1];
      if valid then last.newValidProofOutputs else last.newMissedProofOutputs
  }

  /** An output is the one that its id names. Genesis has a worthless payout
      that its block does not list. */
  predicate Named(history: History, p: Hash, out: Output) {
    && p.ItemID?
    && match p.source
       case TxnOutputs(u) => p.index < |u.siacoinOutputs| && out == u.siacoinOutputs[p.index]
       case TxnContracts(_) => false
       case Payouts(b) =>
         if b == GenesisID() then p.index == 0 && out == SiacoinOutput(0, ZERO)
         else b.BlockID? && p.index < |b.block.minerPayouts| && out == b.block.minerPayouts[p.index]
       case ProofOutputs(c, valid) =>
         && IsContractID(c) && p.index < |Pays(c, history(c), valid)|
         && out == Pays(c, history(c), valid)[p.index]
  }

  ghost predicate OutputsNamed(history: History, outputs: map<Hash, Output>) {
    forall p :: p in outputs ==> Named(history, p, outputs[p])
  }

  ghost predicate DelayedNamed(history: History, delayed: Delayed) {
    forall k: nat, p :: Held(delayed, k, p) ==> Named(history, p, delayed[k][p])
  }

  ghost predicate ContractsNamed(history: History, contracts: map<Hash, Contract>) {
    forall c :: c in contracts ==> IsContractID(c) && Amends(FirstContract(c), history(c), contracts[c])
  }

  /** Everything in a state is what its id names, and only contracts that have
      been formed have been revised. */
  ghost predicate Traced(s: State, seen: set<Txn>, history: History) {
    && OutputsNamed(history, s.outputs) && DelayedNamed(history, s.delayed) && ContractsNamed(history, s.contracts)
    && forall c :: history(c) != [] ==> Created(seen, c)
  }

  /** One history continues another with the revisions of some transactions. */
  ghost predicate Continues(history: History, after: History, ts: seq<Txn>) {
    forall c :: after(c) == history(c) + RevisionsOf(ts, c)
  }

  // ---------------------------------------------------------------- one transaction

  /** What a contract with some terms pays. */
  lemma {:induction false} PaysTerms(c: Hash, history: seq<Revision>, fc: Contract)
    requires IsContractID(c) && Amends(FirstContract(c), history, fc)
    ensures fc.validProofOutputs == Pays(c, history, true) && fc.missedProofOutputs == Pays(c, history, false)
  {
  }

  /** Revisions of open contracts change nothing about what has been paid out. */
  lemma {:induction false} StillNamed(s: State, seen: set<Txn>, n: nat, history: History, after: History)
    requires Fresh(s, seen, n) && OutputsNamed(history, s.outputs) && DelayedNamed(history, s.delayed)
    requires forall c :: Created(seen, c) && c !in s.contracts ==> after(c) == history(c)
    ensures OutputsNamed(after, s.outputs) && DelayedNamed(after, s.delayed)
  {
    forall p | p in s.outputs
      ensures Named(after, p, s.outputs[p])
    {
      assert Used(s.contracts, seen, n, p) && Named(history, p, s.outputs[p]);
    }
    forall k: nat, p | Held(s.delayed, k, p)
      ensures Named(after, p, s.delayed[k][p])
    {
      assert Used(s.contracts, seen, n, p) && Named(history, p, s.delayed[k][p]);
    }
  }

  /** What proofs add to the delayed outputs. */
  lemma {:induction false} ProofsAdd(s: State, ps: seq<Proof>, k: nat, j: nat, p: Hash)
    requires Held(ProveAll(s, ps, k).delayed, j, p)
    ensures var out := ProveAll(s, ps, k).delayed[j][p];
            || (Held(s.delayed, j, p) && out == s.delayed[j][p])
            || (&& j == k && p.ItemID? && p.source.ProofOutputs? && p.source.valid && p.source.contract in s.contracts
                && p.index < |s.contracts[p.source.contract].validProofOutputs|
                && out == s.contracts[p.source.contract].validProofOutputs[p.index])
  {
    if ps != [] {
      var pre, c := ps[..|ps| - 1], ps[|ps| - 1].parentID;
      var s1 := ProveAll(s, pre, k);
      ProveAllCloses(s, pre, k);
      if c in s1.contracts && k in s1.delayed {
        var src, outs := ProofOutputs(c, true), s1.contracts[c].validProofOutputs;
        AddItemsSplit(s1.delayed[k], src, outs);
        ItemsKeys(src, outs);
      }
      if Held(s1.delayed, j, p) {
        ProofsAdd(s, pre, k, j, p);
      }
    }
  }

  lemma {:induction false} ProofsTraced(s: State, ps: seq<Proof>, k: nat, history: History)
    requires DelayedNamed(history, s.delayed) && ContractsNamed(history, s.contracts)
    ensures DelayedNamed(history, ProveAll(s, ps, k).delayed) && ContractsNamed(history, ProveAll(s, ps, k).contracts)
  {
    hide ProveAll, Amends, Pays;
    ProveAllCloses(s, ps, k);
    forall j: nat, p | Held(ProveAll(s, ps, k).delayed, j, p)
      ensures Named(history, p, ProveAll(s, ps, k).delayed[j][p])
    {
      ProofsAdd(s, ps, k, j, p);
      if !Held(s.delayed, j, p) || ProveAll(s, ps, k).delayed[j][p] != s.delayed[j][p] {
        var c := p.source.contract;
        PaysTerms(c, history(c), s.contracts[c]);
      }
    }
  }

  /** What a transaction makes and forms is named. */
  lemma {:induction false} ExchangeTraced(o: Oracle, s: State, seen: set<Txn>, n: nat, t: Txn, history: History,
                                          after: History)
    requires Fresh(s, seen, n) && s.path != [] && ValidTransaction(o, s, t) && Traced(s, seen, history)
    requires OutputsNamed(after, s.outputs)
    requires forall c :: after(c) == history(c) + RevisionsIn(t.fileContractRevisions, c)
    ensures OutputsNamed(after, TxnExchange(s, t).outputs) && ContractsNamed(after, TxnExchange(s, t).contracts)
  {
    hide Fresh, ValidTransaction, AddItems, ReviseAll, Amends, RevisionsIn;
    var src := TxnOutputs(Unsigned(t));
    AddItemsSplit(s.outputs - InputIDs(t.siacoinInputs), src, t.siacoinOutputs);
    ItemsKeys(src, t.siacoinOutputs);
    forall c | c in TxnExchange(s, t).contracts
      ensures IsContractID(c) && Amends(FirstContract(c), after(c), TxnExchange(s, t).contracts[c])
    {
      var rs, fc := RevisionsIn(t.fileContractRevisions, c), TxnExchange(s, t).contracts[c];
      ExchangeRenews(o, s, seen, n, t, c);
      if c in s.contracts {
        AmendsBoth(FirstContract(c), history(c), s.contracts[c], rs, fc);
      } else {
        assert after(c) == rs;
      }
    }
  }

  /** A valid transaction keeps everything named. */
  lemma {:induction false} TransactionTraced(o: Oracle, s: State, seen: set<Txn>, n: nat, t: Txn, height: nat,
                                             history: History, after: History)
    requires Fresh(s, seen, n) && s.path != [] && ValidTransaction(o, s, t) && Traced(s, seen, history)
    requires forall c :: after(c) == history(c) + RevisionsIn(t.fileContractRevisions, c)
    ensures Traced(TxnEffect(s, t, height), seen + {Unsigned(t)}, after)
  {
    hide Fresh, ValidTransaction, AddItems, ReviseAll, ProveAll, RevisionsIn, OutputsNamed, DelayedNamed,
         ContractsNamed;
    forall c
      ensures Created(seen, c) && c !in s.contracts ==> after(c) == history(c)
      ensures after(c) != [] ==> Created(seen, c)
    {
      RevisedExists(o, s, seen, n, t, c);
    }
    StillNamed(s, seen, n, history, after);
    ExchangeTraced(o, s, seen, n, t, history, after);
    var s1, k := TxnExchange(s, t), height + MATURITY_DELAY;
    ProveAllCloses(s1, t.storageProofs, k);
    ProofsTraced(s1, t.storageProofs, k, after);
  }

  // ---------------------------------------------------------------- one block

  lemma {:induction false} TransactionsTraced(o: Oracle, s: State, seen: set<Txn>, ts: seq<Txn>, history: History,
                                              after: History)
    requires s.path != [] && Fresh(s, seen, |s.path| - 1) && Balanced(s.contracts, |s.path| - 1)
    requires |s.path| + MATURITY_DELAY in s.delayed && ValidTransactions(o, s, ts, |s.path|)
    requires Traced(s, seen, history) && Continues(history, after, ts)
    ensures Traced(TxnsEffect(s, ts, |s.path|), Record(seen, ts), after)
  {
    hide Fresh, Balanced, ValidTransaction, TxnEffect, RevisionsIn, Worth, OnlyPays, Named, Amends;
    if ts == [] {
      SameHistory(s, seen, |s.path| - 1, history, after);
    } else {
      var pre, t := ts[..|ts| - 1], ts[|ts| - 1];
      var before: History := c => history(c) + RevisionsOf(pre, c);
      TransactionsTraced(o, s, seen, pre, history, before);
      StillValid(o, s, seen, pre);
      TransactionTraced(o, TxnsEffect(s, pre, |s.path|), Record(seen, pre), |s.path| - 1, t, |s.path|, before, after);
    }
  }

  lemma {:induction false} SameHistory(s: State, seen: set<Txn>, n: nat, history: History, after: History)
    requires Fresh(s, seen, n) && Traced(s, seen, history) && Continues(history, after, [])
    ensures Traced(s, seen, after)
  {
    hide Fresh, OutputsNamed, DelayedNamed, Amends;
    assert forall c :: after(c) == history(c);
    StillNamed(s, seen, n, history, after);
  }

  lemma {:induction false} MaintainedTraced(s: State, seen: set<Txn>, b: Blk, h: nat, history: History)
    requires Traced(s, seen, history) && BlockID(b) != GenesisID()
    ensures Traced(Maintained(s, b, h), seen, history)
  {
    hide OutputsNamed, DelayedNamed, ContractsNamed, PayInto, Expiring, MissedItems, GenesisID;
    var k, src := h + MATURITY_DELAY, Payouts(BlockID(b));
    var s1 := s.(delayed := PayInto(s.delayed, k, src, b.minerPayouts));
    PayoutsTraced(s, b, k, history);
    MatureTraced(s1, h, history);
    ExpireTraced(Mature(s1, h), h, history);
  }

  lemma {:induction false} PayoutsTraced(s: State, b: Blk, k: nat, history: History)
    requires DelayedNamed(history, s.delayed) && BlockID(b) != GenesisID()
    ensures DelayedNamed(history, PayInto(s.delayed, k, Payouts(BlockID(b)), b.minerPayouts))
  {
    hide AddItems;
    var src := Payouts(BlockID(b));
    if k in s.delayed {
      AddItemsSplit(s.delayed[k], src, b.minerPayouts);
      ItemsKeys(src, b.minerPayouts);
      var delayed := PayInto(s.delayed, k, src, b.minerPayouts);
      forall j: nat, p | Held(delayed, j, p)
        ensures Named(history, p, delayed[j][p])
      {
        if Held(s.delayed, j, p) {
          assert Named(history, p, s.delayed[j][p]);
        }
      }
    }
  }

  lemma {:induction false} MatureTraced(s: State, h: nat, history: History)
    requires OutputsNamed(history, s.outputs) && DelayedNamed(history, s.delayed)
    ensures OutputsNamed(history, Mature(s, h).outputs) && DelayedNamed(history, Mature(s, h).delayed)
  {
    hide Named;
    var s' := Mature(s, h);
    forall p | p in s'.outputs
      ensures Named(history, p, s'.outputs[p])
    {
      if p !in s.outputs || s'.outputs[p] != s.outputs[p] {
        assert Held(s.delayed, h, p);
      }
    }
    forall j: nat, p | Held(s'.delayed, j, p)
      ensures Named(history, p, s'.delayed[j][p])
    {
      assert Held(s.delayed, j, p);
    }
  }

  lemma {:induction false} ExpireTraced(s: State, h: nat, history: History)
    requires DelayedNamed(history, s.delayed) && ContractsNamed(history, s.contracts)
    ensures DelayedNamed(history, Expire(s, h).delayed) && ContractsNamed(history, Expire(s, h).contracts)
  {
    hide Amends, Pays, MissedItems, Named;
    var s' := Expire(s, h);
    forall j: nat, p | Held(s'.delayed, j, p)
      ensures Named(history, p, s'.delayed[j][p])
    {
      if p in MissedItems(s.contracts, Expiring(s.contracts, h)) {
        MissedNamed(s.contracts, Expiring(s.contracts, h), history, p);
      }
      assert Held(s.delayed, j, p) ==> Named(history, p, s.delayed[j][p]);
    }
  }

  lemma {:induction false} MissedNamed(contracts: map<Hash, Contract>, ids: set<Hash>, history: History, p: Hash)
    requires ContractsNamed(history, contracts) && p in MissedItems(contracts, ids)
    ensures Named(history, p, MissedItems(contracts, ids)[p])
  {
    hide Amends, Pays;
    var c := p.source.contract;
    PaysTerms(c, history(c), contracts[c]);
  }

  // ---------------------------------------------------------------- every chain

  lemma {:induction false} GenesisTraced()
    ensures Traced(StateAt(GenesisID()), SeenAt(GenesisID()), HistoryAt(GenesisID()))
  {
    hide Allocation, AddItems;
    ItemsKeys(TxnOutputs(GenesisTransaction()), Allocation());
    assert StateAt(GenesisID()) == GenesisState();
  }

  lemma {:induction false} BlockTraced(r: Rules, id: Hash)
    requires Valid(r, id) && id != GenesisID() && id.BlockID?
    requires Traced(StateAt(id.block.parentID), SeenAt(id.block.parentID), HistoryAt(id.block.parentID))
    ensures Traced(StateAt(id), SeenAt(id), HistoryAt(id))
  {
    hide Healthy, BlockOk, DiffCounts, CountsAt, TxnsEffect, Opened, Maintained, Record, RevisionsOf, StateAt, Height,
         GenesisID, ValidTransactions, OutputsNamed, DelayedNamed, ContractsNamed, Valid;
    StepFacts(r, id);
    var p, h, ts := id.block.parentID, Height(id), id.block.transactions;
    var s := StateAt(p);
    OpenedIsFit(s, SeenAt(p));
    OpenedTraced(s, SeenAt(p), h, HistoryAt(p));
    BlockIsValid(r, id);
    TransactionsTraced(r.oracle, Opened(s, h), SeenAt(p), ts, HistoryAt(p), HistoryAt(id));
    MaintainedTraced(TxnsEffect(Opened(s, h), ts, h), Record(SeenAt(p), ts), id.block, h, HistoryAt(id));
  }

  lemma {:induction false} BlockIsValid(r: Rules, id: Hash)
    requires Valid(r, id) && id != GenesisID()
    ensures id.BlockID? && StateAt(id.block.parentID).path != []
    ensures var s := StateAt(id.block.parentID);
            ValidTransactions(r.oracle, Opened(s, |s.path|), id.block.transactions, |s.path|)
  {
    hide StateAt, Healthy, Effect, DiffCounts, Height, GenesisID, Record, Opened, ValidTransactions, Valid;
    StepFacts(r, id);
  }

  lemma {:induction false} OpenedTraced(s: State, seen: set<Txn>, h: nat, history: History)
    requires Traced(s, seen, history)
    ensures Traced(Opened(s, h), seen, history)
  {
    hide Named, Amends, ContractsNamed;
    forall k: nat, p | Held(Opened(s, h).delayed, k, p)
      ensures Held(s.delayed, k, p) && Opened(s, h).delayed[k][p] == s.delayed[k][p]
    {
    }
  }

  /** On every valid chain, each spendable or delayed output is the one its id
      names: the indexed output of a transaction, the indexed payout of a block,
      or what a contract pays, proved or missed, by its last revision. And each
      open contract has the payout it was formed with and the terms of its last
      revision. */
  lemma {:induction false} EverythingIsNamed(r: Rules, id: Hash)
    requires Valid(r, id)
    ensures Traced(StateAt(id), SeenAt(id), HistoryAt(id))
  {
    hide Healthy, Effect, BlockOk, DiffCounts, CountsAt, TxnsEffect, Opened, Maintained, Record, Traced, RevisionsOf,
         StateAt, SeenAt, RevisionsAt, Height, GenesisID;
    if id == GenesisID() {
      GenesisTraced();
    } else {
      StepFacts(r, id);
      EverythingIsNamed(r, id.block.parentID);
      BlockTraced(r, id);
    }
  }

  /** The same of one open contract; and whatever its revisions, it pays what it
      was formed with, proved or missed. */
  lemma {:induction false} TermsOfContract(r: Rules, id: Hash, c: Hash)
    requires Valid(r, id) && c in ContractsAt(id)
    ensures IsContractID(c) && Amends(FirstContract(c), RevisionsAt(id, c), ContractsAt(id)[c])
    ensures var fc := ContractsAt(id)[c];
            0 < FirstContract(c).payout == ValueSum(fc.validProofOutputs) == ValueSum(fc.missedProofOutputs)
  {
    hide StateAt, RevisionsAt, OutputsNamed, DelayedNamed, Fresh, Floors, Window, ValidChain, Ancestry, Height,
         BurnedAt, Terms;
    EverythingIsNamed(r, id);
    EveryChain(r.oracle, r.devFund, id);
  }

  // ---------------------------------------------------------------- what is paid

  lemma {:induction false} ProofsHold(s: State, ps: seq<Proof>, k: nat, p: Hash)
    ensures Held(s.delayed, k, p) ==> Held(ProveAll(s, ps, k).delayed, k, p)
  {
    hide AddItems;
    if ps != [] {
      var s1, c := ProveAll(s, ps[..|ps| - 1], k), ps[|ps| - 1].parentID;
      ProofsHold(s, ps[..|ps| - 1], k, p);
      if c in s1.contracts && k in s1.delayed {
        AddItemsSplit(s1.delayed[k], ProofOutputs(c, true), s1.contracts[c].validProofOutputs);
      }
    }
  }

  /** A proof pays all that its contract says. */
  lemma {:induction false} ProofsPay(s: State, ps: seq<Proof>, k: nat, c: Hash, i: nat)
    requires c in ProofIDs(ps) && c in s.contracts && k in s.delayed && i < |s.contracts[c].validProofOutputs|
    ensures Held(ProveAll(s, ps, k).delayed, k, ItemID(ProofOutputs(c, true), i))
  {
    hide AddItems;
    var pre, d, p := ps[..|ps| - 1], ps[|ps| - 1].parentID, ItemID(ProofOutputs(c, true), i);
    var s1 := ProveAll(s, pre, k);
    if c in ProofIDs(pre) {
      ProofsPay(s, pre, k, c, i);
      ProofsHold(s1, [ps[|ps| - 1]], k, p);
      assert [ps[|ps| - 1]][..0] == [];
    } else {
      ProveAllCloses(s, pre, k);
      ProveAllKeys(s, pre, k);
      AddItemsSplit(s1.delayed[k], ProofOutputs(c, true), s1.contracts[c].validProofOutputs);
      ItemsKeys(ProofOutputs(c, true), s1.contracts[c].validProofOutputs);
      assert From(ProofOutputs(c, true), p);
    }
  }

  lemma {:induction false} ProveAllKeys(s: State, ps: seq<Proof>, k: nat)
    ensures ProveAll(s, ps, k).delayed.Keys == s.delayed.Keys
  {
    hide PayInto;
    if ps != [] {
      ProveAllKeys(s, ps[..|ps| - 1], k);
    }
  }

  /** What a valid transaction pays for a contract that it proves. */
  lemma {:induction false} TransactionPays(o: Oracle, s: State, seen: set<Txn>, n: nat, t: Txn, height: nat, c: Hash,
                                           i: nat)
    requires Fresh(s, seen, n) && s.path != [] && ValidTransaction(o, s, t) && height + MATURITY_DELAY in s.delayed
    requires ProvedBy(t, c) && c in s.contracts && i < |s.contracts[c].validProofOutputs|
    ensures Held(TxnEffect(s, t, height).delayed, height + MATURITY_DELAY, ItemID(ProofOutputs(c, true), i))
  {
    hide Fresh, ValidTransaction, ReviseAll, AddItems, ProveAll;
    ProvesOnly(o, s, t, c);
    ExchangeLeaves(s, t);
    ProofsPay(TxnExchange(s, t), t.storageProofs, height + MATURITY_DELAY, c, i);
  }

  lemma {:induction false} ExchangeLeaves(s: State, t: Txn)
    requires t.fileContracts == [] && t.fileContractRevisions == []
    ensures TxnExchange(s, t).contracts == s.contracts && TxnExchange(s, t).delayed == s.delayed
  {
  }

  /** What the transactions of a block pay for a contract that one of them proves. */
  lemma {:induction false} TransactionsPay(o: Oracle, s: State, seen: set<Txn>, ts: seq<Txn>, history: History,
                                           c: Hash, i: nat)
    requires s.path != [] && Fresh(s, seen, |s.path| - 1) && Balanced(s.contracts, |s.path| - 1)
    requires |s.path| + MATURITY_DELAY in s.delayed && ValidTransactions(o, s, ts, |s.path|)
    requires Traced(s, seen, history) && ProvedIn(ts, c) && IsContractID(c)
    requires i < |Pays(c, history(c) + RevisionsOf(ts, c), true)|
    ensures Held(TxnsEffect(s, ts, |s.path|).delayed, |s.path| + MATURITY_DELAY, ItemID(ProofOutputs(c, true), i))
  {
    hide Fresh, Balanced, ValidTransaction, TxnEffect, ProvedBy, Pays, OutputsNamed, DelayedNamed, ContractsNamed,
         IsContractID, Record, ProvedIn;
    assert ts != [] by { InNone(c); }
    InMore(ts, c);
    var pre, t, h := ts[..|ts| - 1], ts[|ts| - 1], |s.path|;
    var s1, seen1, before: History := TxnsEffect(s, pre, h), Record(seen, pre), c => history(c) + RevisionsOf(pre, c);
    StillValid(o, s, seen, pre);
    ContractAfter(o, s, seen, pre, c);
    if ProvedIn(pre, c) {
      RevisedExists(o, s1, seen1, h - 1, t, c);
      assert history(c) + RevisionsOf(ts, c) == history(c) + RevisionsOf(pre, c);
      TransactionsPay(o, s, seen, pre, history, c, i);
      TransactionHolds(s1, t, h, ItemID(ProofOutputs(c, true), i));
    } else {
      TransactionsTraced(o, s, seen, pre, history, before);
      ProvesOnly(o, s1, t, c);
      assert history(c) + RevisionsOf(ts, c) == before(c);
      LastPays(o, s1, seen1, h - 1, t, h, before, c, i);
    }
  }

  lemma {:induction false} LastPays(o: Oracle, s: State, seen: set<Txn>, n: nat, t: Txn, height: nat, history: History,
                                    c: Hash, i: nat)
    requires Fresh(s, seen, n) && s.path != [] && ValidTransaction(o, s, t) && height + MATURITY_DELAY in s.delayed
    requires ContractsNamed(history, s.contracts) && ProvedBy(t, c)
    requires IsContractID(c) && i < |Pays(c, history(c), true)|
    ensures Held(TxnEffect(s, t, height).delayed, height + MATURITY_DELAY, ItemID(ProofOutputs(c, true), i))
  {
    hide Fresh, ValidTransaction, TxnEffect, Amends, ProvedBy, Pays, IsContractID;
    NamedAreThere(o, s, t);
    PaysTerms(c, history(c), s.contracts[c]);
    TransactionPays(o, s, seen, n, t, height, c, i);
  }

  lemma {:induction false} ProvesOnly(o: Oracle, s: State, t: Txn, c: Hash)
    requires s.path != [] && ValidTransaction(o, s, t) && ProvedBy(t, c)
    ensures t.fileContracts == [] && t.fileContractRevisions == []
  {
    hide ValidSiacoins, ValidStorageProofs, ValidFileContractRevisions, NoRepeats, FollowsMinimumValues;
    assert t.storageProofs != [];
  }

  lemma {:induction false} ProvedWasFormed(o: Oracle, s: State, seen: set<Txn>, ts: seq<Txn>, history: History, c: Hash)
    requires s.path != [] && Fresh(s, seen, |s.path| - 1) && Balanced(s.contracts, |s.path| - 1)
    requires |s.path| + MATURITY_DELAY in s.delayed && ValidTransactions(o, s, ts, |s.path|)
    requires Traced(s, seen, history) && ProvedIn(ts, c)
    ensures IsContractID(c)
  {
    hide Fresh, Balanced, ValidTransaction, TxnEffect, RevisionsIn, Named, Amends, ProvedBy, OutputsNamed, DelayedNamed,
         IsContractID, Record, ProvedIn;
    assert ts != [] by { InNone(c); }
    InMore(ts, c);
    var pre, t := ts[..|ts| - 1], ts[|ts| - 1];
    if ProvedIn(pre, c) {
      ProvedWasFormed(o, s, seen, pre, history, c);
    } else {
      var before: History := c => history(c) + RevisionsOf(pre, c);
      StillValid(o, s, seen, pre);
      NamedAreThere(o, TxnsEffect(s, pre, |s.path|), t);
      TransactionsTraced(o, s, seen, pre, history, before);
    }
  }

  lemma {:induction false} TransactionHolds(s: State, t: Txn, height: nat, p: Hash)
    requires Held(s.delayed, height + MATURITY_DELAY, p)
    ensures Held(TxnEffect(s, t, height).delayed, height + MATURITY_DELAY, p)
  {
    hide ReviseAll, AddItems, ProveAll;
    ProofsHold(TxnExchange(s, t), t.storageProofs, height + MATURITY_DELAY, p);
  }

  /** Maintenance takes nothing out of the bucket of its block, and adds its
      payouts and what the contracts that end pay. */
  lemma {:induction false} MaintenancePays(s: State, b: Blk, h: nat)
    requires h + MATURITY_DELAY in s.delayed
    ensures var k, d := h + MATURITY_DELAY, Maintained(s, b, h).delayed;
            && (forall p :: Held(s.delayed, k, p) ==> Held(d, k, p))
            && (forall i :: 0 <= i < |b.minerPayouts| ==> Held(d, k, ItemID(Payouts(BlockID(b)), i)))
            && (forall c, i :: c in Expiring(s.contracts, h) && 0 <= i < |s.contracts[c].missedProofOutputs| ==>
                  Held(d, k, ItemID(ProofOutputs(c, false), i)))
  {
    hide AddItems;
    var k, src := h + MATURITY_DELAY, Payouts(BlockID(b));
    AddItemsSplit(s.delayed[k], src, b.minerPayouts);
    ItemsKeys(src, b.minerPayouts);
    forall i | 0 <= i < |b.minerPayouts|
      ensures From(src, ItemID(src, i))
    {
    }
  }

  /** A block delays all that it owes: each of its payouts, each valid-proof
      output of a contract that it proves, and each missed-proof output of a
      contract that ends with it unproved. What these are worth and whom they
      pay is in EverythingIsNamed. */
  lemma {:induction false} AllIsPaid(r: Rules, id: Hash, c: Hash, i: nat)
    requires id.BlockID? && id != GenesisID() && Valid(r, id)
    ensures i < |id.block.minerPayouts| ==>
              Held(StateAt(id).delayed, Height(id) + MATURITY_DELAY, ItemID(Payouts(id), i))
    ensures ProvedIn(id.block.transactions, c) ==>
              && IsContractID(c)
              && (i < |Pays(c, RevisionsAt(id, c), true)| ==>
                    Held(StateAt(id).delayed, Height(id) + MATURITY_DELAY, ItemID(ProofOutputs(c, true), i)))
    ensures c in ContractsAt(id.block.parentID) && c !in ContractsAt(id) && !ProvedIn(id.block.transactions, c) ==>
              && IsContractID(c)
              && (i < |Pays(c, RevisionsAt(id, c), false)| ==>
                    Held(StateAt(id).delayed, Height(id) + MATURITY_DELAY, ItemID(ProofOutputs(c, false), i)))
  {
    hide StateAt, Height, GenesisID, Valid, ValidTransactions, TxnsEffect, Opened, Maintained, Record, Healthy, Amends,
         OutputsNamed, DelayedNamed, Named, ProvedIn, Pays, IsContractID, DiffCounts;
    StepFacts(r, id);
    InsideFacts(r, id);
    var p, h, ts := id.block.parentID, Height(id), id.block.transactions;
    var s0 := Opened(StateAt(p), h);
    var s1 := TxnsEffect(s0, ts, h);
    OpenedIsFit(StateAt(p), SeenAt(p));
    OpenedKeeps(StateAt(p), h);
    BlockIsValid(r, id);
    MaintenancePays(s1, id.block, h);
    EverythingIsNamed(r, p);
    OpenedTraced(StateAt(p), SeenAt(p), h, HistoryAt(p));
    TransactionsTraced(r.oracle, s0, SeenAt(p), ts, HistoryAt(p), HistoryAt(id));
    ContractAfter(r.oracle, s0, SeenAt(p), ts, c);
    if ProvedIn(ts, c) {
      ProvedWasFormed(r.oracle, s0, SeenAt(p), ts, HistoryAt(p), c);
      if i < |Pays(c, RevisionsAt(id, c), true)| {
        TransactionsPay(r.oracle, s0, SeenAt(p), ts, HistoryAt(p), c, i);
      }
    } else if c in s1.contracts {
      MaintainedContracts(s1, id.block, h, c);
      PaysTerms(c, RevisionsAt(id, c), s1.contracts[c]);
    }
  }

  // ---------------------------------------------------------------- what is proved

  /** The state in which a transaction of a valid block is checked. */
  lemma {:induction false} MidBlock(r: Rules, id: Hash, j: nat)
    requires id.BlockID? && id != GenesisID() && Valid(r, id) && j < |id.block.transactions|
    ensures var p, h, ts := id.block.parentID, Height(id), id.block.transactions;
            var s := TxnsEffect(Opened(StateAt(p), h), ts[..j], h);
            && h > 0 && s.path == StateAt(p).path && |s.path| == h && ValidTransaction(r.oracle, s, ts[j])
            && Traced(s, Record(SeenAt(p), ts[..j]), c => RevisionsAt(p, c) + RevisionsOf(ts[..j], c))
  {
    hide StateAt, Height, GenesisID, Valid, TxnsEffect, Opened, Record, Healthy, Traced, ValidTransaction, RevisionsOf,
         DiffCounts, SeenAt, RevisionsAt;
    StepFacts(r, id);
    var p, h, ts := id.block.parentID, Height(id), id.block.transactions;
    var s0 := Opened(StateAt(p), h);
    OpenedIsFit(StateAt(p), SeenAt(p));
    BlockIsValid(r, id);
    ValidPrefix(r.oracle, s0, ts, h, j + 1);
    ValidPrefix(r.oracle, s0, ts, h, j);
    assert ts[..j + 1][..j] == ts[..j];
    SamePath(s0, ts[..j], h);
    EverythingIsNamed(r, p);
    OpenedTraced(StateAt(p), SeenAt(p), h, HistoryAt(p));
    var history: History := c => RevisionsAt(p, c) + RevisionsOf(ts[..j], c);
    TransactionsTraced(r.oracle, s0, SeenAt(p), ts[..j], HistoryAt(p), history);
  }

  /** Every storage proof in a valid block is for a contract on its chain, with
      the terms of its last revision before it, whose window has begun, and
      proves the segment that the block before the window picks. */
  lemma {:induction false} ProofsVerify(r: Rules, id: Hash, j: nat, k: nat, n: nat, i: nat) returns (fc: Contract)
    requires id.BlockID? && id != GenesisID() && Valid(r, id) && j < |id.block.transactions|
    requires k < |id.block.transactions[j].storageProofs|
    ensures var p, c := id.block.transactions[j].storageProofs[k], id.block.transactions[j].storageProofs[k].parentID;
            && IsContractID(c)
            && Amends(FirstContract(c),
                      RevisionsAt(id.block.parentID, c) + RevisionsOf(id.block.transactions[..j], c), fc)
            && 0 < fc.windowStart <= Height(id) < |Ancestry(id)|
            && (Segments(fc.fileSize, n) && Picks(r.oracle.seed(Ancestry(id)[fc.windowStart - 1], c), n, i) ==>
                  && 0 < BytesOf(fc.fileSize, i) <= 64
                  && r.oracle.verifySegment(p.segment[..BytesOf(fc.fileSize, i)], p.hashSet, n, i, fc.fileMerkleRoot))
  {
    hide StateAt, Height, GenesisID, Valid, TxnsEffect, Opened, Record, Healthy, RevisionsOf, SeenAt, RevisionsAt,
         Ancestry, Rooted, Amends, IsContractID, OutputsNamed, DelayedNamed, StandaloneValid, ValidSiacoins;
    MidBlock(r, id, j);
    var p, h, ts := id.block.parentID, Height(id), id.block.transactions;
    var s, proof := TxnsEffect(Opened(StateAt(p), h), ts[..j], h), ts[j].storageProofs[k];
    assert ProofOk(r.oracle, s, proof);
    fc := s.contracts[proof.parentID];
    PathIsAncestry(r, id);
    if Segments(fc.fileSize, n) && Picks(r.oracle.seed(Ancestry(id)[fc.windowStart - 1], proof.parentID), n, i) {
      ProofDemands(r.oracle, s, proof, n, i);
    }
  }

  lemma {:induction false} PathIsAncestry(r: Rules, id: Hash)
    requires id.BlockID? && id != GenesisID() && Valid(r, id)
    ensures |Ancestry(id)| == Height(id) + 1 && StateAt(id.block.parentID).path == Ancestry(id)[..Height(id)]
  {
    hide StateAt, Healthy, Effect, BlockOk, DiffCounts, GenesisID, Record;
    StepFacts(r, id);
    ValidIsRooted(r.oracle, r.devFund, id);
    EveryChain(r.oracle, r.devFund, id.block.parentID);
    AncestryShape(id);
  }
}
