/** What a valid block must change: exactly when the spendable outputs, the
    delayed outputs and the contracts after a block differ from those before it. */
module Footprint {
  import opened Types
  import opened Hashing
  import opened Diffs
  import opened Ledger
  import opened Supply
  import opened Validation
  import opened Freshness
  import opened Conservation
  import opened BlockEffects
  import opened Revisions
  import opened Chain
  import opened Buckets
  import opened Weights
  import opened BlockTree
  import opened Wire
  import opened WireTypes
  import opened WireLimits
  import opened Storage

  ghost function OutputsAt(id: Hash): map<Hash, Output> { StateAt(id).outputs }
  ghost function ContractsAt(id: Hash): map<Hash, Contract> { StateAt(id).contracts }

  /** No transaction of a block spends anything. */
  predicate NothingSpent(b: Blk) {
    forall i :: 0 <= i < |b.transactions| ==> b.transactions[i].siacoinInputs == []
  }

  /** A valid block and the states around it. */
  lemma {:induction false} StepFacts(r: Rules, id: Hash)
    requires Valid(r, id) && id != GenesisID()
    ensures id.BlockID?
    ensures var s, b, h := StateAt(id.block.parentID), id.block, Height(id);
            && Valid(r, id.block.parentID) && Height(id.block.parentID) + 1 == h == |s.path| && h > 0
            && BlockOk(r.oracle, s, b, r.devFund)
            && StateAt(id) == Effect(s, b, h) && CountsAt(id) == DiffCounts(s, b)
            && Healthy(s, SeenAt(id.block.parentID))
            && Healthy(StateAt(id), Record(SeenAt(id.block.parentID), b.transactions))
  {
    hide StateAt, Healthy, Effect, BlockOk, DiffCounts, Ancestry, Rooted, Height, GenesisID, BurnedAt, Record;
    ChainStep(r.oracle, r.devFund, id);
    ValidIsRooted(r.oracle, r.devFund, id);
    ParentIsLower(id);
    EveryChain(r.oracle, r.devFund, id.block.parentID);
    EveryChain(r.oracle, r.devFund, id);
    assert SeenAt(id) == Record(SeenAt(id.block.parentID), id.block.transactions);
  }

  // ---------------------------------------------------------------- delayed outputs

  /** The delayed outputs s' after the transactions of a block on s. */
  ghost predicate BucketOpened(s: State, s': State, k: nat) {
    && s'.path == s.path && k !in s.delayed && s'.delayed.Keys == s.delayed.Keys + {k}
    && (forall j :: j in s.delayed ==> s'.delayed[j] == s.delayed[j])
  }

  lemma {:induction false} AfterTransactions(o: Oracle, s: State, seen: set<Txn>, b: Blk, devFund: Hash)
    requires Healthy(s, seen) && BlockOk(o, s, b, devFund)
    ensures var h := |s.path|;
            var s1 := TxnsEffect(Opened(s, h), b.transactions, h);
            && BucketOpened(s, s1, h + MATURITY_DELAY)
            && Fresh(s1, Record(seen, b.transactions), h - 1) && Balanced(s1.contracts, h - 1)
  {
    hide Fresh, Balanced, Worth, ValidTransactions, Record, PayoutsOk, BucketValue, Floors, Window, TxnsEffect, Opened;
    OpenStep(s, seen);
    TransactionsConserve(o, Opened(s, |s.path|), seen, |s.path| - 1, b.transactions);
  }

  /** The delayed outputs s2 after a block at height h on s, which come from s1
      after its transactions. */
  ghost predicate BucketClosed(s: State, s1: State, s2: State, h: nat) {
    && s2.path == s.path
    && s2.delayed.Keys == (if h < MATURITY_DELAY then s1.delayed.Keys else s1.delayed.Keys - {h})
    && (forall k :: k in s2.delayed && k != h + MATURITY_DELAY ==> k in s.delayed && s2.delayed[k] == s.delayed[k])
  }

  lemma {:induction false} AfterMaintenance(s: State, s1: State, seen: set<Txn>, b: Blk)
    requires Height(BlockID(b)) == |s.path| > 0 && BucketOpened(s, s1, |s.path| + MATURITY_DELAY)
    requires Fresh(s1, seen, |s.path| - 1) && Balanced(s1.contracts, |s.path| - 1)
    ensures BucketClosed(s, s1, Maintained(s1, b, |s.path|), |s.path|)
  {
    hide Fresh, Balanced, Worth, Maintained, BucketValue, Height;
    MaintenanceStep(s1, seen, b, |s.path|);
  }

  /** The states inside a block: after its transactions, and after its maintenance. */
  lemma {:induction false} InsideFacts(r: Rules, id: Hash)
    requires Valid(r, id) && id != GenesisID()
    ensures id.BlockID?
    ensures var s, ts, h := StateAt(id.block.parentID), id.block.transactions, Height(id);
            var s1 := TxnsEffect(Opened(s, h), ts, h);
            var s2 := Maintained(s1, id.block, h);
            && BucketOpened(s, s1, h + MATURITY_DELAY) && BucketClosed(s, s1, s2, h)
            && StateAt(id) == s2.(path := s.path + [id])
  {
    hide StateAt, Healthy, Maintained, BlockOk, Record, Height, CountsAt, TxnsEffect, Opened, DiffCounts;
    StepFacts(r, id);
    var p := id.block.parentID;
    var s, h, ts := StateAt(p), Height(id), id.block.transactions;
    AfterTransactions(r.oracle, s, SeenAt(p), id.block, r.devFund);
    AfterMaintenance(s, TxnsEffect(Opened(s, h), ts, h), Record(SeenAt(p), ts), id.block);
  }

  /** A bucket stays as it is until its height comes. */
  lemma {:induction false} BucketKept(r: Rules, id: Hash, k: nat)
    requires Valid(r, id) && id != GenesisID() && id.BlockID? && k in StateAt(id.block.parentID).delayed
    requires k != Height(id) || Height(id) < MATURITY_DELAY
    ensures k in StateAt(id).delayed && StateAt(id).delayed[k] == StateAt(id.block.parentID).delayed[k]
  {
    hide StateAt, TxnsEffect, Opened, Maintained, Height, Valid, GenesisID;
    InsideFacts(r, id);
  }

  lemma {:induction false} GenesisPayoutHeld(r: Rules, id: Hash)
    requires Valid(r, id) && Height(id) < MATURITY_DELAY
    ensures Held(StateAt(id).delayed, MATURITY_DELAY, ItemID(Payouts(GenesisID()), 0))
  {
    hide Effect, GenesisBlock, CalculateCoinbase, BlockOk, Allocation;
    if id == GenesisID() {
      assert StateAt(id) == GenesisState();
    } else {
      StepFacts(r, id);
      GenesisPayoutHeld(r, id.block.parentID);
      BucketKept(r, id, MATURITY_DELAY);
    }
  }

  lemma {:induction false} CoinbaseIsPositive(h: nat)
    requires h > 0
    ensures CalculateCoinbase(h) > 0
  {
  }

  /** The bucket that matures is never empty. */
  lemma {:induction false} MaturingIsSome(r: Rules, id: Hash)
    requires Valid(r, id) && id != GenesisID() && Height(id) >= MATURITY_DELAY
    ensures id.BlockID? && Height(id) in StateAt(id.block.parentID).delayed
    ensures StateAt(id.block.parentID).delayed[Height(id)] != map[]
  {
    hide StateAt, Effect, BlockOk, CalculateCoinbase, Fresh, Balanced, Height, Record, CountsAt, GenesisID;
    StepFacts(r, id);
    var s, h := StateAt(id.block.parentID), Height(id);
    if h == MATURITY_DELAY {
      GenesisPayoutHeld(r, id.block.parentID);
    } else {
      CoinbaseIsPositive(h - MATURITY_DELAY);
      EmptyIsWorthless();
    }
  }

  lemma {:induction false} EmptyIsWorthless()
    ensures BucketValue(map[]) == 0
  {
  }

  lemma {:induction false} PayoutStays(s: State, b: Blk, h: nat)
    requires h + MATURITY_DELAY in s.delayed && b.minerPayouts != []
    ensures Held(Maintained(s, b, h).delayed, h + MATURITY_DELAY, ItemID(Payouts(BlockID(b)), 0))
  {
    hide AddItems, MissedItems, Expiring;
    var src := Payouts(BlockID(b));
    AddItemsSplit(s.delayed[h + MATURITY_DELAY], src, b.minerPayouts);
    ItemsKeys(src, b.minerPayouts);
    assert From(src, ItemID(src, 0));
  }

  /** The first miner payout of a block is in the bucket that the block opens. */
  lemma {:induction false} PayoutHeld(r: Rules, id: Hash)
    requires Valid(r, id) && id != GenesisID()
    ensures Held(StateAt(id).delayed, Height(id) + MATURITY_DELAY, ItemID(Payouts(id), 0))
  {
    hide StateAt, Height, GenesisID, CountsAt, TxnsEffect, Opened, Maintained, Healthy, ValidTransactions, Valid,
         Effect;
    StepFacts(r, id);
    InsideFacts(r, id);
    var s, h := StateAt(id.block.parentID), Height(id);
    PayoutStays(TxnsEffect(Opened(s, h), id.block.transactions, h), id.block, h);
  }

  /** Every block changes the delayed outputs: it opens a bucket and pays into it. */
  lemma {:induction false} DelayedChange(r: Rules, id: Hash)
    requires Valid(r, id) && id != GenesisID()
    ensures var k, p := Height(id) + MATURITY_DELAY, ItemID(Payouts(id), 0);
            && id.BlockID? && Height(id) > 0
            && Held(StateAt(id).delayed, k, p) && !Held(StateAt(id.block.parentID).delayed, k, p)
  {
    hide StateAt, Height, GenesisID, CountsAt, TxnsEffect, Opened, Maintained, Healthy, BlockOk, Effect;
    StepFacts(r, id);
    InsideFacts(r, id);
    PayoutHeld(r, id);
  }

  /** The delayed buckets after a block at height h, with the one it opened gone
      and the one it closed put back empty. */
  ghost function Emptied(delayed: Delayed, h: nat): Delayed {
    Shown(delayed, Closes(h)) - {h + MATURITY_DELAY}
  }

  /** They are those before the block exactly below the height from which
      outputs mature. */
  lemma {:induction false} EmptiedIsBefore(r: Rules, id: Hash)
    requires Valid(r, id) && id != GenesisID()
    ensures id.BlockID?
    ensures Emptied(StateAt(id).delayed, Height(id)) == StateAt(id.block.parentID).delayed
       <==> Height(id) < MATURITY_DELAY
  {
    hide StateAt, Height, GenesisID, TxnsEffect, Opened, Maintained, Valid;
    InsideFacts(r, id);
    var h, d, d' := Height(id), StateAt(id.block.parentID).delayed, StateAt(id).delayed;
    var e := Emptied(d', h);
    if h < MATURITY_DELAY {
      assert e.Keys == d.Keys;
      assert e == d;
    } else {
      MaturingIsSome(r, id);
      assert h in e && e[h] == map[];
    }
  }

  // ---------------------------------------------------------------- spendable outputs

  lemma {:induction false} NoInputsNoOutputs(o: Oracle, s: State, seen: set<Txn>, n: nat, t: Txn)
    requires Fresh(s, seen, n) && s.path != [] && ValidTransaction(o, s, t) && t.siacoinInputs == []
    ensures t.siacoinOutputs == []
  {
    hide Fresh, ValidTransaction;
    CreatorIsNew(o, s, seen, n, t);
  }

  lemma {:induction false} IdleEffect(s: State, t: Txn, height: nat)
    requires t.siacoinInputs == [] && t.siacoinOutputs == []
    ensures TxnEffect(s, t, height).outputs == s.outputs
  {
    hide ReviseAll, AddItems;
    ProveAllCloses(TxnExchange(s, t), t.storageProofs, height + MATURITY_DELAY);
    AddNothing<Output>(s.outputs - InputIDs([]), TxnOutputs(Unsigned(t)));
    assert InputIDs([]) == {};
    assert s.outputs - {} == s.outputs;
  }

  lemma {:induction false} AddNothing<V>(m: map<Hash, V>, src: Source)
    ensures AddItems(m, src, []) == m
  {
  }

  /** Transactions that spend nothing leave the outputs alone. */
  lemma {:induction false} IdleTransactions(o: Oracle, s: State, seen: set<Txn>, ts: seq<Txn>)
    requires s.path != [] && Fresh(s, seen, |s.path| - 1) && Balanced(s.contracts, |s.path| - 1)
    requires |s.path| + MATURITY_DELAY in s.delayed && ValidTransactions(o, s, ts, |s.path|)
    requires forall i :: 0 <= i < |ts| ==> ts[i].siacoinInputs == []
    ensures TxnsEffect(s, ts, |s.path|).outputs == s.outputs && OutputMoves(ts) == 0
  {
    hide Fresh, Balanced, ValidTransaction, TxnEffect, Record, Worth, OnlyPays;
    if ts != [] {
      var pre, t := ts[..|ts| - 1], ts[|ts| - 1];
      IdleTransactions(o, s, seen, pre);
      StillValid(o, s, seen, pre);
      NoInputsNoOutputs(o, TxnsEffect(s, pre, |s.path|), Record(seen, pre), |s.path| - 1, t);
      IdleEffect(TxnsEffect(s, pre, |s.path|), t, |s.path|);
    }
  }

  /** The first input of the first transaction that has one was there before. */
  lemma {:induction false} FirstSpend(o: Oracle, s: State, seen: set<Txn>, ts: seq<Txn>) returns (i: nat)
    requires s.path != [] && Fresh(s, seen, |s.path| - 1) && Balanced(s.contracts, |s.path| - 1)
    requires |s.path| + MATURITY_DELAY in s.delayed && ValidTransactions(o, s, ts, |s.path|)
    requires exists i :: 0 <= i < |ts| && ts[i].siacoinInputs != []
    ensures i < |ts| && ts[i].siacoinInputs != [] && ts[i].siacoinInputs[0].parentID in s.outputs
  {
    hide Fresh, Balanced, ValidTransaction, TxnsEffect, Record, Worth, OnlyPays;
    i := 0;
    while ts[i].siacoinInputs == []
      invariant i < |ts| && forall j :: 0 <= j < i ==> ts[j].siacoinInputs == []
      decreases |ts| - i
    {
      i := i + 1;
    }
    ValidPrefix(o, s, ts, |s.path|, i);
    ValidPrefix(o, s, ts, |s.path|, i + 1);
    assert ts[..i + 1][..i] == ts[..i];
    IdleTransactions(o, s, seen, ts[..i]);
    StillValid(o, s, seen, ts[..i]);
    CreatorIsNew(o, TxnsEffect(s, ts[..i], |s.path|), Record(seen, ts[..i]), |s.path| - 1, ts[i]);
  }

  lemma {:induction false} Entered(seen: set<Txn>, ts: seq<Txn>, i: nat)
    requires i < |ts|
    ensures Unsigned(ts[i]) in Record(seen, ts)
  {
    if i < |ts| - 1 {
      Entered(seen, ts[..|ts| - 1], i);
    }
  }

  lemma {:induction false} SpentIsDead(s: State, seen: set<Txn>, n: nat, u: Txn)
    requires Fresh(s, seen, n) && u in seen && u.siacoinInputs != []
    ensures u.siacoinInputs[0].parentID !in s.outputs
  {
    assert Spends(u, u.siacoinInputs[0].parentID);
  }

  /** What maintenance does to the outputs. */
  lemma {:induction false} MaintainedOutputs(s: State, b: Blk, h: nat)
    ensures h < MATURITY_DELAY ==> Maintained(s, b, h).outputs == s.outputs
    ensures h >= MATURITY_DELAY && h in s.delayed ==> Maintained(s, b, h).outputs == s.outputs + s.delayed[h]
  {
    hide AddItems, MissedItems, Expiring;
  }

  /** A block that spends something takes the first thing it spends away. */
  lemma {:induction false} SpendingChanges(r: Rules, id: Hash)
    requires id.BlockID? && id != GenesisID() && Valid(r, id) && !NothingSpent(id.block)
    ensures OutputsAt(id.block.parentID) != OutputsAt(id)
  {
    hide StateAt, Height, GenesisID, ValidTransactions, Valid, Record, Fresh, Balanced, PayoutsOk, Floors, Effect,
         CountsAt, TxnsEffect, Maintained, DiffCounts, Worth, Window;
    StepFacts(r, id);
    var p, h, ts := id.block.parentID, Height(id), id.block.transactions;
    var s := StateAt(p);
    OpenStep(s, SeenAt(p));
    var i := FirstSpend(r.oracle, Opened(s, h), SeenAt(p), ts);
    Entered(SeenAt(p), ts, i);
    SpentIsDead(StateAt(id), Record(SeenAt(p), ts), |StateAt(id).path| - 1, Unsigned(ts[i]));
  }

  /** One that spends nothing, before anything matures, takes nothing away and adds nothing. */
  lemma {:induction false} IdleBlock(r: Rules, id: Hash)
    requires id.BlockID? && id != GenesisID() && Valid(r, id) && NothingSpent(id.block) && Height(id) < MATURITY_DELAY
    ensures OutputsAt(id.block.parentID) == OutputsAt(id) && CountsAt(id).outputs == 0
  {
    hide StateAt, Height, GenesisID, ValidTransactions, Valid, TxnsEffect, Record, Fresh, Balanced, PayoutsOk, Floors,
         Effect, Maintained, OutputMoves, ContractMoves, Expiring;
    StepFacts(r, id);
    InsideFacts(r, id);
    var p, h, ts := id.block.parentID, Height(id), id.block.transactions;
    var s := StateAt(p);
    OpenStep(s, SeenAt(p));
    IdleTransactions(r.oracle, Opened(s, h), SeenAt(p), ts);
    MaintainedOutputs(TxnsEffect(Opened(s, h), ts, h), id.block, h);
  }

  lemma {:induction false} MaturedIsNew(r: Rules, id: Hash)
    requires Valid(r, id) && id != GenesisID() && Height(id) >= MATURITY_DELAY
    ensures id.BlockID? && OutputsAt(id.block.parentID) != OutputsAt(id)
  {
    hide StateAt, Height, GenesisID, ValidTransactions, Valid, TxnsEffect, Opened, Record, Balanced, Floors, CountsAt,
         Maintained, Effect, Fresh, BlockOk;
    StepFacts(r, id);
    InsideFacts(r, id);
    MaturingIsSome(r, id);
    var p, h := id.block.parentID, Height(id);
    var s := StateAt(p);
    var q :| q in s.delayed[h];
    DelayedAreApart(s, SeenAt(p), |s.path| - 1, h);
    MaintainedOutputs(TxnsEffect(Opened(s, h), id.block.transactions, h), id.block, h);
    assert q in OutputsAt(id) && q !in OutputsAt(p);
  }

  /** Maturing and spending leave a trace: what matures was not spendable
      before, and what is first spent is dead afterwards. */
  lemma {:induction false} OutputsChange(r: Rules, id: Hash)
    requires id.BlockID? && id != GenesisID() && Valid(r, id)
    ensures OutputsAt(id.block.parentID) == OutputsAt(id) <==> Height(id) < MATURITY_DELAY && NothingSpent(id.block)
    ensures CountsAt(id).outputs > 0 ==> OutputsAt(id.block.parentID) != OutputsAt(id)
  {
    hide OutputsAt, Height, GenesisID, Valid, CountsAt, NothingSpent;
    if Height(id) >= MATURITY_DELAY {
      MaturedIsNew(r, id);
    } else if NothingSpent(id.block) {
      IdleBlock(r, id);
    } else {
      SpendingChanges(r, id);
    }
  }

  // ---------------------------------------------------------------- contracts

  lemma {:induction false} WindowsAreAhead(o: Oracle, s: State, t: Txn)
    requires s.path != [] && ValidTransaction(o, s, t)
    ensures forall i :: 0 <= i < |t.fileContracts| ==> t.fileContracts[i].windowEnd > |s.path|
    ensures forall i :: 0 <= i < |t.fileContractRevisions| ==> t.fileContractRevisions[i].newWindowEnd > |s.path|
  {
    hide ValidSiacoins, ValidStorageProofs, ValidFileContractRevisions, NoRepeats, FollowsMinimumValues, ValueSum;
    forall i | 0 <= i < |t.fileContracts|
      ensures t.fileContracts[i].windowEnd > |s.path|
    {
      assert ContractCorrect(t.fileContracts[i], |s.path| - 1);
    }
  }

  /** A contract that ends by now was there before the transaction. */
  lemma {:induction false} EndingIsOld(o: Oracle, s: State, t: Txn, c: Hash)
    requires s.path != [] && ValidTransaction(o, s, t)
    requires c in TxnEffect(s, t, |s.path|).contracts && TxnEffect(s, t, |s.path|).contracts[c].windowEnd <= |s.path|
    ensures c in s.contracts && s.contracts[c].windowEnd <= |s.path|
  {
    hide ValidTransaction, AddItems, ReviseAll, ProveAll;
    var src, h := TxnContracts(Unsigned(t)), |s.path|;
    var formed := AddItems(s.contracts, src, t.fileContracts);
    WindowsAreAhead(o, s, t);
    ProveAllCloses(TxnExchange(s, t), t.storageProofs, h + MATURITY_DELAY);
    RevisedEndLater(formed, t.fileContractRevisions, h, c);
    AddItemsSplit(s.contracts, src, t.fileContracts);
    ItemsKeys(src, t.fileContracts);
  }

  lemma {:induction false} RevisedEndLater(contracts: map<Hash, Contract>, rs: seq<Revision>, h: nat, c: Hash)
    requires forall i :: 0 <= i < |rs| ==> rs[i].newWindowEnd > h
    requires c in ReviseAll(contracts, rs) && ReviseAll(contracts, rs)[c].windowEnd <= h
    ensures c in contracts && contracts[c] == ReviseAll(contracts, rs)[c]
  {
    if rs != [] {
      RevisedEndLater(contracts, rs[..|rs| - 1], h, c);
    }
  }

  lemma {:induction false} EndingsAreOld(o: Oracle, s: State, ts: seq<Txn>, c: Hash)
    requires s.path != [] && ValidTransactions(o, s, ts, |s.path|) && c in TxnsEffect(s, ts, |s.path|).contracts
    requires TxnsEffect(s, ts, |s.path|).contracts[c].windowEnd <= |s.path|
    ensures c in s.contracts
  {
    hide ValidTransaction, TxnEffect;
    if ts != [] {
      var pre, t := ts[..|ts| - 1], ts[|ts| - 1];
      var s1 := TxnsEffect(s, pre, |s.path|);
      SamePath(s, pre, |s.path|);
      EndingIsOld(o, s1, t, c);
      EndingsAreOld(o, s, pre, c);
    }
  }

  lemma {:induction false} SamePath(s: State, ts: seq<Txn>, h: nat)
    ensures TxnsEffect(s, ts, h).path == s.path
  {
    hide ProveAll;
    if ts != [] {
      SamePath(s, ts[..|ts| - 1], h);
      var t, s1 := ts[|ts| - 1], TxnsEffect(s, ts[..|ts| - 1], h);
      ProveAllCloses(TxnExchange(s1, t), t.storageProofs, h + MATURITY_DELAY);
    }
  }

  predicate FormedBy(t: Txn, c: Hash) { From(TxnContracts(Unsigned(t)), c) && c.index < |t.fileContracts| }

  predicate RevisedBy(t: Txn, c: Hash) { RevisionsIn(t.fileContractRevisions, c) != [] }

  predicate ProvedBy(t: Txn, c: Hash) {
    exists i :: 0 <= i < |t.storageProofs| && t.storageProofs[i].parentID == c
  }

  predicate FormedIn(ts: seq<Txn>, c: Hash) { exists i :: 0 <= i < |ts| && FormedBy(ts[i], c) }
  predicate RevisedIn(ts: seq<Txn>, c: Hash) { RevisionsOf(ts, c) != [] }
  predicate ProvedIn(ts: seq<Txn>, c: Hash) { exists i :: 0 <= i < |ts| && ProvedBy(ts[i], c) }

  lemma {:induction false} InMore(ts: seq<Txn>, c: Hash)
    requires ts != []
    ensures var pre, t := ts[..|ts| - 1], ts[|ts| - 1];
            && (FormedIn(ts, c) <==> FormedIn(pre, c) || FormedBy(t, c))
            && (RevisedIn(ts, c) <==> RevisedIn(pre, c) || RevisedBy(t, c))
            && (ProvedIn(ts, c) <==> ProvedIn(pre, c) || ProvedBy(t, c))
  {
    hide FormedBy, ProvedBy, RevisionsIn;
    assert ts == ts[..|ts| - 1] + [ts[|ts| - 1]];
  }

  /** What a valid transaction does to one contract. */
  lemma {:induction false} ContractAfterOne(o: Oracle, s: State, seen: set<Txn>, n: nat, t: Txn, height: nat, c: Hash)
    requires Fresh(s, seen, n) && s.path != [] && ValidTransaction(o, s, t)
    ensures var cs := TxnEffect(s, t, height).contracts;
            && (c in cs <==> (c in s.contracts || FormedBy(t, c)) && !ProvedBy(t, c))
            && (c in s.contracts && c in cs && !RevisedBy(t, c) ==> cs[c] == s.contracts[c])
            && (c in s.contracts && c in cs && RevisedBy(t, c) ==>
                  cs[c].revisionNumber > s.contracts[c].revisionNumber)
    ensures FormedBy(t, c) ==> Unsigned(t) !in seen && c !in s.contracts
    ensures ProvedBy(t, c) ==> c in s.contracts
  {
    hide Fresh, ValidSiacoins, ValidTransaction, TxnExchange, ProveAll;
    FormedAreNew(o, s, seen, n, t);
    ItemsKeys(TxnContracts(Unsigned(t)), t.fileContracts);
    ProveAllCloses(TxnExchange(s, t), t.storageProofs, height + MATURITY_DELAY);
    NamedAreThere(o, s, t);
    ContractExchanged(s, t, c);
  }

  /** What a valid transaction revises and proves. */
  lemma {:induction false} NamedAreThere(o: Oracle, s: State, t: Txn)
    requires s.path != [] && ValidTransaction(o, s, t)
    ensures forall r :: r in t.fileContractRevisions ==> RevisionOk(s, r)
    ensures forall c :: ProvedBy(t, c) ==> c in s.contracts
  {
    hide StandaloneValid, ValidSiacoins, RevisionOk;
    forall i | 0 <= i < |t.storageProofs|
      ensures t.storageProofs[i].parentID in s.contracts
    {
      assert ProofOk(o, s, t.storageProofs[i]);
    }
  }

  lemma {:induction false} ContractExchanged(s: State, t: Txn, c: Hash)
    requires FormedBy(t, c) ==> c !in s.contracts
    requires forall r :: r in t.fileContractRevisions ==> RevisionOk(s, r)
    ensures var cs := TxnExchange(s, t).contracts;
            && (c in cs <==> c in s.contracts || FormedBy(t, c))
            && (c in s.contracts && !RevisedBy(t, c) ==> cs[c] == s.contracts[c])
            && (c in s.contracts && RevisedBy(t, c) ==> cs[c].revisionNumber > s.contracts[c].revisionNumber)
  {
    hide ReviseAll, AddItems;
    var src, rs := TxnContracts(Unsigned(t)), t.fileContractRevisions;
    var formed := AddItems(s.contracts, src, t.fileContracts);
    AddItemsSplit(s.contracts, src, t.fileContracts);
    ItemsKeys(src, t.fileContracts);
    if c in s.contracts {
      ReviseAmends(formed, rs, c);
      var found := RevisionsIn(rs, c);
      if found != [] {
        assert RevisionOk(s, found[|found| - 1]);
      }
    }
  }

  /** What the transactions of a block do to one contract. */
  lemma {:induction false} ContractAfter(o: Oracle, s: State, seen: set<Txn>, ts: seq<Txn>, c: Hash)
    requires s.path != [] && Fresh(s, seen, |s.path| - 1) && Balanced(s.contracts, |s.path| - 1)
    requires |s.path| + MATURITY_DELAY in s.delayed && ValidTransactions(o, s, ts, |s.path|)
    ensures var cs := TxnsEffect(s, ts, |s.path|).contracts;
            && (c in cs <==> (c in s.contracts || FormedIn(ts, c)) && !ProvedIn(ts, c))
            && (c in s.contracts && c in cs && !RevisedIn(ts, c) ==> cs[c] == s.contracts[c])
            && (c in s.contracts && c in cs ==> cs[c].revisionNumber >= s.contracts[c].revisionNumber)
            && (c in s.contracts && c in cs && RevisedIn(ts, c) ==>
                  cs[c].revisionNumber > s.contracts[c].revisionNumber)
    ensures FormedIn(ts, c) ==> c !in s.contracts
    ensures ProvedIn(ts, c) ==> Created(Record(seen, ts), c)
  {
    hide Fresh, Balanced, ValidTransaction, TxnEffect, FormedBy, RevisedBy, ProvedBy, FormedIn, RevisedIn, ProvedIn;
    if ts == [] {
      assert !FormedIn(ts, c) && !RevisedIn(ts, c) && !ProvedIn(ts, c) by { InNone(c); }
    } else {
      var pre, t := ts[..|ts| - 1], ts[|ts| - 1];
      ContractAfter(o, s, seen, pre, c);
      StillValid(o, s, seen, pre);
      var s1, seen1 := TxnsEffect(s, pre, |s.path|), Record(seen, pre);
      ContractAfterOne(o, s1, seen1, |s.path| - 1, t, |s.path|, c);
      InMore(ts, c);
      ContractsAreCreated(s1, seen1, |s.path| - 1, c);
      ContractsAreCreated(s, seen, |s.path| - 1, c);
      RecordGrows(seen, pre);
      FormedIsFrom(t, c);
    }
  }

  lemma {:induction false} InNone(c: Hash)
    ensures !FormedIn([], c) && !RevisedIn([], c) && !ProvedIn([], c)
  {
  }

  lemma {:induction false} FormedIsFrom(t: Txn, c: Hash)
    ensures FormedBy(t, c) ==> c.ItemID? && c.source == TxnContracts(Unsigned(t))
  {
  }

  lemma {:induction false} PaysSome<H>(outs: seq<SiacoinOutput<H>>)
    requires ValueSum(outs) > 0
    ensures outs != [] && SliceSize(OutputSize<H>, outs) >= 48
  {
    ListBounds(OutputSize<H>, outs, 40);
  }

  /** A revision goes on paying as much as its contract, which takes space. */
  lemma {:induction false} RevisionsAreBig(o: Oracle, s: State, t: Txn, i: nat)
    requires s.path != [] && ValidTransaction(o, s, t) && Balanced(s.contracts, |s.path| - 1)
    requires i < |t.fileContractRevisions|
    ensures RevisionSize(t.fileContractRevisions[i]) >= 176
  {
    hide StandaloneValid, ValidSiacoins, ValidStorageProofs, ValueSum, ListSize;
    var r := t.fileContractRevisions[i];
    assert RevisionOk(s, r);
    PaysSome(r.newValidProofOutputs);
  }

  /** Each contract diff of a transaction takes at least 88 bytes. */
  lemma {:induction false} MovesOfOne(o: Oracle, s: State, t: Txn)
    requires s.path != [] && ValidTransaction(o, s, t) && Balanced(s.contracts, |s.path| - 1)
    ensures TransactionSize(t) >= 88 * (|t.fileContracts| + 2 * |t.fileContractRevisions| + |t.storageProofs|)
  {
    hide InputSize, OutputSize, CurrencySize, SignatureSize, ValidTransaction, Balanced, RevisionSize;
    forall i | 0 <= i < |t.fileContractRevisions|
      ensures RevisionSize(t.fileContractRevisions[i]) >= 176
    {
      RevisionsAreBig(o, s, t, i);
    }
    ListBounds(ContractSize<Hash>, t.fileContracts, 88);
    ListBounds(RevisionSize<Hash>, t.fileContractRevisions, 176);
    ListBounds(ProofSize<Hash>, t.storageProofs, 88);
  }

  lemma {:induction false} MovesTakeSpace(o: Oracle, s: State, seen: set<Txn>, ts: seq<Txn>)
    requires s.path != [] && Fresh(s, seen, |s.path| - 1) && Balanced(s.contracts, |s.path| - 1)
    requires |s.path| + MATURITY_DELAY in s.delayed && ValidTransactions(o, s, ts, |s.path|)
    ensures ListSize(TransactionSize<Hash>, ts) >= 88 * ContractMoves(ts)
  {
    hide TransactionSize, Fresh, Balanced, ValidTransaction, TxnsEffect, Record, Worth, OnlyPays;
    if ts != [] {
      var pre := ts[..|ts| - 1];
      MovesTakeSpace(o, s, seen, pre);
      TransactionsConserve(o, s, seen, |s.path| - 1, pre);
      MovesOfOne(o, TxnsEffect(s, pre, |s.path|), ts[|ts| - 1]);
      ListOneMore(TransactionSize<Hash>, ts);
    }
  }

  lemma {:induction false} ListOneMore<T>(size: T -> nat, xs: seq<T>)
    requires xs != []
    ensures ListSize(size, xs) == ListSize(size, xs[..|xs| - 1]) + size(xs[|xs| - 1])
  {
    if |xs| == 1 {
      assert xs[1..] == [] && xs[..0] == [];
    } else {
      ListOneMore(size, xs[1..]);
      assert xs[1..][..|xs| - 2] == xs[..|xs| - 1][1..];
    }
  }

  /** A block within the size limit records more contract diffs than the decoder
      accepts only if contracts end with it, and those were there before. */
  lemma {:induction false} ContractsChange(r: Rules, id: Hash)
    requires id.BlockID? && id != GenesisID() && Valid(r, id) && BlockSize(id.block) <= BLOCK_SIZE_LIMIT
    requires !ContractListFits(CountsAt(id))
    ensures ContractsAt(id.block.parentID) != ContractsAt(id)
  {
    hide StateAt, Height, GenesisID, Valid, ValidTransactions, TxnsEffect, Opened, Record, Healthy, PayoutsOk,
         BlockSize, OutputMoves, ContractMoves, Maintained, Expiring, Maturing;
    StepFacts(r, id);
    var s, h, ts := StateAt(id.block.parentID), Height(id), id.block.transactions;
    var s1 := TxnsEffect(Opened(s, h), ts, h);
    OpenedIsFit(s, SeenAt(id.block.parentID));
    MovesAreFew(r.oracle, Opened(s, h), SeenAt(id.block.parentID), id.block);
    assert |Expiring(s1.contracts, h)| > 0;
    var c :| c in Expiring(s1.contracts, h);
    OpenedKeeps(s, h);
    ExpiringEnds(s1, id.block, h, c);
    EndingsAreOld(r.oracle, Opened(s, h), ts, c);
    assert c !in ContractsAt(id);
  }

  /** The contract diffs for which a block has room. */
  lemma {:induction false} MovesAreFew(o: Oracle, s: State, seen: set<Txn>, b: Blk)
    requires s.path != [] && Fresh(s, seen, |s.path| - 1) && Balanced(s.contracts, |s.path| - 1)
    requires |s.path| + MATURITY_DELAY in s.delayed && ValidTransactions(o, s, b.transactions, |s.path|)
    requires BlockSize(b) <= BLOCK_SIZE_LIMIT
    ensures 88 * ContractMoves(b.transactions) <= BLOCK_SIZE_LIMIT
  {
    hide Fresh, Balanced, ValidTransactions, ContractMoves, TransactionSize, OutputSize, ListSize;
    MovesTakeSpace(o, s, seen, b.transactions);
  }

  lemma {:induction false} ExpiringEnds(s: State, b: Blk, h: nat, c: Hash)
    requires c in Expiring(s.contracts, h)
    ensures c in s.contracts && s.contracts[c].windowEnd == h && c !in Maintained(s, b, h).contracts
  {
    hide AddItems, MissedItems;
  }

  lemma {:induction false} OpenedIsFit(s: State, seen: set<Txn>)
    requires Healthy(s, seen)
    ensures var s' := Opened(s, |s.path|);
            && s'.path == s.path && Fresh(s', seen, |s.path| - 1) && Balanced(s'.contracts, |s.path| - 1)
            && |s.path| + MATURITY_DELAY in s'.delayed
  {
    hide Fresh, Balanced, Floors, Window, Worth;
    OpenStep(s, seen);
  }

  lemma {:induction false} OpenedKeeps(s: State, h: nat)
    ensures Opened(s, h).path == s.path && Opened(s, h).contracts == s.contracts
  {
  }

  /** A block at height h leaves the contracts alone: it revises and proves none
      of them, none of them ends, and it proves itself what it forms. */
  ghost predicate LeavesContracts(contracts: map<Hash, Contract>, b: Blk, h: nat) {
    && (forall c :: c in contracts ==>
          !RevisedIn(b.transactions, c) && !ProvedIn(b.transactions, c) && contracts[c].windowEnd != h)
    && (forall c :: FormedIn(b.transactions, c) ==> ProvedIn(b.transactions, c))
  }

  /** One contract before and after a block. */
  lemma {:induction false} ContractKept(r: Rules, id: Hash, c: Hash)
    requires id.BlockID? && id != GenesisID() && Valid(r, id)
    ensures var p, q, ts := ContractsAt(id.block.parentID), ContractsAt(id), id.block.transactions;
            && (c in p && c in q && p[c] == q[c]
                <==> c in p && !RevisedIn(ts, c) && !ProvedIn(ts, c) && p[c].windowEnd != Height(id))
            && (c !in p ==> (c in q <==> FormedIn(ts, c) && !ProvedIn(ts, c)))
            && (FormedIn(ts, c) ==> c !in p)
  {
    hide StateAt, Height, GenesisID, Valid, ValidTransactions, TxnsEffect, Opened, Record, Healthy, PayoutsOk,
         Maintained, FormedIn, RevisedIn, ProvedIn, DiffCounts;
    StepFacts(r, id);
    var s, h, ts := StateAt(id.block.parentID), Height(id), id.block.transactions;
    var s0, s1 := Opened(s, h), TxnsEffect(Opened(s, h), ts, h);
    OpenedIsFit(s, SeenAt(id.block.parentID));
    OpenedKeeps(s, h);
    ContractAfter(r.oracle, s0, SeenAt(id.block.parentID), ts, c);
    MaintainedContracts(s1, id.block, h, c);
    if c in s1.contracts && s1.contracts[c].windowEnd == h {
      EndingsAreOld(r.oracle, s0, ts, c);
    }
  }

  /** Exactly when the contracts stay as they are. */
  lemma {:induction false} ContractsSame(r: Rules, id: Hash)
    requires id.BlockID? && id != GenesisID() && Valid(r, id)
    ensures ContractsAt(id.block.parentID) == ContractsAt(id)
       <==> LeavesContracts(ContractsAt(id.block.parentID), id.block, Height(id))
  {
    hide ContractsAt, Height, GenesisID, Valid, FormedIn, RevisedIn, ProvedIn;
    var p, q, ts := ContractsAt(id.block.parentID), ContractsAt(id), id.block.transactions;
    forall c
      ensures c in p && c in q && p[c] == q[c]
         <==> c in p && !RevisedIn(ts, c) && !ProvedIn(ts, c) && p[c].windowEnd != Height(id)
      ensures c !in p ==> (c in q <==> FormedIn(ts, c) && !ProvedIn(ts, c))
      ensures FormedIn(ts, c) ==> c !in p
    {
      ContractKept(r, id, c);
    }
  }

  // ---------------------------------------------------------------- blocks that do not read back

  /** What getBlockMap leaves of the diffs of a validated block that does not read back. */
  lemma {:induction false} Leftover(r: Rules, blockMap: BlockMap, oak: Oak, id: Hash)
    requires TreeOk(r, blockMap, oak) && id in blockMap && blockMap[id].diffsGenerated && id != GenesisID()
    ensures id.BlockID? && Valid(r, id) && BlockSize(id.block) <= BLOCK_SIZE_LIMIT && blockMap[id].height == Height(id)
    ensures blockMap[id].block == id.block && Recorded(blockMap[id], StateAt(id.block.parentID), StateAt(id))
    ensures ReadsBack(blockMap[id]) <==> BlockFits(id.block) && ListsFit(CountsAt(id))
    ensures !ReadsBack(blockMap[id]) ==>
              var pb, l, c := blockMap[id], Load(r.salvage, blockMap[id]), CountsAt(id);
              var fits := BlockFits(id.block) && OutputListFits(c);
              && l.outputDiffs == (if fits then pb.outputDiffs else [])
              && l.contractDiffs == (if fits && ContractListFits(c) then pb.contractDiffs else [])
              && l.delayedDiffs == []
              && (BlockFits(id.block) ==> l.block == id.block && l.height == Height(id))
  {
    hide WeightAt, Recorded, StateAt, Valid, Rooted, Height, BlockFits, DiffCounts, GenesisNode, GenesisID, PayoutsOk,
         Load, BlockSize;
    assert NodeOk(r, blockMap, oak, id);
    if !ReadsBack(blockMap[id]) {
      LoadLeaves(r.salvage, blockMap[id]);
    }
  }

  /** The state that reverting a block leads to when its block decodes and one of
      its lists of diffs does not: the lists before that one are undone. */
  ghost function Undone(id: Hash): State
    requires id.BlockID?
  {
    var p, c := id.block.parentID, CountsAt(id);
    State(if OutputListFits(c) then OutputsAt(p) else OutputsAt(id),
          if OutputListFits(c) && ContractListFits(c) then ContractsAt(p) else ContractsAt(id),
          Emptied(StateAt(id).delayed, Height(id)),
          StateAt(p).path)
  }

  /** That is the state before the block if and only if the delayed outputs alone
      are too many and nothing has matured yet. */
  lemma {:induction false} UndoneIsBefore(r: Rules, id: Hash)
    requires id.BlockID? && id != GenesisID() && Valid(r, id) && BlockSize(id.block) <= BLOCK_SIZE_LIMIT
    ensures Undone(id) == StateAt(id.block.parentID)
       <==> OutputListFits(CountsAt(id)) && ContractListFits(CountsAt(id)) && Height(id) < MATURITY_DELAY
  {
    hide StateAt, Height, GenesisID, Valid, CountsAt, BlockSize, Emptied;
    EmptiedIsBefore(r, id);
    OutputsChange(r, id);
    if !ContractListFits(CountsAt(id)) {
      ContractsChange(r, id);
    }
  }

  /** Reverting what is left of the diffs leads there. */
  lemma {:induction false} LeftoverUndone(r: Rules, blockMap: BlockMap, oak: Oak, id: Hash)
    requires TreeOk(r, blockMap, oak) && id in blockMap && blockMap[id].diffsGenerated && id != GenesisID()
    requires id.BlockID? && BlockFits(id.block) && !ListsFit(CountsAt(id))
    ensures var l := Load(r.salvage, blockMap[id]);
            && l.block == id.block && l.height == Height(id) && l.delayedDiffs == []
            && RevertAll(OutputsAt(id), l.outputDiffs) == Undone(id).outputs
            && Explains(Undone(id).contracts, l.contractDiffs, ContractsAt(id))
            && StateAt(id).path == StateAt(id.block.parentID).path + [id]
  {
    hide TreeOk, StateAt, Valid, Height, BlockFits, CountsAt, GenesisID, Load, BlockSize, ExplainsDelayed, Emptied,
         Shown, OpenBucket;
    Leftover(r, blockMap, oak, id);
    RevertUndoes(OutputsAt(id.block.parentID), blockMap[id].outputDiffs);
  }
}
