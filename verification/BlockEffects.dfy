/** What a whole block does to the invariants of the ledger: ids stay fresh,
    contracts stay balanced and unexpired, the delayed buckets stay the window
    they should be, and the coins grow by exactly the coinbase. */
module BlockEffects {
  import opened Types
  import opened Hashing
  import opened Sums
  import opened Diffs
  import opened Ledger
  import opened Supply
  import opened Validation
  import opened Freshness
  import opened Conservation

  /** The buckets at height n: those of n+1 .. n+MATURITY_DELAY, and none below MATURITY_DELAY. */
  ghost predicate Window(delayed: Delayed, n: int) {
    forall k: nat :: k in delayed <==> n < k <= n + MATURITY_DELAY && MATURITY_DELAY <= k
  }

  /** A bucket holds at least the coinbase of the block that opened it. */
  ghost predicate Floors(delayed: Delayed) {
    forall k :: k in delayed ==> k >= MATURITY_DELAY && BucketValue(delayed[k]) >= CalculateCoinbase(k - MATURITY_DELAY)
  }

  /** What every state on a chain satisfies. */
  ghost predicate Healthy(s: State, seen: set<Txn>) {
    && s.path != []
    && Fresh(s, seen, |s.path| - 1)
    && Balanced(s.contracts, |s.path| - 1)
    && Window(s.delayed, |s.path| - 1)
    && Floors(s.delayed)
  }

  /** Every transaction is valid in the state its predecessors leave. */
  ghost predicate ValidTransactions(o: Oracle, s: State, ts: seq<Txn>, height: nat)
    requires s.path != []
  {
    ts == [] ||
    (&& ValidTransactions(o, s, ts[..|ts| - 1], height)
     && var s' := TxnsEffect(s, ts[..|ts| - 1], height);
        s'.path != [] && ValidTransaction(o, s', ts[|ts| - 1]))
  }

  lemma {:induction false} ValidPrefix(o: Oracle, s: State, ts: seq<Txn>, height: nat, i: nat)
    requires s.path != [] && ValidTransactions(o, s, ts, height) && i <= |ts|
    ensures ValidTransactions(o, s, ts[..i], height)
    decreases |ts|
  {
    hide ValidTransaction, TxnsEffect;
    if i == |ts| {
      assert ts[..i] == ts;
    } else {
      ValidPrefix(o, s, ts[..|ts| - 1], height, i);
      assert ts[..|ts| - 1][..i] == ts[..i];
    }
  }

  function Record(seen: set<Txn>, ts: seq<Txn>): set<Txn> {
    if ts == [] then seen else Record(seen, ts[..|ts| - 1]) + {Unsigned(ts[|ts| - 1])}
  }

  // ---------------------------------------------------------------- the transactions

  lemma {:induction false} TransactionsConserve(o: Oracle, s: State, seen: set<Txn>, n: nat, ts: seq<Txn>)
    requires s.path != [] && ValidTransactions(o, s, ts, |s.path|)
    requires Fresh(s, seen, n) && Balanced(s.contracts, |s.path| - 1) && |s.path| + MATURITY_DELAY in s.delayed
    ensures var s' := TxnsEffect(s, ts, |s.path|);
            && Fresh(s', Record(seen, ts), n) && Balanced(s'.contracts, |s.path| - 1)
            && Worth(s') + FeesOf(ts) == Worth(s)
            && OnlyPays(s.delayed, s'.delayed, |s.path| + MATURITY_DELAY) && s'.path == s.path
  {
    hide Fresh, Balanced, ValidTransaction, Worth, CurrencySum, TxnEffect;
    if ts != [] {
      var pre, t := ts[..|ts| - 1], ts[|ts| - 1];
      TransactionsConserve(o, s, seen, n, pre);
      var s1 := TxnsEffect(s, pre, |s.path|);
      TransactionConserves(o, s1, Record(seen, pre), n, t);
    }
  }

  // ---------------------------------------------------------------- opening a bucket

  lemma {:induction false} OpenWorth(s: State, k: nat)
    requires k !in s.delayed
    ensures Worth(s.(delayed := OpenBucket(s.delayed, k))) == Worth(s)
  {
    TotalInsert(s.delayed, k, map[], BucketValue);
  }

  // ---------------------------------------------------------------- miner payouts

  /** The state after the miner payouts of a block are delayed. */
  function Paid(s: State, b: Blk, height: nat): State {
    s.(delayed := PayInto(s.delayed, height + MATURITY_DELAY, Payouts(BlockID(b)), b.minerPayouts))
  }

  lemma {:induction false} PayoutsStep(s: State, seen: set<Txn>, n: nat, b: Blk, k: nat)
    requires Fresh(s, seen, n) && Height(BlockID(b)) == n + 1 && k == n + 1 + MATURITY_DELAY && k in s.delayed
    ensures Fresh(Paid(s, b, n + 1), seen, n + 1)
    ensures Worth(Paid(s, b, n + 1)) == Worth(s) + ValueSum(b.minerPayouts)
    ensures Paid(s, b, n + 1).delayed.Keys == s.delayed.Keys
    ensures forall j :: j in s.delayed && j != k ==> Paid(s, b, n + 1).delayed[j] == s.delayed[j]
    ensures BucketValue(Paid(s, b, n + 1).delayed[k]) == BucketValue(s.delayed[k]) + ValueSum(b.minerPayouts)
  {
    var src := Payouts(BlockID(b));
    var extra := AddItems(map[], src, b.minerPayouts);
    ItemsKeys(src, b.minerPayouts);
    forall p | p in extra
      ensures Untouched(s, seen, p) && Used(s.contracts, seen, n + 1, p) && p !in s.delayed[k]
    {
      UnusedIsUntouched(s, seen, n, p);
      assert !Held(s.delayed, k, p);
    }
    RaiseFresh(s, seen, n, n + 1);
    AddDelayedFresh(s, seen, n + 1, k, extra);
    PayIntoIsUnion(s.delayed, k, src, b.minerPayouts);
    PayWorth(s.delayed, k, extra);
    TotalUnion(s.delayed[k], extra, OutputValue);
  }

  // ---------------------------------------------------------------- maturing

  lemma {:induction false} MatureWorth(s: State, seen: set<Txn>, n: nat, h: nat)
    requires Fresh(s, seen, n)
    ensures Worth(Mature(s, h)) == Worth(s)
  {
    if h >= MATURITY_DELAY && h in s.delayed {
      forall p | p in s.delayed[h]
        ensures p !in s.outputs
      {
        assert Held(s.delayed, h, p);
      }
      TotalUnion(s.outputs, s.delayed[h], OutputValue);
      TotalSplit(s.delayed, h, BucketValue);
    }
  }

  // ---------------------------------------------------------------- contracts that end

  /** Missed-proof outputs are worth the contracts they come from. */
  lemma {:induction false} MissedTotal(contracts: map<Hash, Contract>, ids: set<Hash>, n: int)
    requires Balanced(contracts, n) && ids <= contracts.Keys
    ensures BucketValue(MissedItems(contracts, ids)) == SumOver(ids, contracts, ContractValue)
    decreases ids
  {
    if ids == {} {
      assert MissedItems(contracts, ids) == map[];
    } else {
      var id :| id in ids;
      var rest := ids - {id};
      var outs := contracts[id].missedProofOutputs;
      var mine := AddItems(map[], ProofOutputs(id, false), outs);
      MissedTotal(contracts, rest, n);
      MissedSplit(contracts, ids, id);
      ItemsTotal(ProofOutputs(id, false), outs, OutputValue);
      ListOfValues(outs);
      ItemsKeys(ProofOutputs(id, false), outs);
      TotalUnion(MissedItems(contracts, rest), mine, OutputValue);
      SumOverSplit(ids, contracts, id, ContractValue);
    }
  }

  lemma {:induction false} MissedSplit(contracts: map<Hash, Contract>, ids: set<Hash>, id: Hash)
    requires id in ids && ids <= contracts.Keys
    ensures MissedItems(contracts, ids)
         == MissedItems(contracts, ids - {id})
           + AddItems(map[], ProofOutputs(id, false), contracts[id].missedProofOutputs)
  {
    ItemsKeys(ProofOutputs(id, false), contracts[id].missedProofOutputs);
  }

  /** A missed-proof output of an open contract has never been seen. */
  lemma {:induction false} MissedAreNew(s: State, seen: set<Txn>, n: nat, ids: set<Hash>, k: nat)
    requires Fresh(s, seen, n) && ids <= s.contracts.Keys && k in s.delayed
    ensures var s1 := s.(contracts := s.contracts - ids);
            forall p :: p in MissedItems(s.contracts, ids) ==>
              Untouched(s1, seen, p) && Used(s1.contracts, seen, n, p) && p !in s.delayed[k]
  {
    var s1 := s.(contracts := s.contracts - ids);
    forall p | p in MissedItems(s.contracts, ids)
      ensures Untouched(s1, seen, p) && Used(s1.contracts, seen, n, p) && p !in s.delayed[k]
    {
      UnusedIsUntouched(s, seen, n, p);
      assert !Held(s.delayed, k, p);
      SameLives(s, s1, p);
    }
  }

  lemma {:induction false} ContractsSplit(contracts: map<Hash, Contract>, ids: set<Hash>)
    requires ids <= contracts.Keys
    ensures Total(contracts, ContractValue)
            == SumOver(ids, contracts, ContractValue) + Total(contracts - ids, ContractValue)
  {
    var rest := contracts - ids;
    assert rest.Keys + ids == contracts.Keys;
    SumOverUnion(rest.Keys, ids, contracts, ContractValue);
    SumOverAgree(rest.Keys, contracts, rest, ContractValue);
  }

  lemma {:induction false} ExpireStep(s: State, seen: set<Txn>, h: nat)
    requires Fresh(s, seen, h) && Balanced(s.contracts, h - 1) && h + MATURITY_DELAY in s.delayed
    ensures Fresh(Expire(s, h), seen, h)
    ensures Balanced(Expire(s, h).contracts, h)
    ensures Worth(Expire(s, h)) == Worth(s)
    ensures OnlyPays(s.delayed, Expire(s, h).delayed, h + MATURITY_DELAY)
  {
    hide Fresh, Untouched, Used, SumOver, MissedItems;
    var ids, k := Expiring(s.contracts, h), h + MATURITY_DELAY;
    var extra := MissedItems(s.contracts, ids);
    CloseFresh(s, seen, h, ids);
    MissedAreNew(s, seen, h, ids, k);
    AddDelayedFresh(s.(contracts := s.contracts - ids), seen, h, k, extra);
    MissedTotal(s.contracts, ids, h - 1);
    ContractsSplit(s.contracts, ids);
    PayWorth(s.delayed, k, extra);
    TotalUnion(s.delayed[k], extra, OutputValue);
  }

  // ---------------------------------------------------------------- one block

  /** The rules a block must obey in the state of its parent. */
  ghost predicate BlockOk(o: Oracle, s: State, b: Blk, devFund: Hash)
    requires s.path != []
  {
    && ValidTransactions(o, Opened(s, |s.path|), b.transactions, |s.path|)
    && PayoutsOk(b, |s.path|, devFund)
  }

  lemma {:induction false} OpenStep(s: State, seen: set<Txn>)
    requires Healthy(s, seen)
    ensures var s' := Opened(s, |s.path|);
            && Fresh(s', seen, |s.path| - 1) && s'.contracts == s.contracts && s'.path == s.path
            && Worth(s') == Worth(s)
            && |s.path| + MATURITY_DELAY !in s.delayed
            && s'.delayed.Keys == s.delayed.Keys + {|s.path| + MATURITY_DELAY}
            && (forall k :: k in s.delayed ==> s'.delayed[k] == s.delayed[k])
  {
    hide Fresh, Balanced, Worth, Floors;
    OpenFresh(s, seen, |s.path| - 1, |s.path| + MATURITY_DELAY);
    OpenWorth(s, |s.path| + MATURITY_DELAY);
  }

  lemma {:induction false} MaintenanceStep(s: State, seen: set<Txn>, b: Blk, h: nat)
    requires Height(BlockID(b)) == h == |s.path| && h > 0
    requires Fresh(s, seen, h - 1) && Balanced(s.contracts, h - 1) && h + MATURITY_DELAY in s.delayed
    ensures var s' := Maintained(s, b, h);
            && Fresh(s', seen, h) && Balanced(s'.contracts, h)
            && Worth(s') == Worth(s) + ValueSum(b.minerPayouts)
            && s'.path == s.path
            && s'.delayed.Keys == (if h < MATURITY_DELAY then s.delayed.Keys else s.delayed.Keys - {h})
            && (forall k :: k in s'.delayed && k != h + MATURITY_DELAY ==> s'.delayed[k] == s.delayed[k])
            && BucketValue(s'.delayed[h + MATURITY_DELAY]) >= ValueSum(b.minerPayouts)
  {
    hide Fresh, Balanced, Worth, BucketValue, ValueSum, PayInto;
    PayoutsStep(s, seen, h - 1, b, h + MATURITY_DELAY);
    var s1 := Paid(s, b, h);
    MatureFresh(s1, seen, h, h);
    MatureWorth(s1, seen, h, h);
    ExpireStep(Mature(s1, h), seen, h);
  }

  /** A block takes a healthy state to a healthy state. The coins grow by the
      coinbase, less the fees that blocks 1 and 2 leave to nobody. */
  lemma {:induction false} BlockConserves(o: Oracle, s: State, seen: set<Txn>, b: Blk, devFund: Hash)
    requires Healthy(s, seen) && Height(BlockID(b)) == |s.path| && BlockOk(o, s, b, devFund)
    ensures Healthy(Effect(s, b, |s.path|), Record(seen, b.transactions))
    ensures Worth(Effect(s, b, |s.path|)) + Burned(b, |s.path|) == Worth(s) + CalculateCoinbase(|s.path|)
    ensures Effect(s, b, |s.path|).path == s.path + [BlockID(b)]
  {
    hide Fresh, Balanced, Worth, Opened, TxnsEffect, Maintained, ValidTransactions, Record, PayoutsOk, BucketValue,
         CalculateCoinbase, Floors, Window, Burned, FeesOf, ValueSum, Height;
    var h := |s.path|;
    OpenStep(s, seen);
    assert h + MATURITY_DELAY in Opened(s, h).delayed.Keys;
    TransactionsConserve(o, Opened(s, h), seen, h - 1, b.transactions);
    var s1 := TxnsEffect(Opened(s, h), b.transactions, h);
    MaintenanceStep(s1, Record(seen, b.transactions), b, h);
    PayoutsHandOutWhatIsDue(b, h, devFund);
    var s2 := Maintained(s1, b, h);
    AppendPath(s2, Record(seen, b.transactions), h, BlockID(b));
    WindowMoves(s.delayed, s1.delayed, s2.delayed, h);
  }

  /** The path is no part of what is owned. */
  lemma {:induction false} AppendPath(s: State, seen: set<Txn>, n: nat, id: Hash)
    requires Fresh(s, seen, n)
    ensures Fresh(s.(path := s.path + [id]), seen, n)
    ensures Worth(s.(path := s.path + [id])) == Worth(s)
  {
    var s' := s.(path := s.path + [id]);
    assert forall p :: Live(s', p) <==> Live(s, p);
  }

  lemma {:induction false} WindowMoves(d0: Delayed, d1: Delayed, d2: Delayed, h: nat)
    requires h > 0 && Window(d0, h - 1) && Floors(d0)
    requires d1.Keys == d0.Keys + {h + MATURITY_DELAY}
    requires forall k :: k in d0 ==> d1[k] == d0[k]
    requires d2.Keys == (if h < MATURITY_DELAY then d1.Keys else d1.Keys - {h})
    requires forall k :: k in d2 && k != h + MATURITY_DELAY ==> d2[k] == d1[k]
    requires BucketValue(d2[h + MATURITY_DELAY]) >= CalculateCoinbase(h)
    ensures Window(d2, h) && Floors(d2)
  {
  }
}
