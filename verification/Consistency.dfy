/** The consistency checks of the source (modules/consensus/consistency.go),
    and the proof of what they find in every run. */
module Consistency {
  import opened Types
  import opened Hashing
  import opened Sums
  import opened Diffs
  import opened Ledger
  import opened Supply
  import opened Validation
  import Signatures
  import opened Freshness
  import opened Conservation
  import opened BlockEffects
  import opened Chain
  import opened Difficulty
  import opened Weights
  import opened Buckets
  import opened MedianTime
  import opened ChangeLog
  import opened BlockTree
  import opened WireTypes
  import opened WireLimits
  import opened Storage
  import opened Acceptance
  import opened Consensus

  // ---------------------------------------------------------------- the checks

  method SumOutputs(bucket: map<Hash, Output>) returns (total: nat)
    ensures total == BucketValue(bucket)
  {
    total := 0;
    var todo := bucket.Keys;
    while todo != {}
      invariant todo <= bucket.Keys && total + SumOver(todo, bucket, OutputValue) == BucketValue(bucket)
      decreases todo
    {
      var id :| id in todo;
      SumOverSplit(todo, bucket, id, OutputValue);
      total := total + bucket[id].value;
      todo := todo - {id};
    }
  }

  method SumDelayed(delayed: Delayed) returns (total: nat)
    ensures total == Total(delayed, BucketValue)
  {
    total := 0;
    var todo := delayed.Keys;
    while todo != {}
      invariant todo <= delayed.Keys && total + SumOver(todo, delayed, BucketValue) == Total(delayed, BucketValue)
      decreases todo
    {
      var k :| k in todo;
      SumOverSplit(todo, delayed, k, BucketValue);
      var bucket := SumOutputs(delayed[k]);
      total := total + bucket;
      todo := todo - {k};
    }
  }

  method SumContracts(contracts: map<Hash, Contract>) returns (total: nat)
    ensures total == Total(contracts, ContractValue)
  {
    total := 0;
    var todo := contracts.Keys;
    while todo != {}
      invariant todo <= contracts.Keys
      invariant total + SumOver(todo, contracts, ContractValue) == Total(contracts, ContractValue)
      decreases todo
    {
      var id :| id in todo;
      SumOverSplit(todo, contracts, id, ContractValue);
      var outs := contracts[id].validProofOutputs;
      var coins := 0;
      for i := 0 to |outs|
        invariant coins == ValueSum(outs[..i])
      {
        assert outs[..i + 1][..i] == outs[..i];
        coins := coins + outs[i].value;
      }
      assert outs[..|outs|] == outs;
      total := total + coins;
      todo := todo - {id};
    }
  }

  /** checkSiacoinCount. */
  method CheckSiacoinCount(s: State) returns (ok: bool)
    requires s.path != []
    ensures ok <==> Worth(s) == CalculateNumSiacoins(|s.path| - 1)
  {
    var dscoSiacoins := SumDelayed(s.delayed);
    var scoSiacoins := SumOutputs(s.outputs);
    var fcSiacoins := SumContracts(s.contracts);
    return dscoSiacoins + scoSiacoins + fcSiacoins == CalculateNumSiacoins(|s.path| - 1);
  }

  /** No output is delayed in two buckets. */
  ghost predicate Apart(delayed: Delayed) {
    forall j, k :: j in delayed && k in delayed && j != k ==> delayed[j].Keys !! delayed[k].Keys
  }

  /** The scan of one bucket for ids that have been seen in another. */
  method AddIDs(bucket: map<Hash, Output>, idMap: set<Hash>) returns (ok: bool, more: set<Hash>)
    ensures ok <==> bucket.Keys !! idMap
    ensures ok ==> more == idMap + bucket.Keys
  {
    var todo := bucket.Keys;
    more := idMap;
    while todo != {}
      invariant todo <= bucket.Keys && more == idMap + (bucket.Keys - todo)
      invariant (bucket.Keys - todo) !! idMap
      decreases todo
    {
      var id :| id in todo;
      if id in more {
        return false, more;
      }
      more := more + {id};
      todo := todo - {id};
    }
    return true, more;
  }

  /** The minimum value of a bucket; the subtraction is on uint64. */
  function Minimum(k: nat): nat {
    CalculateCoinbase((k - MATURITY_DELAY) % WORD)
  }

  method ScanBuckets(delayed: Delayed) returns (ok: bool)
    ensures ok <==> Apart(delayed) && forall k :: k in delayed ==> BucketValue(delayed[k]) >= Minimum(k)
  {
    var todo, idMap := delayed.Keys, {};
    ghost var done: set<nat> := {};
    while todo != {}
      invariant todo !! done && todo + done == delayed.Keys
      invariant forall k :: k in done ==> BucketValue(delayed[k]) >= Minimum(k)
      invariant forall j, k :: j in done && k in done && j != k ==> delayed[j].Keys !! delayed[k].Keys
      invariant forall id :: id in idMap <==> exists k :: k in done && id in delayed[k]
      decreases todo
    {
      var k :| k in todo;
      var fine, more := AddIDs(delayed[k], idMap);
      if !fine {
        Overlap(delayed, done, idMap, k);
        return false;
      }
      forall j | j in done
        ensures delayed[j].Keys !! delayed[k].Keys
      {
        forall id | id in delayed[j]
          ensures id !in delayed[k]
        {
          assert id in idMap;
        }
      }
      var total := SumOutputs(delayed[k]);
      if total < Minimum(k) {
        return false;
      }
      MoreIDs(delayed, done, idMap, k, more);
      idMap := more;
      todo := todo - {k};
      done := done + {k};
    }
    return true;
  }

  lemma {:induction false} Overlap(delayed: Delayed, done: set<nat>, idMap: set<Hash>, k: nat)
    requires k in delayed && done <= delayed.Keys && k !in done && !(delayed[k].Keys !! idMap)
    requires forall id :: id in idMap <==> exists j :: j in done && id in delayed[j]
    ensures !Apart(delayed)
  {
    var id :| id in delayed[k] && id in idMap;
    var j :| j in done && id in delayed[j];
  }

  lemma {:induction false} MoreIDs(delayed: Delayed, done: set<nat>, idMap: set<Hash>, k: nat, more: set<Hash>)
    requires k in delayed && done <= delayed.Keys && more == idMap + delayed[k].Keys
    requires forall id :: id in idMap <==> exists j :: j in done && id in delayed[j]
    ensures forall id :: id in more <==> exists j :: j in done + {k} && id in delayed[j]
  {
    forall id
      ensures id in more <==> exists j :: j in done + {k} && id in delayed[j]
    {
      if id in idMap {
        var j :| j in done && id in delayed[j];
        assert j in done + {k};
      }
      if id in delayed[k] {
        assert k in done + {k};
      }
    }
  }

  /** The count of expected buckets. */
  method CountBuckets(tracker: set<nat>, height: nat) returns (ok: bool)
    ensures ok <==> forall k: nat :: k in tracker <==> height < k <= height + MATURITY_DELAY && MATURITY_DELAY <= k
  {
    var expectedBuckets := 0;
    ghost var expected: set<nat> := {};
    for i := height + 1 to height + MATURITY_DELAY + 1
      invariant |expected| == expectedBuckets && expected <= tracker
      invariant forall k: nat :: k in expected <==> height < k < i && MATURITY_DELAY <= k
    {
      if i < MATURITY_DELAY {
        continue;
      }
      if i !in tracker {
        return false;
      }
      expected := expected + {i};
      expectedBuckets := expectedBuckets + 1;
    }
    if |tracker| != expectedBuckets {
      assert tracker != expected && !(tracker <= expected);
      ghost var k :| k in tracker && k !in expected;
      return false;
    }
    SameSize(expected, tracker);
    return true;
  }

  lemma {:induction false} SameSize(a: set<nat>, b: set<nat>)
    requires a <= b && |a| == |b|
    ensures a == b
  {
    if x :| x in b && x !in a {
      SubsetSize(a, b - {x});
    }
  }

  lemma {:induction false} SubsetSize(a: set<nat>, b: set<nat>)
    requires a <= b
    ensures |a| <= |b|
  {
    if a != {} {
      var x :| x in a;
      SubsetSize(a - {x}, b - {x});
    }
  }

  /** checkDSCOs. */
  method CheckDSCOs(s: State) returns (ok: bool)
    requires s.path != []
    ensures ok <==> && Apart(s.delayed) && Window(s.delayed, |s.path| - 1)
                    && forall k :: k in s.delayed ==> BucketValue(s.delayed[k]) >= Minimum(k)
  {
    ok := ScanBuckets(s.delayed);
    if ok {
      ok := CountBuckets(s.delayed.Keys, |s.path| - 1);
    }
  }

  // ---------------------------------------------------------------- what they find

  /** In a healthy state of a height that a uint64 holds, checkDSCOs finds nothing. */
  lemma {:induction false} DelayedAreFine(s: State, seen: set<Txn>)
    requires Healthy(s, seen) && |s.path| + MATURITY_DELAY < WORD
    ensures Apart(s.delayed) && Window(s.delayed, |s.path| - 1)
    ensures forall k :: k in s.delayed ==> BucketValue(s.delayed[k]) >= Minimum(k)
  {
    hide BucketValue, CalculateCoinbase, Balanced;
    forall j, k | j in s.delayed && k in s.delayed && j != k
      ensures s.delayed[j].Keys !! s.delayed[k].Keys
    {
      forall p | p in s.delayed[j]
        ensures p !in s.delayed[k]
      {
        assert Held(s.delayed, j, p) && !Held(s.delayed, k, p);
      }
    }
    forall k | k in s.delayed
      ensures BucketValue(s.delayed[k]) >= Minimum(k)
    {
      assert (k - MATURITY_DELAY) % WORD == k - MATURITY_DELAY;
    }
  }

  /** In every run: the buckets are those of the tip's chain, every coin issued
      is in them or was burned, and no open contract has ended. */
  lemma {:induction false} EveryRun(c: ConsensusSet)
    requires c.db.path != [] && c.Consistent()
    ensures c.db.State() == StateAt(c.CurrentID()) && c.db.path == Ancestry(c.CurrentID())
    ensures Worth(c.db.State()) + BurnedAt(c.CurrentID()) == Issued(|c.db.path| - 1)
    ensures Window(c.db.delayed, |c.db.path| - 1) && Floors(c.db.delayed)
    ensures Balanced(c.db.contracts, |c.db.path| - 1)
    ensures forall h: nat, id :: Listed(c.db.expirations, h, id) ==> h > |c.db.path| - 1
  {
    hide TreeOk, StateAt, HistoryOk, LogGenerated, TipIsBest, AllGenerated, Worth, Issued, BurnedAt, Floors, Window,
         Fresh, Ancestry, BlockOk;
    EveryChain(c.rules.oracle, c.rules.devFund, c.CurrentID());
    forall h: nat, id | Listed(c.db.expirations, h, id)
      ensures h > |c.db.path| - 1
    {
      assert EndsAt(c.db.contracts, h, id);
    }
  }

  /** In every run, checkDSCOs finds nothing. */
  method DelayedInEveryRun(c: ConsensusSet) returns (ok: bool)
    requires c.Consistent() && |c.db.path| + MATURITY_DELAY < WORD
    ensures ok
  {
    hide TreeOk, StateAt, HistoryOk, LogGenerated, TipIsBest, AllGenerated, Worth, BurnedAt, Healthy, Ancestry, BlockOk,
         Window, Apart, Minimum, BucketValue;
    ok := CheckDSCOs(c.db.State());
    EveryChain(c.rules.oracle, c.rules.devFund, c.CurrentID());
    DelayedAreFine(c.db.State(), SeenAt(c.CurrentID()));
  }

  /** In every run, the stored blocks all read back exactly when each of them is
      within the decoder's limits, which depends on nothing but its id and on
      whether it has been validated. */
  lemma {:induction false} ReadableInEveryRun(c: ConsensusSet)
    requires c.Consistent()
    ensures c.AllReadBack() <==> forall id :: id in c.blockMap ==> ReadsAt(c.Seen(), id)
  {
    hide TreeOk, StateAt, HistoryOk, LogGenerated, TipIsBest, Valid, ReadsBack, ReadsAt;
    forall id | id in c.blockMap
      ensures ReadsBack(c.blockMap[id]) <==> ReadsAt(c.Seen(), id)
    {
      ReadsBackIs(c.rules, c.blockMap, c.oak, c.Seen(), id);
    }
  }

  /** What the limits are for a validated block of admissible size. */
  lemma {:induction false} LimitsOfValidBlocks(r: Rules, v: View, id: Hash)
    requires id.BlockID? && id != GenesisID() && Valid(r, id) && id in v.generated
    requires BlockSize(id.block) <= BLOCK_SIZE_LIMIT
    ensures ReadsAt(v, id) <==>
              && |id.block.transactions| <= 26_041 && CountsAt(id).outputs <= 48_076
              && CountsAt(id).contracts <= 23_148 && CountsAt(id).delayed <= 44_642
  {
    hide StateAt, ValidTransactions, BlockSize, TransactionSize, BlockFits, CountsAt, GenesisID;
    ChainStep(r.oracle, r.devFund, id);
    var s, ts := StateAt(id.block.parentID), id.block.transactions;
    forall i | 0 <= i < |ts|
      ensures TransactionSize(ts[i]) <= 64_000
    {
      AdmittedSize(r.oracle, Opened(s, |s.path|), ts, |s.path|, i);
    }
    AdmittedBlockFits(id.block);
  }

  lemma {:induction false} AdmittedSize(o: Oracle, s: State, ts: seq<Txn>, height: nat, i: nat)
    requires s.path != [] && ValidTransactions(o, s, ts, height) && i < |ts|
    ensures TransactionSize(ts[i]) <= 64_000
  {
    hide TransactionSize, TxnsEffect, ValidTransaction;
    ValidPrefix(o, s, ts, height, i + 1);
    assert ts[..i + 1][..i] == ts[..i];
    ValidSize(o, TxnsEffect(s, ts[..i], height), ts[i]);
  }

  lemma {:induction false} ValidSize(o: Oracle, s: State, t: Txn)
    requires s.path != [] && ValidTransaction(o, s, t)
    ensures TransactionSize(t) <= 64_000
  {
    hide TransactionSize, Signatures.ProperlySigned, ValidSiacoins, ValidStorageProofs, ValidFileContractRevisions;
  }

  /** Two runs that end on the same tip have the same state, however they got
      there; only empty expiration buckets may differ. */
  lemma {:induction false} PathIndependence(a: ConsensusSet, b: ConsensusSet)
    requires a.Consistent() && b.Consistent() && a.CurrentID() == b.CurrentID()
    ensures a.db.State() == b.db.State()
    ensures forall h: nat, id :: Listed(a.db.expirations, h, id) <==> Listed(b.db.expirations, h, id)
  {
    hide TreeOk, StateAt, HistoryOk, LogGenerated, TipIsBest, AllGenerated;
    forall h: nat, id: Hash
      ensures Listed(a.db.expirations, h, id) <==> Listed(b.db.expirations, h, id)
    {
      assert Listed(a.db.expirations, h, id) <==> EndsAt(a.db.contracts, h, id);
      assert Listed(b.db.expirations, h, id) <==> EndsAt(b.db.contracts, h, id);
    }
  }

  /** In every run below the wrap of the coinbase, checkSiacoinCount finds
      nothing exactly when blocks 1 and 2 of the chain carry no fees. */
  method CountInEveryRun(c: ConsensusSet) returns (ok: bool)
    requires c.Consistent() && |c.db.path| <= WRAP_HEIGHT
    ensures ok <==> BurnedAt(c.CurrentID()) == 0
  {
    hide TreeOk, StateAt, HistoryOk, LogGenerated, TipIsBest, AllGenerated, Worth, CalculateNumSiacoins, BurnedAt,
         Healthy, Ancestry, BlockOk;
    ok := CheckSiacoinCount(c.db.State());
    EveryChain(c.rules.oracle, c.rules.devFund, c.CurrentID());
    SiacoinCount(c.rules.oracle, c.rules.devFund, c.CurrentID());
  }

  /** In every run, the log has no entry twice, starts with genesis, and every
      later entry is the exact move from the tip before it to a tip of strictly
      smaller depth. */
  lemma {:induction false} LogOfEveryRun(c: ConsensusSet, i: nat, j: nat)
    requires c.Consistent() && i < j < |c.log.entries|
    ensures c.log.entries[0] == GenesisEntry(GenesisID()) && c.log.entries[i] != c.log.entries[j]
    ensures c.log.entries[j] == Reorg(Tip(c.log.entries[j - 1]), Tip(c.log.entries[j]))
    ensures Tip(c.log.entries[i]) in c.blockMap && Tip(c.log.entries[j]) in c.blockMap
    ensures c.blockMap[Tip(c.log.entries[j])].depth < c.blockMap[Tip(c.log.entries[i])].depth
  {
    hide TreeOk, StateAt, TipIsBest, WeightAt, Reorg, Ancestry, Rooted, GenesisID, Valid, ExpirationsMatch;
    var entries := c.log.entries;
    assert Heavier(Tip(entries[j]), Tip(entries[i]));
    TipStored(c.blockMap, entries, i);
    TipStored(c.blockMap, entries, j);
    TipWeight(c.rules, c.blockMap, c.oak, Tip(entries[i]));
    TipWeight(c.rules, c.blockMap, c.oak, Tip(entries[j]));
  }

  lemma {:induction false} TipStored(blockMap: BlockMap, entries: seq<ChangeEntry>, i: nat)
    requires LogGenerated(blockMap, entries) && i < |entries| && Rooted(Tip(entries[i]))
    ensures Tip(entries[i]) in blockMap
  {
    hide Ancestry, Rooted, Height, GenesisID;
    AncestryShape(Tip(entries[i]));
    assert AllGenerated(blockMap, Ancestry(Tip(entries[i])));
  }

  /** In every run, every stored block obeys the timestamp rule, so the minimum
      time never goes back along any stored chain. */
  lemma {:induction false} MedianInEveryRun(c: ConsensusSet, id: Hash, ancestor: Hash)
    requires c.Consistent() && id in c.blockMap && ancestor in Ancestry(id)
    ensures Timely(id) && MinimumTime(ancestor) <= MinimumTime(id)
  {
    hide TreeOk, StateAt, HistoryOk, LogGenerated, TipIsBest, AllGenerated, Valid, MinimumTime, Timely,
         ExpirationsMatch, Linked;
    TreeIsTimely(c.rules, c.blockMap, c.oak, id);
    NeverBack(id, ancestor);
  }

  lemma {:induction false} TreeIsTimely(r: Rules, blockMap: BlockMap, oak: Oak, id: Hash)
    requires TreeOk(r, blockMap, oak) && id in blockMap
    ensures Timely(id)
  {
    hide StateAt, Recorded, WeightAt, Valid, PayoutsOk, MinimumTime, GenesisNode, GenesisID, Height, Rooted;
    assert NodeOk(r, blockMap, oak, id);
    if id != GenesisID() {
      TreeIsTimely(r, blockMap, oak, id.block.parentID);
    }
  }

  /** In every run, the stored target of a block is within the Oak bounds of
      the stored target of any ancestor, n blocks back, unless the launch
      height lies between them. */
  lemma {:induction false} OakInEveryRun(c: ConsensusSet, id: Hash, n: nat)
    requires c.Consistent() && id in c.blockMap && n <= Height(id)
    requires !(Height(id) - n <= LAUNCH_HEIGHT < Height(id))
    ensures Ancestor(id, n) in c.blockMap
    ensures var start, end := c.blockMap[Ancestor(id, n)].childTarget as real, c.blockMap[id].childTarget as real;
            start * Power(OAK_MAX_DROP, n) - 251.0 < end <= start * Power(OAK_MAX_RISE, n)
  {
    hide TreeOk, StateAt, HistoryOk, LogGenerated, TipIsBest, AllGenerated, Valid, ExpirationsMatch, Linked, WeightAt,
         Power, Height, Rooted, Ancestry, GenesisID;
    NodeFacts(c.rules, c.blockMap, c.oak, id);
    AncestorStored(c.rules, c.blockMap, c.oak, id, n);
    TipWeight(c.rules, c.blockMap, c.oak, id);
    TipWeight(c.rules, c.blockMap, c.oak, Ancestor(id, n));
    OakOverChain(id, n);
  }

  lemma {:induction false} AncestorStored(r: Rules, blockMap: BlockMap, oak: Oak, id: Hash, n: nat)
    requires TreeOk(r, blockMap, oak) && id in blockMap && n <= Height(id)
    ensures Ancestor(id, n) in blockMap
    decreases n
  {
    hide TreeOk, Rooted, Ancestry, GenesisID, Height;
    if n > 0 {
      GenesisIsLow();
      NodeFacts(r, blockMap, oak, id);
      ParentIsLower(id);
      AncestorStored(r, blockMap, oak, id.block.parentID, n - 1);
    }
  }
}
