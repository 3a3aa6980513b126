/** Chains of blocks: the state a block stands for, and what every valid chain
    guarantees.

    A block id contains its block and so, through the parent id, the whole chain
    below it. The state after a block is therefore a function of its id alone. */
module Chain {
  import opened Types
  import opened Hashing
  import opened Sums
  import opened Ledger
  import opened Supply
  import opened Validation
  import opened Freshness
  import opened Conservation
  import opened BlockEffects
  import Signatures
  import opened Admission
  import opened Numerals
  import opened WireTypes

  // ---------------------------------------------------------------- genesis

  const ALLOCATIONS: nat := 1 + NUM_DEVELOPERS + NUM_CONTRIBUTORS + NUM_POOLS

  /** The value of the i-th output of GenesisAllocation. */
  function AllocationValue(i: nat): nat {
    if i < 1 then AIRDROP_VALUE
    else if i < 1 + NUM_DEVELOPERS then SINGLE_DEVELOPER_AIRDROP_VALUE
    else if i < 1 + NUM_DEVELOPERS + NUM_CONTRIBUTORS then SINGLE_CONTRIBUTOR_AIRDROP_VALUE
    else SINGLE_POOL_AIRDROP_VALUE
  }

  /** Who holds the i-th allocation. The keys behind the genesis addresses are
      not in the source; distinct ones stand for them. */
  function Holder(i: nat): UnlockConditions {
    UnlockConditions(0, [SiaPublicKey(seq(16, _ => 0), [i % 256])], 1)
  }

  /** GenesisAllocation. */
  function Allocation(): seq<Output> {
    seq(ALLOCATIONS, i requires 0 <= i < ALLOCATIONS => SiacoinOutput(AllocationValue(i), AddressOf(Holder(i))))
  }

  function GenesisTransaction(): Txn {
    Transaction([], Allocation(), [], [], [], [], [], [])
  }

  function GenesisBlock(): Blk {
    Block(ZERO, [0, 0, 0, 0, 0, 0, 0, 0], GENESIS_TIMESTAMP, [], [GenesisTransaction()])
  }

  function GenesisID(): Hash { BlockID(GenesisBlock()) }

  /** createConsensusDB: the allocation is spendable at once, and a worthless
      payout of the genesis block is delayed. */
  function GenesisState(): State {
    State(AddItems(map[], TxnOutputs(GenesisTransaction()), GenesisTransaction().siacoinOutputs),
          map[],
          map[MATURITY_DELAY := map[ItemID(Payouts(GenesisID()), 0) := SiacoinOutput(CalculateCoinbase(0), ZERO)]],
          [GenesisID()])
  }

  // ---------------------------------------------------------------- the state of a chain

  /** The fold of the block effects from genesis to a block. */
  ghost function StateAt(id: Hash): State
    decreases id, 1
  {
    if id == GenesisID() || !id.BlockID? then GenesisState() else StateAfter(id)
  }

  ghost function StateAfter(id: Hash): State
    requires id.BlockID?
    decreases id, 0
  {
    var s := StateAt(id.block.parentID);
    Effect(s, id.block, |s.path|)
  }

  /** The transactions applied on the way to a block. */
  ghost function SeenAt(id: Hash): set<Txn> {
    if id == GenesisID() then {GenesisTransaction()}
    else match id
      case BlockID(b) => Record(SeenAt(b.parentID), b.transactions)
      case _ => {}
  }

  /** Fees that the blocks up to this one took out of circulation. */
  function BurnedAt(id: Hash): nat {
    if id == GenesisID() then 0
    else match id
      case BlockID(b) => BurnedAt(b.parentID) + Burned(b, Height(id))
      case _ => 0
  }

  /** The ids from genesis to a block. */
  function Ancestry(id: Hash): (ids: seq<Hash>)
    ensures ids != []
  {
    if id == GenesisID() then [id]
    else match id
      case BlockID(b) => Ancestry(b.parentID) + [id]
      case _ => [id]
  }

  /** Whether a chain of parents leads back to genesis. */
  predicate Rooted(id: Hash) {
    id == GenesisID() || (id.BlockID? && Rooted(id.block.parentID))
  }

  /** Every block obeys the rules in the state of its parent. */
  ghost predicate ValidChain(o: Oracle, devFund: Hash, id: Hash)
    decreases id, 1
  {
    id == GenesisID() || (id.BlockID? && ValidAfter(o, devFund, id))
  }

  ghost predicate ValidAfter(o: Oracle, devFund: Hash, id: Hash)
    requires id.BlockID?
    decreases id, 0
  {
    var s := StateAt(id.block.parentID);
    ValidChain(o, devFund, id.block.parentID) && s.path != [] && BlockOk(o, s, id.block, devFund)
  }

  /** One block more. */
  lemma {:induction false} ChainStep(o: Oracle, devFund: Hash, id: Hash)
    requires id.BlockID? && id != GenesisID()
    ensures var s := StateAt(id.block.parentID);
            && StateAt(id) == Effect(s, id.block, |s.path|)
            && (ValidChain(o, devFund, id) <==>
                  ValidChain(o, devFund, id.block.parentID) && s.path != [] && BlockOk(o, s, id.block, devFund))
  {
    hide Effect, BlockOk, GenesisState, GenesisID;
    assert StateAt(id) == StateAfter(id);
    assert ValidChain(o, devFund, id) <==> ValidAfter(o, devFund, id);
  }

  lemma {:induction false} ValidIsRooted(o: Oracle, devFund: Hash, id: Hash)
    requires ValidChain(o, devFund, id)
    ensures Rooted(id)
  {
    if id != GenesisID() {
      ValidIsRooted(o, devFund, id.block.parentID);
    }
  }

  lemma {:induction false} AncestryShape(id: Hash)
    requires Rooted(id)
    ensures |Ancestry(id)| == Height(id) + 1 && Ancestry(id)[Height(id)] == id && Ancestry(id)[0] == GenesisID()
    ensures forall k :: 0 <= k <= Height(id) ==> Rooted(Ancestry(id)[k]) && Height(Ancestry(id)[k]) == k
    ensures forall k :: 0 <= k <= Height(id) ==> Ancestry(Ancestry(id)[k]) == Ancestry(id)[..k + 1]
    ensures forall k :: 0 < k <= Height(id) ==>
            Ancestry(id)[k].BlockID? && Ancestry(id)[k].block.parentID == Ancestry(id)[k - 1]
  {
    if id != GenesisID() {
      var p := id.block.parentID;
      AncestryShape(p);
      assert !Rooted(ZERO);
      assert Ancestry(id) == Ancestry(p) + [id];
      assert Ancestry(id)[..Height(id) + 1] == Ancestry(id);
      forall k | 0 <= k < Height(id)
        ensures Ancestry(Ancestry(id)[k]) == Ancestry(id)[..k + 1]
      {
        assert Ancestry(id)[k] == Ancestry(p)[k];
        assert Ancestry(id)[..k + 1] == Ancestry(p)[..k + 1];
      }
    }
  }

  // ---------------------------------------------------------------- genesis is healthy

  lemma {:induction false} AllocationAddsUp(n: nat)
    requires n <= ALLOCATIONS
    ensures ValueSum(Allocation()[..n]) == AllocationUpTo(n)
  {
    hide AllocationValue, AllocationUpTo;
    if n > 0 {
      AllocationAddsUp(n - 1);
      assert Allocation()[..n][..n - 1] == Allocation()[..n - 1];
    }
    AllocationStep(n);
  }

  lemma {:induction false} AllocationStep(n: nat)
    ensures AllocationUpTo(n) == if n == 0 then 0 else AllocationUpTo(n - 1) + AllocationValue(n - 1)
  {
    KindStep(AIRDROP_VALUE, n, 0, 1);
    KindStep(SINGLE_DEVELOPER_AIRDROP_VALUE, n, 1, NUM_DEVELOPERS);
    KindStep(SINGLE_CONTRIBUTOR_AIRDROP_VALUE, n, 1 + NUM_DEVELOPERS, NUM_CONTRIBUTORS);
  }

  lemma KindStep(value: nat, n: nat, from: nat, count: nat)
    ensures value * Min(Less(n, from), count)
         == if n == 0 then 0 else value * Min(Less(n - 1, from), count) + if from < n <= from + count then value else 0
  {
    if from < n <= from + count {
      assert value * (n - from) == value * (n - 1 - from) + value;
    }
  }

  /** The sum of the first n allocations, by kind. */
  function AllocationUpTo(n: nat): nat {
    AIRDROP_VALUE * Min(Less(n, 0), 1)
    + SINGLE_DEVELOPER_AIRDROP_VALUE * Min(Less(n, 1), NUM_DEVELOPERS)
    + SINGLE_CONTRIBUTOR_AIRDROP_VALUE * Min(Less(n, 1 + NUM_DEVELOPERS), NUM_CONTRIBUTORS)
    + SINGLE_POOL_AIRDROP_VALUE * Less(n, 1 + NUM_DEVELOPERS + NUM_CONTRIBUTORS)
  }

  function Min(a: nat, b: nat): nat { if a <= b then a else b }
  function Less(a: nat, b: nat): nat { if a <= b then 0 else a - b }

  lemma {:induction false} GenesisWorth()
    ensures Worth(GenesisState()) == Issued(0)
  {
    hide Allocation, CalculateCoinbase, SumOver;
    var s, t := GenesisState(), GenesisTransaction();
    ItemsTotal(TxnOutputs(t), t.siacoinOutputs, OutputValue);
    ListOfValues(t.siacoinOutputs);
    AllocationAddsUp(ALLOCATIONS);
    assert t.siacoinOutputs[..ALLOCATIONS] == t.siacoinOutputs by { AllocationLength(); }
    GenesisDelayed();
    NoContracts();
  }

  lemma {:induction false} AllocationLength()
    ensures |Allocation()| == ALLOCATIONS
  {
  }

  lemma {:induction false} NoContracts()
    ensures Total<Hash, Contract>(map[], ContractValue) == 0
  {
  }

  lemma {:induction false} GenesisDelayed()
    ensures Total(GenesisState().delayed, BucketValue) == 0
    ensures BucketValue(GenesisState().delayed[MATURITY_DELAY]) == 0 == CalculateCoinbase(0)
  {
    hide Allocation;
    var id, out := ItemID(Payouts(GenesisID()), 0), SiacoinOutput(CalculateCoinbase(0), ZERO);
    TotalSingle(id, out, OutputValue);
    TotalSingle(MATURITY_DELAY, map[id := out], BucketValue);
  }

  lemma {:induction false} GenesisHealthy()
    ensures Healthy(GenesisState(), SeenAt(GenesisID()))
    ensures GenesisState().path == Ancestry(GenesisID())
  {
    hide Allocation, CalculateCoinbase, SumOver;
    var s, t := GenesisState(), GenesisTransaction();
    ItemsKeys(TxnOutputs(t), t.siacoinOutputs);
    assert Unsigned(t) == t;
    GenesisDelayed();
    forall k: nat, p | Held(s.delayed, k, p)
      ensures k == MATURITY_DELAY && p == ItemID(Payouts(GenesisID()), 0)
    {
    }
  }

  // ---------------------------------------------------------------- every valid chain

  /** Along every valid chain: ids are fresh, contracts are balanced and not yet
      ended, the delayed buckets are exactly the window above the tip with at
      least the coinbase in each, and all coins ever issued are accounted for. */
  lemma {:induction false} EveryChain(o: Oracle, devFund: Hash, id: Hash)
    requires ValidChain(o, devFund, id)
    ensures Healthy(StateAt(id), SeenAt(id))
    ensures StateAt(id).path == Ancestry(id) && |StateAt(id).path| == Height(id) + 1
    ensures Worth(StateAt(id)) + BurnedAt(id) == Issued(Height(id))
  {
    hide Healthy, Worth, Burned, CalculateCoinbase, GenesisState, Effect, BlockOk, Record;
    ValidIsRooted(o, devFund, id);
    AncestryShape(id);
    if id == GenesisID() {
      GenesisHealthy();
      GenesisWorth();
    } else {
      var p := id.block.parentID;
      EveryChain(o, devFund, p);
      ValidIsRooted(o, devFund, p);
      AncestryShape(p);
      assert !Rooted(ZERO);
      BlockConserves(o, StateAt(p), SeenAt(p), id.block, devFund);
    }
  }

  /** checkSiacoinCount holds on a chain below the wrap exactly when blocks 1
      and 2 carry no fees, and then the closed form is the supply. */
  lemma {:induction false} SiacoinCount(o: Oracle, devFund: Hash, id: Hash)
    requires ValidChain(o, devFund, id) && Height(id) < WRAP_HEIGHT
    ensures Worth(StateAt(id)) == CalculateNumSiacoins(Height(id)) <==> BurnedAt(id) == 0
    ensures Worth(StateAt(id)) <= CalculateNumSiacoins(Height(id))
  {
    EveryChain(o, devFund, id);
    ClosedFormBelowWrap(Height(id));
  }

  // ---------------------------------------------------------------- fees that nobody gets

  /** A signature that covers the whole transaction. */
  function SignsAll(parent: Hash): TransactionSignature<Hash> {
    TransactionSignature(parent, 0, 0, CoveredFields(true, [], [], [], [], [], [], [], []), [])
  }

  /** Spends the airdrop allocation on nothing but miner fees. */
  function AllForFees(): Txn {
    var parent := ItemID(TxnOutputs(GenesisTransaction()), 0);
    Transaction([SiacoinInput(parent, Holder(0))], [], [], [], [], [AIRDROP_VALUE], [], [SignsAll(parent)])
  }

  /** A first block with that transaction. */
  function FirstBlock(): Blk {
    Block(GenesisID(), [0, 0, 0, 0, 0, 0, 0, 0], GENESIS_TIMESTAMP,
          [SiacoinOutput(FIRST_COINBASE * SIACOIN_PRECISION, ZERO)], [AllForFees()])
  }

  lemma {:induction false} AirdropOutput()
    ensures var p := ItemID(TxnOutputs(GenesisTransaction()), 0);
            p in GenesisState().outputs
              && GenesisState().outputs[p] == SiacoinOutput(AIRDROP_VALUE, AddressOf(Holder(0)))
  {
    hide Allocation, CalculateCoinbase, AllocationValue;
    ItemsKeys(TxnOutputs(GenesisTransaction()), GenesisTransaction().siacoinOutputs);
    AllocationAt(0);
    assert AllocationValue(0) == AIRDROP_VALUE by { AllocationStep(1); AllocationStep(0); }
    assert From(TxnOutputs(GenesisTransaction()), ItemID(TxnOutputs(GenesisTransaction()), 0));
  }

  lemma {:induction false} AllocationAt(i: nat)
    requires i < ALLOCATIONS
    ensures |Allocation()| == ALLOCATIONS && Allocation()[i] == SiacoinOutput(AllocationValue(i), AddressOf(Holder(i)))
  {
  }

  /** It is properly signed, whatever the verifier says: the algorithm of the
      holder's key is not one that the source checks. */
  lemma {:induction false} AllForFeesIsSigned(verify: Signatures.Verifier<Hash>)
    ensures Signatures.ProperlySigned(AllForFees(), 0, verify)
  {
    hide GenesisTransaction, Allocation;
    var t := AllForFees();
    var sigs, parent := t.transactionSignatures, t.siacoinInputs[0].parentID;
    var ps := Signatures.Parents(t);
    assert ps == [(parent, Holder(0))] && ps[..0] == [];
    assert Signatures.Conditions(ps) == map[parent := Holder(0)];
    assert sigs[..0] == [];
    assert Signatures.CountFor(sigs, parent) == 1;
    assert Signatures.CoveredFieldsOk(t, sigs[0].coveredFields);
    assert Holder(0).publicKeys[0].algorithm[0] == 0;
    assert Signatures.Belongs(t, 0, Signatures.Conditions(ps), 0, verify);
  }

  lemma {:induction false} LargePower()
    ensures Pow256(16) == 0x1_0000_0000_0000_0000_0000_0000_0000_0000
  {
    assert Pow256(8) == 0x1_0000_0000_0000_0000;
  }

  lemma {:induction false} AllForFeesIsSmall()
    ensures TransactionSize(AllForFees()) <= 1_000
  {
    hide GenesisTransaction, Allocation;
    BigEndianLength(AIRDROP_VALUE, 16) by { LargePower(); }
  }

  lemma {:induction false} AllForFeesIsAdmissible(verify: Signatures.Verifier<Hash>)
    ensures Admissible(AllForFees(), 0, verify)
  {
    hide Signatures.ProperlySigned, TransactionSize;
    AllForFeesIsSigned(verify);
    AllForFeesIsSmall();
  }

  lemma {:induction false} AllForFeesIsValid(o: Oracle, s: State)
    requires s == Opened(GenesisState(), 1)
    ensures ValidTransaction(o, s, AllForFees())
  {
    hide Allocation, CalculateCoinbase, GenesisState, Admissible;
    var t := AllForFees();
    AllForFeesIsAdmissible(o.verify);
    AirdropOutput();
    assert t.siacoinInputs[..0] == [] && t.minerFees[..0] == [];
    assert |s.path| == 1 by { GenesisHealthy(); }
    assert SpentValue(s.outputs, t.siacoinInputs) == SpentValue(s.outputs, t.siacoinInputs[..0]) + AIRDROP_VALUE;
    assert CurrencySum(t.minerFees) == CurrencySum(t.minerFees[..0]) + AIRDROP_VALUE;
  }

  /** Conservation against the closed form does fail: fees in block 1 leave circulation. */
  lemma {:induction false} FeesOfBlockOneAreLost(o: Oracle, devFund: Hash)
    ensures ValidChain(o, devFund, BlockID(FirstBlock()))
    ensures Worth(StateAt(BlockID(FirstBlock()))) < CalculateNumSiacoins(Height(BlockID(FirstBlock())))
  {
    hide Allocation, ValidTransaction, TxnEffect, Worth, CalculateNumSiacoins, Effect;
    var b := FirstBlock();
    var ts := b.transactions;
    assert ts[..0] == [] && ts[0].minerFees[..0] == [];
    GenesisHealthy();
    AllForFeesIsValid(o, Opened(GenesisState(), 1));
    assert ValidTransactions(o, Opened(GenesisState(), 1), ts[..0], 1);
    assert ValidTransactions(o, Opened(GenesisState(), 1), ts, 1);
    assert StateAt(GenesisID()) == GenesisState() && |GenesisState().path| == 1;
    assert PayoutsOk(b, 1, devFund);
    assert BlockOk(o, GenesisState(), b, devFund);
    assert ValidChain(o, devFund, GenesisID());
    assert Height(GenesisID()) == 0 && Height(BlockID(b)) == 1;
    assert FeesOf(ts) == FeesOf(ts[..0]) + CurrencySum(ts[0].minerFees);
    assert CurrencySum(ts[0].minerFees) == AIRDROP_VALUE;
    SiacoinCount(o, devFund, BlockID(b));
  }

  // ---------------------------------------------------------------- replay

  /** A transaction with an input is on a chain at most once. */
  lemma {:induction false} NoReplay(o: Oracle, devFund: Hash, id: Hash, i: nat)
    requires id.BlockID? && id != GenesisID() && ValidChain(o, devFund, id)
    requires i < |id.block.transactions| && id.block.transactions[i].siacoinInputs != []
    ensures Unsigned(id.block.transactions[i]) !in Record(SeenAt(id.block.parentID), id.block.transactions[..i])
  {
    hide StateAt, SeenAt, Worth, Floors, PayoutsOk, Fresh, Balanced, ValidTransactions, Window, Opened, Record,
         GenesisID;
    var p, ts := id.block.parentID, id.block.transactions;
    EveryChain(o, devFund, p);
    var s, h := StateAt(p), |StateAt(p).path|;
    OpenStep(s, SeenAt(p));
    assert h + MATURITY_DELAY in Opened(s, h).delayed.Keys;
    NoReplayInside(o, Opened(s, h), SeenAt(p), ts, i);
  }

  lemma {:induction false} NoReplayInside(o: Oracle, s: State, seen: set<Txn>, ts: seq<Txn>, i: nat)
    requires s.path != [] && Fresh(s, seen, |s.path| - 1) && Balanced(s.contracts, |s.path| - 1)
    requires |s.path| + MATURITY_DELAY in s.delayed && ValidTransactions(o, s, ts, |s.path|)
    requires i < |ts| && ts[i].siacoinInputs != []
    ensures Unsigned(ts[i]) !in Record(seen, ts[..i])
  {
    hide Worth, TxnsEffect, Fresh, Balanced, ValidTransaction, OnlyPays, Record;
    var h := |s.path|;
    ValidPrefix(o, s, ts, h, i + 1);
    ValidPrefix(o, s, ts, h, i);
    TransactionsConserve(o, s, seen, h - 1, ts[..i]);
    assert ts[..i + 1][..i] == ts[..i];
    CreatorIsNew(o, TxnsEffect(s, ts[..i], h), Record(seen, ts[..i]), h - 1, ts[i]);
  }
}
