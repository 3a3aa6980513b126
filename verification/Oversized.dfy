/** Blocks that obey every rule and still exceed the decoder's limits. */
module Oversized {
  import opened Types
  import opened Hashing
  import opened Numerals
  import opened Wire
  import opened WireTypes
  import opened WireLimits
  import opened Ledger
  import opened Supply
  import Signatures
  import opened Admission
  import opened Validation
  import opened Freshness
  import opened Conservation
  import opened BlockEffects
  import opened Chain
  import opened Buckets
  import opened Storage
  import opened BlockTree
  import opened Footprint

  /** A block that pays the coinbase to its miner and the developers. */
  function PaidBlock<H>(parent: H, nonce: Nonce, timestamp: uint64, height: nat, miner: H, devFund: H,
                        ts: seq<Transaction<H>>): Block<H> {
    var dev := CalculateCoinbase(height) / DEV_FUND_DENOM;
    Block(parent, nonce, timestamp,
      [SiacoinOutput(CalculateCoinbase(height) - dev, miner), SiacoinOutput(dev, devFund)], ts)
  }

  lemma {:induction false} CoinbaseRange(height: nat)
    requires height > 2
    ensures 0 < CalculateCoinbase(height) < 0x1_0000_0000_0000_0000_0000_0000_0000_0000
  {
  }

  lemma {:induction false} NoFees<H>(ts: seq<Transaction<H>>)
    requires forall i :: 0 <= i < |ts| ==> ts[i].minerFees == []
    ensures FeesOf(ts) == 0
  {
    if ts != [] {
      NoFees(ts[..|ts| - 1]);
    }
  }

  lemma {:induction false} PaidBlockPays<H>(b: Block<H>, nonce: Nonce, timestamp: uint64, height: nat, miner: H,
                                            devFund: H)
    requires height > 2 && b == PaidBlock(b.parentID, nonce, timestamp, height, miner, devFund, b.transactions)
    requires forall i :: 0 <= i < |b.transactions| ==> b.transactions[i].minerFees == []
    ensures PayoutsOk(b, height, devFund) && SliceSize(OutputSize<H>, b.minerPayouts) <= 120
  {
    hide CalculateCoinbase, BigEndian;
    CoinbaseRange(height);
    NoFees(b.transactions);
    var ps := b.minerPayouts;
    assert ps[..1][..0] == [] && ps[..1] == [ps[0]];
    assert ValueSum(ps) == ValueSum(ps[..1]) + ps[1].value && ValueSum(ps[..1]) == ValueSum(ps[..1][..0]) + ps[0].value;
    LargePower();
    BigEndianLength(ps[0].value, 16);
    BigEndianLength(ps[1].value, 16);
    OneSize(OutputSize<H>, ps[1]);
    assert ps[1..] == [ps[1]];
    assert ListSize(OutputSize<H>, ps) == OutputSize(ps[0]) + ListSize(OutputSize<H>, ps[1..]);
  }

  lemma {:induction false} OneSize<T>(size: T -> nat, x: T)
    ensures ListSize(size, [x]) == size(x)
  {
    assert [x][1..] == [];
  }

  // ---------------------------------------------------------------- too many transactions

  function EmptyTransaction<H>(): Transaction<H> {
    Transaction([], [], [], [], [], [], [], [])
  }

  function Empties<H>(n: nat): (ts: seq<Transaction<H>>)
    ensures |ts| == n && forall i :: 0 <= i < n ==> ts[i] == EmptyTransaction<H>()
  {
    seq(n, _ => EmptyTransaction<H>())
  }

  lemma {:induction false} EmptyKeeps(s: State, height: nat)
    ensures TxnEffect(s, EmptyTransaction(), height) == s
  {
    assert InputIDs([]) == {};
    assert s.outputs - {} == s.outputs;
  }

  lemma {:induction false} EmptyIsValid(o: Oracle, s: State)
    requires s.path != []
    ensures ValidTransaction(o, s, EmptyTransaction())
  {
    hide Admissible, StandaloneValid;
    EmptyStandsAlone(o, |s.path| - 1);
    var t: Txn := EmptyTransaction();
    assert SpentValue(s.outputs, t.siacoinInputs) == 0 && SiacoinOutputSum(t) == 0;
  }

  lemma {:induction false} EmptyStandsAlone(o: Oracle, height: nat)
    ensures StandaloneValid(o, EmptyTransaction(), height)
  {
    hide Admissible;
    EmptyIsAdmissible(height, o.verify);
    var t: Txn := EmptyTransaction();
    assert InputParents(t) == [] && ProofParents(t) + RevisionParents(t) == [];
  }

  lemma {:induction false} EmptyIsAdmissible(height: nat, verify: Signatures.Verifier<Hash>)
    ensures Admissible(EmptyTransaction(), height, verify)
  {
    var t: Txn := EmptyTransaction();
    assert Signatures.Parents(t) == [];
    assert TransactionSize(t) == 64;
  }

  lemma {:induction false} EmptiesAreValid(o: Oracle, s: State, n: nat, height: nat)
    requires s.path != []
    ensures ValidTransactions(o, s, Empties(n), height) && TxnsEffect(s, Empties(n), height) == s
  {
    hide ValidTransaction, TxnEffect;
    if n > 0 {
      EmptiesAreValid(o, s, n - 1, height);
      assert Empties<Hash>(n)[..n - 1] == Empties(n - 1);
      EmptyIsValid(o, s);
      EmptyKeeps(s, height);
    }
  }

  /** On every valid chain there is a next block that is valid and within the
      size limit, but not within those of the decoder: one of 26042 empty
      transactions. */
  lemma {:induction false} CrowdedBlockIsValid(r: Rules, b: Blk, nonce: Nonce, timestamp: uint64, miner: Hash)
    requires Valid(r, b.parentID) && Height(b.parentID) >= 2
    requires b == PaidBlock(b.parentID, nonce, timestamp, Height(b.parentID) + 1, miner, r.devFund, Empties(26_042))
    ensures Valid(r, BlockID(b)) && BlockSize(b) <= BLOCK_SIZE_LIMIT && !BlockFits(b)
  {
    hide StateAt, ValidTransactions, PayoutsOk, Healthy, CalculateCoinbase, Opened, Ancestry, OutputSize;
    var p, s := b.parentID, StateAt(b.parentID);
    EveryChain(r.oracle, r.devFund, p);
    PaidBlockPays(b, nonce, timestamp, Height(p) + 1, miner, r.devFund);
    EmptiesAreValid(r.oracle, Opened(s, |s.path|), 26_042, |s.path|) by { OpenedPath(s, |s.path|); }
    OpenedPath(s, |s.path|);
    NotGenesis(b);
    ChainStep(r.oracle, r.devFund, BlockID(b));
    assert TransactionSize(EmptyTransaction<Hash>()) == 64;
    ListOfEqual(TransactionSize<Hash>, b.transactions, 64);
  }

  lemma {:induction false} OpenedPath(s: State, height: nat)
    ensures Opened(s, height).path == s.path
  {
  }

  lemma {:induction false} NotGenesis(b: Blk)
    requires |b.transactions| > 1
    ensures BlockID(b) != GenesisID()
  {
  }

  // ---------------------------------------------------------------- too many diffs

  /** Unlock conditions that anybody meets, without a signature. */
  function Anybody(): UnlockConditions { UnlockConditions(0, [], 0) }

  /** Spends an output that needs no signature on 1558 small ones. */
  function Split<H>(parent: H, to: H): Transaction<H> {
    Transaction([SiacoinInput(parent, Anybody())], seq(1_558, _ => SiacoinOutput(1, to)), [], [],
      [], [], [], [])
  }

  lemma {:induction false} SplitSize<H>(parent: H, to: H)
    ensures TransactionSize(Split(parent, to)) == 63_998
  {
    var t := Split(parent, to);
    hide BigEndian;
    assert |BigEndian(1)| == 1 by { OneByte(); }
    ListOfEqual(OutputSize<H>, t.siacoinOutputs, 41);
    OneSize(InputSize<H>, t.siacoinInputs[0]);
  }

  lemma {:induction false} OneByte()
    ensures |BigEndian(1)| == 1
  {
    assert BigEndian(0) == [];
  }

  lemma {:induction false} MovesOfSplits(ts: seq<Txn>)
    requires forall i :: 0 <= i < |ts| ==> |ts[i].siacoinInputs| == 1 && |ts[i].siacoinOutputs| == 1_558
    ensures OutputMoves(ts) == 1_559 * |ts|
  {
    if ts != [] {
      MovesOfSplits(ts[..|ts| - 1]);
    }
  }

  function Splits<H>(parents: seq<H>, to: H): (ts: seq<Transaction<H>>)
    ensures |ts| == |parents| && forall i :: 0 <= i < |ts| ==> ts[i] == Split(parents[i], to)
  {
    seq(|parents|, i requires 0 <= i < |parents| => Split(parents[i], to))
  }

  lemma {:induction false} ValueOfOnes(outs: seq<Output>)
    requires forall i :: 0 <= i < |outs| ==> outs[i].value == 1
    ensures ValueSum(outs) == |outs|
  {
    if outs != [] {
      ValueOfOnes(outs[..|outs| - 1]);
    }
  }

  lemma {:induction false} SplitIsAdmissible(parent: Hash, to: Hash, height: nat, verify: Signatures.Verifier<Hash>)
    ensures Admissible(Split(parent, to), height, verify)
  {
    hide TransactionSize;
    SplitSize(parent, to);
    var t := Split(parent, to);
    var ps := Signatures.Parents(t);
    assert ps == [(parent, Anybody())];
    assert ps[..0] == [];
    assert Signatures.Conditions(ps) == map[parent := Anybody()];
  }

  /** Worth 1558 to anybody. */
  predicate Free(outputs: map<Hash, Output>, p: Hash) {
    p in outputs && outputs[p] == SiacoinOutput(1_558, AddressOf(Anybody()))
  }

  lemma {:induction false} SplitIsValid(o: Oracle, s: State, parent: Hash, to: Hash)
    requires s.path != [] && Free(s.outputs, parent)
    ensures ValidTransaction(o, s, Split(parent, to))
  {
    hide Admissible;
    var t := Split(parent, to);
    SplitIsAdmissible(parent, to, |s.path| - 1, o.verify);
    ValueOfOnes(t.siacoinOutputs);
    assert InputParents(t) == [parent] && ProofParents(t) + RevisionParents(t) == [];
    assert t.siacoinInputs[..0] == [];
    assert SpentValue(s.outputs, t.siacoinInputs) == SpentValue(s.outputs, t.siacoinInputs[..0]) + 1_558;
  }

  /** It leaves all other outputs as they are. */
  lemma {:induction false} SplitLeaves(o: Oracle, s: State, seen: set<Txn>, n: nat, parent: Hash, to: Hash, height: nat,
                                       q: Hash)
    requires s.path != [] && Fresh(s, seen, n) && Free(s.outputs, parent) && q in s.outputs && q != parent
    ensures var s' := TxnEffect(s, Split(parent, to), height); q in s'.outputs && s'.outputs[q] == s.outputs[q]
  {
    hide Fresh, ValidTransaction, AddItems;
    var t := Split(parent, to);
    SplitIsValid(o, s, parent, to);
    MadeAreNew(o, s, seen, n, t);
    AddItemsSplit(s.outputs - InputIDs(t.siacoinInputs), TxnOutputs(Unsigned(t)), t.siacoinOutputs);
  }

  /** Any number of them are valid one after the other. */
  lemma {:induction false} SplitsAreValid(o: Oracle, s: State, seen: set<Txn>, parents: seq<Hash>, to: Hash)
    requires s.path != [] && Fresh(s, seen, |s.path| - 1) && Balanced(s.contracts, |s.path| - 1)
    requires |s.path| + MATURITY_DELAY in s.delayed && Distinct(parents)
    requires forall i :: 0 <= i < |parents| ==> Free(s.outputs, parents[i])
    ensures ValidTransactions(o, s, Splits(parents, to), |s.path|)
    ensures var s' := TxnsEffect(s, Splits(parents, to), |s.path|);
            forall q :: Free(s.outputs, q) && q !in parents ==> Free(s'.outputs, q)
  {
    hide Fresh, Balanced, ValidTransaction, TxnEffect, Split, Record;
    if parents != [] {
      var pre, p := parents[..|parents| - 1], parents[|parents| - 1];
      SplitsAreValid(o, s, seen, pre, to);
      assert Splits(parents, to)[..|pre|] == Splits(pre, to);
      var s' := TxnsEffect(s, Splits(pre, to), |s.path|);
      StillValid(o, s, seen, Splits(pre, to));
      SplitIsValid(o, s', p, to);
      forall q | Free(s.outputs, q) && q !in parents
        ensures Free(TxnsEffect(s, Splits(parents, to), |s.path|).outputs, q)
      {
        SplitLeaves(o, s', Record(seen, Splits(pre, to)), |s.path| - 1, p, to, |s.path|, q);
      }
    }
  }

  /** What a block of 31 such transactions takes. */
  lemma {:induction false} BusyBlockFits(b: Blk, nonce: Nonce, timestamp: uint64, height: nat, miner: Hash,
                                         devFund: Hash, parents: seq<Hash>, to: Hash)
    requires height > 2 && |parents| == 31
    requires b == PaidBlock(b.parentID, nonce, timestamp, height, miner, devFund, Splits(parents, to))
    ensures PayoutsOk(b, height, devFund) && BlockSize(b) <= BLOCK_SIZE_LIMIT && BlockFits(b)
    ensures OutputMoves(b.transactions) == 1_559 * 31
  {
    hide PayoutsOk, CalculateCoinbase, OutputSize, TransactionSize, Split, BlockFits;
    forall i | 0 <= i < 31
      ensures TransactionSize(b.transactions[i]) == 63_998 && b.transactions[i].minerFees == []
      ensures |b.transactions[i].siacoinInputs| == 1 && |b.transactions[i].siacoinOutputs| == 1_558
    {
      SplitSize(parents[i], to);
      SplitParts(parents[i], to);
    }
    PaidBlockPays(b, nonce, timestamp, height, miner, devFund);
    ListOfEqual(TransactionSize<Hash>, b.transactions, 63_998);
    AdmittedBlockFits(b);
    MovesOfSplits(b.transactions);
  }

  /** On every valid chain with 31 outputs of 1558 that need no signature there
      is a next block that is valid, within the size limit and accepted by the
      decoder of the network, but with more output diffs than that of the block
      map accepts, so that reverting it does not lead back: one that splits them
      all. */
  lemma {:induction false} BusyBlockIsLost(r: Rules, b: Blk, nonce: Nonce, timestamp: uint64, miner: Hash,
                                           parents: seq<Hash>, to: Hash)
    requires Valid(r, b.parentID) && Height(b.parentID) >= 2 && |parents| == 31 && Distinct(parents)
    requires forall i :: 0 <= i < 31 ==> Free(StateAt(b.parentID).outputs, parents[i])
    requires b == PaidBlock(b.parentID, nonce, timestamp, Height(b.parentID) + 1, miner, r.devFund, Splits(parents, to))
    ensures Valid(r, BlockID(b)) && BlockSize(b) <= BLOCK_SIZE_LIMIT && BlockFits(b)
    ensures !OutputListFits(CountsAt(BlockID(b))) && Undone(BlockID(b)) != StateAt(b.parentID)
  {
    hide StateAt, ValidTransactions, PayoutsOk, Healthy, CalculateCoinbase, Opened, Ancestry, OutputSize, Splits,
         BlockFits, BlockSize, Fresh, Balanced, OutputMoves, Undone;
    var p, s := b.parentID, StateAt(b.parentID);
    EveryChain(r.oracle, r.devFund, p);
    BusyBlockFits(b, nonce, timestamp, Height(p) + 1, miner, r.devFund, parents, to);
    OpenedIsFit(s, SeenAt(p));
    OpenedOutputs(s, |s.path|);
    SplitsAreValid(r.oracle, Opened(s, |s.path|), SeenAt(p), parents, to);
    NotGenesis(b);
    ChainStep(r.oracle, r.devFund, BlockID(b));
    UndoneIsBefore(r, BlockID(b));
  }

  lemma {:induction false} OpenedOutputs(s: State, height: nat)
    ensures Opened(s, height).outputs == s.outputs
  {
  }

  lemma {:induction false} SplitParts<H>(parent: H, to: H)
    ensures var t := Split(parent, to); t.minerFees == [] && |t.siacoinInputs| == 1 && |t.siacoinOutputs| == 1_558
  {
  }
}
