/** The tree of known blocks, and what a move between two of its tips is. */
module BlockTree {
  import opened Types
  import opened Hashing
  import opened Supply
  import opened Validation
  import opened Freshness
  import opened BlockEffects
  import opened Chain
  import opened Targets
  import opened Weights
  import opened Buckets
  import opened MedianTime
  import opened ChangeLog
  import opened WireTypes

  /** What decides validity besides the block itself, and what the decoder
      leaves of a block that it refuses. */
  datatype Rules = Rules(oracle: Oracle, devFund: Hash, salvage: Blk -> Blk)

  /** The totals of the Oak bucket. */
  datatype Totals = Totals(time: int, target: nat)

  type BlockMap = map<Hash, ProcessedBlock>
  type Oak = map<Hash, Totals>

  ghost predicate Valid(r: Rules, id: Hash) {
    ValidChain(r.oracle, r.devFund, id)
  }

  /** The rules that ValidateBlock checks before a block enters the tree. */
  ghost predicate HeaderOk(r: Rules, id: Hash) {
    && id.BlockID?
    && id.block.timestamp >= MinimumTime(id.block.parentID)
    && BlockSize(id.block) <= BLOCK_SIZE_LIMIT && PayoutsOk(id.block, Height(id), r.devFund)
    && match WeightAt(id.block.parentID)
       case Some(w) => r.oracle.digest(id) <= w.childTarget
       case None => false
  }

  /** The outputs of the genesis block, as diffs. */
  function GenesisDiffs(): seq<Diffs.Diff<Hash, Output>> {
    seq(ALLOCATIONS, i requires 0 <= i < ALLOCATIONS =>
      Diffs.Diff(true, ItemID(TxnOutputs(GenesisTransaction()), i),
        SiacoinOutput(AllocationValue(i), AddressOf(Holder(i)))))
  }

  /** cs.blockRoot. */
  function GenesisNode(): ProcessedBlock {
    ProcessedBlock(GenesisBlock(), 0, ROOT_DEPTH, ROOT_TARGET, true, GenesisDiffs(), [], [])
  }

  /** The numbers of diffs stored with a block, once it has been validated. */
  ghost function CountsAt(id: Hash): Counts {
    if id == GenesisID() then Counts(ALLOCATIONS, 0, 0)
    else match id
      case BlockID(b) => DiffCounts(StateAt(b.parentID), b)
      case _ => Counts(0, 0, 0)
  }

  /** A stored block carries its own height and weight. Its parent is stored
      too. Once its diffs are generated the chain up to it is valid and the
      diffs are the record of its effect; before, there are none. */
  ghost predicate NodeOk(r: Rules, blockMap: BlockMap, oak: Oak, id: Hash)
    requires id in blockMap
  {
    var pb := blockMap[id];
    && Rooted(id) && BlockID(pb.block) == id && pb.height == Height(id)
    && id in oak && WeightAt(id) == Some(Weight(pb.depth, pb.childTarget, oak[id].time, oak[id].target))
    && if id == GenesisID() then pb == GenesisNode()
       else
         && id.block.parentID in blockMap && HeaderOk(r, id)
         && if pb.diffsGenerated then
              Valid(r, id) && Recorded(pb, StateAt(id.block.parentID), StateAt(id)) && CountsOf(pb) == CountsAt(id)
            else pb.outputDiffs == [] && pb.contractDiffs == [] && pb.delayedDiffs == []
  }

  ghost predicate TreeOk(r: Rules, blockMap: BlockMap, oak: Oak) {
    && GenesisID() in blockMap
    && forall id {:trigger NodeOk(r, blockMap, oak, id)} :: id in blockMap ==> NodeOk(r, blockMap, oak, id)
  }

  /** All blocks of a path have been validated. */
  predicate AllGenerated(blockMap: BlockMap, path: seq<Hash>) {
    forall i :: 0 <= i < |path| ==> path[i] in blockMap && blockMap[path[i]].diffsGenerated
  }

  /** None of the known blocks is heavy enough to replace the tip. */
  ghost predicate TipIsBest(blockMap: BlockMap, tip: Hash) {
    tip in blockMap && blockMap[tip].depth > 0 && blockMap[tip].childTarget > 0 ==>
      forall id {:trigger HeavierThan(blockMap[id].depth, blockMap[tip].depth, blockMap[tip].childTarget)} ::
        id in blockMap ==> !HeavierThan(blockMap[id].depth, blockMap[tip].depth, blockMap[tip].childTarget)
  }

  // ---------------------------------------------------------------- the tree grows

  lemma {:induction false} TreeAdd(r: Rules, blockMap: BlockMap, oak: Oak, id: Hash, pb: ProcessedBlock, t: Totals)
    requires TreeOk(r, blockMap, oak) && id !in blockMap && NodeOk(r, blockMap[id := pb], oak[id := t], id)
    ensures TreeOk(r, blockMap[id := pb], oak[id := t])
  {
    hide CountsAt, Valid, HeaderOk, Rooted, WeightAt, Recorded, GenesisID, GenesisNode, StateAt, Height;
    var more := blockMap[id := pb];
    forall j | j in more
      ensures NodeOk(r, more, oak[id := t], j)
    {
      if j != id {
        assert NodeOk(r, blockMap, oak, j);
      }
    }
  }

  /** Validating a block changes nothing but its own entry. */
  lemma {:induction false} TreeGenerate(r: Rules, blockMap: BlockMap, oak: Oak, id: Hash, pb: ProcessedBlock)
    requires TreeOk(r, blockMap, oak) && id in blockMap && id != GenesisID()
    requires pb == blockMap[id].(diffsGenerated := true, outputDiffs := pb.outputDiffs,
                                 contractDiffs := pb.contractDiffs, delayedDiffs := pb.delayedDiffs)
    requires Valid(r, id) && Recorded(pb, StateAt(id.block.parentID), StateAt(id)) && CountsOf(pb) == CountsAt(id)
    ensures TreeOk(r, blockMap[id := pb], oak)
  {
    hide CountsAt, Valid, HeaderOk, Rooted, WeightAt, Recorded, GenesisID, GenesisNode, StateAt, Height;
    assert NodeOk(r, blockMap, oak, id);
    var more := blockMap[id := pb];
    forall j | j in more
      ensures NodeOk(r, more, oak, j)
    {
      assert NodeOk(r, blockMap, oak, j);
    }
  }

  // ---------------------------------------------------------------- moving the tip

  /** The length of the longest common prefix. */
  function Common(a: seq<Hash>, b: seq<Hash>): (c: nat)
    ensures c <= |a| && c <= |b|
  {
    if a == [] || b == [] || a[0] != b[0] then 0 else 1 + Common(a[1..], b[1..])
  }

  lemma {:induction false} CommonIs(a: seq<Hash>, b: seq<Hash>, c: nat)
    requires c <= |a| && c <= |b| && a[..c] == b[..c]
    requires c == |a| || c == |b| || a[c] != b[c]
    ensures Common(a, b) == c
  {
    if c > 0 {
      assert a[0] == a[..c][0] && b[0] == b[..c][0];
      assert a[1..][..c - 1] == a[..c][1..] && b[1..][..c - 1] == b[..c][1..];
      CommonIs(a[1..], b[1..], c - 1);
    }
  }

  function Backwards(ids: seq<Hash>): (b: seq<Hash>)
    ensures |b| == |ids| && forall i :: 0 <= i < |ids| ==> b[i] == ids[|ids| - 1 - i]
  {
    seq(|ids|, i requires 0 <= i < |ids| => ids[|ids| - 1 - i])
  }

  /** The height of the highest common ancestor. */
  function ForkPoint(from: Hash, to: Hash): (k: nat)
    ensures k < |Ancestry(from)| && k < |Ancestry(to)|
  {
    var c := Common(Ancestry(from), Ancestry(to));
    if c == 0 then 0 else c - 1
  }

  /** The entry for a move from one tip to another: the old branch from the top
      down to the fork, then the new branch from the fork up. */
  function Reorg(from: Hash, to: Hash): ChangeEntry {
    var k := ForkPoint(from, to);
    ChangeEntry(Backwards(Ancestry(from)[k + 1..]), Ancestry(to)[k + 1..])
  }

  /** The tip that an entry leaves. */
  function Tip(ce: ChangeEntry): Hash {
    if ce.applied == [] then ZERO else ce.applied[|ce.applied| - 1]
  }

  ghost predicate Heavier(id: Hash, than: Hash) {
    match (WeightAt(id), WeightAt(than))
    case (Some(v), Some(w)) => v.depth < w.depth
    case _ => false
  }

  /** The log starts with genesis, every entry is the exact move from the tip
      of the entry before it, and every tip is deeper than all before it. */
  ghost predicate HistoryOk(entries: seq<ChangeEntry>, tip: Hash) {
    && entries != [] && entries[0] == GenesisEntry(GenesisID()) && Tip(entries[|entries| - 1]) == tip
    && (forall i :: 0 <= i < |entries| ==> entries[i].applied != [] && Rooted(Tip(entries[i])))
    && (forall i :: 0 < i < |entries| ==> entries[i] == Reorg(Tip(entries[i - 1]), Tip(entries[i])))
    && (forall i, j {:trigger Heavier(Tip(entries[j]), Tip(entries[i]))} ::
          0 <= i < j < |entries| ==> Heavier(Tip(entries[j]), Tip(entries[i])))
  }

  /** Every block that was ever part of the current path has been validated. */
  ghost predicate LogGenerated(blockMap: BlockMap, entries: seq<ChangeEntry>) {
    forall i :: 0 <= i < |entries| ==> AllGenerated(blockMap, Ancestry(Tip(entries[i])))
  }

  /** A move to a deeper tip is an entry the log does not have yet. */
  lemma {:induction false} HistoryGrows(entries: seq<ChangeEntry>, tip: Hash, ce: ChangeEntry, to: Hash)
    requires HistoryOk(entries, tip) && Heavier(to, tip) && Rooted(to)
    requires ce == Reorg(tip, to) && ce.applied != [] && Tip(ce) == to
    ensures ce !in entries
    ensures HistoryOk(entries + [ce], to)
  {
    hide WeightAt, Reorg, Rooted, GenesisID;
    var more, n := entries + [ce], |entries|;
    forall i | 0 <= i < n
      ensures Heavier(to, Tip(entries[i])) && entries[i] != ce
    {
      if i < n - 1 {
        assert Heavier(Tip(entries[n - 1]), Tip(entries[i]));
      }
    }
    forall i | 0 < i < |more|
      ensures more[i] == Reorg(Tip(more[i - 1]), Tip(more[i]))
    {
      if i < n {
        assert entries[i] == Reorg(Tip(entries[i - 1]), Tip(entries[i]));
      }
    }
  }

  /** If the k-th ancestor of a block is the k-th block of a path, they share everything up to it. */
  lemma {:induction false} SharedPrefix(tip: Hash, id: Hash, k: nat)
    requires Rooted(tip) && Rooted(id) && k < |Ancestry(tip)| && k < |Ancestry(id)|
    requires Ancestry(tip)[k] == Ancestry(id)[k]
    ensures Ancestry(tip)[..k + 1] == Ancestry(id)[..k + 1]
  {
    AncestryShape(tip);
    AncestryShape(id);
  }

  /** Every ancestor of a valid chain's tip is the tip of a valid chain. */
  lemma {:induction false} ValidAncestor(r: Rules, id: Hash, k: nat)
    requires Rooted(id) && k < |Ancestry(id)| && Valid(r, id)
    ensures Valid(r, Ancestry(id)[k])
  {
    hide StateAt, BlockOk, GenesisID;
    if id != GenesisID() && k < |Ancestry(id)| - 1 {
      ChainStep(r.oracle, r.devFund, id);
      ValidAncestor(r, id.block.parentID, k);
    }
  }

  lemma {:induction false} GenesisIsItself()
    ensures Ancestry(GenesisID()) == [GenesisID()]
  {
  }
}
