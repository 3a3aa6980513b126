/** The consensus set: reorganisation and acceptance of blocks
    (modules/consensus/fork.go, modules/consensus/processedblock.go,
    modules/consensus/accept.go). */
module Consensus {
  import opened Types
  import opened Hashing
  import opened Ledger
  import opened Supply
  import opened Freshness
  import opened BlockEffects
  import opened Chain
  import opened Targets
  import opened Difficulty
  import opened Weights
  import opened Buckets
  import opened MedianTime
  import opened ChangeLog
  import opened BlockTree
  import opened Numerals
  import opened WireTypes
  import opened Storage
  import opened Acceptance
  import opened Footprint

  /** What a valid tip says about the state: its path is its ancestry. */
  lemma {:induction false} TipFacts(r: Rules, tip: Hash)
    requires Valid(r, tip)
    ensures Rooted(tip) && StateAt(tip).path == Ancestry(tip)
    ensures |Ancestry(tip)| == Height(tip) + 1 && Ancestry(tip)[Height(tip)] == tip
    ensures Healthy(StateAt(tip), SeenAt(tip))
  {
    hide Healthy, StateAt, SeenAt, Ancestry, Rooted, Height;
    ValidIsRooted(r.oracle, r.devFund, tip);
    AncestryShape(tip);
    EveryChain(r.oracle, r.devFund, tip);
  }

  /** What the tree says about a stored block. */
  lemma {:induction false} NodeFacts(r: Rules, blockMap: BlockMap, oak: Oak, id: Hash)
    requires TreeOk(r, blockMap, oak) && id in blockMap
    ensures Rooted(id) && BlockID(blockMap[id].block) == id && blockMap[id].height == Height(id)
    ensures |Ancestry(id)| == Height(id) + 1 && Ancestry(id)[Height(id)] == id && Ancestry(id)[0] == GenesisID()
    ensures id != GenesisID() ==>
              Height(id) > 0 && id.block.parentID in blockMap && Ancestry(id)[Height(id) - 1] == id.block.parentID
  {
    hide Recorded, WeightAt, StateAt, HeaderOk, Valid, GenesisNode;
    assert NodeOk(r, blockMap, oak, id);
    AncestryShape(id);
    if id != GenesisID() {
      ParentIsLower(id);
      AncestryShape(id.block.parentID);
    }
  }

  /** A list of nodes is the part of a block's ancestry from height k on. */
  ghost predicate Branch(blockMap: BlockMap, nodes: seq<ProcessedBlock>, ancestry: seq<Hash>, k: nat) {
    && |nodes| == |ancestry| - k
    && forall i :: k <= i < |ancestry| ==> ancestry[i] in blockMap && nodes[i - k] == blockMap[ancestry[i]]
  }

  /** The same, but of the first node only the header is known. */
  ghost predicate Backtracked(blockMap: BlockMap, nodes: seq<ProcessedBlock>, ancestry: seq<Hash>, k: nat) {
    && nodes != [] && k < |ancestry| && BlockID(nodes[0].block) == ancestry[k] && nodes[0].height == k
    && Branch(blockMap, nodes[1..], ancestry, k + 1)
  }

  /** A node that stands for a block. When the block is not above height k, its
      header is enough. */
  ghost predicate Stands(blockMap: BlockMap, pb: ProcessedBlock, id: Hash, k: nat) {
    && id in blockMap && BlockID(pb.block) == id && pb.height == Height(id)
    && (k < Height(id) ==> pb == blockMap[id])
  }

  /** The blocks of an ancestry between two heights read back from the store. */
  ghost predicate Readable(blockMap: BlockMap, ancestry: seq<Hash>, from: nat, to: nat) {
    forall i :: from <= i < to && i < |ancestry| ==> ancestry[i] in blockMap && ReadsBack(blockMap[ancestry[i]])
  }

  /** The same, but the first of them need only decode: its diffs are not used. */
  ghost predicate Traceable(blockMap: BlockMap, ancestry: seq<Hash>, from: nat, to: nat) {
    && (from < to && from < |ancestry| ==> BlockDecodes(ancestry[from]))
    && Readable(blockMap, ancestry, from + 1, to)
  }

  /** The two branches between the tip and a block read back above their fork,
      and the block at the fork decodes. This is what a move of the tip to a
      child of the block reads. */
  ghost predicate Legible(blockMap: BlockMap, tip: Hash, id: Hash) {
    && Readable(blockMap, Ancestry(tip), ForkPoint(tip, id) + 1, |Ancestry(tip)|)
    && Traceable(blockMap, Ancestry(id), ForkPoint(tip, id), |Ancestry(id)|)
  }

  /** More blocks, none of them changed. */
  ghost predicate Extends(before: BlockMap, after: BlockMap) {
    forall x :: x in before ==> x in after && after[x] == before[x]
  }

  ghost function Validated(blockMap: BlockMap): set<Hash> {
    set id | id in blockMap && blockMap[id].diffsGenerated
  }

  predicate OnPath(path: seq<Hash>, h: nat, id: Hash) {
    h < |path| && path[h] == id
  }

  /** The parts of the invariant that do not look into the buckets: the tree,
      the choice of the tip, the history of the log, and the blocks marked as
      not worth another look, which are all invalid. */
  ghost predicate Coherent(r: Rules, blockMap: BlockMap, oak: Oak, tip: Hash, entries: seq<ChangeEntry>,
                           dosBlocks: set<Hash>) {
    && TreeOk(r, blockMap, oak)
    && TipIsBest(blockMap, tip)
    && HistoryOk(entries, tip) && LogGenerated(blockMap, entries)
    && (forall id :: id in dosBlocks ==> !Valid(r, id))
  }

  /** What came of adding a block to the tree. A zero target makes the source panic. */
  datatype AddResult = Added(ce: ChangeEntry) | NonExtending | Invalid | Panic

  /** The first loop of managedAcceptBlocks. */
  method IsLinear(blocks: seq<Blk>) returns (ok: bool)
    ensures ok <==> Linear(blocks)
  {
    for i := 0 to |blocks|
      invariant Linear(blocks[..i])
    {
      if i > 0 && blocks[i].parentID != BlockID(blocks[i - 1]) {
        return false;
      }
    }
    assert blocks[..|blocks|] == blocks;
    return true;
  }

  /** The rules on a block, given those of its parent. */
  ghost predicate BlockRules(r: Rules, b: Blk, minTimestamp: int, target: nat, height: nat) {
    && b.timestamp >= minTimestamp && r.oracle.digest(BlockID(b)) <= target && BlockSize(b) <= BLOCK_SIZE_LIMIT
    && PayoutsOk(b, height, r.devFund)
  }

  /** ValidateBlock: the checks in their order. A block from the near future is
      told apart from one that will never be good. */
  method ValidateBlock(r: Rules, b: Blk, minTimestamp: int, target: nat, height: nat, now: nat)
      returns (err: BlockError)
    ensures err == NoError <==> BlockRules(r, b, minTimestamp, target, height) && b.timestamp <= now + FUTURE_THRESHOLD
    ensures err == FutureTimestamp <==>
              && BlockRules(r, b, minTimestamp, target, height)
              && now + FUTURE_THRESHOLD < b.timestamp <= now + EXTREME_FUTURE_THRESHOLD
    ensures err == EarlyTimestamp <==> b.timestamp < minTimestamp
    ensures err == BlockUnsolved <==> b.timestamp >= minTimestamp && r.oracle.digest(BlockID(b)) > target
    ensures err == LargeBlock <==> && b.timestamp >= minTimestamp && r.oracle.digest(BlockID(b)) <= target
                                   && BlockSize(b) > BLOCK_SIZE_LIMIT
    ensures err == ExtremeFutureTimestamp <==>
              && b.timestamp >= minTimestamp && r.oracle.digest(BlockID(b)) <= target
              && BlockSize(b) <= BLOCK_SIZE_LIMIT && b.timestamp > now + EXTREME_FUTURE_THRESHOLD
    ensures err == BadMinerPayouts <==>
              && b.timestamp >= minTimestamp && r.oracle.digest(BlockID(b)) <= target
              && BlockSize(b) <= BLOCK_SIZE_LIMIT && b.timestamp <= now + EXTREME_FUTURE_THRESHOLD
              && !PayoutsOk(b, height, r.devFund)
    ensures !err.DoSBlock? && !err.BlockKnown? && !err.Orphan? && !err.Undecodable?
  {
    hide PayoutsOk, BlockSize;
    if minTimestamp > b.timestamp {
      return EarlyTimestamp;
    }
    if r.oracle.digest(BlockID(b)) > target {
      return BlockUnsolved;
    }
    if BlockSize(b) > BLOCK_SIZE_LIMIT {
      return LargeBlock;
    }
    if b.timestamp > now + EXTREME_FUTURE_THRESHOLD {
      return ExtremeFutureTimestamp;
    }
    var payouts := CheckMinerPayouts(b, height, r.devFund);
    if !payouts {
      return BadMinerPayouts;
    }
    if b.timestamp > now + FUTURE_THRESHOLD {
      return FutureTimestamp;
    }
    return NoError;
  }

  class ConsensusSet {
    const rules: Rules
    const db: Buckets
    const log: ChangeLog
    var blockMap: BlockMap
    var oak: Oak
    var dosBlocks: set<Hash>

    /** The buckets hold the state of a valid chain whose blocks are all validated. */
    ghost predicate At(tip: Hash)
      reads this, db
    {
      && db.Indexed() && Valid(rules, tip) && db.State() == StateAt(tip)
      && tip in blockMap && AllGenerated(blockMap, db.path)
    }

    function CurrentID(): Hash
      reads this, db
    {
      if db.path == [] then ZERO else db.path[|db.path| - 1]
    }

    /** getBlockMap. */
    function Get(id: Hash): ProcessedBlock
      requires id in blockMap
      reads this
    {
      Load(rules.salvage, blockMap[id])
    }

    /** Every stored block reads back. */
    ghost predicate AllReadBack()
      reads this
    {
      forall id :: id in blockMap ==> ReadsBack(blockMap[id])
    }

    lemma {:induction false} TreeIsOk()
      requires Consistent()
      ensures TreeOk(rules, blockMap, oak)
    {
      hide TreeOk, TipIsBest, HistoryOk, LogGenerated, StateAt, Valid;
    }

    lemma {:induction false} GetReadsBack(id: Hash)
      requires id in blockMap && ReadsBack(blockMap[id])
      ensures Get(id) == blockMap[id]
    {
      LoadReadsBack(rules.salvage, blockMap[id]);
    }

    /** A block that decodes is found with its header, one that reads back whole. */
    lemma {:induction false} GetDecodes(id: Hash)
      requires id in blockMap && BlockDecodes(id) && TreeOk(rules, blockMap, oak)
      ensures Get(id).block == id.block && Get(id).height == Height(id)
      ensures ReadsBack(blockMap[id]) ==> Get(id) == blockMap[id]
    {
      hide TreeOk, Rooted, Ancestry, Height, GenesisID, BlockFits;
      NodeFacts(rules, blockMap, oak, id);
    }

    lemma {:induction false} PathAt(tip: Hash)
      requires At(tip)
      ensures Rooted(tip) && Valid(rules, tip) && db.path == Ancestry(tip)
    {
      hide StateAt, Healthy, SeenAt, Ancestry, Rooted, Height, ExpirationsMatch;
      TipFacts(rules, tip);
    }

    /** What acceptance depends on. */
    ghost function Seen(): View
      reads this, db
    {
      View(blockMap.Keys, Validated(blockMap), CurrentID(), dosBlocks)
    }

    /** What every run keeps. */
    ghost predicate Consistent()
      reads this, db, log
    {
      && db.path != [] && log.Valid() && At(CurrentID())
      && Coherent(rules, blockMap, oak, CurrentID(), log.entries, dosBlocks)
    }

    /** A new database holds the genesis block. */
    constructor (r: Rules)
      ensures Consistent() && AllReadBack() && rules == r && fresh(db) && fresh(log)
      ensures CurrentID() == GenesisID() && log.entries == [GenesisEntry(GenesisID())]
    {
      hide GenesisBlock, GenesisState, GenesisNode, WeightOfRoot, TreeOk, TipIsBest, HistoryOk, LogGenerated, Valid,
           StateAt, ExpirationsMatch, Linked, AllGenerated, ReadsBack;
      rules := r;
      db := new Buckets(GenesisState(), map[]);
      log := new ChangeLog(GenesisID());
      var w := WeightOfRoot(GenesisBlock());
      blockMap := map[GenesisID() := GenesisNode()];
      oak := map[GenesisID() := Totals(w.totalTime, w.totalTarget)];
      dosBlocks := {};
      new;
      GenesisTree(rules, blockMap, oak);
      GenesisReadsBack();
    }

    // -------------------------------------------------------------- fork.go

    /** backtrackToCurrentPath: from the highest common ancestor to the block. */
    method BacktrackToCurrentPath(pb: ProcessedBlock, ghost id: Hash,
                                  ghost tip: Hash) returns (newPath: seq<ProcessedBlock>)
      requires TreeOk(rules, blockMap, oak) && Stands(blockMap, pb, id, ForkPoint(tip, id))
      requires Rooted(tip) && db.path == Ancestry(tip)
      requires Traceable(blockMap, Ancestry(id), ForkPoint(tip, id), Height(id))
      ensures Backtracked(blockMap, newPath, Ancestry(id), ForkPoint(tip, id))
      ensures db.path[..ForkPoint(tip, id) + 1] == Ancestry(id)[..ForkPoint(tip, id) + 1]
    {
      hide TreeOk, Rooted, Ancestry, Height, GenesisID, ForkPoint, Branch, ReadsBack, Load, Get;
      ghost var anc := Ancestry(id);
      NodeFacts(rules, blockMap, oak, id);
      AncestryShape(tip);
      BranchTop(blockMap, anc);
      ghost var k, fork := Height(id), ForkPoint(tip, id);
      SharedUpTo(tip, id);
      newPath := [pb];
      assert newPath[1..] == [];
      var cur := pb;
      while !(cur.height < |db.path| && db.path[cur.height] == BlockID(cur.block))
        invariant fork <= k < |anc| && cur.height == k && BlockID(cur.block) == anc[k]
        invariant newPath != [] && cur == newPath[0] && Backtracked(blockMap, newPath, anc, k)
        invariant k > fork ==> Branch(blockMap, newPath, anc, k)
        invariant forall j :: k < j < |anc| ==> !OnPath(db.path, j, anc[j])
        decreases k
      {
        assert !OnPath(db.path, k, anc[k]);
        assert OnPath(db.path, fork, anc[fork]);
        BranchDown(rules, blockMap, oak, newPath, id, k);
        TraceFrom(rules, blockMap, oak, anc, fork, k - 1, Height(id));
        GetDecodes(cur.block.parentID);
        cur := Get(cur.block.parentID);
        newPath := [cur] + newPath;
        k := k - 1;
      }
      SharedPrefix(tip, id, k);
      ForkPointIs(tip, id, k) by {
        if k + 1 < |anc| && k + 1 < |db.path| {
          assert !OnPath(db.path, k + 1, anc[k + 1]);
        }
      }
    }

    /** revertToBlock: back to a block of the current path. */
    method RevertToBlock(pb: ProcessedBlock, ghost tip: Hash) returns (reverted: seq<Hash>)
      requires TreeOk(rules, blockMap, oak) && At(tip) && OnPath(db.path, pb.height, BlockID(pb.block))
      requires Readable(blockMap, Ancestry(tip), pb.height + 1, Height(tip) + 1)
      modifies db
      ensures At(BlockID(pb.block))
      ensures old(db.path) == Ancestry(tip) && reverted == Backwards(Ancestry(tip)[pb.height + 1..])
    {
      hide TreeOk, Rooted, Ancestry, Height, GenesisID, StateAt, Valid, At, Backwards, ReadsBack;
      reverted := [];
      ghost var path := db.path;
      PathAt(tip);
      AncestryShape(tip);
      assert path[|path|..] == [] && path[..|path|] == path;
      while db.path[|db.path| - 1] != BlockID(pb.block)
        invariant pb.height < |db.path| <= |path| && db.path == path[..|db.path|]
        invariant At(path[|db.path| - 1]) && reverted == Backwards(path[|db.path|..])
        decreases |db.path|
      {
        ghost var n := |db.path| - 1;
        BackwardsMore(path, n);
        var id := RevertTip(tip, n);
        reverted := reverted + [id];
      }
      assert |db.path| == pb.height + 1 by { SamePlace(tip, |db.path| - 1, pb.height); }
    }

    /** Reverting the current block. */
    method RevertTip(ghost tip: Hash, ghost n: nat) returns (id: Hash)
      requires Rooted(tip) && 0 < n < |Ancestry(tip)| && db.path == Ancestry(tip)[..n + 1]
      requires TreeOk(rules, blockMap, oak) && At(Ancestry(tip)[n]) && ReadsBack(blockMap[Ancestry(tip)[n]])
      modifies db
      ensures id == Ancestry(tip)[n]
      ensures At(Ancestry(tip)[n - 1]) && db.path == Ancestry(tip)[..n]
    {
      hide TreeOk, Rooted, Ancestry, Height, GenesisID, StateAt, Healthy, Valid, SeenAt, Recorded, ExpirationsMatch,
           ReadsBack, Load, Get;
      AncestryShape(tip);
      GenesisIsLow();
      id := db.path[|db.path| - 1];
      GetReadsBack(id);
      var block := Get(id);
      RevertFacts(rules, blockMap, oak, id);
      db.CommitDiffSet(block, false, StateAt(id.block.parentID));
      TipFacts(rules, id.block.parentID);
    }

    /** What revertToBlock does to a current block that decodes but has more diffs
        of some kind than the decoder accepts. The lists from that kind on are not
        undone, so it leads to the state of the parent only if the delayed outputs
        alone are too many, below the height from which outputs mature. */
    method RevertUnreadable(ghost tip: Hash)
      requires Consistent() && tip == CurrentID() && tip != GenesisID() && BlockDecodes(tip)
      requires !ListsFit(CountsAt(tip))
      modifies db
      ensures tip.BlockID? && db.State() == Undone(tip) && db.Indexed()
      ensures db.State() == StateAt(tip.block.parentID)
         <==> OutputListFits(CountsAt(tip)) && ContractListFits(CountsAt(tip)) && Height(tip) < MATURITY_DELAY
    {
      hide TreeOk, HistoryOk, LogGenerated, TipIsBest, Linked, StateAt, Valid, Rooted, Ancestry, Height, AllGenerated,
           GenesisID, ExpirationsMatch, CountsAt, BlockFits, ListsFit, Load, BlockSize, Shown;
      TipGenerated(blockMap, db.path);
      Leftover(rules, blockMap, oak, tip);
      LeftoverUndone(rules, blockMap, oak, tip);
      UndoneIsBefore(rules, tip);
      var block := Get(CurrentID());
      db.CommitSteps(block, false, Undone(tip).contracts);
    }

    /** Applying one validated block. */
    method ApplyKnown(block: ProcessedBlock, ghost cur: Hash, ghost id: Hash)
      requires id.BlockID? && id in blockMap && TreeOk(rules, blockMap, oak) && At(cur)
      requires block == blockMap[id] && block.diffsGenerated && id != GenesisID() && id.block.parentID == cur
      modifies db
      ensures At(id)
    {
      hide TreeOk, Rooted, Ancestry, Height, GenesisID, StateAt, Healthy, Valid, SeenAt, Recorded, ExpirationsMatch;
      RevertFacts(rules, blockMap, oak, id);
      TipFacts(rules, cur);
      TipFacts(rules, id);
      PathGrows(id);
      db.CommitDiffSet(block, true, StateAt(id));
    }

    /** Validating and applying one block. */
    method ApplyNew(block: ProcessedBlock, ghost cur: Hash, ghost id: Hash) returns (ok: bool)
      requires id.BlockID? && id in blockMap && TreeOk(rules, blockMap, oak) && At(cur)
      requires block == blockMap[id] && !block.diffsGenerated && id != GenesisID() && id.block.parentID == cur
      modifies this`blockMap, db
      ensures ok <==> Valid(rules, id)
      ensures ok ==> TreeOk(rules, blockMap, oak) && At(id)
      ensures ok ==> Regenerated(old(blockMap), blockMap) && Elsewhere(old(blockMap), blockMap, [id])
    {
      hide TreeOk, Rooted, Ancestry, Height, GenesisID, StateAt, Healthy, Valid, SeenAt, Recorded, ExpirationsMatch,
           ValidTransactions, Effect, Opened, DiffCounts;
      TipFacts(rules, cur);
      NewFacts(rules, blockMap, oak, id);
      var node := new Node(block);
      ok := db.GenerateAndApplyDiff(rules.oracle, node, SeenAt(cur));
      if ok {
        TipFacts(rules, id);
        PathGrows(id);
        TreeGenerate(rules, blockMap, oak, id, node.Value());
        blockMap := blockMap[BlockID(block.block) := node.Value()];
      }
    }

    /** applyUntilBlock: up from an ancestor of the block. It succeeds exactly
        when the chain up to the block is valid; otherwise the first block that
        is not valid is remembered. */
    method ApplyUntilBlock(pb: ProcessedBlock, ghost id: Hash, ghost k: nat) returns (ok: bool, applied: seq<Hash>)
      requires k < |Ancestry(id)| && Stands(blockMap, pb, id, k)
      requires TreeOk(rules, blockMap, oak) && At(Ancestry(id)[k]) && Traceable(blockMap, Ancestry(id), k, Height(id))
      modifies this`blockMap, this`dosBlocks, db
      ensures ok <==> Valid(rules, id)
      ensures ok ==> TreeOk(rules, blockMap, oak) && At(id)
      ensures ok ==> applied == Ancestry(id)[k + 1..] && dosBlocks == old(dosBlocks)
      ensures ok ==> Regenerated(old(blockMap), blockMap) && Elsewhere(old(blockMap), blockMap, Ancestry(id))
      ensures !ok ==> dosBlocks == old(dosBlocks) + {FirstInvalid(rules, id)}
    {
      hide TreeOk, Rooted, Ancestry, Height, GenesisID, StateAt, Healthy, Valid, SeenAt, ExpirationsMatch, Common,
           Branch, Regenerated, ForkPoint, At, Elsewhere, ReadsBack, FirstInvalid;
      ghost var anc := Ancestry(id);
      NodeFacts(rules, blockMap, oak, id);
      PathAt(anc[k]);
      ForkAtAncestor(id, k);
      var newPath := BacktrackToCurrentPath(pb, id, anc[k]);
      BranchAbove(blockMap, newPath, id, k);
      NothingRegenerated(blockMap, anc);
      applied := [];
      for j := 1 to |newPath|
        invariant TreeOk(rules, blockMap, oak) && At(anc[k + j - 1])
        invariant Regenerated(old(blockMap), blockMap) && Elsewhere(old(blockMap), blockMap, anc)
        invariant applied == anc[k + 1..k + j] && dosBlocks == old(dosBlocks)
        invariant Branch(blockMap, newPath[j..], anc, k + j)
      {
        ghost var before := blockMap;
        var block := newPath[j];
        BranchUp(blockMap, newPath[j..], id, k + j);
        PathAt(anc[k + j - 1]);
        var valid := ApplyNext(block, newPath[j..], id, k + j);
        if !valid {
          dosBlocks := dosBlocks + {BlockID(block.block)};
          FirstInvalidIs(rules, id, k + j);
          return false, [];
        }
        RegeneratedAgain(old(blockMap), before, blockMap);
        ElsewhereAgain(old(blockMap), before, blockMap, anc, k + j);
        assert newPath[j..][1..] == newPath[j + 1..];
        Slices(anc, k + 1, k + j);
        applied := applied + [BlockID(block.block)];
      }
      PathAt(id);
      return true, applied;
    }

    /** The next block of a branch: replayed if it has been validated before. */
    method ApplyNext(block: ProcessedBlock, ghost nodes: seq<ProcessedBlock>, ghost id: Hash,
                     ghost k: nat) returns (ok: bool)
      requires 0 < k < |Ancestry(id)| && Rooted(id) && nodes != [] && block == nodes[0]
      requires TreeOk(rules, blockMap, oak) && At(Ancestry(id)[k - 1]) && Branch(blockMap, nodes, Ancestry(id), k)
      modifies this`blockMap, db
      ensures BlockID(block.block) == Ancestry(id)[k]
      ensures ok <==> Valid(rules, Ancestry(id)[k])
      ensures ok ==>
                TreeOk(rules, blockMap, oak) && At(Ancestry(id)[k]) && Branch(blockMap, nodes[1..], Ancestry(id), k + 1)
      ensures ok ==> Regenerated(old(blockMap), blockMap) && Elsewhere(old(blockMap), blockMap, [Ancestry(id)[k]])
    {
      hide TreeOk, Rooted, Ancestry, Height, GenesisID, StateAt, Healthy, Valid, SeenAt, ExpirationsMatch, Branch,
           Regenerated, Elsewhere;
      BranchStart(rules, blockMap, oak, nodes, id, k);
      BranchUp(blockMap, nodes, id, k);
      GenesisIsLow();
      if block.diffsGenerated {
        ApplyKnown(block, Ancestry(id)[k - 1], Ancestry(id)[k]);
        NothingRegenerated(blockMap, [Ancestry(id)[k]]);
        ok := true;
      } else {
        ok := ApplyNew(block, Ancestry(id)[k - 1], Ancestry(id)[k]);
        if ok {
          BranchKept(old(blockMap), blockMap, nodes[1..], id, k + 1);
        }
      }
    }

    /** forkBlockchain: it succeeds exactly when the chain up to the new block is
        valid. Then the new block is the tip, and the lists are the old branch
        newest first and the new branch oldest first. */
    method ForkBlockchain(newBlock: ProcessedBlock, ghost id: Hash, ghost tip: Hash)
        returns (ok: bool, reverted: seq<Hash>, applied: seq<Hash>)
      requires Stands(blockMap, newBlock, id, ForkPoint(tip, id))
      requires TreeOk(rules, blockMap, oak) && At(tip)
      requires Readable(blockMap, Ancestry(tip), ForkPoint(tip, id) + 1, Height(tip) + 1)
      requires Traceable(blockMap, Ancestry(id), ForkPoint(tip, id), Height(id))
      modifies this`blockMap, this`dosBlocks, db
      ensures ok <==> Valid(rules, id)
      ensures ok ==> TreeOk(rules, blockMap, oak) && At(id) && ChangeEntry(reverted, applied) == Reorg(tip, id)
      ensures ok ==> Regenerated(old(blockMap), blockMap) && Elsewhere(old(blockMap), blockMap, Ancestry(id))
      ensures dosBlocks == old(dosBlocks) + if ok then {} else {FirstInvalid(rules, id)}
    {
      hide TreeOk, Rooted, Ancestry, Height, GenesisID, StateAt, Healthy, Valid, SeenAt, ExpirationsMatch, Common,
           ForkPoint, Regenerated, AllGenerated, Elsewhere, ReadsBack, FirstInvalid;
      TipFacts(rules, tip);
      var newPath := BacktrackToCurrentPath(newBlock, id, tip);
      ghost var k := ForkPoint(tip, id);
      ForkStart(rules, blockMap, oak, newPath, id, tip);
      var commonParent := newPath[0];
      reverted := RevertToBlock(commonParent, tip);
      ok, applied := ApplyUntilBlock(newBlock, id, k);
      if !ok {
        return false, [], [];
      }
    }

    /** checkRevertApply: going back to the parent of the current block gives
        the state of the parent, and going forward again gives the state there was. */
    method CheckRevertApply(ghost tip: Hash) returns (ghost between: State)
      requires Consistent() && tip == CurrentID() && tip.BlockID? && ReadsBack(blockMap[tip])
      requires tip != GenesisID() ==> BlockDecodes(tip.block.parentID)
      modifies this`blockMap, this`dosBlocks, db
      ensures Consistent() && db.State() == old(db.State()) && Regenerated(old(blockMap), blockMap)
      ensures dosBlocks == old(dosBlocks)
      ensures tip != GenesisID() ==> between == StateAt(tip.block.parentID)
    {
      hide TreeOk, HistoryOk, TipIsBest, LogGenerated, ExpirationsMatch, Linked, StateAt, Valid, Rooted, Ancestry,
           Height, AllGenerated, GenesisID, Regenerated, Reorg, Elsewhere, ReadsBack, Load, Get, ForkPoint, Readable;
      GetReadsBack(tip);
      var current := Get(CurrentID());
      between := db.State();
      NothingRegenerated(blockMap, []);
      PathAt(tip);
      NodeFacts(rules, blockMap, oak, tip);
      if BlockID(current.block) == GenesisID() {
        return;
      }
      ghost var parentID := current.block.parentID;
      GetDecodes(parentID);
      var parent := Get(current.block.parentID);
      PathGrows(tip);
      OneStepReads(blockMap, tip);
      RevertFacts(rules, blockMap, oak, tip) by { TipGenerated(blockMap, db.path); }
      var ok, _, _ := ForkBlockchain(parent, parentID, tip);
      between := db.State();
      PathKept(old(blockMap), blockMap, tip);
      ghost var middle := blockMap;
      OneStepReads(blockMap, tip);
      var ok', _, _ := ForkBlockchain(current, tip, parentID);
      RegeneratedAgain(old(blockMap), middle, blockMap);
      CoherentStill(rules, old(blockMap), blockMap, tip, log.entries);
      PathAt(tip);
    }

    // -------------------------------------------------------------- processedblock.go

    /** newChild: the weight of the child is that of its chain. */
    method NewChild(parent: ProcessedBlock, b: Blk) returns (child: Option<ProcessedBlock>)
      requires b.parentID in blockMap && parent == blockMap[b.parentID] && BlockID(b) !in blockMap
      requires TreeOk(rules, blockMap, oak) && HeaderOk(rules, BlockID(b))
      modifies this`blockMap, this`oak
      ensures child.None? <==> WeightAt(BlockID(b)).None?
      ensures child.Some? ==> TreeOk(rules, blockMap, oak) && blockMap == old(blockMap)[BlockID(b) := child.value]
      ensures child.Some? ==> child.value.depth == WeightAt(BlockID(b)).value.depth && !child.value.diffsGenerated
    {
      hide TreeOk, HeaderOk, WeightAt, ChildWeight;
      ChildFacts(rules, blockMap, oak, b);
      var totals := oak[b.parentID];
      var w := ChildWeight(Weight(parent.depth, parent.childTarget, totals.time, totals.target), parent.height,
        parent.block.timestamp, b.timestamp);
      if w.None? {
        return None;
      }
      var id, new_, t := BlockID(b),
        ProcessedBlock(b, parent.height + 1, w.value.depth, w.value.childTarget, false, [], [], []),
                         Totals(w.value.totalTime, w.value.totalTarget);
      ChildNodeOk(rules, blockMap, oak, b, new_, t);
      oak := oak[id := t];
      blockMap := blockMap[id := new_];
      return Some(new_);
    }

    // -------------------------------------------------------------- accept.go

    /** The part of addBlockToTree that moves the tip to a new block that
        replaces it: it succeeds exactly when the chain of the block is valid. */
    method MoveTip(newNode: ProcessedBlock, ghost before: BlockMap, ghost id: Hash, ghost tip: Hash)
        returns (ok: bool, ce: ChangeEntry)
      requires id !in before && blockMap == before[id := newNode] && !newNode.diffsGenerated
      requires TreeOk(rules, blockMap, oak) && At(tip) && tip in before && TipIsBest(before, tip) && log.Valid()
      requires HistoryOk(log.entries, tip) && LogGenerated(blockMap, log.entries)
      requires newNode.depth == WeightOf(id).depth && before[tip].depth == WeightOf(tip).depth
      requires before[tip].childTarget == WeightOf(tip).childTarget && Replaces(id, tip)
      requires Readable(blockMap, Ancestry(tip), ForkPoint(tip, id) + 1, Height(tip) + 1)
      requires Traceable(blockMap, Ancestry(id), ForkPoint(tip, id), Height(id))
      requires forall d :: d in dosBlocks ==> !Valid(rules, d)
      modifies this`blockMap, this`dosBlocks, db, log
      ensures ok <==> Valid(rules, id)
      ensures ok ==> Consistent() && CurrentID() == id && blockMap.Keys == before.Keys + {id}
      ensures ok ==> Validated(blockMap) == Validated(before) + (set x | x in Ancestry(id))
      ensures ok ==> ce == Reorg(tip, id) && log.entries == old(log.entries) + [ce]
      ensures dosBlocks == old(dosBlocks) + if ok then {} else {FirstInvalid(rules, id)}
    {
      hide TreeOk, WeightOf, WeightAt, Valid, StateAt, HistoryOk, LogGenerated, TipIsBest, ExpirationsMatch, Linked,
           Reorg, HeavierThan, Ancestry, Rooted, AllGenerated, Regenerated, Elsewhere, Height, ForkPoint, Readable,
           Replaces, FirstInvalid;
      ghost var known := blockMap;
      var reverted, applied;
      NodeFacts(rules, blockMap, oak, id);
      ok, reverted, applied := ForkBlockchain(newNode, id, tip);
      ce := ChangeEntry(reverted, applied);
      if !ok {
        return;
      }
      assert blockMap.Keys == known.Keys by { SameBlocks(known, blockMap); }
      BestMoves(before, known, blockMap, tip, id) by { ReplacingIsHeavier(id, tip); }
      NewEntry(rules, log.entries, tip, id);
      PathAt(id);
      LogStaysGenerated(known, blockMap, log.entries, ce);
      log.Append(ce);
      TipFacts(rules, id);
      GeneratedNow(before, known, blockMap, id);
    }

    /** addBlockToTree. A block that is heavy enough becomes the tip exactly when
        its chain is valid; one that is not is only remembered. When the current
        block does not decode, the source divides by its missing depth. */
    method AddBlockToTree(b: Blk, parent: ProcessedBlock, ghost tip: Hash) returns (r: AddResult)
      requires Consistent() && tip == CurrentID()
      requires b.parentID in blockMap && parent == blockMap[b.parentID] && BlockID(b) !in blockMap
      requires HeaderOk(rules, BlockID(b))
      requires BlockDecodes(tip) && Replaces(BlockID(b), tip) ==> Legible(blockMap, tip, b.parentID)
      modifies this`blockMap, this`oak, this`dosBlocks, db, log
      ensures r.Panic? <==> !Comparable(BlockID(b), tip) || !BlockDecodes(tip)
      ensures r.NonExtending? <==> Comparable(BlockID(b), tip) && BlockDecodes(tip) && !Replaces(BlockID(b), tip)
      ensures r.Added? <==> Replaces(BlockID(b), tip) && BlockDecodes(tip) && Valid(rules, BlockID(b))
      ensures r.Added? || r.NonExtending? ==> Consistent() && BlockID(b) in blockMap
      ensures r.NonExtending? ==> db.State() == old(db.State()) && log.entries == old(log.entries)
      ensures r.NonExtending? ==> Seen() == Kept(old(Seen()), BlockID(b))
      ensures r.NonExtending? ==> Extends(old(blockMap), blockMap)
      ensures r.Added? ==> r.ce == Reorg(tip, BlockID(b)) && log.entries == old(log.entries) + [r.ce]
      ensures r.Added? ==> Seen() == Moved(old(Seen()), BlockID(b))
      ensures r.Invalid? ==> !Valid(rules, BlockID(b)) && Rooted(BlockID(b))
      ensures dosBlocks == old(dosBlocks) + if r.Invalid? then {FirstInvalid(rules, BlockID(b))} else {}
    {
      hide TreeOk, HeaderOk, WeightAt, Valid, StateAt, HistoryOk, LogGenerated, TipIsBest, ExpirationsMatch, Linked,
           Reorg, HeavierThan, Ancestry, Rooted, AllGenerated, Regenerated, ReadsBack, Load, BlockDecodes, Elsewhere,
           Height, ForkPoint, Legible, Readable, Comparable, Replaces, FirstInvalid;
      var newNode := NewChild(parent, b);
      ghost var id := BlockID(b);
      Weigh(id, tip);
      if newNode.None? {
        return Panic;
      }
      TipLoads(rules, old(blockMap), old(oak), tip);
      var currentNode := Get(CurrentID());
      if currentNode.depth == 0 || currentNode.childTarget == 0 {
        return Panic;
      }
      StillGenerated(old(blockMap), blockMap, db.path, log.entries);
      if !HeavierThan(newNode.value.depth, currentNode.depth, currentNode.childTarget) {
        BestStays(old(blockMap), blockMap, tip, id);
        return NonExtending;
      }
      LegibleReads(rules, old(blockMap), old(oak), blockMap, tip, id);
      NodeFacts(rules, blockMap, oak, id);
      var ok, ce := MoveTip(newNode.value, old(blockMap), id, tip);
      return if ok then Added(ce) else Invalid;
    }

    lemma {:induction false} SeenReads(id: Hash)
      requires TreeOk(rules, blockMap, oak) && id in blockMap
      ensures ReadsBack(blockMap[id]) <==> ReadsAt(Seen(), id)
    {
      hide TreeOk, ReadsBack, ReadsAt;
      ReadsBackIs(rules, blockMap, oak, Seen(), id);
    }

    /** validateHeaderAndBlock. */
    method ValidateHeaderAndBlock(b: Blk, now: nat) returns (err: BlockError)
      requires Consistent()
      ensures err == NoError ==> b.parentID in blockMap && BlockID(b) !in blockMap && HeaderOk(rules, BlockID(b))
      ensures err == NoError ==> ReadsBack(blockMap[b.parentID])
      ensures err == NoError <==> Acceptable(rules, Seen(), b, now)
      ensures err == FutureTimestamp <==>
                && Acceptable(rules, Seen(), b, b.timestamp)
                && now + FUTURE_THRESHOLD < b.timestamp <= now + EXTREME_FUTURE_THRESHOLD
      ensures err == DoSBlock <==> BlockID(b) in dosBlocks
      ensures err == BlockKnown <==> BlockID(b) !in dosBlocks && BlockID(b) in blockMap
      ensures err == Orphan <==> BlockID(b) !in dosBlocks && BlockID(b) !in blockMap && b.parentID !in blockMap
      ensures err == Undecodable <==> && BlockID(b) !in dosBlocks && BlockID(b) !in blockMap
                                      && b.parentID in blockMap && !ReadsBack(blockMap[b.parentID])
    {
      hide TreeOk, StateAt, HistoryOk, LogGenerated, TipIsBest, ExpirationsMatch, Linked, Valid, MinimumTime, PayoutsOk,
           WeightAt, Height, ReadsBack, ReadsAt, AllGenerated, Rooted, GenesisID, HeaderOk, BlockRules, Consistent,
           Acceptable, Stored, Ancestry, Load, Validated, BlockSize;
      TreeIsOk();
      AcceptableIs(rules, Seen(), b, now);
      AcceptableIs(rules, Seen(), b, b.timestamp);
      var id := BlockID(b);
      if id in dosBlocks {
        return DoSBlock;
      }
      if id in blockMap {
        return BlockKnown;
      }
      if b.parentID !in blockMap {
        return Orphan;
      }
      SeenReads(b.parentID);
      if !ReadsBack(blockMap[b.parentID]) {
        return Undecodable;
      }
      var parent := blockMap[b.parentID];
      ParentFacts(rules, blockMap, oak, b);
      var minTimestamp := MinimumValidChildTimestamp(blockMap, parent.block.parentID, parent.block.timestamp,
        b.parentID);
      RulesOfHeader(rules, blockMap, oak, b);
      err := ValidateBlock(rules, b, minTimestamp, parent.childTarget, parent.height + 1, now);
    }

    /** One block of a batch. Known blocks are skipped, and a block that does not
        extend the chain is no error. */
    method AcceptBlock(b: Blk, now: nat) returns (err: AcceptError, ce: Option<ChangeEntry>)
      requires Consistent() && Ready([b], now)
      modifies this`blockMap, this`oak, this`dosBlocks, db, log
      ensures err == NoFailure <==> Accepted(rules, old(Seen()), b, now).Some?
      ensures err == NoFailure ==>
                Accepted(rules, old(Seen()), b, now) == Some((Seen(), if ce.Some? then [ce.value] else []))
      ensures err == NoFailure ==> Consistent() && BlockID(b) in blockMap && |db.path| >= |old(db.path)|
      ensures err == NoFailure && BlockID(b) in old(blockMap) ==> blockMap == old(blockMap)
      ensures err == NoFailure && BlockID(b) !in old(blockMap) ==> Acceptable(rules, old(Seen()), b, now)
      ensures err == NoFailure && BlockID(b) !in old(blockMap) ==> BlockDecodes(old(CurrentID()))
      ensures err == NoFailure && ce.None? ==> Extends(old(blockMap), blockMap)
      ensures err == NoFailure && ce.None? ==> db.State() == old(db.State()) && log.entries == old(log.entries)
      ensures err == NoFailure && ce.Some? ==> log.entries == old(log.entries) + [ce.value]
      ensures err != NonLinearChain && err != NonExtendingBlock
      ensures err == BadBlock(DoSBlock) <==> BlockID(b) in old(dosBlocks)
      ensures err == InvalidBlock <==> Condemned(rules, old(Seen()), b, now)
      ensures err == InvalidBlock ==> Rooted(BlockID(b)) && !Valid(rules, BlockID(b))
      ensures dosBlocks == old(dosBlocks) + if err == InvalidBlock then {FirstInvalid(rules, BlockID(b))} else {}
    {
      hide TreeOk, HeaderOk, StateAt, HistoryOk, LogGenerated, TipIsBest, ExpirationsMatch, Linked, Valid, AllGenerated,
           Acceptable, Comparable, Replaces, Reorg, Legible, ReadsBack, Kept, Moved, BlockDecodes, FirstInvalid;
      var bad := ValidateHeaderAndBlock(b, now);
      assert bad == NoError ==> BlockID(b) !in dosBlocks by { AcceptableIsUnmarked(rules, Seen(), b, now); }
      if bad == BlockKnown {
        return NoFailure, None;
      }
      if bad != NoError {
        return BadBlock(bad), None;
      }
      ghost var tip := CurrentID();
      assert Replaces(BlockID(b), tip) ==> MayMove([b], tip) by { assert [b][0] == b; }
      var r := AddBlockToTree(b, blockMap[b.parentID], tip);
      match r {
        case Panic => ReplacingIsComparable(BlockID(b), tip); return Panicked, None;
        case Invalid => ReplacingIsComparable(BlockID(b), tip); return InvalidBlock, None;
        case NonExtending => return NoFailure, None;
        case Added(entry) =>
          ReplacingIsComparable(BlockID(b), tip);
          if |entry.applied| < |entry.reverted| {
            return MoreReverted, None;
          }
          MovedTip(old(Seen()), BlockID(b));
          PathLengths(rules, tip, BlockID(b));
          return NoFailure, Some(entry);
      }
    }

    /** What a batch asks for: if its first block enters the tree and some block
        of it replaces the current one, the branches that are read then read back. */
    ghost predicate Ready(blocks: seq<Blk>, now: nat)
      reads this, db
    {
      (&& blocks != [] && Acceptable(rules, Seen(), blocks[0], now)
       && BlockDecodes(CurrentID()) && MayMove(blocks, CurrentID()))
      ==> Legible(blockMap, CurrentID(), blocks[0].parentID)
    }

    ghost predicate AllReady(blocks: seq<Blk>, now: nat, from: nat)
      reads this, db
    {
      forall j :: from <= j < |blocks| ==> Ready(blocks[j..], now)
    }

    /** The database transaction of managedAcceptBlocks. */
    method AcceptAll(blocks: seq<Blk>, now: nat) returns (err: AcceptError, changes: seq<ChangeEntry>)
      requires Consistent() && Linear(blocks) && AllReady(blocks, now, 0)
      modifies this`blockMap, this`oak, this`dosBlocks, db, log
      ensures err == NoFailure <==> AcceptedAll(rules, old(Seen()), blocks, now).Some?
      ensures err == NoFailure ==> AcceptedAll(rules, old(Seen()), blocks, now) == Some((Seen(), changes))
      ensures err == NoFailure ==> Consistent() && |db.path| >= |old(db.path)|
      ensures err == NoFailure ==> log.entries == old(log.entries) + changes
      ensures err == NoFailure && changes == [] ==> db.State() == old(db.State())
      ensures err != NonLinearChain && err != NonExtendingBlock
      ensures blocks != [] && BlockID(blocks[0]) in old(dosBlocks) ==> err == BadBlock(DoSBlock)
      ensures err == InvalidBlock <==> Marked(rules, old(Seen()), blocks, now) != {}
      ensures dosBlocks == old(dosBlocks) + Marked(rules, old(Seen()), blocks, now)
      ensures forall d :: d in dosBlocks ==> !Valid(rules, d)
    {
      hide TreeOk, StateAt, HistoryOk, LogGenerated, TipIsBest, ExpirationsMatch, Linked, Valid, AllGenerated, Reorg,
           Accepted, AcceptedAll, AllReady, FirstInvalid, Condemned, Marked, Rooted, Ancestry, Linear;
      changes := [];
      NothingAccepted(rules, Seen(), now);
      for i := 0 to |blocks|
        invariant Consistent() && |db.path| >= |old(db.path)|
        invariant AcceptedAll(rules, old(Seen()), blocks[..i], now) == Some((Seen(), changes))
        invariant log.entries == old(log.entries) + changes
        invariant changes == [] ==> db.State() == old(db.State())
        invariant AllReady(blocks, now, i) && dosBlocks == old(dosBlocks)
        invariant i > 0 ==> BlockID(blocks[0]) !in dosBlocks
      {
        AcceptedOneMore(rules, old(Seen()), blocks, now, i);
        MarkedOneMore(rules, old(Seen()), blocks, now, i);
        var failure, ce := AcceptNext(blocks, i, now);
        if failure != NoFailure {
          FailedPrefix(rules, old(Seen()), blocks, now, i + 1);
          MarkedPrefix(rules, old(Seen()), blocks, now, i + 1);
          if failure == InvalidBlock {
            FirstInvalidExists(rules, BlockID(blocks[i]));
          }
          return failure, changes;
        }
        if ce.Some? {
          changes := changes + [ce.value];
        } else {
          assert changes + [] == changes;
        }
      }
      assert blocks[..|blocks|] == blocks;
      NoneMarked(rules, old(Seen()), blocks, now);
      return NoFailure, changes;
    }

    /** One block of a linear batch leaves the set ready for the next. */
    method AcceptNext(blocks: seq<Blk>, i: nat, now: nat) returns (err: AcceptError, ce: Option<ChangeEntry>)
      requires i < |blocks| && Linear(blocks) && Consistent() && AllReady(blocks, now, i)
      modifies this`blockMap, this`oak, this`dosBlocks, db, log
      ensures err == NoFailure <==> Accepted(rules, old(Seen()), blocks[i], now).Some?
      ensures err == NoFailure ==>
                && Accepted(rules, old(Seen()), blocks[i], now) == Some((Seen(), if ce.Some? then [ce.value] else []))
                && Consistent() && |db.path| >= |old(db.path)| && AllReady(blocks, now, i + 1)
      ensures err == NoFailure && ce.None? ==> db.State() == old(db.State()) && log.entries == old(log.entries)
      ensures err == NoFailure && ce.Some? ==> log.entries == old(log.entries) + [ce.value]
      ensures err != NonLinearChain && err != NonExtendingBlock
      ensures err == BadBlock(DoSBlock) <==> BlockID(blocks[i]) in old(dosBlocks)
      ensures err == InvalidBlock <==> Condemned(rules, old(Seen()), blocks[i], now)
      ensures err == InvalidBlock ==> Rooted(BlockID(blocks[i])) && !Valid(rules, BlockID(blocks[i]))
      ensures dosBlocks
           == old(dosBlocks) + if err == InvalidBlock then {FirstInvalid(rules, BlockID(blocks[i]))} else {}
    {
      hide TreeOk, StateAt, HistoryOk, LogGenerated, TipIsBest, ExpirationsMatch, Linked, Valid, AllGenerated, Reorg,
           Legible, ReadsBack, Acceptable, Comparable, Replaces, MayMove, BlockDecodes, FirstInvalid, Condemned;
      ghost var b, tip := blocks[i], CurrentID();
      assert Ready(blocks[i..], now);
      assert Ready([b], now) by { FirstMoves(blocks, i, tip); }
      err, ce := AcceptBlock(blocks[i], now);
      if err != NoFailure {
        return;
      }
      if BlockID(b) in old(blockMap) {
        assert Seen() == old(Seen());
      } else {
        LaterAreNew(rules, old(blockMap), old(oak), blockMap, oak, blocks, i);
        forall j | i + 1 <= j < |blocks|
          ensures Ready(blocks[j..], now)
        {
          assert blocks[j].parentID == BlockID(blocks[j - 1]);
          AcceptableHasParent(rules, Seen(), blocks[j], now);
          if j == i + 1 && Acceptable(rules, Seen(), blocks[j], now) && MayMove(blocks[j..], CurrentID()) {
            ReadsBackIs(rules, blockMap, oak, Seen(), BlockID(b));
            GenesisStored(rules, old(blockMap), old(oak));
            if CurrentID() == tip {
              LaterMoves(blocks, i, tip);
              LegibleMore(rules, old(blockMap), blockMap, oak, tip, BlockID(b));
            } else {
              LegibleAtTip(rules, blockMap, oak, BlockID(b));
            }
          }
        }
      }
    }

    /** managedAcceptBlocks, on a set that is ready for the batch. A linear batch
        is accepted exactly as `AcceptedAll` says. A failure leaves
        everything as it was, except that the first invalid block on the way to
        the one it fails with is marked as bad, so that it is refused at once.
        Otherwise the log grows by the changes, and the chain counts as extended
        exactly when there are any. Whatever happens, the set stays consistent. */
    method ManagedAcceptBlocks(blocks: seq<Blk>, now: nat)
        returns (extended: bool, err: AcceptError, changes: seq<ChangeEntry>)
      requires Consistent() && AllReady(blocks, now, 0)
      modifies this`blockMap, this`oak, this`dosBlocks, db, log
      ensures Consistent() && log.entries == old(log.entries) + changes && |db.path| >= |old(db.path)|
      ensures err == NonLinearChain <==> !Linear(blocks)
      ensures var all := AcceptedAll(rules, old(Seen()), blocks, now);
              && (extended <==> err == NoFailure)
              && (extended <==> Linear(blocks) && all.Some? && all.value.1 != [])
              && (err == NonExtendingBlock <==> Linear(blocks) && all.Some? && all.value.1 == [])
              && (Linear(blocks) && all.Some? ==> all.value == (Seen(), changes))
      ensures !extended ==> changes == [] && db.State() == old(db.State())
      ensures err != NoFailure && err != NonExtendingBlock ==> blockMap == old(blockMap) && oak == old(oak)
      ensures Linear(blocks) && blocks != [] && BlockID(blocks[0]) in old(dosBlocks) ==> err == BadBlock(DoSBlock)
      ensures var marked := if Linear(blocks) then Marked(rules, old(Seen()), blocks, now) else {};
              (err == InvalidBlock <==> marked != {}) && dosBlocks == old(dosBlocks) + marked
    {
      hide TreeOk, StateAt, HistoryOk, LogGenerated, TipIsBest, ExpirationsMatch, Linked, Valid, AllGenerated,
           AcceptedAll, AllReady, Linear, Marked;
      var linear := IsLinear(blocks);
      if !linear {
        return false, NonLinearChain, [];
      }
      var state, expirations, tree, totals, nodes, tail :=
        db.State(), db.expirations, blockMap, oak, log.nodes, log.tail;
      ghost var entries := log.entries;
      err, changes := AcceptAll(blocks, now);
      if err != NoFailure {
        db.Restore(state, expirations);
        log.Restore(nodes, tail, entries);
        blockMap, oak := tree, totals;
        return false, err, [];
      }
      if changes == [] {
        return false, NonExtendingBlock, [];
      }
      return true, NoFailure, changes;
    }
  }

  // ---------------------------------------------------------------- what reads back

  /** Whether a stored block reads back is decided by its id and by whether it has been validated. */
  lemma {:induction false} ReadsBackIs(r: Rules, blockMap: BlockMap, oak: Oak, v: View, id: Hash)
    requires TreeOk(r, blockMap, oak) && id in blockMap
    requires id in v.generated <==> blockMap[id].diffsGenerated
    ensures ReadsBack(blockMap[id]) <==> ReadsAt(v, id)
  {
    hide Recorded, WeightAt, StateAt, HeaderOk, Valid, BlockFits, DiffCounts, GenesisBlock, Height, Rooted;
    assert NodeOk(r, blockMap, oak, id);
    GenesisCounts();
  }

  /** ValidateBlock checks the rules of the header with what is stored of the parent. */
  lemma {:induction false} RulesOfHeader(r: Rules, blockMap: BlockMap, oak: Oak, b: Blk)
    requires TreeOk(r, blockMap, oak) && b.parentID in blockMap && BlockID(b) !in blockMap
    ensures var p := blockMap[b.parentID];
            HeaderOk(r, BlockID(b)) <==> BlockRules(r, b, MinimumTime(b.parentID), p.childTarget, p.height + 1)
  {
    hide TreeOk, MinimumTime, PayoutsOk, BlockSize, WeightAt, Rooted;
    ParentFacts(r, blockMap, oak, b);
  }

  lemma {:induction false} GenesisReadsBack()
    ensures ReadsBack(GenesisNode())
  {
    hide AllocationValue, Holder, CurrencyFits;
    GenesisCounts();
    forall i | 0 <= i < ALLOCATIONS
      ensures CurrencyFits(AllocationValue(i))
    {
      AllocationFits(i);
    }
    var t := GenesisTransaction();
    AllocationLength();
    assert OutputsFit(t.siacoinOutputs);
    assert TransactionFits(t);
  }

  lemma {:induction false} AllocationFits(i: nat)
    requires i < ALLOCATIONS
    ensures CurrencyFits(AllocationValue(i))
  {
    hide BigEndian;
    LargePower();
    BigEndianLength(AllocationValue(i), 16);
  }

  lemma {:induction false} GenesisCounts()
    ensures CountsOf(GenesisNode()) == Counts(ALLOCATIONS, 0, 0)
  {
  }

  lemma {:induction false} AcceptableIsUnmarked(r: Rules, v: View, b: Blk, now: nat)
    ensures Acceptable(r, v, b, now) ==> BlockID(b) !in v.bad && BlockID(b) !in v.known
  {
  }

  lemma {:induction false} ReplacingIsComparable(id: Hash, tip: Hash)
    ensures Replaces(id, tip) ==> Comparable(id, tip)
  {
    hide WeightAt, HeavierThan;
  }

  lemma {:induction false} MovedTip(v: View, id: Hash)
    ensures Moved(v, id).tip == id
  {
  }

  /** The fork with a child is not below the fork with its parent. */
  lemma {:induction false} ForkPointUp(tip: Hash, id: Hash)
    requires Rooted(id) && id != GenesisID()
    ensures id.BlockID? && ForkPoint(tip, id.block.parentID) <= ForkPoint(tip, id)
  {
    hide GenesisID;
    CommonMore(Ancestry(tip), Ancestry(id.block.parentID), id);
  }

  lemma {:induction false} CommonMore(a: seq<Hash>, b: seq<Hash>, x: Hash)
    ensures Common(a, b) <= Common(a, b + [x])
  {
    if a != [] && b != [] && a[0] == b[0] {
      CommonMore(a[1..], b[1..], x);
      assert (b + [x])[1..] == b[1..] + [x];
    }
  }

  /** A set whose stored blocks all read back is ready for every batch. */
  lemma {:induction false} ReadyForAll(c: ConsensusSet, blocks: seq<Blk>, now: nat)
    requires c.Consistent() && c.AllReadBack()
    ensures c.AllReady(blocks, now, 0)
  {
    hide TreeOk, StateAt, HistoryOk, LogGenerated, TipIsBest, Valid, ReadsBack, ReadsAt, HeaderOk, Ancestry, Rooted,
         ForkPoint, MayMove, BlockDecodes;
    AncestryStored(c.rules, c.blockMap, c.oak, c.CurrentID());
    forall j | 0 <= j < |blocks|
      ensures c.Ready(blocks[j..], now)
    {
      if Acceptable(c.rules, c.Seen(), blocks[j], now) {
        var p := blocks[j].parentID;
        AncestryStored(c.rules, c.blockMap, c.oak, p);
        TraceReadable(c.rules, c.blockMap, c.oak, Ancestry(p), ForkPoint(c.CurrentID(), p), |Ancestry(p)|);
      }
    }
  }

  lemma {:induction false} AcceptableHasParent(r: Rules, v: View, b: Blk, now: nat)
    ensures Acceptable(r, v, b, now) ==> b.parentID in v.known && ReadsAt(v, b.parentID)
  {
    hide ReadsAt, HeaderOk;
  }

  lemma {:induction false} FirstMoves(blocks: seq<Blk>, i: nat, tip: Hash)
    requires i < |blocks|
    ensures MayMove([blocks[i]], tip) ==> MayMove(blocks[i..], tip)
  {
    hide Replaces;
    if Replaces(BlockID(blocks[i]), tip) {
      assert blocks[i..][0] == blocks[i];
    }
  }

  lemma {:induction false} LaterMoves(blocks: seq<Blk>, i: nat, tip: Hash)
    requires i + 1 < |blocks|
    ensures MayMove(blocks[i + 1..], tip) ==> MayMove(blocks[i..], tip)
  {
    hide Replaces;
    var later := blocks[i + 1..];
    if j :| 0 <= j < |later| && Replaces(BlockID(later[j]), tip) {
      assert blocks[i..][j + 1] == later[j];
    }
  }

  /** When a block of a linear batch is new, so are those after it. */
  lemma {:induction false} LaterAreNew(r: Rules, before: BlockMap, beforeOak: Oak, after: BlockMap, oak: Oak,
                                       blocks: seq<Blk>, i: nat)
    requires TreeOk(r, before, beforeOak) && TreeOk(r, after, oak) && Linear(blocks) && i < |blocks|
    requires BlockID(blocks[i]) !in before && after.Keys == before.Keys + {BlockID(blocks[i])}
    ensures forall j :: i < j < |blocks| ==> BlockID(blocks[j]) !in after
  {
    hide TreeOk;
    if i + 1 < |blocks| {
      assert blocks[i + 1].parentID == BlockID(blocks[i]);
      ChildIsNew(r, before, beforeOak, blocks[i + 1]);
      StillNew(r, after, oak, blocks, i + 1);
    }
  }

  lemma {:induction false} StillNew(r: Rules, blockMap: BlockMap, oak: Oak, blocks: seq<Blk>, i: nat)
    requires TreeOk(r, blockMap, oak) && Linear(blocks) && i < |blocks| && BlockID(blocks[i]) !in blockMap
    ensures forall j :: i <= j < |blocks| ==> BlockID(blocks[j]) !in blockMap
    decreases |blocks| - i
  {
    hide TreeOk;
    if i + 1 < |blocks| {
      assert blocks[i + 1].parentID == BlockID(blocks[i]);
      ChildIsNew(r, blockMap, oak, blocks[i + 1]);
      StillNew(r, blockMap, oak, blocks, i + 1);
    }
  }

  lemma {:induction false} GenesisHasNoParent(r: Rules, blockMap: BlockMap, oak: Oak)
    requires TreeOk(r, blockMap, oak)
    ensures GenesisID().BlockID? && GenesisID().block.parentID == ZERO && ZERO !in blockMap
  {
    KnownIsRooted(r, blockMap, oak, ZERO);
  }

  lemma {:induction false} KnownIsRooted(r: Rules, blockMap: BlockMap, oak: Oak, id: Hash)
    requires TreeOk(r, blockMap, oak)
    ensures id in blockMap ==> Rooted(id)
  {
    hide Rooted;
    if id in blockMap {
      assert NodeOk(r, blockMap, oak, id);
    }
  }

  /** The children of an unknown block are unknown. */
  lemma {:induction false} ChildIsNew(r: Rules, blockMap: BlockMap, oak: Oak, b: Blk)
    requires TreeOk(r, blockMap, oak)
    ensures b.parentID.BlockID? && b.parentID !in blockMap ==> BlockID(b) !in blockMap
    ensures b.parentID != BlockID(b)
  {
    hide TreeOk, Rooted, Height, GenesisID;
    if BlockID(b) in blockMap {
      NodeFacts(r, blockMap, oak, BlockID(b));
      GenesisHasNoParent(r, blockMap, oak);
    }
  }

  /** What the current block is when it is read, as far as its weight goes. */
  lemma {:induction false} TipLoads(r: Rules, blockMap: BlockMap, oak: Oak, tip: Hash)
    requires TreeOk(r, blockMap, oak) && tip in blockMap
    ensures !BlockDecodes(tip) ==> Load(r.salvage, blockMap[tip]).depth == 0
    ensures var pb := Load(r.salvage, blockMap[tip]);
            BlockDecodes(tip) ==> pb.depth == blockMap[tip].depth && pb.childTarget == blockMap[tip].childTarget
    ensures WeightAt(tip).Some? && WeightOf(tip).depth == blockMap[tip].depth
    ensures WeightOf(tip).childTarget == blockMap[tip].childTarget
  {
    hide TreeOk, WeightAt, BlockFits, Height, Ancestry, Rooted;
    NodeFacts(r, blockMap, oak, tip);
    TipWeight(r, blockMap, oak, tip);
  }

  /** The weight of a block that has one. */
  ghost function WeightOf(id: Hash): Weight {
    match WeightAt(id)
    case Some(w) => w
    case None => Weight(0, 0, 0, 0)
  }

  /** The comparisons of heavierThan, on weights. */
  lemma {:induction false} Weigh(id: Hash, tip: Hash)
    ensures var v, w := WeightOf(id), WeightOf(tip);
            && (Comparable(id, tip) <==>
                  WeightAt(id).Some? && WeightAt(tip).Some? && w.depth > 0 && w.childTarget > 0)
            && (Replaces(id, tip) <==> Comparable(id, tip) && w.depth > 0 && w.childTarget > 0
                                       && HeavierThan(v.depth, w.depth, w.childTarget))
  {
    hide WeightAt, HeavierThan;
  }

  lemma {:induction false} ReplacingIsHeavier(id: Hash, tip: Hash)
    requires Replaces(id, tip)
    ensures var v, w := WeightOf(id), WeightOf(tip);
            w.depth > 0 && w.childTarget > 0 && HeavierThan(v.depth, w.depth, w.childTarget)
  {
    hide WeightAt, HeavierThan;
  }

  /** With a new block that reads back, a set is as legible above it as it was above its parent. */
  lemma {:induction false} LegibleMore(r: Rules, before: BlockMap, after: BlockMap, oak: Oak, tip: Hash, id: Hash)
    requires TreeOk(r, after, oak) && id.BlockID? && id in after && id != GenesisID() && ReadsBack(after[id])
    requires Extends(before, after)
    requires Legible(before, tip, id.block.parentID)
    ensures Legible(after, tip, id)
  {
    hide TreeOk, ReadsBack, Height, ForkPoint, Rooted, GenesisID, Ancestry;
    NodeFacts(r, after, oak, id);
    PathGrows(id);
    ForkPointUp(tip, id);
    var k := ForkPoint(tip, id.block.parentID);
    assert Traceable(after, Ancestry(id), k, |Ancestry(id)|);
    TraceFrom(r, after, oak, Ancestry(id), k, ForkPoint(tip, id), |Ancestry(id)|);
  }

  lemma {:induction false} AncestryStored(r: Rules, blockMap: BlockMap, oak: Oak, id: Hash)
    requires TreeOk(r, blockMap, oak) && id in blockMap
    ensures Rooted(id) && forall i :: 0 <= i < |Ancestry(id)| ==> Ancestry(id)[i] in blockMap
  {
    hide TreeOk, GenesisID;
    NodeFacts(r, blockMap, oak, id);
    if id != GenesisID() {
      AncestryStored(r, blockMap, oak, id.block.parentID);
    }
  }

  lemma {:induction false} ReadsBackDecodes(r: Rules, blockMap: BlockMap, oak: Oak, id: Hash)
    requires TreeOk(r, blockMap, oak) && id in blockMap && ReadsBack(blockMap[id])
    ensures BlockDecodes(id)
  {
    hide TreeOk, BlockFits, Ancestry, Height, GenesisID, Rooted, ListsFit;
    NodeFacts(r, blockMap, oak, id);
  }

  lemma {:induction false} TraceReadable(r: Rules, blockMap: BlockMap, oak: Oak, ancestry: seq<Hash>, from: nat,
                                         to: nat)
    requires TreeOk(r, blockMap, oak) && Readable(blockMap, ancestry, from, to)
    ensures Traceable(blockMap, ancestry, from, to)
  {
    hide TreeOk, ReadsBack, BlockDecodes;
    if from < to && from < |ancestry| {
      ReadsBackDecodes(r, blockMap, oak, ancestry[from]);
    }
  }

  /** What can be traced from a height can be traced from any above. */
  lemma {:induction false} TraceFrom(r: Rules, blockMap: BlockMap, oak: Oak, ancestry: seq<Hash>, k: nat, from: nat,
                                     to: nat)
    requires TreeOk(r, blockMap, oak) && Traceable(blockMap, ancestry, k, to) && k <= from
    ensures Traceable(blockMap, ancestry, from, to)
  {
    hide TreeOk, ReadsBack, BlockDecodes;
    if k < from < to && from < |ancestry| {
      ReadsBackDecodes(r, blockMap, oak, ancestry[from]);
    }
  }

  /** What a move of the tip to a new block reads, reads back. */
  lemma {:induction false} LegibleReads(r: Rules, before: BlockMap, oak: Oak, after: BlockMap, tip: Hash, id: Hash)
    requires TreeOk(r, before, oak) && tip in before && id !in before && id in after && after == before[id := after[id]]
    requires id.BlockID? && id.block.parentID in before && Legible(before, tip, id.block.parentID)
    ensures Readable(after, Ancestry(tip), ForkPoint(tip, id) + 1, Height(tip) + 1)
    ensures Traceable(after, Ancestry(id), ForkPoint(tip, id), Height(id))
  {
    hide TreeOk, ReadsBack, ForkPoint, GenesisID, Ancestry, Height, Rooted;
    var p := id.block.parentID;
    AncestryStored(r, before, oak, tip);
    AncestryStored(r, before, oak, p);
    ChildOfStored(r, before, oak, id);
    AncestryShape(tip);
    AncestryShape(p);
    ForkPointUp(tip, id);
    var k := ForkPoint(tip, p);
    assert Traceable(before, Ancestry(id), k, Height(id));
    TraceFrom(r, before, oak, Ancestry(id), k, ForkPoint(tip, id), Height(id));
  }

  lemma {:induction false} ChildOfStored(r: Rules, blockMap: BlockMap, oak: Oak, id: Hash)
    requires TreeOk(r, blockMap, oak) && id !in blockMap && id.BlockID? && id.block.parentID in blockMap
    ensures Rooted(id) && id != GenesisID() && Ancestry(id) == Ancestry(id.block.parentID) + [id]
    ensures Height(id) == Height(id.block.parentID) + 1 == |Ancestry(id)| - 1
  {
    hide TreeOk, GenesisID;
    GenesisStored(r, blockMap, oak);
    NodeFacts(r, blockMap, oak, id.block.parentID);
    ParentIsLower(id);
    AncestryShape(id);
  }

  /** Once the tip has moved to a block that reads back, the set is legible above it. */
  lemma {:induction false} LegibleAtTip(r: Rules, blockMap: BlockMap, oak: Oak, id: Hash)
    requires TreeOk(r, blockMap, oak) && id in blockMap && ReadsBack(blockMap[id])
    ensures Legible(blockMap, id, id)
  {
    hide TreeOk, ReadsBack, ForkPoint, GenesisID, Ancestry, Height, Rooted;
    NodeFacts(r, blockMap, oak, id);
    ForkWithItself(id);
    ReadsBackDecodes(r, blockMap, oak, id);
  }

  lemma {:induction false} ForkWithItself(id: Hash)
    requires Rooted(id)
    ensures ForkPoint(id, id) == Height(id)
  {
    hide Ancestry, Height, Rooted;
    AncestryShape(id);
    CommonIs(Ancestry(id), Ancestry(id), |Ancestry(id)|);
  }

  /** A move of the tip validates the ancestry of the new tip and nothing else. */
  lemma {:induction false} GeneratedNow(before: BlockMap, known: BlockMap, after: BlockMap, id: Hash)
    requires id !in before && id in known && known == before[id := known[id]] && !known[id].diffsGenerated
    requires after.Keys == known.Keys && Elsewhere(known, after, Ancestry(id)) && AllGenerated(after, Ancestry(id))
    requires id in Ancestry(id)
    ensures Validated(after) == Validated(before) + (set x | x in Ancestry(id))
    ensures forall x :: x in before && x !in Ancestry(id) ==> after[x] == before[x]
  {
    hide Ancestry;
    forall x | x in Ancestry(id)
      ensures x in after && after[x].diffsGenerated
    {
      var i :| 0 <= i < |Ancestry(id)| && Ancestry(id)[i] == x;
    }
  }

  /** The height of the new tip is that of the old one, less what was reverted, plus what was applied. */
  lemma {:induction false} PathLengths(r: Rules, tip: Hash, id: Hash)
    requires Valid(r, tip) && Valid(r, id)
    ensures |StateAt(id).path| + |Reorg(tip, id).reverted| == |StateAt(tip).path| + |Reorg(tip, id).applied|
  {
    hide StateAt, Ancestry, Healthy, Rooted, Height, ForkPoint;
    TipFacts(r, tip);
    TipFacts(r, id);
  }

  lemma {:induction false} ParentFacts(r: Rules, blockMap: BlockMap, oak: Oak, b: Blk)
    requires TreeOk(r, blockMap, oak) && b.parentID in blockMap && BlockID(b) !in blockMap
    ensures Stored(blockMap, b.parentID)
    ensures var pb := blockMap[b.parentID];
            && BlockID(pb.block) == b.parentID && Height(BlockID(b)) == pb.height + 1
            && WeightAt(b.parentID).Some? && WeightAt(b.parentID).value.childTarget == pb.childTarget
  {
    hide TreeOk, WeightAt, Stored;
    TreeStored(r, blockMap, oak, b.parentID);
    NodeFacts(r, blockMap, oak, b.parentID);
    TipWeight(r, blockMap, oak, b.parentID);
    GenesisIsLow();
    ParentIsLower(BlockID(b)) by { assert Rooted(BlockID(b)); GenesisStored(r, blockMap, oak); }
  }

  lemma {:induction false} GenesisStored(r: Rules, blockMap: BlockMap, oak: Oak)
    requires TreeOk(r, blockMap, oak)
    ensures GenesisID() in blockMap
  {
  }

  lemma {:induction false} TreeStored(r: Rules, blockMap: BlockMap, oak: Oak, id: Hash)
    requires TreeOk(r, blockMap, oak) && id in blockMap
    ensures Stored(blockMap, id)
  {
    hide TreeOk, Ancestry, Rooted, Height, GenesisID;
    NodeFacts(r, blockMap, oak, id);
    GenesisIsLow();
    if id != GenesisID() {
      TreeStored(r, blockMap, oak, id.block.parentID);
    }
  }

  lemma {:induction false} TipWeight(r: Rules, blockMap: BlockMap, oak: Oak, tip: Hash)
    requires TreeOk(r, blockMap, oak) && tip in blockMap
    ensures WeightAt(tip).Some? && WeightAt(tip).value.depth == blockMap[tip].depth
    ensures WeightAt(tip).value.childTarget == blockMap[tip].childTarget
  {
    hide WeightAt, Recorded, StateAt, Valid, HeaderOk, GenesisNode, Rooted, Height;
    assert NodeOk(r, blockMap, oak, tip);
  }

  /** Validating known blocks changes neither which tip is best nor what the log has validated. */
  lemma {:induction false} CoherentStill(r: Rules, before: BlockMap, after: BlockMap, tip: Hash,
                                         entries: seq<ChangeEntry>)
    requires TipIsBest(before, tip) && LogGenerated(before, entries) && Regenerated(before, after)
    ensures TipIsBest(after, tip) && LogGenerated(after, entries)
  {
    hide Ancestry, Tip, HeavierThan;
    forall i | 0 <= i < |entries|
      ensures AllGenerated(after, Ancestry(Tip(entries[i])))
    {
      assert AllGenerated(before, Ancestry(Tip(entries[i])));
    }
    if tip in after && after[tip].depth > 0 && after[tip].childTarget > 0 {
      forall id | id in after
        ensures !HeavierThan(after[id].depth, after[tip].depth, after[tip].childTarget)
      {
        assert !HeavierThan(before[id].depth, before[tip].depth, before[tip].childTarget);
      }
    }
  }

  lemma {:induction false} TipGenerated(blockMap: BlockMap, path: seq<Hash>)
    requires path != [] && AllGenerated(blockMap, path)
    ensures path[|path| - 1] in blockMap && blockMap[path[|path| - 1]].diffsGenerated
  {
  }

  lemma {:induction false} StillGenerated(before: BlockMap, after: BlockMap, path: seq<Hash>, entries: seq<ChangeEntry>)
    requires AllGenerated(before, path) && LogGenerated(before, entries)
    requires forall id :: id in before ==> id in after && after[id] == before[id]
    ensures AllGenerated(after, path) && LogGenerated(after, entries)
  {
    hide Ancestry, Tip;
    forall i | 0 <= i < |entries|
      ensures AllGenerated(after, Ancestry(Tip(entries[i])))
    {
      assert AllGenerated(before, Ancestry(Tip(entries[i])));
    }
  }

  lemma {:induction false} LogStaysGenerated(before: BlockMap, after: BlockMap, entries: seq<ChangeEntry>,
                                             ce: ChangeEntry)
    requires LogGenerated(before, entries) && Regenerated(before, after) && AllGenerated(after, Ancestry(Tip(ce)))
    ensures LogGenerated(after, entries + [ce])
  {
    hide Ancestry, Tip;
    forall i | 0 <= i < |entries|
      ensures AllGenerated(after, Ancestry(Tip(entries[i])))
    {
      assert AllGenerated(before, Ancestry(Tip(entries[i])));
    }
  }

  lemma {:induction false} BestStays(before: BlockMap, after: BlockMap, tip: Hash, id: Hash)
    requires TipIsBest(before, tip) && tip in before && id !in before && id in after && after == before[id := after[id]]
    requires before[tip].depth > 0 && before[tip].childTarget > 0
    requires !HeavierThan(after[id].depth, before[tip].depth, before[tip].childTarget)
    ensures TipIsBest(after, tip)
  {
    hide HeavierThan;
  }

  /** A block that replaces the best block is the best block. */
  lemma {:induction false} BestMoves(before: BlockMap, known: BlockMap, after: BlockMap, tip: Hash, id: Hash)
    requires TipIsBest(before, tip) && tip in before && id !in before && id in known && known == before[id := known[id]]
    requires Regenerated(known, after)
    requires before[tip].depth > 0 && before[tip].childTarget > 0
    requires HeavierThan(known[id].depth, before[tip].depth, before[tip].childTarget)
    ensures TipIsBest(after, id)
  {
    hide Requirement;
    if after[id].depth > 0 && after[id].childTarget > 0 {
      RequirementBelow(after[id].depth, after[id].childTarget);
      forall x | x in after
        ensures !HeavierThan(after[x].depth, after[id].depth, after[id].childTarget)
      {
        assert x in known;
        if x != id {
          assert !HeavierThan(before[x].depth, before[tip].depth, before[tip].childTarget);
        }
      }
    }
  }

  /** A move to a replacing tip is a new entry of the log. */
  lemma {:induction false} NewEntry(r: Rules, entries: seq<ChangeEntry>, tip: Hash, id: Hash)
    requires HistoryOk(entries, tip) && Valid(r, tip) && Valid(r, id) && Replaces(id, tip)
    ensures Reorg(tip, id) !in entries && HistoryOk(entries + [Reorg(tip, id)], id) && Tip(Reorg(tip, id)) == id
  {
    hide WeightAt, HeavierThan, Ancestry, StateAt, Rooted, Common;
    HeavierIsDeeper(WeightAt(id).value.depth, WeightAt(tip).value.depth, WeightAt(tip).value.childTarget);
    ReorgApplies(r, tip, id);
    HistoryGrows(entries, tip, Reorg(tip, id), id) by { TipFacts(r, id); }
  }

  /** A move to a deeper tip applies at least that tip. */
  lemma {:induction false} ReorgApplies(r: Rules, tip: Hash, id: Hash)
    requires Valid(r, tip) && Valid(r, id) && Heavier(id, tip)
    ensures Reorg(tip, id).applied != [] && Tip(Reorg(tip, id)) == id
  {
    hide StateAt, Rooted, WeightAt, Ancestry, Healthy, Height, GenesisID, ForkPoint, Heavier, Valid;
    TipFacts(r, tip);
    TipFacts(r, id);
    DeeperIsNoAncestor(tip, id);
  }

  lemma {:induction false} DeeperIsNoAncestor(tip: Hash, id: Hash)
    requires Rooted(tip) && Rooted(id) && Heavier(id, tip)
    ensures ForkPoint(tip, id) < |Ancestry(id)| - 1
  {
    hide Rooted, WeightAt, Ancestry, Height, GenesisID, ForkPoint;
    if ForkPoint(tip, id) == |Ancestry(id)| - 1 {
      SharedUpTo(tip, id);
      AncestryShape(id);
      AncestorIsLighter(tip, ForkPoint(tip, id));
    }
  }

  /** The fork point is the height up to which two ancestries agree. */
  lemma {:induction false} ForkPointIs(tip: Hash, id: Hash, k: nat)
    requires k < |Ancestry(tip)| && k < |Ancestry(id)| && Ancestry(tip)[..k + 1] == Ancestry(id)[..k + 1]
    requires k + 1 == |Ancestry(tip)| || k + 1 == |Ancestry(id)| || Ancestry(tip)[k + 1] != Ancestry(id)[k + 1]
    ensures ForkPoint(tip, id) == k
  {
    hide Ancestry;
    CommonIs(Ancestry(tip), Ancestry(id), k + 1);
  }

  /** Going from a block to its parent and back reads these two only. */
  lemma {:induction false} OneStepReads(blockMap: BlockMap, tip: Hash)
    requires Rooted(tip) && tip != GenesisID() && tip.BlockID? && tip in blockMap && tip.block.parentID in blockMap
    requires ReadsBack(blockMap[tip]) && BlockDecodes(tip.block.parentID)
    ensures var p := tip.block.parentID;
            && ForkPoint(tip, p) == ForkPoint(p, tip) == Height(p)
            && Readable(blockMap, Ancestry(tip), ForkPoint(tip, p) + 1, Height(tip) + 1)
            && Traceable(blockMap, Ancestry(p), ForkPoint(tip, p), Height(p))
            && Readable(blockMap, Ancestry(p), ForkPoint(p, tip) + 1, Height(p) + 1)
            && Traceable(blockMap, Ancestry(tip), ForkPoint(p, tip), Height(tip))
  {
    hide ReadsBack, Ancestry, Height, Rooted, GenesisID, Common;
    var p := tip.block.parentID;
    PathGrows(tip);
    AncestryShape(tip);
    ParentIsLower(tip);
    ForkAtAncestor(tip, Height(p));
    ForkIsSymmetric(p, tip);
  }

  lemma {:induction false} ForkIsSymmetric(a: Hash, b: Hash)
    ensures ForkPoint(a, b) == ForkPoint(b, a)
  {
    hide Ancestry;
    CommonIsSymmetric(Ancestry(a), Ancestry(b));
  }

  lemma {:induction false} CommonIsSymmetric(a: seq<Hash>, b: seq<Hash>)
    ensures Common(a, b) == Common(b, a)
  {
    if a != [] && b != [] && a[0] == b[0] {
      CommonIsSymmetric(a[1..], b[1..]);
    }
  }

  /** A validated block and its parent stay as they are. */
  lemma {:induction false} PathKept(before: BlockMap, after: BlockMap, tip: Hash)
    requires Rooted(tip) && tip != GenesisID() && AllGenerated(before, Ancestry(tip)) && Regenerated(before, after)
    ensures tip.BlockID? && tip in after && after[tip] == before[tip]
    ensures tip.block.parentID in after && after[tip.block.parentID] == before[tip.block.parentID]
  {
    hide Ancestry, Rooted, Height, GenesisID;
    AncestryShape(tip);
    ParentIsLower(tip);
    assert Ancestry(tip)[Height(tip)] == tip && Ancestry(tip)[Height(tip) - 1] == tip.block.parentID;
  }

  /** Two rooted blocks agree up to their fork point. */
  lemma {:induction false} SharedUpTo(a: Hash, b: Hash)
    requires Rooted(a) && Rooted(b)
    ensures Ancestry(a)[ForkPoint(a, b)] == Ancestry(b)[ForkPoint(a, b)]
  {
    hide Ancestry, Rooted, GenesisID;
    AncestryShape(a);
    AncestryShape(b);
    CommonPrefix(Ancestry(a), Ancestry(b));
  }

  lemma {:induction false} CommonPrefix(a: seq<Hash>, b: seq<Hash>)
    ensures a[..Common(a, b)] == b[..Common(a, b)]
  {
    if a != [] && b != [] && a[0] == b[0] {
      CommonPrefix(a[1..], b[1..]);
      var c := Common(a, b);
      assert a[..c] == [a[0]] + a[1..][..c - 1] && b[..c] == [b[0]] + b[1..][..c - 1];
    }
  }

  /** No block is deeper than its descendants. */
  lemma {:induction false} AncestorIsLighter(id: Hash, k: nat)
    requires Rooted(id) && k < |Ancestry(id)| && WeightAt(id).Some?
    ensures WeightAt(Ancestry(id)[k]).Some? && WeightAt(id).value.depth <= WeightAt(Ancestry(id)[k]).value.depth
  {
    hide WeightAt, GenesisID;
    if id != GenesisID() && k < |Ancestry(id)| - 1 {
      DepthFalls(id);
      AncestorIsLighter(id.block.parentID, k);
    }
  }

  /** The weight of a child follows from what is stored with its parent. */
  lemma {:induction false} ChildFacts(r: Rules, blockMap: BlockMap, oak: Oak, b: Blk)
    requires TreeOk(r, blockMap, oak) && b.parentID in blockMap && BlockID(b) !in blockMap
    ensures b.parentID in oak
    ensures var pb, t := blockMap[b.parentID], oak[b.parentID];
            WeightAt(BlockID(b)) == ChildWeight(Weight(pb.depth, pb.childTarget, t.time, t.target), pb.height,
              pb.block.timestamp, b.timestamp)
  {
    hide ChildWeight, Recorded, StateAt, Valid, HeaderOk, GenesisNode, WeightOfRoot;
    assert NodeOk(r, blockMap, oak, b.parentID);
  }

  lemma {:induction false} ChildNodeOk(r: Rules, blockMap: BlockMap, oak: Oak, b: Blk, pb: ProcessedBlock, t: Totals)
    requires TreeOk(r, blockMap, oak) && b.parentID in blockMap && BlockID(b) !in blockMap && HeaderOk(r, BlockID(b))
    requires WeightAt(BlockID(b)) == Some(Weight(pb.depth, pb.childTarget, t.time, t.target))
    requires pb == ProcessedBlock(b, blockMap[b.parentID].height + 1, pb.depth, pb.childTarget, false, [], [], [])
    ensures TreeOk(r, blockMap[BlockID(b) := pb], oak[BlockID(b) := t])
  {
    hide WeightAt, Recorded, StateAt, Valid, HeaderOk, GenesisNode, GenesisID, Height;
    var id := BlockID(b);
    assert NodeOk(r, blockMap, oak, b.parentID);
    assert Rooted(id);
    ParentIsLower(id) by { assert id != GenesisID(); }
    TreeAdd(r, blockMap, oak, id, pb, t);
  }

  lemma BackwardsMore(ids: seq<Hash>, n: nat)
    requires n < |ids|
    ensures Backwards(ids[n..]) == Backwards(ids[n + 1..]) + [ids[n]]
  {
  }

  /** A block has one place in an ancestry. */
  lemma {:induction false} SamePlace(id: Hash, i: nat, j: nat)
    requires Rooted(id) && i < |Ancestry(id)| && j < |Ancestry(id)| && Ancestry(id)[i] == Ancestry(id)[j]
    ensures i == j
  {
    hide Rooted, Ancestry, Height;
    AncestryShape(id);
    assert Height(Ancestry(id)[i]) == i && Height(Ancestry(id)[j]) == j;
  }

  lemma Slices(ids: seq<Hash>, i: nat, j: nat)
    requires i <= j < |ids|
    ensures ids[i..j] + [ids[j]] == ids[i..j + 1]
  {
  }

  lemma {:induction false} SameBlocks(before: BlockMap, after: BlockMap)
    requires Regenerated(before, after)
    ensures after.Keys == before.Keys
  {
  }

  lemma {:induction false} NothingRegenerated(blockMap: BlockMap, ids: seq<Hash>)
    ensures Regenerated(blockMap, blockMap) && Elsewhere(blockMap, blockMap, ids)
  {
  }

  lemma {:induction false} ElsewhereAgain(a: BlockMap, b: BlockMap, c: BlockMap, ids: seq<Hash>, i: nat)
    requires i < |ids| && Elsewhere(a, b, ids) && Elsewhere(b, c, [ids[i]])
    ensures Elsewhere(a, c, ids)
  {
  }

  lemma {:induction false} RegeneratedAgain(a: BlockMap, b: BlockMap, c: BlockMap)
    requires Regenerated(a, b) && Regenerated(b, c)
    ensures Regenerated(a, c)
  {
  }

  lemma {:induction false} BranchAbove(blockMap: BlockMap, nodes: seq<ProcessedBlock>, id: Hash, k: nat)
    requires Rooted(id) && Backtracked(blockMap, nodes, Ancestry(id), k)
    ensures |nodes| == |Ancestry(id)| - k && Branch(blockMap, nodes[1..], Ancestry(id), k + 1)
  {
    hide GenesisID, Ancestry, Rooted;
  }

  /** One step up a branch. */
  lemma {:induction false} BranchUp(blockMap: BlockMap, nodes: seq<ProcessedBlock>, id: Hash, k: nat)
    requires Rooted(id) && k < |Ancestry(id)| && Branch(blockMap, nodes, Ancestry(id), k)
    ensures |nodes| == |Ancestry(id)| - k && Branch(blockMap, nodes[1..], Ancestry(id), k + 1)
  {
    hide GenesisID, Ancestry, Rooted;
  }

  /** Validating the first block of a branch leaves the others as they are. */
  lemma {:induction false} BranchKept(before: BlockMap, after: BlockMap, nodes: seq<ProcessedBlock>, id: Hash, k: nat)
    requires Rooted(id) && 0 < k <= |Ancestry(id)| && Branch(before, nodes, Ancestry(id), k)
    requires Regenerated(before, after)
    requires Elsewhere(before, after, [Ancestry(id)[k - 1]])
    ensures Branch(after, nodes, Ancestry(id), k)
  {
    hide Height, GenesisID, Ancestry, Rooted;
    AncestryShape(id);
    forall i | k <= i < |Ancestry(id)|
      ensures Ancestry(id)[i] in after && nodes[i - k] == after[Ancestry(id)[i]]
    {
      assert Height(Ancestry(id)[i]) != Height(Ancestry(id)[k - 1]);
    }
  }

  /** The first block of a branch. */
  lemma {:induction false} BranchStart(r: Rules, blockMap: BlockMap, oak: Oak, nodes: seq<ProcessedBlock>, id: Hash,
                                       k: nat)
    requires TreeOk(r, blockMap, oak) && Rooted(id) && k < |Ancestry(id)| && Branch(blockMap, nodes, Ancestry(id), k)
    ensures Ancestry(id)[k] in blockMap && nodes[0] == blockMap[Ancestry(id)[k]]
    ensures nodes[0].height == k == Height(Ancestry(id)[k]) && BlockID(nodes[0].block) == Ancestry(id)[k]
    ensures k > 0 ==> nodes[0].block.parentID == Ancestry(id)[k - 1]
  {
    hide TreeOk, Height, GenesisID, Ancestry, Rooted;
    AncestryShape(id);
    NodeFacts(r, blockMap, oak, Ancestry(id)[k]);
  }

  /** Where backtracking ends. */
  lemma {:induction false} ForkStart(r: Rules, blockMap: BlockMap, oak: Oak, nodes: seq<ProcessedBlock>, id: Hash,
                                     tip: Hash)
    requires TreeOk(r, blockMap, oak) && id in blockMap && Rooted(tip)
    requires Backtracked(blockMap, nodes, Ancestry(id), ForkPoint(tip, id))
    ensures var k := ForkPoint(tip, id);
            && nodes[0].height == k < |Ancestry(tip)| && BlockID(nodes[0].block) == Ancestry(id)[k] == Ancestry(tip)[k]
  {
    hide TreeOk, Height, GenesisID, Ancestry, Rooted, ForkPoint;
    NodeFacts(r, blockMap, oak, id);
    SharedUpTo(tip, id);
  }

  /** The fork point of an ancestor is the ancestor. */
  lemma {:induction false} ForkAtAncestor(id: Hash, k: nat)
    requires Rooted(id) && k < |Ancestry(id)|
    ensures ForkPoint(Ancestry(id)[k], id) == k
    ensures Rooted(Ancestry(id)[k]) && Ancestry(Ancestry(id)[k]) == Ancestry(id)[..k + 1]
  {
    hide Rooted, Ancestry, Height, GenesisID;
    AncestryShape(id);
    CommonIs(Ancestry(id)[..k + 1], Ancestry(id), k + 1);
  }

  /** The same blocks; some may have been validated. */
  ghost predicate Regenerated(before: BlockMap, after: BlockMap) {
    && after.Keys == before.Keys
    && (forall id :: id in before ==>
       after[id].depth == before[id].depth && after[id].childTarget == before[id].childTarget)
    && (forall id :: id in before && before[id].diffsGenerated ==> after[id] == before[id])
  }

  /** Nothing but the given blocks has changed. */
  ghost predicate Elsewhere(before: BlockMap, after: BlockMap, ids: seq<Hash>) {
    forall x :: x in before && x !in ids ==> x in after && after[x] == before[x]
  }

  lemma {:induction false} PathGrows(id: Hash)
    requires Rooted(id) && id != GenesisID()
    ensures id.BlockID? && Ancestry(id) == Ancestry(id.block.parentID) + [id]
  {
    hide GenesisID;
  }

  /** A stored block that has not been validated yet is valid exactly when its
      parent's chain is and its transactions are. */
  lemma {:induction false} NewFacts(r: Rules, blockMap: BlockMap, oak: Oak, id: Hash)
    requires id.BlockID? && TreeOk(r, blockMap, oak) && id in blockMap && !blockMap[id].diffsGenerated
    requires id != GenesisID()
    requires Valid(r, id.block.parentID)
    ensures var pb, s := blockMap[id], StateAt(id.block.parentID);
            && BlockID(pb.block) == id && pb.height == |s.path| == Height(id) && s.path != []
            && pb.outputDiffs == [] && pb.contractDiffs == [] && pb.delayedDiffs == []
            && (Valid(r, id) <==> ValidTransactions(r.oracle, Opened(s, pb.height), pb.block.transactions, pb.height))
            && StateAt(id) == Effect(s, pb.block, pb.height)
  {
    hide Recorded, WeightAt, GenesisNode, PayoutsOk, GenesisID, Effect, Opened, ValidTransactions, Healthy, MinimumTime;
    assert NodeOk(r, blockMap, oak, id);
    ChainStep(r.oracle, r.devFund, id);
    TipFacts(r, id.block.parentID);
    ParentIsLower(id);
  }

  lemma {:induction false} GenesisTree(r: Rules, blockMap: BlockMap, oak: Oak)
    requires blockMap == map[GenesisID() := GenesisNode()]
    requires oak == map[GenesisID() :=
             Totals(WeightOfRoot(GenesisBlock()).totalTime, WeightOfRoot(GenesisBlock()).totalTarget)]
    ensures TreeOk(r, blockMap, oak) && Valid(r, GenesisID()) && AllGenerated(blockMap, GenesisState().path)
    ensures TipIsBest(blockMap, GenesisID())
    ensures HistoryOk([GenesisEntry(GenesisID())], GenesisID()) && LogGenerated(blockMap, [GenesisEntry(GenesisID())])
    ensures ExpirationsMatch(GenesisState().contracts, map[])
    ensures StateAt(GenesisID()) == GenesisState() && GenesisState().path == [GenesisID()]
  {
    hide GenesisDiffs, Allocation, NewTotalTarget, NewTotalTime, AddDifficulties;
    GenesisIsLow();
    RequirementBelow(ROOT_DEPTH, ROOT_TARGET);
    assert NodeOk(r, blockMap, oak, GenesisID());
  }

  /** Reverting a validated block leads to the state of its parent. */
  lemma {:induction false} RevertFacts(r: Rules, blockMap: BlockMap, oak: Oak, id: Hash)
    requires TreeOk(r, blockMap, oak) && id in blockMap && blockMap[id].diffsGenerated && id != GenesisID()
    ensures id.BlockID? && BlockID(blockMap[id].block) == id && id.block.parentID in blockMap
    ensures Valid(r, id) && Valid(r, id.block.parentID)
    ensures Recorded(blockMap[id], StateAt(id.block.parentID), StateAt(id))
  {
    hide Recorded, WeightAt, StateAt, HeaderOk, GenesisNode, BlockOk;
    assert NodeOk(r, blockMap, oak, id);
    ChainStep(r.oracle, r.devFund, id);
  }

  lemma {:induction false} BranchTop(blockMap: BlockMap, ancestry: seq<Hash>)
    requires ancestry != [] && ancestry[|ancestry| - 1] in blockMap
    ensures Branch(blockMap, [blockMap[ancestry[|ancestry| - 1]]], ancestry, |ancestry| - 1)
    ensures Branch(blockMap, [], ancestry, |ancestry|)
  {
  }

  /** One step down a branch, to a node of which the header is known, or all. */
  lemma {:induction false} BranchDown(r: Rules, blockMap: BlockMap, oak: Oak, nodes: seq<ProcessedBlock>, id: Hash,
                                      k: nat)
    requires nodes != [] && TreeOk(r, blockMap, oak) && Rooted(id) && 0 < k < |Ancestry(id)|
    requires Branch(blockMap, nodes, Ancestry(id), k)
    ensures nodes[0].block.parentID == Ancestry(id)[k - 1] && Ancestry(id)[k - 1] in blockMap
    ensures Height(Ancestry(id)[k - 1]) == k - 1 && blockMap[Ancestry(id)[k - 1]].height == k - 1
    ensures forall pb: ProcessedBlock :: BlockID(pb.block) == Ancestry(id)[k - 1] && pb.height == k - 1 ==>
              Backtracked(blockMap, [pb] + nodes, Ancestry(id), k - 1)
    ensures Branch(blockMap, [blockMap[Ancestry(id)[k - 1]]] + nodes, Ancestry(id), k - 1)
  {
    hide TreeOk, Height, GenesisID, Ancestry, Rooted;
    AncestryShape(id);
    NodeFacts(r, blockMap, oak, Ancestry(id)[k]);
    GenesisIsLow();
    NodeFacts(r, blockMap, oak, Ancestry(id)[k - 1]);
    forall pb: ProcessedBlock | BlockID(pb.block) == Ancestry(id)[k - 1] && pb.height == k - 1
      ensures Backtracked(blockMap, [pb] + nodes, Ancestry(id), k - 1)
    {
      assert ([pb] + nodes)[1..] == nodes;
    }
  }
}
