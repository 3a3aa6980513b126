/** The weight of every block: a function of its id, like the state. */
module Weights {
  import opened Types
  import opened Hashing
  import opened Targets
  import opened Difficulty
  import opened Freshness
  import opened Chain

  const ROOT_TARGET: nat := 4 * 0x1_00000000_00000000_00000000_00000000_00000000_00000000_00000000

  /** Depth and ChildTarget of a processed block, and its totals in the Oak bucket. */
  datatype Weight = Weight(depth: nat, childTarget: nat, totalTime: int, totalTarget: nat)

  /** The weight of a chain's first block. */
  function RootWeight(depth: nat, target: nat, timestamp: uint64): Weight
    requires depth > 0 && target > 0
  {
    Weight(depth, target, NewTotalTime(0, timestamp, timestamp), NewTotalTarget(depth, target))
  }

  function WeightOfRoot(b: Blk): Weight { RootWeight(ROOT_DEPTH, ROOT_TARGET, b.timestamp) }

  /** newChild: the weight of a child, unless the parent has a zero target,
      on which the source panics. */
  function ChildWeight(w: Weight, parentHeight: nat, parentTimestamp: uint64, timestamp: uint64): Option<Weight> {
    if w.depth == 0 || w.childTarget == 0 || w.totalTarget == 0 then None
    else Some(Weight(
      AddDifficulties(w.depth, w.childTarget),
      ChildTargetOak(w.totalTime, w.totalTarget, w.childTarget, parentHeight, parentTimestamp),
      NewTotalTime(w.totalTime, parentTimestamp, timestamp),
      NewTotalTarget(w.totalTarget, w.childTarget)))
  }

  function WeightAt(id: Hash): Option<Weight> {
    if id == GenesisID() then Some(WeightOfRoot(GenesisBlock()))
    else match id
      case BlockID(b) =>
        (match WeightAt(b.parentID)
         case Some(w) => if b.parentID.BlockID?
           then ChildWeight(w, Height(b.parentID), b.parentID.block.timestamp, b.timestamp) else None
         case None => None)
      case _ => None
  }

  /** n parents back. */
  function Ancestor(id: Hash, n: nat): Hash
    decreases n
  {
    if n == 0 || !id.BlockID? then id else Ancestor(id.block.parentID, n - 1)
  }

  /** Targets are 256-bit numbers. */
  predicate InRange(w: Weight) {
    w.depth <= ROOT_DEPTH && w.childTarget <= ROOT_DEPTH && w.totalTarget <= ROOT_DEPTH
  }

  lemma {:induction false} ChildInRange(w: Weight, parentHeight: nat, parentTimestamp: uint64, timestamp: uint64)
    requires ChildWeight(w, parentHeight, parentTimestamp, timestamp).Some?
    ensures InRange(ChildWeight(w, parentHeight, parentTimestamp, timestamp).value)
    ensures ChildWeight(w, parentHeight, parentTimestamp, timestamp).value.depth < w.depth
  {
    hide VisibleHashrate, TargetBlockTime, NewTotalTime;
    AddDifficultiesBelow(w.depth, w.childTarget);
    MulDifficultyIs(w.totalTarget, OAK_DECAY);
  }

  lemma {:induction false} ChildTargetStep(w: Weight, parentHeight: nat, parentTimestamp: uint64, timestamp: uint64)
    requires ChildWeight(w, parentHeight, parentTimestamp, timestamp).Some? && InRange(w)
    requires parentHeight != LAUNCH_HEIGHT
    ensures var t := ChildWeight(w, parentHeight, parentTimestamp, timestamp).value.childTarget as real;
            w.childTarget as real * OAK_MAX_DROP - 1.0 < t <= w.childTarget as real * OAK_MAX_RISE
  {
    hide Clamped, AddDifficulties, NewTotalTarget, NewTotalTime, VisibleHashrate, TargetBlockTime;
    var rate, time := VisibleHashrate(w.totalTime, w.totalTarget), TargetBlockTime(parentHeight, parentTimestamp);
    ClampedWithin(w.childTarget, RatToTarget(ROOT_DEPTH as real / (rate * time) as real));
  }

  lemma {:induction false} EveryWeightInRange(id: Hash)
    requires WeightAt(id).Some?
    ensures InRange(WeightAt(id).value)
  {
    hide ChildWeight, WeightOfRoot, GenesisID, InRange;
    if id == GenesisID() {
      GenesisInRange();
    } else {
      var p := id.block.parentID;
      ChildInRange(WeightAt(p).value, Height(p), p.block.timestamp, id.block.timestamp);
    }
  }

  lemma {:induction false} GenesisInRange()
    ensures InRange(WeightOfRoot(GenesisBlock()))
  {
    hide AddDifficulties, NewTotalTime;
    MulDifficultyIs(ROOT_DEPTH, OAK_DECAY);
    AddDifficultiesBelow(MulDifficulty(ROOT_DEPTH, OAK_DECAY), ROOT_TARGET);
  }

  /** Every block is deeper than its parent. */
  lemma {:induction false} DepthFalls(id: Hash)
    requires id != GenesisID() && WeightAt(id).Some?
    ensures id.BlockID? && WeightAt(id.block.parentID).Some?
    ensures WeightAt(id).value.depth < WeightAt(id.block.parentID).value.depth
  {
    hide ChildWeight, WeightOfRoot, GenesisID, InRange;
    var p := id.block.parentID;
    ChildInRange(WeightAt(p).value, Height(p), p.block.timestamp, id.block.timestamp);
  }

  /** Over n blocks that do not cross the launch height, the target of a chain
      moves by at most 0.4% a block, up to a constant. */
  lemma {:induction false} OakOverChain(id: Hash, n: nat)
    requires WeightAt(id).Some? && Rooted(id) && n <= Height(id)
    requires !(Height(id) - n <= LAUNCH_HEIGHT < Height(id))
    ensures WeightAt(Ancestor(id, n)).Some?
    ensures var start, end :=
            WeightAt(Ancestor(id, n)).value.childTarget as real, WeightAt(id).value.childTarget as real;
            start * Power(OAK_MAX_DROP, n) - 251.0 < end <= start * Power(OAK_MAX_RISE, n)
  {
    hide ChildWeight, WeightOfRoot, GenesisID, InRange, Power, Height;
    if n == 0 {
      PowerZero();
    } else {
      GenesisIsLow();
      ParentIsLower(id);
      var p := id.block.parentID;
      OakOverChain(p, n - 1);
      EveryWeightInRange(p);
      var w := WeightAt(p).value;
      ChildTargetStep(w, Height(p), p.block.timestamp, id.block.timestamp);
      BoundsCompose(WeightAt(Ancestor(id, n)).value.childTarget as real, w.childTarget as real,
        WeightAt(id).value.childTarget as real, n - 1);
    }
  }

  lemma PowerZero()
    ensures Power(OAK_MAX_DROP, 0) == 1.0 == Power(OAK_MAX_RISE, 0)
  {
  }

  lemma {:induction false} GenesisIsLow()
    ensures Height(GenesisID()) == 0 && GenesisID().BlockID? && GenesisID().block.parentID == ZERO
  {
    hide Allocation;
  }

  lemma {:induction false} ParentIsLower(id: Hash)
    requires Rooted(id) && id != GenesisID()
    ensures id.BlockID? && Rooted(id.block.parentID) && Height(id) == Height(id.block.parentID) + 1
  {
    hide Allocation;
    assert !Rooted(ZERO);
  }
}
