/** What getBlockMap gives back for a stored block (modules/consensus/consensusdb.go).

    A block is stored encoded. Outside DEBUG builds getBlockMap drops the error
    of the decoder, so a stored block that exceeds the decoder's limits comes
    back cut off where the decoder stopped. */
module Storage {
  import opened Hashing
  import opened Wire
  import opened WireTypes
  import opened Buckets

  // unsafe.Sizeof of the diffs on a 64-bit platform
  const SIZEOF_OUTPUT_DIFF: nat := 104
  const SIZEOF_CONTRACT_DIFF: nat := 216
  const SIZEOF_DELAYED_DIFF: nat := 112

  /** As many diffs as the decoder accepts. */
  predicate OutputListFits(c: Counts) { c.outputs * SIZEOF_OUTPUT_DIFF <= MAX_SLICE_SIZE }

  predicate ContractListFits(c: Counts) { c.contracts * SIZEOF_CONTRACT_DIFF <= MAX_SLICE_SIZE }

  predicate DelayedListFits(c: Counts) { c.delayed * SIZEOF_DELAYED_DIFF <= MAX_SLICE_SIZE }

  predicate ListsFit(c: Counts) {
    OutputListFits(c) && ContractListFits(c) && DelayedListFits(c)
  }

  /** The decoder accepts the stored block. */
  predicate ReadsBack(pb: ProcessedBlock) {
    BlockFits(pb.block) && ListsFit(CountsOf(pb))
  }

  /** getBlockMap on a block that is stored. What the decoder had read of the
      lists of a block when it gave up is a parameter. */
  function Load(salvage: Blk -> Blk, pb: ProcessedBlock): ProcessedBlock {
    var c := CountsOf(pb);
    if !BlockFits(pb.block) then
      var rest := salvage(pb.block);
      ProcessedBlock(pb.block.(minerPayouts := rest.minerPayouts, transactions := rest.transactions), 0, 0, 0, false,
        [], [], [])
    else if !OutputListFits(c) then
      pb.(outputDiffs := [], contractDiffs := [], delayedDiffs := [])
    else if !ContractListFits(c) then
      pb.(contractDiffs := [], delayedDiffs := [])
    else if !DelayedListFits(c) then
      pb.(delayedDiffs := [])
    else
      pb
  }

  /** It is the stored block if and only if the decoder accepts it. */
  lemma {:induction false} LoadIsExact(salvage: Blk -> Blk, pb: ProcessedBlock)
    requires pb.depth > 0
    ensures Load(salvage, pb) == pb <==> ReadsBack(pb)
  {
    hide BlockFits;
    var c := CountsOf(pb);
    assert !OutputListFits(c) ==> pb.outputDiffs != [];
    assert !ContractListFits(c) ==> pb.contractDiffs != [];
    assert !DelayedListFits(c) ==> pb.delayedDiffs != [];
  }

  /** What is left of the diffs of a block that is not accepted. */
  lemma {:induction false} LoadLeaves(salvage: Blk -> Blk, pb: ProcessedBlock)
    requires !ReadsBack(pb)
    ensures var c, l := CountsOf(pb), Load(salvage, pb);
            && l.outputDiffs == (if BlockFits(pb.block) && OutputListFits(c) then pb.outputDiffs else [])
            && l.contractDiffs
               == (if BlockFits(pb.block) && OutputListFits(c) && ContractListFits(c) then pb.contractDiffs else [])
            && l.delayedDiffs == []
            && (BlockFits(pb.block) ==> l.block == pb.block && l.height == pb.height)
  {
    hide BlockFits;
  }

  lemma {:induction false} LoadReadsBack(salvage: Blk -> Blk, pb: ProcessedBlock)
    requires ReadsBack(pb)
    ensures Load(salvage, pb) == pb
  {
    hide BlockFits;
  }
}
