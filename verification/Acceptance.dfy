/** Which batches of blocks are accepted, as a function of what is known
    (modules/consensus/accept.go).

    Module Consensus proves that the operations on the database decide this. */
module Acceptance {
  import opened Types
  import opened Hashing
  import opened WireTypes
  import opened Chain
  import opened Targets
  import opened Weights
  import opened Storage
  import opened ChangeLog
  import opened BlockTree

  const FUTURE_THRESHOLD: nat := 3 * 60 * 60
  const EXTREME_FUTURE_THRESHOLD: nat := 5 * 60 * 60

  datatype BlockError =
    | NoError | DoSBlock | BlockKnown | Orphan | Undecodable | EarlyTimestamp | BlockUnsolved | LargeBlock
    | ExtremeFutureTimestamp | BadMinerPayouts | FutureTimestamp

  datatype AcceptError =
    | NoFailure | NonLinearChain | BadBlock(e: BlockError) | InvalidBlock | MoreReverted | NonExtendingBlock | Panicked

  /** What acceptance depends on: the stored blocks, which of them have been
      validated, the current block, and the blocks marked as bad. */
  datatype View = View(known: set<Hash>, generated: set<Hash>, tip: Hash, bad: set<Hash>)

  /** The stored block reads back. */
  ghost predicate ReadsAt(v: View, id: Hash) {
    id.BlockID? && BlockFits(id.block) && (id in v.generated ==> ListsFit(CountsAt(id)))
  }

  /** A block that may enter the tree now. */
  ghost predicate Acceptable(r: Rules, v: View, b: Blk, now: nat) {
    && BlockID(b) !in v.bad && BlockID(b) !in v.known && b.parentID in v.known && ReadsAt(v, b.parentID)
    && HeaderOk(r, BlockID(b)) && b.timestamp <= now + FUTURE_THRESHOLD
  }

  lemma {:induction false} AcceptableIs(r: Rules, v: View, b: Blk, now: nat)
    ensures Acceptable(r, v, b, now)
       <==> && BlockID(b) !in v.bad && BlockID(b) !in v.known && b.parentID in v.known && ReadsAt(v, b.parentID)
            && HeaderOk(r, BlockID(b)) && b.timestamp <= now + FUTURE_THRESHOLD
  {
    hide HeaderOk, ReadsAt;
  }

  /** Both blocks have a weight, and the tip's targets are not zero. */
  ghost predicate Comparable(id: Hash, tip: Hash) {
    match (WeightAt(id), WeightAt(tip))
    case (Some(_), Some(w)) => w.depth > 0 && w.childTarget > 0
    case _ => false
  }

  /** heavierThan. */
  ghost predicate Replaces(id: Hash, tip: Hash) {
    match (WeightAt(id), WeightAt(tip))
    case (Some(v), Some(w)) => w.depth > 0 && w.childTarget > 0 && HeavierThan(v.depth, w.depth, w.childTarget)
    case _ => false
  }

  /** The block of an id is within the decoder's limits. */
  predicate BlockDecodes(id: Hash) {
    id.BlockID? && BlockFits(id.block)
  }

  ghost function Kept(v: View, id: Hash): View {
    v.(known := v.known + {id})
  }

  ghost function Moved(v: View, id: Hash): View {
    View(v.known + {id}, v.generated + (set x | x in Ancestry(id)), id, v.bad)
  }

  /** What becomes of one block of a batch: nothing if it fails, otherwise the
      new view and the change, if the tip moves. */
  ghost function Accepted(r: Rules, v: View, b: Blk, now: nat): Option<(View, seq<ChangeEntry>)> {
    var id := BlockID(b);
    if id !in v.bad && id in v.known then Some((v, []))
    else if !Acceptable(r, v, b, now) || !BlockDecodes(v.tip) || !Comparable(id, v.tip) then None
    else if !Replaces(id, v.tip) then Some((Kept(v, id), []))
    else if Valid(r, id) && |Reorg(v.tip, id).applied| >= |Reorg(v.tip, id).reverted|
      then Some((Moved(v, id), [Reorg(v.tip, id)]))
    else None
  }

  /** The lowest block on the way to a block whose chain is not valid. */
  ghost function FirstInvalid(r: Rules, id: Hash): Hash {
    if id == GenesisID() || !id.BlockID? || Valid(r, id.block.parentID) then id
    else FirstInvalid(r, id.block.parentID)
  }

  /** There is one: it is not valid, and its parent is. */
  lemma {:induction false} FirstInvalidExists(r: Rules, id: Hash)
    requires Rooted(id) && !Valid(r, id)
    ensures var x := FirstInvalid(r, id); x in Ancestry(id) && x.BlockID? && !Valid(r, x) && Valid(r, x.block.parentID)
  {
    hide StateAt, GenesisBlock;
    if id != GenesisID() && !Valid(r, id.block.parentID) {
      FirstInvalidExists(r, id.block.parentID);
    }
  }

  /** And only one. */
  lemma {:induction false} FirstInvalidIs(r: Rules, id: Hash, j: nat)
    requires Rooted(id) && 0 < j < |Ancestry(id)| && Valid(r, Ancestry(id)[j - 1]) && !Valid(r, Ancestry(id)[j])
    ensures FirstInvalid(r, id) == Ancestry(id)[j] && !Valid(r, id)
    decreases |Ancestry(id)|
  {
    hide StateAt, ValidChain, GenesisID;
    AncestryShape(id);
    GenesisIsItself();
    if Valid(r, id) {
      ValidAncestor(r, id, j);
    }
    var n, p := |Ancestry(id)| - 1, id.block.parentID;
    if j < n {
      assert Ancestry(id)[n - 1] == p && Ancestry(p) == Ancestry(id)[..n];
      if Valid(r, p) {
        ValidAncestor(r, p, j);
      }
      FirstInvalidIs(r, p, j);
    }
  }

  /** A block of a batch that enters the tree and would move the tip, but for
      its chain, which is not valid. */
  ghost predicate Condemned(r: Rules, v: View, b: Blk, now: nat) {
    && Acceptable(r, v, b, now) && BlockDecodes(v.tip) && Replaces(BlockID(b), v.tip) && !Valid(r, BlockID(b))
  }

  /** And of a whole batch: it fails with its first block that does. */
  ghost function AcceptedAll(r: Rules, v: View, blocks: seq<Blk>, now: nat): Option<(View, seq<ChangeEntry>)> {
    if blocks == [] then Some((v, []))
    else match AcceptedAll(r, v, blocks[..|blocks| - 1], now)
      case None => None
      case Some((v1, changes)) =>
        match Accepted(r, v1, blocks[|blocks| - 1], now)
        case None => None
        case Some((v2, more)) => Some((v2, changes + more))
  }

  /** The block that a batch leaves marked as bad: the first invalid one on the
      way to the block the batch fails with, if that is why it fails. */
  ghost function Marked(r: Rules, v: View, blocks: seq<Blk>, now: nat): set<Hash> {
    if blocks == [] then {}
    else
      var pre, b := blocks[..|blocks| - 1], blocks[|blocks| - 1];
      match AcceptedAll(r, v, pre, now)
      case None => Marked(r, v, pre, now)
      case Some((v1, _)) => if Condemned(r, v1, b, now) then {FirstInvalid(r, BlockID(b))} else {}
  }

  lemma {:induction false} AcceptedOneMore(r: Rules, v: View, blocks: seq<Blk>, now: nat, i: nat)
    requires i < |blocks|
    ensures AcceptedAll(r, v, blocks[..i + 1], now)
         == match AcceptedAll(r, v, blocks[..i], now)
            case None => None
            case Some((v1, changes)) =>
              match Accepted(r, v1, blocks[i], now)
              case None => None
              case Some((v2, more)) => Some((v2, changes + more))
  {
    hide Accepted;
    assert blocks[..i + 1][..i] == blocks[..i];
  }

  lemma {:induction false} MarkedOneMore(r: Rules, v: View, blocks: seq<Blk>, now: nat, i: nat)
    requires i < |blocks|
    ensures Marked(r, v, blocks[..i + 1], now)
         == match AcceptedAll(r, v, blocks[..i], now)
            case None => Marked(r, v, blocks[..i], now)
            case Some((v1, _)) =>
              if Condemned(r, v1, blocks[i], now) then {FirstInvalid(r, BlockID(blocks[i]))} else {}
  {
    hide AcceptedAll, Condemned, FirstInvalid;
    assert blocks[..i + 1][..i] == blocks[..i];
  }

  /** What follows the block that a batch fails with is not looked at. */
  lemma {:induction false} MarkedPrefix(r: Rules, v: View, blocks: seq<Blk>, now: nat, n: nat)
    requires n <= |blocks| && AcceptedAll(r, v, blocks[..n], now) == None
    ensures Marked(r, v, blocks, now) == Marked(r, v, blocks[..n], now)
    decreases |blocks|
  {
    hide AcceptedAll, Condemned, FirstInvalid;
    if n == |blocks| {
      assert blocks[..n] == blocks;
    } else {
      var pre := blocks[..|blocks| - 1];
      assert pre[..n] == blocks[..n];
      MarkedPrefix(r, v, pre, now, n);
      FailedPrefix(r, v, pre, now, n);
    }
  }

  /** A batch that is accepted leaves no mark. */
  lemma {:induction false} NoneMarked(r: Rules, v: View, blocks: seq<Blk>, now: nat)
    requires AcceptedAll(r, v, blocks, now).Some?
    ensures Marked(r, v, blocks, now) == {}
  {
    hide HeaderOk, ReadsAt, Comparable, Replaces, Valid, FirstInvalid, Reorg, Kept, Moved, BlockDecodes;
  }

  lemma {:induction false} NothingAccepted(r: Rules, v: View, now: nat)
    ensures AcceptedAll(r, v, [], now) == Some((v, []))
  {
  }

  lemma {:induction false} FailedPrefix(r: Rules, v: View, blocks: seq<Blk>, now: nat, n: nat)
    requires n <= |blocks| && AcceptedAll(r, v, blocks[..n], now) == None
    ensures AcceptedAll(r, v, blocks, now) == None
    decreases |blocks|
  {
    hide Accepted;
    if n == |blocks| {
      assert blocks[..n] == blocks;
    } else {
      assert blocks[..|blocks| - 1][..n] == blocks[..n];
      FailedPrefix(r, v, blocks[..|blocks| - 1], now, n);
    }
  }

  /** Some block of a batch is heavy enough to replace the tip. */
  ghost predicate MayMove(blocks: seq<Blk>, tip: Hash) {
    exists j :: 0 <= j < |blocks| && Replaces(BlockID(blocks[j]), tip)
  }

  /** Each block is the child of the one before it. */
  predicate Linear(blocks: seq<Blk>) {
    forall i :: 0 < i < |blocks| ==> blocks[i].parentID == BlockID(blocks[i - 1])
  }
}
