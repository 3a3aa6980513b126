/** What subscribers are sent: the diffs of a change entry, and the proof that
    applying all of them rebuilds the buckets (modules/consensus/subscribe.go). */
module Replica {
  import opened Types
  import opened Hashing
  import opened Diffs
  import opened Ledger
  import opened Freshness
  import opened Supply
  import opened Chain
  import opened Weights
  import opened Buckets
  import opened MedianTime
  import opened ChangeLog
  import opened BlockTree
  import opened WireTypes
  import opened Storage
  import opened Footprint
  import opened Consensus
  import opened Subscription

  // ---------------------------------------------------------------- flipping diffs

  /** The diffs in reverse order, each in the other direction. */
  function Flipped<K, V>(ds: seq<Diff<K, V>>): seq<Diff<K, V>> {
    if ds == [] then [] else [Flip(ds[|ds| - 1])] + Flipped(ds[..|ds| - 1])
  }

  function Flip<K, V>(d: Diff<K, V>): Diff<K, V> { Diff(!d.direction, d.id, d.value) }

  lemma {:induction false} CommitConcat<K, V>(m: map<K, V>, a: seq<Diff<K, V>>, b: seq<Diff<K, V>>)
    ensures CommitAll(m, a + b) == CommitAll(CommitAll(m, a), b)
  {
    if b == [] {
      assert a + b == a;
    } else {
      CommitConcat(m, a, b[..|b| - 1]);
      assert (a + b)[..|a + b| - 1] == a + b[..|b| - 1];
    }
  }

  /** Applying flipped diffs is reverting. */
  lemma {:induction false} FlippedReverts<K, V>(m: map<K, V>, ds: seq<Diff<K, V>>)
    ensures CommitAll(m, Flipped(ds)) == RevertAll(m, ds)
    decreases |ds|
  {
    if ds != [] {
      var d, pre := ds[|ds| - 1], ds[..|ds| - 1];
      CommitConcat(m, [Flip(d)], Flipped(pre));
      assert [Flip(d)][..0] == [];
      assert CommitAll(m, [Flip(d)]) == Commit(m, d, false);
      FlippedReverts(Commit(m, d, false), pre);
    }
  }

  /** Maps that differ only in some keys still do after the same diffs. */
  lemma {:induction false} CommitApart<K, V>(m: map<K, V>, m': map<K, V>, ds: seq<Diff<K, V>>, apart: set<K>)
    requires m - apart == m' - apart
    ensures CommitAll(m, ds) - apart == CommitAll(m', ds) - apart
  {
    if ds != [] {
      var pre, d := ds[..|ds| - 1], ds[|ds| - 1];
      CommitApart(m, m', pre, apart);
      CommitOneApart(CommitAll(m, pre), CommitAll(m', pre), d, apart);
    }
  }

  lemma {:induction false} CommitOneApart<K, V>(m: map<K, V>, m': map<K, V>, d: Diff<K, V>, apart: set<K>)
    requires m - apart == m' - apart
    ensures Commit(m, d, true) - apart == Commit(m', d, true) - apart
  {
    var c, c' := Commit(m, d, true) - apart, Commit(m', d, true) - apart;
    forall k
      ensures k in c <==> k in c'
      ensures k in c ==> c[k] == c'[k]
    {
      assert k in m - apart <==> k in m' - apart;
    }
  }

  // ---------------------------------------------------------------- the diffs of an entry

  /** The block map as getBlockMap shows it. */
  function Loaded(r: Rules, blockMap: BlockMap): BlockMap {
    map id | id in blockMap :: Load(r.salvage, blockMap[id])
  }

  function OutputDiffs(pb: ProcessedBlock): seq<Diff<Hash, Output>> { pb.outputDiffs }
  function ContractDiffs(pb: ProcessedBlock): seq<Diff<Hash, Contract>> { pb.contractDiffs }

  /** The delayed diffs, with the maturity height as part of the key. */
  function DelayedDiffs(pb: ProcessedBlock): seq<Diff<(nat, Hash), Output>> { Flat(pb.delayedDiffs) }

  function Flat(ds: seq<DelayedDiff>): seq<Diff<(nat, Hash), Output>> {
    seq(|ds|, i requires 0 <= i < |ds| => Diff(ds[i].direction, (ds[i].maturityHeight, ds[i].id), ds[i].value))
  }

  /** The flipped diffs of a list of blocks. */
  function Reverting<K, V>(blockMap: BlockMap, get: ProcessedBlock -> seq<Diff<K, V>>,
                           ids: seq<Hash>): seq<Diff<K, V>> {
    if ids == [] then [] else
      var id := ids[|ids| - 1];
      Reverting(blockMap, get, ids[..|ids| - 1]) + if id in blockMap then Flipped(get(blockMap[id])) else []
  }

  /** The diffs of a list of blocks. */
  function Applying<K, V>(blockMap: BlockMap, get: ProcessedBlock -> seq<Diff<K, V>>, ids: seq<Hash>): seq<Diff<K, V>> {
    if ids == [] then [] else
      var id := ids[|ids| - 1];
      Applying(blockMap, get, ids[..|ids| - 1]) + if id in blockMap then get(blockMap[id]) else []
  }

  function EntryDiffs<K, V>(blockMap: BlockMap, get: ProcessedBlock -> seq<Diff<K, V>>,
                            ce: ChangeEntry): seq<Diff<K, V>> {
    Reverting(blockMap, get, ce.reverted) + Applying(blockMap, get, ce.applied)
  }

  /** A ConsensusChange, without the Synced flag and the transaction tester. */
  datatype ConsensusChange = ConsensusChange(
    id: Hash,
    reverted: seq<Blk>,
    applied: seq<Blk>,
    outputDiffs: seq<Diff<Hash, Output>>,
    contractDiffs: seq<Diff<Hash, Contract>>,
    delayedDiffs: seq<DelayedDiff>,
    childTarget: nat,
    minimumValidChildTimestamp: int)

  /** The loop over the diffs of a reverted block. */
  method AppendFlipped<K, V>(ds: seq<Diff<K, V>>, before: seq<Diff<K, V>>) returns (after: seq<Diff<K, V>>)
    ensures after == before + Flipped(ds)
  {
    after := before;
    assert ds[..|ds|] == ds;
    for i := |ds| downto 0
      invariant after + Flipped(ds[..i]) == before + Flipped(ds)
    {
      assert ds[..i + 1][..i] == ds[..i];
      assert Flipped(ds[..i + 1]) == [Flip(ds[i])] + Flipped(ds[..i]);
      after := after + [Diff(!ds[i].direction, ds[i].id, ds[i].value)];
    }
  }

  /** The same for the delayed diffs. */
  method AppendFlippedDelayed(ds: seq<DelayedDiff>, before: seq<DelayedDiff>) returns (after: seq<DelayedDiff>)
    ensures Flat(after) == Flat(before) + Flipped(Flat(ds))
  {
    after := before;
    ghost var fs := Flat(ds);
    assert fs[..|ds|] == fs;
    for i := |ds| downto 0
      invariant Flat(after) + Flipped(fs[..i]) == Flat(before) + Flipped(fs)
    {
      assert fs[..i + 1][..i] == fs[..i];
      assert Flipped(fs[..i + 1]) == [Flip(fs[i])] + Flipped(fs[..i]);
      ghost var was := after;
      after := after + [DelayedDiff(!ds[i].direction, ds[i].id, ds[i].value, ds[i].maturityHeight)];
      FlatConcat(was, [DelayedDiff(!ds[i].direction, ds[i].id, ds[i].value, ds[i].maturityHeight)]);
    }
  }

  lemma FlatConcat(a: seq<DelayedDiff>, b: seq<DelayedDiff>)
    ensures Flat(a + b) == Flat(a) + Flat(b)
  {
  }

  /** What has been collected from a list of blocks. */
  ghost predicate Collected(m: BlockMap, ids: seq<Hash>, revert: bool, blocks: seq<Blk>, scods: seq<Diff<Hash, Output>>,
                            fcds: seq<Diff<Hash, Contract>>, dscods: seq<DelayedDiff>) {
    && |blocks| == |ids| && (forall i :: 0 <= i < |ids| ==> ids[i] in m && blocks[i] == m[ids[i]].block)
    && scods == (if revert then Reverting(m, OutputDiffs, ids) else Applying(m, OutputDiffs, ids))
    && fcds == (if revert then Reverting(m, ContractDiffs, ids) else Applying(m, ContractDiffs, ids))
    && Flat(dscods) == (if revert then Reverting(m, DelayedDiffs, ids) else Applying(m, DelayedDiffs, ids))
  }

  /** The loop over the reverted blocks; an unknown id ends it with an error. */
  method CollectReverted(r: Rules, blockMap: BlockMap, ids: seq<Hash>)
      returns (ok: bool, blocks: seq<Blk>, scods: seq<Diff<Hash, Output>>, fcds: seq<Diff<Hash, Contract>>,
        dscods: seq<DelayedDiff>)
    ensures ok <==> forall id :: id in ids ==> id in blockMap
    ensures ok ==> Collected(Loaded(r, blockMap), ids, true, blocks, scods, fcds, dscods)
  {
    hide Flipped, Flat, Load;
    ghost var m := Loaded(r, blockMap);
    blocks, scods, fcds, dscods := [], [], [], [];
    NoDelayed();
    for i := 0 to |ids|
      invariant Collected(m, ids[..i], true, blocks, scods, fcds, dscods)
    {
      if ids[i] !in blockMap {
        return false, [], [], [], [];
      }
      var pb := Load(r.salvage, blockMap[ids[i]]);
      assert ids[..i + 1][..i] == ids[..i];
      blocks := blocks + [pb.block];
      scods := AppendFlipped(pb.outputDiffs, scods);
      fcds := AppendFlipped(pb.contractDiffs, fcds);
      dscods := AppendFlippedDelayed(pb.delayedDiffs, dscods);
    }
    assert ids[..|ids|] == ids;
    return true, blocks, scods, fcds, dscods;
  }

  lemma NoDelayed()
    ensures Flat([]) == []
  {
  }

  method CollectApplied(r: Rules, blockMap: BlockMap, ids: seq<Hash>)
      returns (ok: bool, blocks: seq<Blk>, scods: seq<Diff<Hash, Output>>, fcds: seq<Diff<Hash, Contract>>,
        dscods: seq<DelayedDiff>)
    ensures ok <==> forall id :: id in ids ==> id in blockMap
    ensures ok ==> Collected(Loaded(r, blockMap), ids, false, blocks, scods, fcds, dscods)
  {
    hide Flat, Load;
    ghost var m := Loaded(r, blockMap);
    blocks, scods, fcds, dscods := [], [], [], [];
    NoDelayed();
    for i := 0 to |ids|
      invariant Collected(m, ids[..i], false, blocks, scods, fcds, dscods)
    {
      if ids[i] !in blockMap {
        return false, [], [], [], [];
      }
      var pb := Load(r.salvage, blockMap[ids[i]]);
      assert ids[..i + 1][..i] == ids[..i];
      FlatConcat(dscods, pb.delayedDiffs);
      blocks := blocks + [pb.block];
      scods := scods + pb.outputDiffs;
      fcds := fcds + pb.contractDiffs;
      dscods := dscods + pb.delayedDiffs;
    }
    assert ids[..|ids|] == ids;
    return true, blocks, scods, fcds, dscods;
  }

  /** computeConsensusChange, on whatever the block map gives back. It fails
      exactly when a block of the entry is not stored. An entry that applies
      nothing, or a tip whose ancestors are not stored, would make the source
      panic. */
  method ComputeConsensusChange(r: Rules, blockMap: BlockMap, ce: ChangeEntry) returns (change: Option<ConsensusChange>)
    requires ce.applied != [] && (Tip(ce) in blockMap ==> Stored(blockMap, Tip(ce)))
    ensures change.Some? <==> forall id :: id in ce.reverted || id in ce.applied ==> id in blockMap
    ensures change.Some? ==> var cc, m := change.value, Loaded(r, blockMap);
              && cc.id == ce.ID()
              && cc.outputDiffs == EntryDiffs(m, OutputDiffs, ce)
              && cc.contractDiffs == EntryDiffs(m, ContractDiffs, ce)
              && Flat(cc.delayedDiffs) == EntryDiffs(m, DelayedDiffs, ce)
              && |cc.reverted| == |ce.reverted|
              && (forall i :: 0 <= i < |ce.reverted| ==> cc.reverted[i] == m[ce.reverted[i]].block)
              && |cc.applied| == |ce.applied|
              && (forall i :: 0 <= i < |ce.applied| ==> cc.applied[i] == m[ce.applied[i]].block)
              && cc.childTarget == m[Tip(ce)].childTarget && cc.minimumValidChildTimestamp == MinimumTime(Tip(ce))
  {
    hide MinimumTime, Stored, Reverting, Applying, Load, Flat;
    var ok, reverted, scods, fcds, dscods := CollectReverted(r, blockMap, ce.reverted);
    if !ok {
      return None;
    }
    var ok', applied, scods', fcds', dscods' := CollectApplied(r, blockMap, ce.applied);
    if !ok' {
      return None;
    }
    assert Tip(ce) in ce.applied;
    var pb := Load(r.salvage, blockMap[ce.applied[|ce.applied| - 1]]);
    StoredBlock(blockMap, Tip(ce));
    LoadKeepsHeader(r, blockMap[Tip(ce)]);
    FlatConcat(dscods, dscods');
    var minTimestamp := MinimumValidChildTimestamp(blockMap, pb.block.parentID, pb.block.timestamp, Tip(ce));
    return Some(ConsensusChange(ce.ID(), reverted, applied, scods + scods', fcds + fcds', dscods + dscods',
                                pb.childTarget, minTimestamp));
  }

  lemma {:induction false} LoadKeepsHeader(r: Rules, pb: ProcessedBlock)
    ensures Load(r.salvage, pb).block.parentID == pb.block.parentID
    ensures Load(r.salvage, pb).block.timestamp == pb.block.timestamp
  {
  }

  lemma {:induction false} StoredBlock(blockMap: BlockMap, id: Hash)
    requires Stored(blockMap, id)
    ensures id.BlockID? && id in blockMap && blockMap[id].block == id.block
  {
  }

  // ---------------------------------------------------------------- one entry

  /** The diffs of a block explain how its view differs from its parent's. */
  ghost predicate Explained<K, V>(blockMap: BlockMap, get: ProcessedBlock -> seq<Diff<K, V>>, at: Hash -> map<K, V>,
                                  id: Hash) {
    id.BlockID? && id in blockMap && Explains(at(id.block.parentID), get(blockMap[id]), at(id))
  }

  ghost predicate ExplainedAbove<K, V>(blockMap: BlockMap, get: ProcessedBlock -> seq<Diff<K, V>>,
                                       at: Hash -> map<K, V>, ancestry: seq<Hash>) {
    forall i :: 0 < i < |ancestry| ==> Explained(blockMap, get, at, ancestry[i])
  }

  /** Down a branch: the flipped diffs lead from its top to any block on it. */
  lemma {:induction false} UndoTo<K, V>(blockMap: BlockMap, get: ProcessedBlock -> seq<Diff<K, V>>,
                                        at: Hash -> map<K, V>, top: Hash, k: nat)
    requires Rooted(top) && k < |Ancestry(top)| && ExplainedAbove(blockMap, get, at, Ancestry(top))
    ensures CommitAll(at(top), Reverting(blockMap, get, Backwards(Ancestry(top)[k + 1..]))) == at(Ancestry(top)[k])
    decreases |Ancestry(top)| - k
  {
    hide Ancestry, Rooted, Height, Explains, CommitAll;
    var anc := Ancestry(top);
    AncestryShape(top);
    if k == |anc| - 1 {
      assert Backwards(anc[k + 1..]) == [];
      CommitNothing(at(top));
    } else {
      UndoTo(blockMap, get, at, top, k + 1);
      var id := anc[k + 1];
      BackwardsMore(anc, k + 1);
      var ids, pre := Backwards(anc[k + 1..]), Backwards(anc[k + 2..]);
      assert ids[..|ids| - 1] == pre && ids[|ids| - 1] == id;
      assert Explained(blockMap, get, at, id);
      CommitConcat(at(top), Reverting(blockMap, get, pre), Flipped(get(blockMap[id])));
      UndoBlock(at(anc[k]), get(blockMap[id]), at(id));
    }
  }

  lemma {:induction false} CommitNothing<K, V>(m: map<K, V>)
    ensures CommitAll(m, []) == m
  {
  }

  lemma {:induction false} UndoBlock<K, V>(before: map<K, V>, ds: seq<Diff<K, V>>, after: map<K, V>)
    requires Explains(before, ds, after)
    ensures CommitAll(after, Flipped(ds)) == before
  {
    FlippedReverts(after, ds);
    RevertUndoes(before, ds);
  }

  /** Up a branch: the diffs lead from any block on it to any block above. */
  lemma {:induction false} RedoTo<K, V>(blockMap: BlockMap, get: ProcessedBlock -> seq<Diff<K, V>>,
                                        at: Hash -> map<K, V>, top: Hash, k: nat, j: nat)
    requires Rooted(top) && k <= j < |Ancestry(top)| && ExplainedAbove(blockMap, get, at, Ancestry(top))
    ensures CommitAll(at(Ancestry(top)[k]), Applying(blockMap, get, Ancestry(top)[k + 1..j + 1]))
            == at(Ancestry(top)[j])
  {
    hide Ancestry, Rooted, Height, CommitAll, FitAll;
    var anc := Ancestry(top);
    AncestryShape(top);
    if j == k {
      CommitNothing(at(anc[k]));
    } else {
      RedoTo(blockMap, get, at, top, k, j - 1);
      var id, ids := anc[j], anc[k + 1..j + 1];
      assert ids[..|ids| - 1] == anc[k + 1..j] && ids[|ids| - 1] == id;
      assert Explained(blockMap, get, at, id);
      CommitConcat(at(anc[k]), Applying(blockMap, get, anc[k + 1..j]), get(blockMap[id]));
    }
  }

  /** The diffs of a move lead from the view of the old tip to that of the new one. */
  lemma {:induction false} EntryMoves<K, V>(blockMap: BlockMap, get: ProcessedBlock -> seq<Diff<K, V>>,
                                            at: Hash -> map<K, V>, from: Hash, to: Hash)
    requires Rooted(from) && Rooted(to)
    requires ExplainedAbove(blockMap, get, at, Ancestry(from)) && ExplainedAbove(blockMap, get, at, Ancestry(to))
    ensures CommitAll(at(from), EntryDiffs(blockMap, get, Reorg(from, to))) == at(to)
  {
    hide Ancestry, Rooted, Height, CommitAll, ExplainedAbove, ForkPoint, Reverting, Applying;
    var k := ForkPoint(from, to);
    var ce := Reorg(from, to);
    UndoTo(blockMap, get, at, from, k);
    SharedUpTo(from, to);
    AncestryShape(to);
    var anc := Ancestry(to);
    RedoTo(blockMap, get, at, to, k, |anc| - 1);
    assert anc[k + 1..|anc|] == anc[k + 1..];
    CommitConcat(at(from), Reverting(blockMap, get, ce.reverted), Applying(blockMap, get, ce.applied));
  }

  // ---------------------------------------------------------------- the whole log

  /** What a subscriber holds after the diffs of a list of entries. */
  function Replayed<K, V>(blockMap: BlockMap, get: ProcessedBlock -> seq<Diff<K, V>>,
                          entries: seq<ChangeEntry>): map<K, V> {
    if entries == [] then map[]
    else CommitAll(Replayed(blockMap, get, entries[..|entries| - 1]), EntryDiffs(blockMap, get, entries[|entries| - 1]))
  }

  /** Any prefix of the log rebuilds the view of its last tip, but for keys that
      the first entry leaves out. */
  lemma {:induction false} PrefixRebuilds<K, V>(blockMap: BlockMap, get: ProcessedBlock -> seq<Diff<K, V>>,
                                                at: Hash -> map<K, V>,
                                               apart: set<K>, entries: seq<ChangeEntry>, tip: Hash, n: nat)
    requires HistoryOk(entries, tip) && 0 < n <= |entries|
    requires CommitAll(map[], EntryDiffs(blockMap, get, GenesisEntry(GenesisID()))) - apart == at(GenesisID()) - apart
    requires forall i :: 0 <= i < n ==> ExplainedAbove(blockMap, get, at, Ancestry(Tip(entries[i])))
    ensures Replayed(blockMap, get, entries[..n]) - apart == at(Tip(entries[n - 1])) - apart
  {
    hide Ancestry, Rooted, CommitAll, ExplainedAbove, EntryDiffs, Reorg, GenesisID, Heavier;
    assert entries[..n][..n - 1] == entries[..n - 1];
    if n == 1 {
      assert entries[..0] == [];
    } else {
      PrefixRebuilds(blockMap, get, at, apart, entries, tip, n - 1);
      var from, to := Tip(entries[n - 2]), Tip(entries[n - 1]);
      assert entries[n - 1] == Reorg(from, to);
      EntryMoves(blockMap, get, at, from, to);
      CommitApart(Replayed(blockMap, get, entries[..n - 1]), at(from), EntryDiffs(blockMap, get, entries[n - 1]),
        apart);
    }
  }

  lemma {:induction false} PrefixRebuildsAll<K, V>(blockMap: BlockMap, get: ProcessedBlock -> seq<Diff<K, V>>,
                                                   at: Hash -> map<K, V>, entries: seq<ChangeEntry>, tip: Hash, n: nat)
    requires HistoryOk(entries, tip) && 0 < n <= |entries|
    requires CommitAll(map[], EntryDiffs(blockMap, get, GenesisEntry(GenesisID()))) == at(GenesisID())
    requires forall i :: 0 <= i < n ==> ExplainedAbove(blockMap, get, at, Ancestry(Tip(entries[i])))
    ensures Replayed(blockMap, get, entries[..n]) == at(Tip(entries[n - 1]))
  {
    hide *;
    PrefixRebuilds(blockMap, get, at, {}, entries, tip, n);
    NothingApart(Replayed(blockMap, get, entries[..n]));
    NothingApart(at(Tip(entries[n - 1])));
  }

  ghost function DelayedAt(id: Hash): map<(nat, Hash), Output> { Items(StateAt(id).delayed) }

  /** The delayed outputs of all buckets, by maturity height and id. */
  ghost function Items(delayed: Delayed): map<(nat, Hash), Output> {
    map h, id | h in delayed && id in delayed[h] :: (h, id) := delayed[h][id]
  }

  lemma {:induction false} ItemAt(m: Delayed, k: (nat, Hash))
    ensures k in Items(m) <==> Held(m, k.0, k.1)
    ensures Held(m, k.0, k.1) ==> Items(m)[k] == m[k.0][k.1]
  {
  }

  lemma {:induction false} ItemsCommit(m: Delayed, d: DelayedDiff)
    requires d.maturityHeight in m
    ensures Items(CommitDelayed(m, d, true)) == Commit(Items(m), Flat([d])[0], true)
  {
    hide Items;
    var m' := CommitDelayed(m, d, true);
    var a, b := Items(m'), Commit(Items(m), Flat([d])[0], true);
    forall k
      ensures k in a <==> k in b
      ensures k in a ==> a[k] == b[k]
    {
      ItemAt(m, k);
      ItemAt(m', k);
    }
  }

  /** Diffs that explain the buckets explain their items. */
  lemma {:induction false} ItemsExplained(m: Delayed, ds: seq<DelayedDiff>)
    requires Housed(m, ds) && FitAllDelayed(m, ds)
    ensures Explains(Items(m), Flat(ds), Items(CommitAllDelayed(m, ds)))
  {
    hide Items;
    if ds != [] {
      var pre, d := ds[..|ds| - 1], ds[|ds| - 1];
      ItemsExplained(m, pre);
      ItemsCommit(CommitAllDelayed(m, pre), d);
      ItemFits(CommitAllDelayed(m, pre), d);
      assert Flat(ds)[..|ds| - 1] == Flat(pre) && Flat(ds)[|ds| - 1] == Flat([d])[0];
    }
  }

  lemma {:induction false} ItemFits(m: Delayed, d: DelayedDiff)
    requires FitsDelayed(m, d)
    ensures Fits(Items(m), Flat([d])[0])
  {
    var k := (d.maturityHeight, d.id);
    assert k in Items(m) <==> k.0 in m && k.1 in m[k.0];
  }

  /** Empty buckets hold no items. */
  lemma {:induction false} SameItems(a: Delayed, b: Delayed)
    requires forall h: nat, id :: Held(a, h, id) <==> Held(b, h, id)
    requires forall h: nat, id :: Held(a, h, id) && Held(b, h, id) ==> a[h][id] == b[h][id]
    ensures Items(a) == Items(b)
  {
    forall k
      ensures k in Items(a) <==> k in Items(b)
      ensures k in Items(a) ==> Items(a)[k] == Items(b)[k]
    {
      assert k in Items(a) <==> Held(a, k.0, k.1);
      assert k in Items(b) <==> Held(b, k.0, k.1);
    }
  }

  lemma {:induction false} ItemsOfOpened(m: Delayed, h: nat)
    ensures Items(OpenBucket(m, h)) == Items(m)
  {
    hide Items;
    SameItems(OpenBucket(m, h), m);
  }

  lemma {:induction false} ItemsOfShown(m: Delayed, gone: set<nat>)
    requires gone !! m.Keys
    ensures Items(Shown(m, gone)) == Items(m)
  {
    hide Items;
    SameItems(Shown(m, gone), m);
  }

  /** The recorded diffs of a block explain its delayed outputs. */
  lemma {:induction false} DelayedExplained(pb: ProcessedBlock, s: State, s': State)
    requires Recorded(pb, s, s')
    ensures Explains(Items(s.delayed), DelayedDiffs(pb), Items(s'.delayed))
  {
    hide Items, Explains, CommitAllDelayed, FitAllDelayed, Shown, OpenBucket, Flat;
    var start := OpenBucket(s.delayed, pb.height + MATURITY_DELAY);
    ItemsExplained(start, pb.delayedDiffs);
    ItemsOfOpened(s.delayed, pb.height + MATURITY_DELAY);
    ItemsOfShown(s'.delayed, Closes(pb.height));
  }

  /** The diffs of every block in the log explain its state. */
  lemma {:induction false} LogExplained(r: Rules, blockMap: BlockMap, oak: Oak, id: Hash)
    requires TreeOk(r, blockMap, oak) && Rooted(id) && AllGenerated(blockMap, Ancestry(id))
    ensures ExplainedAbove(blockMap, OutputDiffs, OutputsAt, Ancestry(id))
    ensures ExplainedAbove(blockMap, ContractDiffs, ContractsAt, Ancestry(id))
    ensures ExplainedAbove(blockMap, DelayedDiffs, DelayedAt, Ancestry(id))
  {
    hide TreeOk, Ancestry, Rooted, Height, GenesisID, StateAt, ExplainsDelayed, Explains, Valid, Items, Flat;
    AncestryShape(id);
    GenesisIsLow();
    forall i | 0 < i < |Ancestry(id)|
      ensures Explained(blockMap, OutputDiffs, OutputsAt, Ancestry(id)[i])
      ensures Explained(blockMap, ContractDiffs, ContractsAt, Ancestry(id)[i])
      ensures Explained(blockMap, DelayedDiffs, DelayedAt, Ancestry(id)[i])
    {
      TipExplained(r, blockMap, oak, Ancestry(id)[i]);
    }
  }

  /** The worthless genesis payout, which createConsensusDB delays without a diff. */
  function GenesisPayout(): (nat, Hash) { (MATURITY_DELAY, ItemID(Payouts(GenesisID()), 0)) }

  /** The first entry of the log makes the genesis state. */
  lemma {:induction false} GenesisRebuilds(blockMap: BlockMap)
    requires GenesisID() in blockMap && blockMap[GenesisID()] == GenesisNode()
    ensures CommitAll(map[], EntryDiffs(blockMap, OutputDiffs, GenesisEntry(GenesisID()))) == OutputsAt(GenesisID())
    ensures CommitAll(map[], EntryDiffs(blockMap, ContractDiffs, GenesisEntry(GenesisID()))) == ContractsAt(GenesisID())
    ensures CommitAll(map[], EntryDiffs(blockMap, DelayedDiffs, GenesisEntry(GenesisID()))) == map[]
    ensures DelayedAt(GenesisID()).Keys == {GenesisPayout()}
  {
    hide GenesisDiffs, Allocation, CommitAll, AddItems, GenesisBlock;
    var ids := [GenesisID()];
    assert ids[..0] == [];
    assert Applying(blockMap, OutputDiffs, ids) == Applying(blockMap, OutputDiffs, ids[..0]) + GenesisDiffs();
    assert Applying(blockMap, ContractDiffs, ids) == Applying(blockMap, ContractDiffs, ids[..0]) + [];
    assert Applying(blockMap, DelayedDiffs, ids) == Applying(blockMap, DelayedDiffs, ids[..0]) + [];
    AllocationMade(ALLOCATIONS);
    assert GenesisDiffs()[..ALLOCATIONS] == GenesisDiffs() && Allocation()[..ALLOCATIONS] == Allocation()
      by { AllocationLength(); DiffsLength(); }
    CommitNothing<Hash, Contract>(map[]);
    CommitNothing<(nat, Hash), Output>(map[]);
    assert [] + GenesisDiffs() == GenesisDiffs();
    GenesisItems();
  }

  lemma {:induction false} GenesisItems()
    ensures DelayedAt(GenesisID()).Keys == {GenesisPayout()}
  {
    hide Allocation, AddItems, GenesisID, CalculateCoinbase, Items;
    var d := GenesisState().delayed;
    assert StateAt(GenesisID()).delayed == d;
    forall k
      ensures k in Items(d) <==> k == GenesisPayout()
    {
      ItemAt(d, k);
    }
  }

  lemma {:induction false} DiffsLength()
    ensures |GenesisDiffs()| == ALLOCATIONS
  {
  }

  lemma {:induction false} AllocationMade(n: nat)
    requires n <= ALLOCATIONS
    ensures CommitAll(map[], GenesisDiffs()[..n])
            == AddItems(map[], TxnOutputs(GenesisTransaction()), Allocation()[..n])
  {
    hide AllocationValue, Holder, GenesisTransaction;
    if n > 0 {
      AllocationMade(n - 1);
      assert GenesisDiffs()[..n][..n - 1] == GenesisDiffs()[..n - 1];
      assert Allocation()[..n][..n - 1] == Allocation()[..n - 1];
    }
  }

  // ---------------------------------------------------------------- every run

  /** Every entry's blocks and their ancestors have been validated, so that their diffs explain them. */
  lemma {:induction false} HistoryExplained(c: ConsensusSet)
    requires c.Consistent()
    ensures HistoryOk(c.log.entries, c.CurrentID()) && GenesisID() in c.blockMap
    ensures c.blockMap[GenesisID()] == GenesisNode()
    ensures forall i :: 0 <= i < |c.log.entries| ==>
              var anc := Ancestry(Tip(c.log.entries[i]));
              && ExplainedAbove(c.blockMap, OutputDiffs, OutputsAt, anc)
              && ExplainedAbove(c.blockMap, ContractDiffs, ContractsAt, anc)
              && ExplainedAbove(c.blockMap, DelayedDiffs, DelayedAt, anc)
  {
    hide TreeOk, TipIsBest, AllGenerated, Ancestry, Rooted, StateAt, Explained, ExplainedAbove, Reorg, GenesisNode,
         GenesisBlock, Heavier;
    forall i | 0 <= i < |c.log.entries|
      ensures ExplainedAbove(c.blockMap, OutputDiffs, OutputsAt, Ancestry(Tip(c.log.entries[i])))
      ensures ExplainedAbove(c.blockMap, ContractDiffs, ContractsAt, Ancestry(Tip(c.log.entries[i])))
      ensures ExplainedAbove(c.blockMap, DelayedDiffs, DelayedAt, Ancestry(Tip(c.log.entries[i])))
    {
      LogExplained(c.rules, c.blockMap, c.oak, Tip(c.log.entries[i]));
    }
    GenesisKept(c.rules, c.blockMap, c.oak);
  }

  predicate Names(ce: ChangeEntry, x: Hash) { x in ce.reverted || x in ce.applied }

  /** Every block that some entries name, but for some, reads back. */
  ghost predicate LogReads(blockMap: BlockMap, entries: seq<ChangeEntry>, but: set<Hash>) {
    forall i, x :: 0 <= i < |entries| && Names(entries[i], x) && x in blockMap && x !in but ==> ReadsBack(blockMap[x])
  }

  /** In every run, a subscriber that starts with empty maps and applies the
      diffs of the first n log entries in order holds the unspent outputs, open
      contracts and delayed outputs (but for the genesis payout) of the tip
      then, whatever reorganisations there were, as long as the blocks that the
      log names read back. */
  lemma {:induction false} ReplicaOfPrefix(c: ConsensusSet, n: nat)
    requires c.Consistent() && LogReads(c.blockMap, c.log.entries, {}) && 0 < n <= |c.log.entries|
    ensures var m, sent, tip := Loaded(c.rules, c.blockMap), c.log.entries[..n], Tip(c.log.entries[n - 1]);
            && Replayed(m, OutputDiffs, sent) == OutputsAt(tip) && Replayed(m, ContractDiffs, sent) == ContractsAt(tip)
            && Replayed(m, DelayedDiffs, sent) - {GenesisPayout()} == DelayedAt(tip) - {GenesisPayout()}
  {
    hide TreeOk, TipIsBest, AllGenerated, Ancestry, Rooted, StateAt, Explained, ExplainedAbove, Replayed, EntryDiffs,
         HistoryOk, CommitAll, GenesisNode, GenesisBlock, LogReads, Items, Load, LogGenerated, GenesisID, DelayedAt;
    var entries, tip, m, sent := c.log.entries, c.CurrentID(), Loaded(c.rules, c.blockMap), c.log.entries[..n];
    LoadedWhereRead(c, {});
    HistoryExplained(c);
    GenesisRebuilds(c.blockMap);
    PrefixRebuildsAll(c.blockMap, OutputDiffs, OutputsAt, entries, tip, n);
    PrefixRebuildsAll(c.blockMap, ContractDiffs, ContractsAt, entries, tip, n);
    PrefixRebuilds(c.blockMap, DelayedDiffs, DelayedAt, {GenesisPayout()}, entries, tip, n);
    SameReplay(m, c.blockMap, OutputDiffs, sent);
    SameReplay(m, c.blockMap, ContractDiffs, sent);
    SameReplay(m, c.blockMap, DelayedDiffs, sent);
  }

  /** After all entries that is the current state. */
  lemma {:induction false} ReplicaOfEveryRun(c: ConsensusSet)
    requires c.Consistent() && LogReads(c.blockMap, c.log.entries, {})
    ensures Replayed(Loaded(c.rules, c.blockMap), OutputDiffs, c.log.entries) == c.db.outputs
    ensures Replayed(Loaded(c.rules, c.blockMap), ContractDiffs, c.log.entries) == c.db.contracts
    ensures Replayed(Loaded(c.rules, c.blockMap), DelayedDiffs, c.log.entries) - {GenesisPayout()}
         == Items(c.db.delayed) - {GenesisPayout()}
  {
    hide TreeOk, TipIsBest, LogReads, StateAt, Replayed, Reorg, Heavier, Items, Loaded, LogGenerated, Rooted;
    ReplicaOfPrefix(c, |c.log.entries|);
    assert c.log.entries[..|c.log.entries|] == c.log.entries;
  }

  /** In every run, the log has no entry twice, as the state machine of
      subscriptions takes for granted. */
  lemma {:induction false} LogHasNoRepeats(c: ConsensusSet)
    requires c.Consistent()
    ensures NoRepeats(c.log.entries)
  {
    hide TreeOk, StateAt, TipIsBest, WeightAt, Reorg, Ancestry, Rooted, GenesisID, Valid, LogGenerated;
    var entries := c.log.entries;
    forall i, j | 0 <= i < j < |entries|
      ensures entries[i] != entries[j]
    {
      assert Heavier(Tip(entries[j]), Tip(entries[i]));
    }
  }

  /** End to end: at every moment of every interleaving of a subscription from
      the beginning with the acceptance of blocks, the subscriber holds the
      state of the last change it was sent; and while it is registered, the
      current state. */
  lemma {:induction false} SubscriberHolds(c: ConsensusSet, trace: seq<System>, i: nat)
    requires c.Consistent() && LogReads(c.blockMap, c.log.entries, {})
    requires Run(trace) && i < |trace| && trace[i].origin == BEGINNING && trace[i].log == c.log.entries
    requires trace[i].received != []
    ensures var m, sent := Loaded(c.rules, c.blockMap), trace[i].received;
            var tip := Tip(sent[|sent| - 1]);
            && Replayed(m, OutputDiffs, sent) == OutputsAt(tip) && Replayed(m, ContractDiffs, sent) == ContractsAt(tip)
            && Replayed(m, DelayedDiffs, sent) - {GenesisPayout()} == DelayedAt(tip) - {GenesisPayout()}
            && (trace[i].phase.Registered? ==> tip == c.CurrentID())
  {
    hide TreeOk, TipIsBest, LogReads, StateAt, Replayed, Reorg, Heavier, Items, Loaded, LogGenerated, Rooted, Run,
         NoRepeats;
    ExactlyOnce(trace, i);
    var sent, entries := trace[i].received, c.log.entries;
    assert trace[i].first == Some(0);
    assert entries[0..] == entries;
    assert sent == entries[..|sent|];
    ReplicaOfPrefix(c, |sent|);
  }

  /** And there is something to hold: who is registered has been sent the first entry. */
  lemma {:induction false} RegisteredHasSome(trace: seq<System>, i: nat)
    requires Run(trace) && i < |trace| && trace[i].origin == BEGINNING && trace[i].phase.Registered?
    ensures trace[i].received == trace[i].log != []
  {
    hide Run, NoRepeats;
    ExactlyOnce(trace, i);
    assert trace[i].log[0..] == trace[i].log;
  }

  lemma NothingApart<K, V>(m: map<K, V>)
    ensures m - {} == m
  {
  }

  /** The blocks that read back are loaded as they are stored. */
  lemma {:induction false} LoadedWhereRead(c: ConsensusSet, but: set<Hash>)
    requires c.Consistent() && LogReads(c.blockMap, c.log.entries, but)
    ensures forall i, x :: 0 <= i < |c.log.entries| && Names(c.log.entries[i], x) && x !in but ==>
              x in c.blockMap && x in Loaded(c.rules, c.blockMap) && Loaded(c.rules, c.blockMap)[x] == c.blockMap[x]
  {
    hide TreeOk, TipIsBest, HistoryOk, StateAt, Load, ReadsBack, LogGenerated, Stored, Rooted;
    forall i, x | 0 <= i < |c.log.entries| && Names(c.log.entries[i], x) && x !in but
      ensures x in c.blockMap && Loaded(c.rules, c.blockMap)[x] == c.blockMap[x]
    {
      ChangesOfEveryRun(c, i);
      LoadReadsBack(c.rules.salvage, c.blockMap[x]);
    }
  }

  // ---------------------------------------------------------------- blocks that do not read back

  /** A tip is not among the blocks of the log before it. */
  lemma {:induction false} NotBefore(tip: Hash, t: Hash, x: Hash)
    requires Rooted(t) && Heavier(tip, t) && x in Ancestry(t)
    ensures x != tip
  {
    hide WeightAt, Ancestry, Rooted;
    var k :| 0 <= k < |Ancestry(t)| && Ancestry(t)[k] == x;
    AncestorIsLighter(t, k);
  }

  lemma {:induction false} EntryBefore(entries: seq<ChangeEntry>, tip: Hash, i: nat, x: Hash)
    requires HistoryOk(entries, tip) && i < |entries| - 1 && Names(entries[i], x)
    ensures x != tip
  {
    hide WeightAt, Ancestry, Rooted, Reorg, Heavier;
    assert Heavier(Tip(entries[|entries| - 1]), Tip(entries[i]));
    if i == 0 {
      GenesisIsItself();
      NotBefore(tip, Tip(entries[0]), x);
    } else {
      var from, to := Tip(entries[i - 1]), Tip(entries[i]);
      assert Heavier(Tip(entries[|entries| - 1]), from);
      assert entries[i] == Reorg(from, to);
      ReorgParts(from, to);
      if x in entries[i].reverted {
        NotBefore(tip, from, x);
      } else {
        NotBefore(tip, to, x);
      }
    }
  }

  /** Maps that agree on the blocks of some entries replay them alike. */
  lemma {:induction false} SameReplay<K, V>(a: BlockMap, b: BlockMap, get: ProcessedBlock -> seq<Diff<K, V>>,
                                            entries: seq<ChangeEntry>)
    requires forall i, x :: 0 <= i < |entries| && Names(entries[i], x) ==>
               x in a && x in b && a[x] == b[x]
    ensures Replayed(a, get, entries) == Replayed(b, get, entries)
  {
    hide CommitAll, Reverting, Applying;
    if entries != [] {
      var pre, ce := entries[..|entries| - 1], entries[|entries| - 1];
      SameReplay(a, b, get, pre);
      SameDiffs(a, b, get, ce.reverted);
      SameDiffs(a, b, get, ce.applied);
    }
  }

  lemma {:induction false} SameDiffs<K, V>(a: BlockMap, b: BlockMap, get: ProcessedBlock -> seq<Diff<K, V>>,
                                           ids: seq<Hash>)
    requires forall x :: x in ids ==> x in a && x in b && a[x] == b[x]
    ensures Reverting(a, get, ids) == Reverting(b, get, ids) && Applying(a, get, ids) == Applying(b, get, ids)
  {
    hide Flipped;
    if ids != [] {
      SameDiffs(a, b, get, ids[..|ids| - 1]);
    }
  }

  /** The diffs of a move, without those of the new tip. */
  function DiffsBelow<K, V>(blockMap: BlockMap, get: ProcessedBlock -> seq<Diff<K, V>>,
                            ce: ChangeEntry): seq<Diff<K, V>>
    requires ce.applied != []
  {
    Reverting(blockMap, get, ce.reverted) + Applying(blockMap, get, ce.applied[..|ce.applied| - 1])
  }

  /** The last block of a move is the new tip, and comes once. */
  lemma {:induction false} LastApplied(from: Hash, to: Hash)
    requires Rooted(from) && Rooted(to) && Reorg(from, to).applied != []
    ensures var k, anc, applied := ForkPoint(from, to), Ancestry(to), Reorg(from, to).applied;
            var below := applied[..|applied| - 1];
            && to.BlockID? && Tip(Reorg(from, to)) == to && to !in below
            && k < |anc| - 1 && anc[k + 1..|anc| - 1] == below && anc[|anc| - 2] == to.block.parentID
            && k < |Ancestry(from)| && Ancestry(from)[k] == anc[k]
            && Reorg(from, to).reverted == Backwards(Ancestry(from)[k + 1..])
  {
    hide Ancestry, Rooted, Height, ForkPoint, Backwards, GenesisID;
    SharedUpTo(from, to);
    AncestryShape(to);
  }

  /** They lead from the view of the old tip to that of the new tip's parent. */
  lemma {:induction false} MovesToParent<K, V>(blockMap: BlockMap, get: ProcessedBlock -> seq<Diff<K, V>>,
                                               at: Hash -> map<K, V>, from: Hash, to: Hash)
    requires Rooted(from) && Rooted(to) && Reorg(from, to).applied != []
    requires ExplainedAbove(blockMap, get, at, Ancestry(from)) && ExplainedAbove(blockMap, get, at, Ancestry(to))
    ensures to.BlockID?
    ensures CommitAll(at(from), DiffsBelow(blockMap, get, Reorg(from, to))) == at(to.block.parentID)
  {
    hide Ancestry, Rooted, Height, CommitAll, ExplainedAbove, ForkPoint, Reverting, Applying, Reorg, Backwards;
    LastApplied(from, to);
    var k, anc, ce := ForkPoint(from, to), Ancestry(to), Reorg(from, to);
    UndoTo(blockMap, get, at, from, k);
    RedoTo(blockMap, get, at, to, k, |anc| - 2);
    CommitConcat(at(from), Reverting(blockMap, get, ce.reverted),
      Applying(blockMap, get, ce.applied[..|ce.applied| - 1]));
  }

  lemma {:induction false} LastDiffs<K, V>(m: BlockMap, get: ProcessedBlock -> seq<Diff<K, V>>, ce: ChangeEntry,
                                           before: map<K, V>)
    requires ce.applied != [] && Tip(ce) in m
    ensures CommitAll(before, EntryDiffs(m, get, ce))
         == CommitAll(CommitAll(before, DiffsBelow(m, get, ce)), get(m[Tip(ce)]))
  {
    hide CommitAll, Reverting;
    assert EntryDiffs(m, get, ce) == DiffsBelow(m, get, ce) + get(m[Tip(ce)]);
    CommitConcat(before, DiffsBelow(m, get, ce), get(m[Tip(ce)]));
  }

  /** A block map that has lost the diffs of the tip alone. */
  ghost predicate LostAtTip(m: BlockMap, stored: BlockMap, entries: seq<ChangeEntry>, tip: Hash) {
    && tip in m && tip in stored
    && forall i, x :: 0 <= i < |entries| && x != tip && Names(entries[i], x) ==>
         x in m && x in stored && m[x] == stored[x]
  }

  /** With it, the log rebuilds the view of the parent, and then commits what is
      left of the tip's diffs. */
  lemma {:induction false} RebuildsParent<K, V>(m: BlockMap, stored: BlockMap,
                                                get: ProcessedBlock -> seq<Diff<K, V>>, at: Hash -> map<K, V>,
                                                apart: set<K>, entries: seq<ChangeEntry>,
                                                tip: Hash) returns (base: map<K, V>)
    requires HistoryOk(entries, tip) && |entries| > 1 && LostAtTip(m, stored, entries, tip)
    requires CommitAll(map[], EntryDiffs(stored, get, GenesisEntry(GenesisID()))) - apart == at(GenesisID()) - apart
    requires forall i :: 0 <= i < |entries| ==> ExplainedAbove(stored, get, at, Ancestry(Tip(entries[i])))
    ensures tip.BlockID? && base - apart == at(tip.block.parentID) - apart
    ensures Replayed(m, get, entries) == CommitAll(base, get(m[tip]))
  {
    hide Ancestry, Rooted, CommitAll, ExplainedAbove, Reorg, GenesisID, Heavier, EntryDiffs, DiffsBelow;
    var n := |entries|;
    var pre, from, ce := entries[..n - 1], Tip(entries[n - 2]), entries[n - 1];
    PrefixRebuilds(stored, get, at, apart, entries, tip, n - 1);
    forall i, x | 0 <= i < n - 1 && Names(entries[i], x)
      ensures x in m && x in stored && m[x] == stored[x]
    {
      EntryBefore(entries, tip, i, x);
    }
    SameReplay(m, stored, get, pre);
    assert ce == Reorg(from, tip);
    MovesToParent(stored, get, at, from, tip);
    LastApplied(from, tip);
    assert tip !in ce.reverted by {
      assert Heavier(tip, from);
      ReorgParts(from, tip);
      if tip in ce.reverted {
        NotBefore(tip, from, tip);
      }
    }
    SameBelow(m, stored, get, entries, from, tip);
    CommitApart(Replayed(m, get, pre), at(from), DiffsBelow(stored, get, ce), apart);
    base := CommitAll(Replayed(m, get, pre), DiffsBelow(stored, get, ce));
    LastDiffs(m, get, ce, Replayed(m, get, pre));
  }

  /** If that is all of them or none, the view of the tip or of the parent. */
  lemma {:induction false} RebuildsTip<K, V>(m: BlockMap, stored: BlockMap, get: ProcessedBlock -> seq<Diff<K, V>>,
                                             at: Hash -> map<K, V>, apart: set<K>, entries: seq<ChangeEntry>,
                                             tip: Hash, kept: bool)
    requires HistoryOk(entries, tip) && |entries| > 1 && LostAtTip(m, stored, entries, tip)
    requires CommitAll(map[], EntryDiffs(stored, get, GenesisEntry(GenesisID()))) - apart == at(GenesisID()) - apart
    requires forall i :: 0 <= i < |entries| ==> ExplainedAbove(stored, get, at, Ancestry(Tip(entries[i])))
    requires Explained(stored, get, at, tip) && get(m[tip]) == if kept then get(stored[tip]) else []
    ensures Replayed(m, get, entries) - apart == at(if kept then tip else tip.block.parentID) - apart
  {
    hide CommitAll, ExplainedAbove, HistoryOk, LostAtTip, Replayed, EntryDiffs, FitAll, GenesisID;
    var base := RebuildsParent(m, stored, get, at, apart, entries, tip);
    if kept {
      CommitApart(base, at(tip.block.parentID), get(stored[tip]), apart);
    } else {
      CommitNothing(base);
    }
  }

  lemma {:induction false} RebuildsTipAll<K, V>(m: BlockMap, stored: BlockMap, get: ProcessedBlock -> seq<Diff<K, V>>,
                                                at: Hash -> map<K, V>, entries: seq<ChangeEntry>, tip: Hash,
                                                kept: bool)
    requires HistoryOk(entries, tip) && |entries| > 1 && LostAtTip(m, stored, entries, tip)
    requires CommitAll(map[], EntryDiffs(stored, get, GenesisEntry(GenesisID()))) == at(GenesisID())
    requires forall i :: 0 <= i < |entries| ==> ExplainedAbove(stored, get, at, Ancestry(Tip(entries[i])))
    requires Explained(stored, get, at, tip) && get(m[tip]) == if kept then get(stored[tip]) else []
    ensures Replayed(m, get, entries) == at(if kept then tip else tip.block.parentID)
  {
    hide CommitAll, ExplainedAbove, HistoryOk, LostAtTip, Replayed, EntryDiffs, GenesisID, Explains;
    RebuildsTip(m, stored, get, at, {}, entries, tip, kept);
    NothingApart(Replayed(m, get, entries));
    NothingApart(at(if kept then tip else tip.block.parentID));
  }

  lemma {:induction false} SameBelow<K, V>(m: BlockMap, stored: BlockMap, get: ProcessedBlock -> seq<Diff<K, V>>,
                                           entries: seq<ChangeEntry>, from: Hash, tip: Hash)
    requires entries != [] && entries[|entries| - 1] == Reorg(from, tip)
    requires LostAtTip(m, stored, entries, tip) && Reorg(from, tip).applied != [] && tip !in Reorg(from, tip).reverted
    requires tip !in Reorg(from, tip).applied[..|Reorg(from, tip).applied| - 1]
    ensures DiffsBelow(m, get, Reorg(from, tip)) == DiffsBelow(stored, get, Reorg(from, tip))
  {
    hide Reorg, Reverting, Applying;
    var ce := Reorg(from, tip);
    SameDiffs(m, stored, get, ce.reverted);
    SameDiffs(m, stored, get, ce.applied[..|ce.applied| - 1]);
  }

  lemma {:induction false} LoadedButTip(c: ConsensusSet, tip: Hash)
    requires c.Consistent() && tip in c.blockMap && LogReads(c.blockMap, c.log.entries, {tip})
    ensures tip in Loaded(c.rules, c.blockMap)
    ensures Loaded(c.rules, c.blockMap)[tip] == Load(c.rules.salvage, c.blockMap[tip])
    ensures LostAtTip(Loaded(c.rules, c.blockMap), c.blockMap, c.log.entries, tip)
  {
    hide TreeOk, TipIsBest, HistoryOk, StateAt, Load, LogReads, LogGenerated, Rooted;
    LoadedWhereRead(c, {tip});
  }

  /** Of all blocks that the log names, the tip alone does not read back. The
      replica has the tip's changes of the lists that the decoder reached, and
      the parent's state of the others. */
  lemma {:induction false} LostReplica(c: ConsensusSet, tip: Hash)
    requires c.Consistent() && tip == c.CurrentID() && tip.BlockID? && tip != GenesisID()
    requires LogReads(c.blockMap, c.log.entries, {tip})
    requires !BlockFits(tip.block) || !ListsFit(CountsAt(tip))
    ensures var m, p, kept := Loaded(c.rules, c.blockMap), tip.block.parentID,
                              BlockFits(tip.block) && OutputListFits(CountsAt(tip));
            && Replayed(m, OutputDiffs, c.log.entries) == OutputsAt(if kept then tip else p)
            && Replayed(m, ContractDiffs, c.log.entries)
               == ContractsAt(if kept && ContractListFits(CountsAt(tip)) then tip else p)
            && Replayed(m, DelayedDiffs, c.log.entries) - {GenesisPayout()} == DelayedAt(p) - {GenesisPayout()}
  {
    hide TreeOk, TipIsBest, AllGenerated, Ancestry, Rooted, StateAt, Explained, ExplainedAbove, EntryDiffs, CommitAll,
         Replayed, GenesisNode, GenesisID, Items, Load, ReadsBack, LogGenerated, CountsAt, BlockFits, ListsFit,
         HistoryOk, Height, Valid, LogReads, BlockSize, DelayedAt, LostAtTip, Loaded;
    TipGenerated(c.blockMap, c.db.path);
    Leftover(c.rules, c.blockMap, c.oak, tip);
    var entries, m := c.log.entries, Loaded(c.rules, c.blockMap);
    var kept := BlockFits(tip.block) && OutputListFits(CountsAt(tip));
    LoadedButTip(c, tip);
    HistoryExplained(c);
    TipExplained(c.rules, c.blockMap, c.oak, tip);
    GenesisRebuilds(c.blockMap);
    MoreThanGenesis(entries, tip);
    NoDelayed();
    RebuildsTipAll(m, c.blockMap, OutputDiffs, OutputsAt, entries, tip, kept);
    RebuildsTipAll(m, c.blockMap, ContractDiffs, ContractsAt, entries, tip, kept && ContractListFits(CountsAt(tip)));
    RebuildsTip(m, c.blockMap, DelayedDiffs, DelayedAt, {GenesisPayout()}, entries, tip, false);
  }

  /** The other side of ReplicaOfEveryRun: then its outputs are right if and only
      if their list was reached, or nothing matures yet and the block spends
      nothing; its contracts if and only if theirs was, or the block leaves them
      alone; its delayed outputs never are. */
  lemma {:induction false} LostDiffs(c: ConsensusSet, tip: Hash)
    requires c.Consistent() && tip == c.CurrentID() && tip.BlockID? && tip != GenesisID()
    requires LogReads(c.blockMap, c.log.entries, {tip})
    requires !BlockFits(tip.block) || !ListsFit(CountsAt(tip))
    ensures Replayed(Loaded(c.rules, c.blockMap), OutputDiffs, c.log.entries) == c.db.outputs
       <==> (|| (BlockFits(tip.block) && OutputListFits(CountsAt(tip)))
             || (Height(tip) < MATURITY_DELAY && NothingSpent(tip.block)))
    ensures Replayed(Loaded(c.rules, c.blockMap), ContractDiffs, c.log.entries) == c.db.contracts
       <==> (|| (BlockFits(tip.block) && OutputListFits(CountsAt(tip)) && ContractListFits(CountsAt(tip)))
             || LeavesContracts(ContractsAt(tip.block.parentID), tip.block, Height(tip)))
    ensures Replayed(Loaded(c.rules, c.blockMap), DelayedDiffs, c.log.entries) - {GenesisPayout()}
         != Items(c.db.delayed) - {GenesisPayout()}
  {
    hide TreeOk, TipIsBest, AllGenerated, StateAt, Replayed, GenesisID, Items, Loaded, LogGenerated, CountsAt,
         BlockFits, ListsFit, OutputListFits, HistoryOk, NothingSpent, Height, Valid, LogReads, ContractListFits,
         LeavesContracts;
    LostReplica(c, tip);
    TipGenerated(c.blockMap, c.db.path);
    RevertFacts(c.rules, c.blockMap, c.oak, tip);
    OutputsChange(c.rules, tip);
    ContractsSame(c.rules, tip);
    DelayedItemsChange(c.rules, tip);
  }

  lemma {:induction false} TipExplained(r: Rules, blockMap: BlockMap, oak: Oak, id: Hash)
    requires TreeOk(r, blockMap, oak) && id in blockMap && blockMap[id].diffsGenerated && id != GenesisID()
    ensures Explained(blockMap, OutputDiffs, OutputsAt, id) && Explained(blockMap, ContractDiffs, ContractsAt, id)
    ensures Explained(blockMap, DelayedDiffs, DelayedAt, id)
  {
    hide TreeOk, Rooted, Height, GenesisID, StateAt, ExplainsDelayed, Explains, Valid, Items, Flat;
    RevertFacts(r, blockMap, oak, id);
    DelayedExplained(blockMap[id], StateAt(id.block.parentID), StateAt(id));
  }

  lemma {:induction false} MoreThanGenesis(entries: seq<ChangeEntry>, tip: Hash)
    requires HistoryOk(entries, tip) && tip != GenesisID()
    ensures |entries| > 1
  {
    hide Reorg, Heavier, Rooted, GenesisID;
  }

  lemma {:induction false} DelayedItemsChange(r: Rules, id: Hash)
    requires Valid(r, id) && id != GenesisID()
    ensures id.BlockID?
    ensures DelayedAt(id.block.parentID) - {GenesisPayout()} != DelayedAt(id) - {GenesisPayout()}
  {
    hide StateAt, Valid, Height, GenesisID, Items;
    DelayedChange(r, id);
    var k := (Height(id) + MATURITY_DELAY, ItemID(Payouts(id), 0));
    ItemAt(StateAt(id).delayed, k);
    ItemAt(StateAt(id.block.parentID).delayed, k);
    assert k != GenesisPayout();
    assert k in DelayedAt(id) - {GenesisPayout()};
  }

  /** So, when all other blocks that the log names read back, the replica is
      right if and only if the tip does too. */
  lemma {:induction false} ReplicaIsRight(c: ConsensusSet, tip: Hash)
    requires c.Consistent() && tip == c.CurrentID() && tip.BlockID? && tip != GenesisID()
    requires LogReads(c.blockMap, c.log.entries, {tip})
    ensures (var m, entries := Loaded(c.rules, c.blockMap), c.log.entries;
             && Replayed(m, OutputDiffs, entries) == c.db.outputs
             && Replayed(m, ContractDiffs, entries) == c.db.contracts
             && Replayed(m, DelayedDiffs, entries) - {GenesisPayout()} == Items(c.db.delayed) - {GenesisPayout()})
       <==> BlockFits(tip.block) && ListsFit(CountsAt(tip))
  {
    hide TreeOk, TipIsBest, StateAt, Replayed, GenesisID, Items, Load, ReadsBack, LogGenerated, CountsAt, BlockFits,
         ListsFit, HistoryOk, Loaded, Valid;
    if BlockFits(tip.block) && ListsFit(CountsAt(tip)) {
      TipGenerated(c.blockMap, c.db.path);
      Leftover(c.rules, c.blockMap, c.oak, tip);
      assert LogReads(c.blockMap, c.log.entries, {});
      ReplicaOfEveryRun(c);
    } else {
      LostDiffs(c, tip);
    }
  }

  lemma {:induction false} GenesisKept(r: Rules, blockMap: BlockMap, oak: Oak)
    requires TreeOk(r, blockMap, oak)
    ensures GenesisID() in blockMap && blockMap[GenesisID()] == GenesisNode()
  {
    hide GenesisNode, GenesisID, StateAt, WeightAt, HeaderOk, Recorded;
    assert NodeOk(r, blockMap, oak, GenesisID());
  }

  /** In every run, the change of every log entry can be computed: all its
      blocks are stored, and so are the ancestors of its tip. */
  lemma {:induction false} ChangesOfEveryRun(c: ConsensusSet, i: nat)
    requires c.Consistent() && i < |c.log.entries|
    ensures c.log.entries[i].applied != [] && Stored(c.blockMap, Tip(c.log.entries[i]))
    ensures forall id :: id in c.log.entries[i].reverted || id in c.log.entries[i].applied ==> id in c.blockMap
  {
    hide TreeOk, TipIsBest, Ancestry, Rooted, StateAt, Reorg, GenesisID, Heavier, Valid, Stored, Height;
    var entries := c.log.entries;
    var ce, tip := entries[i], Tip(entries[i]);
    AncestryShape(tip);
    assert AllGenerated(c.blockMap, Ancestry(tip));
    TreeStored(c.rules, c.blockMap, c.oak, tip);
    if i > 0 {
      var from := Tip(entries[i - 1]);
      assert AllGenerated(c.blockMap, Ancestry(from));
      assert ce == Reorg(from, tip);
      ReorgParts(from, tip);
    }
  }

  lemma {:induction false} ReorgParts(from: Hash, to: Hash)
    ensures forall id :: id in Reorg(from, to).reverted ==> id in Ancestry(from)
    ensures forall id :: id in Reorg(from, to).applied ==> id in Ancestry(to)
  {
    hide Ancestry, ForkPoint;
  }
}
