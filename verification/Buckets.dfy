/** The buckets of the consensus database that a block changes, and the
    operations that change them (modules/consensus/consensusdb.go,
    modules/consensus/diffs.go, modules/consensus/applytransaction.go,
    modules/consensus/maintenance.go).

    Every operation is proved to have the effect that module Ledger defines, and
    the diffs it records are proved to explain that effect exactly. */
module Buckets {
  import opened Types
  import opened Hashing
  import opened Diffs
  import opened Ledger
  import opened Validation
  import opened Freshness
  import opened Conservation
  import opened BlockEffects
  import opened Revisions

  /** processedBlock, as stored in BlockMap. */
  datatype ProcessedBlock = ProcessedBlock(
    block: Blk,
    height: nat,
    depth: nat,
    childTarget: nat,
    diffsGenerated: bool,
    outputDiffs: seq<Diff<Hash, Output>>,
    contractDiffs: seq<Diff<Hash, Contract>>,
    delayedDiffs: seq<DelayedDiff>)

  /** The processedBlock that a block being applied is built up in. */
  class Node {
    const block: Blk
    const height: nat
    const depth: nat
    const childTarget: nat
    var diffsGenerated: bool
    var outputDiffs: seq<Diff<Hash, Output>>
    var contractDiffs: seq<Diff<Hash, Contract>>
    var delayedDiffs: seq<DelayedDiff>

    constructor (pb: ProcessedBlock)
      ensures Value() == pb
    {
      block, height, depth, childTarget := pb.block, pb.height, pb.depth, pb.childTarget;
      diffsGenerated := pb.diffsGenerated;
      outputDiffs, contractDiffs, delayedDiffs := pb.outputDiffs, pb.contractDiffs, pb.delayedDiffs;
    }

    function Value(): ProcessedBlock
      reads this
    {
      ProcessedBlock(block, height, depth, childTarget, diffsGenerated, outputDiffs, contractDiffs, delayedDiffs)
    }
  }

  /** The delayed buckets, with those in `gone` put back empty. */
  ghost function Shown(delayed: Delayed, gone: set<nat>): Delayed {
    map k | k in delayed.Keys + gone :: if k in delayed then delayed[k] else map[]
  }

  /** The delayed buckets once those that a block at height h needs are there. */
  ghost function Prepared(delayed: Delayed, h: nat, dir: bool): Delayed {
    if dir then OpenBucket(delayed, h + MATURITY_DELAY) else Shown(delayed, Closes(h))
  }

  /** Heights whose bucket a block at height h deletes. */
  function Closes(h: nat): set<nat> {
    if h >= MATURITY_DELAY then {h} else {}
  }

  /** The stored diffs of a block lead from the state s before it to the state
      s' after it, and say exactly what changed on the way. */
  ghost predicate Recorded(pb: ProcessedBlock, s: State, s': State) {
    && Explains(s.outputs, pb.outputDiffs, s'.outputs)
    && Explains(s.contracts, pb.contractDiffs, s'.contracts)
    && pb.height + MATURITY_DELAY !in s.delayed
    && Closes(pb.height) !! s'.delayed.Keys
    && ExplainsDelayed(OpenBucket(s.delayed, pb.height + MATURITY_DELAY), pb.delayedDiffs,
       Shown(s'.delayed, Closes(pb.height)))
    && s'.path == s.path + [BlockID(pb.block)]
  }

  /** How many outputs mature in a block at height h. */
  function Maturing(s: State, h: nat): nat {
    if h >= MATURITY_DELAY && h in s.delayed then |s.delayed[h]| else 0
  }

  /** How many output diffs the transactions of a block record. */
  function OutputMoves(ts: seq<Txn>): nat {
    if ts == [] then 0
    else OutputMoves(ts[..|ts| - 1]) + |ts[|ts| - 1].siacoinInputs| + |ts[|ts| - 1].siacoinOutputs|
  }

  /** How many contract diffs they record: two for a revision. */
  function ContractMoves(ts: seq<Txn>): nat {
    if ts == [] then 0
    else
      var t := ts[|ts| - 1];
      ContractMoves(ts[..|ts| - 1]) + |t.fileContracts| + 2 * |t.fileContractRevisions| + |t.storageProofs|
  }

  /** The numbers of diffs that a block b records on a state s. */
  datatype Counts = Counts(outputs: nat, contracts: nat, delayed: nat)

  function DiffCounts(s: State, b: Blk): Counts {
    var h := |s.path|;
    var s' := Effect(s, b, h);
    Counts(OutputMoves(b.transactions) + Maturing(s, h),
           ContractMoves(b.transactions) + |Expiring(TxnsEffect(Opened(s, h), b.transactions, h).contracts, h)|,
           (if h + MATURITY_DELAY in s'.delayed then |s'.delayed[h + MATURITY_DELAY]| else 0) + Maturing(s, h))
  }

  function CountsOf(pb: ProcessedBlock): Counts {
    Counts(|pb.outputDiffs|, |pb.contractDiffs|, |pb.delayedDiffs|)
  }

  class Buckets {
    var outputs: map<Hash, Output>
    var contracts: map<Hash, Contract>
    var expirations: Expirations
    var delayed: Delayed
    var path: seq<Hash>

    function State(): State
      reads this
    {
      Ledger.State(outputs, contracts, delayed, path)
    }

    /** The expiration index agrees with the open contracts. */
    ghost predicate Indexed()
      reads this
    {
      ExpirationsMatch(contracts, expirations)
    }

    constructor (s: State, e: Expirations)
      ensures State() == s && expirations == e
    {
      outputs, contracts, expirations, delayed, path := s.outputs, s.contracts, e, s.delayed, s.path;
    }

    /** What a transaction that fails leaves behind: the buckets as they were. */
    method Restore(s: State, e: Expirations)
      modifies this
      ensures State() == s && expirations == e
    {
      outputs, contracts, expirations, delayed, path := s.outputs, s.contracts, e, s.delayed, s.path;
    }

    // -------------------------------------------------------------- single entries

    method AddFileContract(id: Hash, fc: Contract)
      requires Indexed() && id !in contracts
      modifies `contracts, `expirations
      ensures Indexed() && contracts == old(contracts)[id := fc]
    {
      contracts := contracts[id := fc];
      if fc.windowEnd !in expirations {
        expirations := expirations[fc.windowEnd := {}];
      }
      expirations := expirations[fc.windowEnd := expirations[fc.windowEnd] + {id}];
      forall h: nat, c: Hash
        ensures Listed(expirations, h, c) <==> EndsAt(contracts, h, c)
      {
        assert Listed(old(expirations), h, c) <==> EndsAt(old(contracts), h, c);
      }
    }

    /** The lookup in the expiration bucket, which panics when the entry is
        missing, always finds it. */
    method RemoveFileContract(id: Hash)
      requires Indexed() && id in contracts
      modifies `contracts, `expirations
      ensures Indexed() && contracts == old(contracts) - {id}
    {
      var end := contracts[id].windowEnd;
      assert EndsAt(contracts, end, id);
      assert Listed(expirations, end, id);
      contracts := contracts - {id};
      expirations := expirations[end := expirations[end] - {id}];
      forall h: nat, c: Hash
        ensures Listed(expirations, h, c) <==> EndsAt(contracts, h, c)
      {
        assert Listed(old(expirations), h, c) <==> EndsAt(old(contracts), h, c);
      }
    }

    method CommitSiacoinOutputDiff(d: Diff<Hash, Output>, dir: bool)
      modifies `outputs
      ensures outputs == Commit(old(outputs), d, dir)
    {
      if d.direction == dir {
        outputs := outputs[d.id := d.value];
      } else {
        outputs := outputs - {d.id};
      }
    }

    method CommitFileContractDiff(d: Diff<Hash, Contract>, dir: bool)
      requires Indexed() && (d.direction == dir <==> d.id !in contracts)
      modifies `contracts, `expirations
      ensures Indexed() && contracts == Commit(old(contracts), d, dir)
    {
      if d.direction == dir {
        AddFileContract(d.id, d.value);
      } else {
        RemoveFileContract(d.id);
      }
    }

    /** The source dereferences the bucket of the maturity height. */
    method CommitDelayedSiacoinOutputDiff(d: DelayedDiff, dir: bool)
      requires d.maturityHeight in delayed
      modifies `delayed
      ensures delayed == CommitDelayed(old(delayed), d, dir)
    {
      var bucket := delayed[d.maturityHeight];
      if d.direction == dir {
        bucket := bucket[d.id := d.value];
      } else {
        bucket := bucket - {d.id};
      }
      delayed := delayed[d.maturityHeight := bucket];
    }

    /** Creating a bucket that exists fails, and the failure is ignored. */
    method CreateDSCOBucket(height: nat)
      modifies `delayed
      ensures delayed == OpenBucket(old(delayed), height)
    {
      if height !in delayed {
        delayed := delayed[height := map[]];
      }
    }

    method DeleteDSCOBucket(height: nat)
      modifies `delayed
      ensures delayed == old(delayed) - {height}
    {
      delayed := delayed - {height};
    }

    method UpdateCurrentPath(id: Hash, dir: bool)
      requires !dir ==> path != []
      modifies `path
      ensures path == if dir then old(path) + [id] else old(path)[..|old(path)| - 1]
    {
      if dir {
        path := path + [id];
      } else {
        path := path[..|path| - 1];
      }
    }

    // -------------------------------------------------------------- replaying diffs

    method CommitOutputDiffs(ds: seq<Diff<Hash, Output>>, dir: bool)
      modifies `outputs
      ensures outputs == if dir then CommitAll(old(outputs), ds) else RevertAll(old(outputs), ds)
    {
      if dir {
        for i := 0 to |ds|
          invariant outputs == CommitAll(old(outputs), ds[..i])
        {
          assert ds[..i + 1][..i] == ds[..i];
          CommitSiacoinOutputDiff(ds[i], dir);
        }
        assert ds[..|ds|] == ds;
      } else {
        assert ds[..|ds|] == ds;
        for i := |ds| downto 0
          invariant RevertAll(old(outputs), ds) == RevertAll(outputs, ds[..i])
        {
          assert ds[..i + 1][..i] == ds[..i];
          CommitSiacoinOutputDiff(ds[i], dir);
        }
      }
    }

    /** The diffs must describe a change from or to the bucket as it is:
        otherwise a removal would panic. */
    method CommitContractDiffs(ds: seq<Diff<Hash, Contract>>, dir: bool, ghost other: map<Hash, Contract>)
      requires Indexed()
      requires if dir then Explains(contracts, ds, other) else Explains(other, ds, contracts)
      modifies `contracts, `expirations
      ensures Indexed() && contracts == other
    {
      if dir {
        for i := 0 to |ds|
          invariant Indexed() && contracts == CommitAll(old(contracts), ds[..i])
        {
          assert ds[..i + 1][..i] == ds[..i];
          FitsAt(old(contracts), ds, i);
          CommitFileContractDiff(ds[i], dir);
        }
        assert ds[..|ds|] == ds;
      } else {
        assert ds[..|ds|] == ds;
        for i := |ds| downto 0
          invariant Indexed() && contracts == CommitAll(other, ds[..i])
        {
          assert ds[..i + 1][..i] == ds[..i];
          FitsAt(other, ds, i);
          CommitFileContractDiff(ds[i], dir);
          assert Commit(Commit(CommitAll(other, ds[..i]), ds[i], true), ds[i], false) == CommitAll(other, ds[..i]);
        }
      }
    }

    method CommitDelayedDiffs(ds: seq<DelayedDiff>, dir: bool)
      requires Housed(delayed, ds)
      modifies `delayed
      ensures delayed == if dir then CommitAllDelayed(old(delayed), ds) else RevertAllDelayed(old(delayed), ds)
    {
      hide CommitAllDelayed, RevertAllDelayed;
      NoDelayedDiffs(delayed);
      assert ds[..|ds|] == ds;
      if dir {
        for i := 0 to |ds|
          invariant delayed == CommitAllDelayed(old(delayed), ds[..i])
        {
          OneMoreDelayed(old(delayed), ds, i);
          CommitDelayedSiacoinOutputDiff(ds[i], dir);
        }
      } else {
        for i := |ds| downto 0
          invariant delayed.Keys == old(delayed).Keys
          invariant RevertAllDelayed(old(delayed), ds) == RevertAllDelayed(delayed, ds[..i])
        {
          OneMoreDelayed(delayed, ds, i);
          CommitDelayedSiacoinOutputDiff(ds[i], dir);
        }
        NoDelayedDiffs(delayed);
      }
    }

    method CommitNodeDiffs(pb: ProcessedBlock, dir: bool, ghost other: map<Hash, Contract>)
      requires Indexed() && Housed(delayed, pb.delayedDiffs)
      requires if dir then Explains(contracts, pb.contractDiffs, other)
               else Explains(other, pb.contractDiffs, contracts)
      modifies `outputs, `contracts, `expirations, `delayed
      ensures Indexed() && contracts == other
      ensures outputs == if dir then CommitAll(old(outputs), pb.outputDiffs)
              else RevertAll(old(outputs), pb.outputDiffs)
      ensures delayed == if dir then CommitAllDelayed(old(delayed), pb.delayedDiffs)
              else RevertAllDelayed(old(delayed), pb.delayedDiffs)
    {
      hide ExpirationsMatch, CommitAll, FitAll, RevertAll, CommitAllDelayed, RevertAllDelayed;
      CommitOutputDiffs(pb.outputDiffs, dir);
      CommitContractDiffs(pb.contractDiffs, dir, other);
      CommitDelayedDiffs(pb.delayedDiffs, dir);
    }

    method CreateUpcomingDelayedOutputMaps(height: nat, dir: bool)
      modifies `delayed
      ensures delayed == if dir then OpenBucket(old(delayed), height + MATURITY_DELAY)
              else Shown(old(delayed), Closes(height))
    {
      if dir {
        CreateDSCOBucket(height + MATURITY_DELAY);
      } else if height >= MATURITY_DELAY {
        CreateDSCOBucket(height);
      }
    }

    method DeleteObsoleteDelayedOutputMaps(height: nat, dir: bool)
      modifies `delayed
      ensures delayed == old(delayed) - if dir then Closes(height) else {height + MATURITY_DELAY}
    {
      if dir && height >= MATURITY_DELAY {
        DeleteDSCOBucket(height);
      } else if !dir {
        DeleteDSCOBucket(height + MATURITY_DELAY);
      }
    }

    /** The steps of commitDiffSet, whatever the diffs say about the outputs and
        the delayed buckets. */
    method CommitSteps(pb: ProcessedBlock, dir: bool, ghost other: map<Hash, Contract>)
      requires Indexed() && (!dir ==> path != [])
      requires Housed(Prepared(delayed, pb.height, dir), pb.delayedDiffs)
      requires if dir then Explains(contracts, pb.contractDiffs, other)
               else Explains(other, pb.contractDiffs, contracts)
      modifies this
      ensures Indexed() && contracts == other
      ensures outputs == if dir then CommitAll(old(outputs), pb.outputDiffs)
              else RevertAll(old(outputs), pb.outputDiffs)
      ensures var start := Prepared(old(delayed), pb.height, dir);
              delayed == if dir then CommitAllDelayed(start, pb.delayedDiffs) - Closes(pb.height)
                         else RevertAllDelayed(start, pb.delayedDiffs) - {pb.height + MATURITY_DELAY}
      ensures path == if dir then old(path) + [BlockID(pb.block)] else old(path)[..|old(path)| - 1]
    {
      hide ExpirationsMatch, CommitAll, FitAll, RevertAll, CommitAllDelayed, FitAllDelayed, RevertAllDelayed, Housed,
           Shown, OpenBucket, Closes;
      CreateUpcomingDelayedOutputMaps(pb.height, dir);
      CommitNodeDiffs(pb, dir, other);
      DeleteObsoleteDelayedOutputMaps(pb.height, dir);
      UpdateCurrentPath(BlockID(pb.block), dir);
    }

    /** Applying the recorded diffs of a block leads to the state they were
        recorded in, and reverting them leads back. */
    method CommitDiffSet(pb: ProcessedBlock, dir: bool, ghost other: State)
      requires Indexed()
      requires if dir then Recorded(pb, State(), other) else Recorded(pb, other, State())
      modifies this
      ensures Indexed() && State() == other
    {
      hide ExpirationsMatch, CommitAll, FitAll, RevertAll, CommitAllDelayed, FitAllDelayed, RevertAllDelayed, Housed,
           Shown, OpenBucket, Closes;
      if dir {
        ReplayDelayed(delayed, pb.delayedDiffs, other.delayed, pb.height);
      } else {
        UnplayDelayed(other.delayed, pb.delayedDiffs, delayed, pb.height);
        RevertUndoes(other.outputs, pb.outputDiffs);
      }
      CommitSteps(pb, dir, other.contracts);
    }

    // -------------------------------------------------------------- recording diffs

    /** The diffs recorded in a node so far lead from the base state to the
        buckets as they are, with the buckets in `gone` put back. */
    ghost predicate Logged(node: Node, base: State, gone: set<nat>)
      reads this, node
    {
      && Explains(base.outputs, node.outputDiffs, outputs)
      && Explains(base.contracts, node.contractDiffs, contracts)
      && gone !! delayed.Keys
      && ExplainsDelayed(base.delayed, node.delayedDiffs, Shown(delayed, gone))
    }

    /** The delayed diffs recorded so far, less the outputs in a bucket. */
    ghost function Lag(node: Node, k: nat): int
      reads this, node
    {
      |node.delayedDiffs| - if k in delayed then |delayed[k]| else 0
    }

    method RecordOutput(node: Node, d: Diff<Hash, Output>, ghost base: State, ghost gone: set<nat>)
      requires Logged(node, base, gone) && Fits(outputs, d)
      modifies `outputs, node`outputDiffs
      ensures Logged(node, base, gone) && outputs == Commit(old(outputs), d, true)
      ensures |node.outputDiffs| == old(|node.outputDiffs|) + 1
    {
      hide CommitAll, FitAll, ExplainsDelayed, Shown;
      ExplainsStep(base.outputs, node.outputDiffs, outputs, d);
      node.outputDiffs := node.outputDiffs + [d];
      CommitSiacoinOutputDiff(d, true);
    }

    method RecordContract(node: Node, d: Diff<Hash, Contract>, ghost base: State, ghost gone: set<nat>)
      requires Indexed() && Logged(node, base, gone) && Fits(contracts, d)
      modifies `contracts, `expirations, node`contractDiffs
      ensures Indexed() && Logged(node, base, gone) && contracts == Commit(old(contracts), d, true)
      ensures |node.contractDiffs| == old(|node.contractDiffs|) + 1
    {
      hide CommitAll, FitAll, ExplainsDelayed, Shown, ExpirationsMatch;
      ExplainsStep(base.contracts, node.contractDiffs, contracts, d);
      node.contractDiffs := node.contractDiffs + [d];
      CommitFileContractDiff(d, true);
    }

    method RecordDelayed(node: Node, d: DelayedDiff, ghost base: State, ghost gone: set<nat>)
      requires Logged(node, base, gone) && FitsDelayed(delayed, d)
      modifies `delayed, node`delayedDiffs
      ensures Logged(node, base, gone) && delayed == CommitDelayed(old(delayed), d, true)
      ensures |node.delayedDiffs| == old(|node.delayedDiffs|) + 1
      ensures d.direction ==> Lag(node, d.maturityHeight) == old(Lag(node, d.maturityHeight))
    {
      hide CommitAll, FitAll, ExplainsDelayed;
      assert FitsDelayed(Shown(delayed, gone), d);
      ExplainsDelayedStep(base.delayed, node.delayedDiffs, Shown(delayed, gone), d);
      assert Shown(CommitDelayed(delayed, d, true), gone) == CommitDelayed(Shown(delayed, gone), d, true);
      node.delayedDiffs := node.delayedDiffs + [d];
      CommitDelayedSiacoinOutputDiff(d, true);
    }

    // -------------------------------------------------------------- transactions

    method ApplySiacoinInputs(node: Node, t: Txn, ghost base: State)
      requires Logged(node, base, {})
      requires forall i :: 0 <= i < |t.siacoinInputs| ==> t.siacoinInputs[i].parentID in outputs
      requires forall i, j :: 0 <= i < j < |t.siacoinInputs| ==>
               t.siacoinInputs[i].parentID != t.siacoinInputs[j].parentID
      modifies `outputs, node`outputDiffs
      ensures Logged(node, base, {})
      ensures outputs == old(outputs) - InputIDs(t.siacoinInputs)
      ensures |node.outputDiffs| == old(|node.outputDiffs|) + |t.siacoinInputs|
    {
      hide Logged;
      for i := 0 to |t.siacoinInputs|
        invariant Logged(node, base, {})
        invariant outputs == old(outputs) - InputIDs(t.siacoinInputs[..i])
        invariant |node.outputDiffs| == old(|node.outputDiffs|) + i
      {
        var id := t.siacoinInputs[i].parentID;
        assert id !in InputIDs(t.siacoinInputs[..i]);
        assert InputIDs(t.siacoinInputs[..i + 1]) == InputIDs(t.siacoinInputs[..i]) + {id};
        RecordOutput(node, Diff(false, id, outputs[id]), base, {});
      }
      assert t.siacoinInputs[..|t.siacoinInputs|] == t.siacoinInputs;
    }

    method ApplySiacoinOutputs(node: Node, t: Txn, ghost base: State)
      requires Logged(node, base, {})
      requires forall p :: p in Made(t) ==> p !in outputs
      modifies `outputs, node`outputDiffs
      ensures Logged(node, base, {})
      ensures outputs == AddItems(old(outputs), TxnOutputs(Unsigned(t)), t.siacoinOutputs)
      ensures |node.outputDiffs| == old(|node.outputDiffs|) + |t.siacoinOutputs|
    {
      hide Logged, Unsigned;
      ghost var src := TxnOutputs(Unsigned(t));
      ItemsKeys(src, t.siacoinOutputs);
      for i := 0 to |t.siacoinOutputs|
        invariant Logged(node, base, {})
        invariant outputs == AddItems(old(outputs), src, t.siacoinOutputs[..i])
        invariant |node.outputDiffs| == old(|node.outputDiffs|) + i
      {
        var id := ItemID(TxnOutputs(Unsigned(t)), i);
        assert From(src, id);
        NotYetAdded(old(outputs), src, t.siacoinOutputs[..i], id);
        assert t.siacoinOutputs[..i + 1][..i] == t.siacoinOutputs[..i];
        RecordOutput(node, Diff(true, id, t.siacoinOutputs[i]), base, {});
      }
      assert t.siacoinOutputs[..|t.siacoinOutputs|] == t.siacoinOutputs;
    }

    method ApplyFileContracts(node: Node, t: Txn, ghost base: State)
      requires Indexed() && Logged(node, base, {})
      requires forall c :: c in Formed(t) ==> c !in contracts
      modifies `contracts, `expirations, node`contractDiffs
      ensures Indexed() && Logged(node, base, {})
      ensures contracts == AddItems(old(contracts), TxnContracts(Unsigned(t)), t.fileContracts)
      ensures |node.contractDiffs| == old(|node.contractDiffs|) + |t.fileContracts|
    {
      hide Logged, Unsigned, ExpirationsMatch;
      ghost var src := TxnContracts(Unsigned(t));
      ItemsKeys(src, t.fileContracts);
      for i := 0 to |t.fileContracts|
        invariant Indexed() && Logged(node, base, {})
        invariant contracts == AddItems(old(contracts), src, t.fileContracts[..i])
        invariant |node.contractDiffs| == old(|node.contractDiffs|) + i
      {
        var id := ItemID(TxnContracts(Unsigned(t)), i);
        assert From(src, id);
        NotYetAdded(old(contracts), src, t.fileContracts[..i], id);
        assert t.fileContracts[..i + 1][..i] == t.fileContracts[..i];
        RecordContract(node, Diff(true, id, t.fileContracts[i]), base, {});
      }
      assert t.fileContracts[..|t.fileContracts|] == t.fileContracts;
    }

    /** A revision is recorded as closing the contract and opening its revised form. */
    method ApplyFileContractRevisions(node: Node, t: Txn, ghost base: State)
      requires Indexed() && Logged(node, base, {})
      requires forall i :: 0 <= i < |t.fileContractRevisions| ==> t.fileContractRevisions[i].parentID in contracts
      modifies `contracts, `expirations, node`contractDiffs
      ensures Indexed() && Logged(node, base, {})
      ensures contracts == ReviseAll(old(contracts), t.fileContractRevisions)
      ensures AmendedBy(old(contracts), contracts, t.fileContractRevisions)
      ensures |node.contractDiffs| == old(|node.contractDiffs|) + 2 * |t.fileContractRevisions|
    {
      hide Logged, ExpirationsMatch;
      var rs := t.fileContractRevisions;
      for i := 0 to |rs|
        invariant Indexed() && Logged(node, base, {})
        invariant contracts == ReviseAll(old(contracts), rs[..i])
        invariant |node.contractDiffs| == old(|node.contractDiffs|) + 2 * i
      {
        var id := rs[i].parentID;
        var fc := contracts[id];
        assert rs[..i + 1][..i] == rs[..i];
        ghost var cs := contracts;
        RecordContract(node, Diff(false, id, fc), base, {});
        RecordContract(node, Diff(true, id, Revised(fc, rs[i])), base, {});
        assert contracts == cs[id := Revised(fc, rs[i])];
      }
      assert rs[..|rs|] == rs;
      forall c | c in contracts
        ensures Amends(old(contracts)[c], RevisionsIn(rs, c), contracts[c])
      {
        ReviseAmends(old(contracts), rs, c);
      }
    }

    /** One storage proof: the valid-proof outputs are delayed and the contract closes. */
    method ApplyStorageProof(node: Node, id: Hash, ghost base: State)
      requires Indexed() && Logged(node, base, {}) && id in contracts && node.height + MATURITY_DELAY in delayed
      requires forall p :: From(ProofOutputs(id, true), p) ==> p !in delayed[node.height + MATURITY_DELAY]
      modifies `contracts, `expirations, `delayed, node`contractDiffs, node`delayedDiffs
      ensures Indexed() && Logged(node, base, {})
      ensures State() == Prove(old(State()), id, node.height + MATURITY_DELAY)
      ensures |node.contractDiffs| == old(|node.contractDiffs|) + 1
      ensures Lag(node, node.height + MATURITY_DELAY) == old(Lag(node, node.height + MATURITY_DELAY))
    {
      hide Logged, ExpirationsMatch;
      var fc := contracts[id];
      var k := node.height + MATURITY_DELAY;
      AddAllDelayed(node, ProofOutputs(id, true), fc.validProofOutputs, base, {});
      RecordContract(node, Diff(false, id, fc), base, {});
    }

    /** The loops that delay a list of outputs until the block matures. */
    method AddAllDelayed(node: Node, src: Source, outs: seq<Output>, ghost base: State, ghost gone: set<nat>)
      requires Logged(node, base, gone) && node.height + MATURITY_DELAY in delayed
      requires forall p :: From(src, p) ==> p !in delayed[node.height + MATURITY_DELAY]
      modifies `delayed, node`delayedDiffs
      ensures Logged(node, base, gone)
      ensures delayed == PayInto(old(delayed), node.height + MATURITY_DELAY, src, outs)
      ensures Lag(node, node.height + MATURITY_DELAY) == old(Lag(node, node.height + MATURITY_DELAY))
    {
      hide Logged, Lag;
      var k := node.height + MATURITY_DELAY;
      for i := 0 to |outs|
        invariant Logged(node, base, gone)
        invariant delayed == PayInto(old(delayed), k, src, outs[..i])
        invariant Lag(node, k) == old(Lag(node, k))
      {
        var id := ItemID(src, i);
        assert From(src, id);
        NotYetAdded(old(delayed)[k], src, outs[..i], id);
        assert outs[..i + 1][..i] == outs[..i];
        RecordDelayed(node, DelayedDiff(true, id, outs[i], k), base, gone);
      }
      assert outs[..|outs|] == outs;
    }

    method ApplyStorageProofs(node: Node, t: Txn, ghost base: State)
      requires Indexed() && Logged(node, base, {}) && node.height + MATURITY_DELAY in delayed
      requires forall i :: 0 <= i < |t.storageProofs| ==> t.storageProofs[i].parentID in contracts
      requires forall i, j :: 0 <= i < j < |t.storageProofs| ==>
               t.storageProofs[i].parentID != t.storageProofs[j].parentID
      requires forall i, p :: 0 <= i < |t.storageProofs| && From(ProofOutputs(t.storageProofs[i].parentID, true), p)
                 ==> p !in delayed[node.height + MATURITY_DELAY]
      modifies `contracts, `expirations, `delayed, node`contractDiffs, node`delayedDiffs
      ensures Indexed() && Logged(node, base, {})
      ensures State() == ProveAll(old(State()), t.storageProofs, node.height + MATURITY_DELAY)
      ensures |node.contractDiffs| == old(|node.contractDiffs|) + |t.storageProofs|
      ensures Lag(node, node.height + MATURITY_DELAY) == old(Lag(node, node.height + MATURITY_DELAY))
    {
      hide Logged, ExpirationsMatch;
      var ps, k := t.storageProofs, node.height + MATURITY_DELAY;
      for i := 0 to |ps|
        invariant Indexed() && Logged(node, base, {})
        invariant State() == ProveAll(old(State()), ps[..i], k)
        invariant k in delayed && Lag(node, k) == old(Lag(node, k))
        invariant |node.contractDiffs| == old(|node.contractDiffs|) + i
      {
        assert ps[..i + 1][..i] == ps[..i];
        ProveAllCloses(old(State()), ps[..i], k);
        assert ps[i].parentID !in ProofIDs(ps[..i]);
        ProveAllAdds(old(State()), ps[..i], k, ps[i].parentID);
        ApplyStorageProof(node, ps[i].parentID, base);
      }
      assert ps[..|ps|] == ps;
    }

    /** Everything but the storage proofs. */
    method ApplyExchange(node: Node, t: Txn, ghost base: State)
      requires Indexed() && Logged(node, base, {}) && Applicable(State(), t, node.height + MATURITY_DELAY)
      modifies `outputs, `contracts, `expirations, node`outputDiffs, node`contractDiffs
      ensures Indexed() && Logged(node, base, {})
      ensures State() == TxnExchange(old(State()), t)
      ensures |node.outputDiffs| == old(|node.outputDiffs|) + |t.siacoinInputs| + |t.siacoinOutputs|
      ensures |node.contractDiffs| == old(|node.contractDiffs|) + |t.fileContracts| + 2 * |t.fileContractRevisions|
    {
      hide Logged, ExpirationsMatch, AmendedBy, ReviseAll;
      ApplySiacoinInputs(node, t, base);
      ApplySiacoinOutputs(node, t, base);
      ApplyFileContracts(node, t, base);
      AddItemsSplit(old(contracts), TxnContracts(Unsigned(t)), t.fileContracts);
      ApplyFileContractRevisions(node, t, base);
    }

    /** applyTransaction, on a transaction whose parts are there to be changed. */
    method ApplyTransaction(node: Node, t: Txn, ghost base: State)
      requires Indexed() && Logged(node, base, {}) && Applicable(State(), t, node.height + MATURITY_DELAY)
      modifies `outputs, `contracts, `expirations, `delayed, node`outputDiffs, node`contractDiffs, node`delayedDiffs
      ensures Indexed() && Logged(node, base, {})
      ensures State() == TxnEffect(old(State()), t, node.height)
      ensures |node.outputDiffs| == old(|node.outputDiffs|) + |t.siacoinInputs| + |t.siacoinOutputs|
      ensures |node.contractDiffs|
           == old(|node.contractDiffs|) + |t.fileContracts| + 2 * |t.fileContractRevisions| + |t.storageProofs|
      ensures Lag(node, node.height + MATURITY_DELAY) == old(Lag(node, node.height + MATURITY_DELAY))
    {
      hide Logged, ExpirationsMatch, ProveAll, TxnExchange;
      ApplyExchange(node, t, base);
      ExchangeKeeps(old(State()), t, node.height + MATURITY_DELAY);
      ApplyStorageProofs(node, t, base);
    }

    // -------------------------------------------------------------- maintenance

    /** The scan of a delayed bucket, in whatever order the keys come. */
    method ScanMatured(bucket: map<Hash, Output>, height: nat)
        returns (scods: seq<Diff<Hash, Output>>, dscods: seq<DelayedDiff>, ghost ids: seq<Hash>)
      ensures Lists(ids, bucket) && |scods| == |dscods| == |bucket|
      ensures Spendables(scods, ids, bucket) && Departures(dscods, ids, bucket, height)
    {
      scods, dscods, ids := [], [], [];
      var todo := bucket.Keys;
      while todo != {}
        invariant todo <= bucket.Keys
        invariant forall id :: id in ids <==> id in bucket && id !in todo
        invariant Distinct(ids) && |scods| == |dscods| == |ids| && |ids| + |todo| == |bucket|
        invariant forall i :: 0 <= i < |ids| ==> scods[i] == Diff(true, ids[i], bucket[ids[i]])
        invariant forall i :: 0 <= i < |ids| ==> dscods[i] == DelayedDiff(false, ids[i], bucket[ids[i]], height)
        decreases |todo|
      {
        var id :| id in todo;
        todo := todo - {id};
        scods := scods + [Diff(true, id, bucket[id])];
        dscods := dscods + [DelayedDiff(false, id, bucket[id], height)];
        ids := ids + [id];
      }
    }

    /** Every key once. */
    static ghost predicate Lists(ids: seq<Hash>, bucket: map<Hash, Output>) {
      Distinct(ids) && (forall id :: id in ids <==> id in bucket)
    }

    /** What makes the outputs of a bucket spendable. */
    static ghost predicate Spendables(scods: seq<Diff<Hash, Output>>, ids: seq<Hash>, bucket: map<Hash, Output>)
      requires Lists(ids, bucket)
    {
      |scods| == |ids| && forall i :: 0 <= i < |ids| ==> scods[i] == Diff(true, ids[i], bucket[ids[i]])
    }

    /** What takes them out of their bucket. */
    static ghost predicate Departures(dscods: seq<DelayedDiff>, ids: seq<Hash>, bucket: map<Hash, Output>, height: nat)
      requires Lists(ids, bucket)
    {
      && |dscods| == |ids|
      && forall i :: 0 <= i < |ids| ==> dscods[i] == DelayedDiff(false, ids[i], bucket[ids[i]], height)
    }

    method ApplyMaturedSiacoinOutputs(node: Node, ghost base: State)
      requires Logged(node, base, {})
      requires node.height >= MATURITY_DELAY ==> node.height in delayed && delayed[node.height].Keys !! outputs.Keys
      modifies `outputs, `delayed, node`outputDiffs, node`delayedDiffs
      ensures Logged(node, base, Closes(node.height))
      ensures State() == Mature(old(State()), node.height)
      ensures |node.outputDiffs| == old(|node.outputDiffs|) + Maturing(old(State()), node.height)
      ensures |node.delayedDiffs| == old(|node.delayedDiffs|) + Maturing(old(State()), node.height)
    {
      hide Logged, Lists, Spendables, Departures, Mature;
      var h := node.height;
      if h < MATURITY_DELAY {
        NothingMatures(State(), h);
        return;
      }
      var bucket := delayed[h];
      var scods, dscods, ids := ScanMatured(bucket, h);
      AddMatured(node, scods, bucket, ids, base);
      RemoveMatured(node, dscods, bucket, ids, base);
      CloseBucket(node, base);
      Matured(old(State()), State(), h);
    }

    method AddMatured(node: Node, scods: seq<Diff<Hash, Output>>, ghost bucket: map<Hash, Output>,
                      ghost ids: seq<Hash>, ghost base: State)
      requires Logged(node, base, {}) && bucket.Keys !! outputs.Keys
      requires Lists(ids, bucket) && Spendables(scods, ids, bucket)
      modifies `outputs, node`outputDiffs
      ensures Logged(node, base, {})
      ensures outputs == old(outputs) + bucket
      ensures |node.outputDiffs| == old(|node.outputDiffs|) + |scods|
    {
      hide Logged, Among;
      NoneAmong(outputs, bucket);
      for i := 0 to |scods|
        invariant Logged(node, base, {})
        invariant |node.outputDiffs| == old(|node.outputDiffs|) + i
        invariant outputs == old(outputs) + Among(bucket, ids[..i])
      {
        OneMore(old(outputs), bucket, ids, i);
        RecordOutput(node, scods[i], base, {});
      }
      assert ids[..|ids|] == ids;
      AllAmong(bucket, ids);
    }

    method RemoveMatured(node: Node, dscods: seq<DelayedDiff>, ghost bucket: map<Hash, Output>, ghost ids: seq<Hash>,
                         ghost base: State)
      requires Logged(node, base, {}) && node.height in delayed && delayed[node.height] == bucket
      requires Lists(ids, bucket) && Departures(dscods, ids, bucket, node.height)
      modifies `delayed, node`delayedDiffs
      ensures Logged(node, base, {})
      ensures delayed == old(delayed)[node.height := map[]]
      ensures |node.delayedDiffs| == old(|node.delayedDiffs|) + |dscods|
    {
      hide Logged;
      var h := node.height;
      assert Without(bucket, ids[..0]) == bucket;
      assert delayed == delayed[h := bucket];
      for i := 0 to |dscods|
        invariant Logged(node, base, {})
        invariant delayed == old(delayed)[h := Without(bucket, ids[..i])]
        invariant |node.delayedDiffs| == old(|node.delayedDiffs|) + i
      {
        OneLess(bucket, ids, i);
        RecordDelayed(node, dscods[i], base, {});
      }
      assert Without(bucket, ids[..|ids|]) == map[];
    }

    /** Deleting an emptied bucket loses nothing. */
    method CloseBucket(node: Node, ghost base: State)
      requires Logged(node, base, {}) && node.height in delayed && delayed[node.height] == map[]
      modifies `delayed
      ensures Logged(node, base, {node.height})
      ensures delayed == old(delayed) - {node.height}
    {
      hide Explains, ExplainsDelayed;
      assert Shown(delayed, {}) == Shown(delayed - {node.height}, {node.height});
      DeleteDSCOBucket(node.height);
    }

    method ApplyMissedStorageProof(id: Hash, fc: Contract, payHeight: nat)
        returns (dscods: seq<DelayedDiff>, fcd: Diff<Hash, Contract>)
      ensures dscods == MissedDiffs(id, fc.missedProofOutputs, payHeight)
      ensures fcd == Diff(false, id, fc)
    {
      dscods := [];
      var outs := fc.missedProofOutputs;
      for i := 0 to |outs|
        invariant dscods == MissedDiffs(id, outs[..i], payHeight)
      {
        assert outs[..i + 1][..i] == outs[..i];
        dscods := dscods + [DelayedDiff(true, ItemID(ProofOutputs(id, false), i), outs[i], payHeight)];
      }
      assert outs[..|outs|] == outs;
      fcd := Diff(false, id, fc);
    }

    /** The scan of an expiration bucket. */
    method ScanExpired(ids: set<Hash>, payHeight: nat)
        returns (dscods: seq<DelayedDiff>, fcds: seq<Diff<Hash, Contract>>)
      requires ids <= contracts.Keys
      ensures Additions(dscods, payHeight)
      ensures AsMap(dscods) == MissedItems(contracts, ids)
      ensures Closings(fcds, contracts, ids) && |fcds| == |ids|
    {
      hide Additions, Closings, AsMap, MissedItems, MissedDiffs;
      dscods, fcds := [], [];
      NothingScanned(contracts, payHeight);
      assert ids - ids == {};
      var todo := ids;
      while todo != {}
        invariant todo <= ids
        invariant Additions(dscods, payHeight) && AsMap(dscods) == MissedItems(contracts, ids - todo)
        invariant Closings(fcds, contracts, ids - todo) && |fcds| + |todo| == |ids|
        decreases |todo|
      {
        var id :| id in todo;
        var more, fcd := ApplyMissedStorageProof(id, contracts[id], payHeight);
        AddMissed(dscods, contracts, ids - todo, id, payHeight);
        AddClosing(fcds, contracts, ids - todo, id);
        assert ids - (todo - {id}) == (ids - todo) + {id};
        todo := todo - {id};
        fcds := fcds + [fcd];
        dscods := dscods + more;
      }
      assert ids - {} == ids;
    }

    method ApplyFileContractMaintenance(node: Node, ghost base: State, ghost gone: set<nat>)
      requires Indexed() && Logged(node, base, gone) && node.height + MATURITY_DELAY in delayed
      requires forall p :: p in MissedItems(contracts, Expiring(contracts, node.height)) ==>
               p !in delayed[node.height + MATURITY_DELAY]
      modifies `contracts, `expirations, `delayed, node`contractDiffs, node`delayedDiffs
      ensures Indexed() && Logged(node, base, gone)
      ensures State() == Expire(old(State()), node.height)
      ensures |node.contractDiffs| == old(|node.contractDiffs|) + |Expiring(old(contracts), node.height)|
      ensures Lag(node, node.height + MATURITY_DELAY) == old(Lag(node, node.height + MATURITY_DELAY))
    {
      hide Logged, ExpirationsMatch, MissedItems, Additions, Closings, AsMap;
      var h, k := node.height, node.height + MATURITY_DELAY;
      ExpirationBucket(contracts, expirations, h);
      if h !in expirations {
        NothingExpires(State(), h);
        return;
      }
      var dscods, fcds := ScanExpired(expirations[h], k);
      PayMissed(node, dscods, base, gone);
      CloseExpired(node, fcds, expirations[h], base, gone);
      DeleteExpirationBucket(node, base, gone);
    }

    method DeleteExpirationBucket(node: Node, ghost base: State, ghost gone: set<nat>)
      requires Indexed() && Logged(node, base, gone) && Expiring(contracts, node.height) == {}
      modifies `expirations
      ensures Indexed() && Logged(node, base, gone)
    {
      hide Explains, ExplainsDelayed, Shown, ExpirationsMatch;
      ForgetExpired(contracts, expirations, node.height);
      expirations := expirations - {node.height};
    }

    method PayMissed(node: Node, dscods: seq<DelayedDiff>, ghost base: State, ghost gone: set<nat>)
      requires Logged(node, base, gone) && node.height + MATURITY_DELAY in delayed
      requires Additions(dscods, node.height + MATURITY_DELAY)
      requires forall p :: p in AsMap(dscods) ==> p !in delayed[node.height + MATURITY_DELAY]
      modifies `delayed, node`delayedDiffs
      ensures Logged(node, base, gone)
      ensures var k := node.height + MATURITY_DELAY;
              delayed == old(delayed)[k := old(delayed)[k] + AsMap(dscods)]
      ensures Lag(node, node.height + MATURITY_DELAY) == old(Lag(node, node.height + MATURITY_DELAY))
    {
      hide Logged, CommitDelayed, FitsDelayed, Lag;
      var k := node.height + MATURITY_DELAY;
      assert old(delayed)[k] + map[] == old(delayed)[k];
      for i := 0 to |dscods|
        invariant Logged(node, base, gone)
        invariant k in delayed && delayed == old(delayed)[k := old(delayed)[k] + AsMap(dscods[..i])]
        invariant Lag(node, k) == old(Lag(node, k))
      {
        assert dscods[..i + 1][..i] == dscods[..i];
        AsMapHas(dscods, i);
        PayOne(old(delayed), k, AsMap(dscods[..i]), dscods[i]);
        RecordDelayed(node, dscods[i], base, gone);
      }
      assert dscods[..|dscods|] == dscods;
    }

    method CloseExpired(node: Node, fcds: seq<Diff<Hash, Contract>>, ghost ids: set<Hash>, ghost base: State,
                        ghost gone: set<nat>)
      requires Indexed() && Logged(node, base, gone) && Closings(fcds, contracts, ids)
      modifies `contracts, `expirations, node`contractDiffs
      ensures Indexed() && Logged(node, base, gone)
      ensures contracts == old(contracts) - ids
      ensures |node.contractDiffs| == old(|node.contractDiffs|) + |fcds|
    {
      hide Logged, ExpirationsMatch;
      for i := 0 to |fcds|
        invariant Indexed() && Logged(node, base, gone)
        invariant |node.contractDiffs| == old(|node.contractDiffs|) + i
        invariant forall c :: c in contracts <==> c in old(contracts) && !exists j :: 0 <= j < i && fcds[j].id == c
        invariant forall c :: c in contracts ==> contracts[c] == old(contracts)[c]
      {
        RecordContract(node, fcds[i], base, gone);
      }
      assert contracts == old(contracts) - ids;
    }

    method ApplyMaintenance(node: Node, ghost base: State)
      requires Indexed() && Logged(node, base, {}) && Maintainable(State(), node.block, node.height)
      modifies `outputs, `contracts, `expirations, `delayed, node`outputDiffs, node`contractDiffs, node`delayedDiffs
      ensures Indexed() && Logged(node, base, Closes(node.height))
      ensures State() == Maintained(old(State()), node.block, node.height)
      ensures |node.outputDiffs| == old(|node.outputDiffs|) + Maturing(old(State()), node.height)
      ensures |node.contractDiffs| == old(|node.contractDiffs|) + |Expiring(old(contracts), node.height)|
      ensures Lag(node, node.height + MATURITY_DELAY)
           == old(Lag(node, node.height + MATURITY_DELAY)) + Maturing(old(State()), node.height)
    {
      hide Logged, ExpirationsMatch, PayInto, Mature, Expire, MissedItems, Expiring, Maturing;
      PaidKeeps(State(), node.block, node.height);
      AddAllDelayed(node, Payouts(BlockID(node.block)), node.block.minerPayouts, base, {});   // applyMinerPayouts
      MatureKeeps(State(), node.height);
      ApplyMaturedSiacoinOutputs(node, base);
      ApplyFileContractMaintenance(node, base, Closes(node.height));
    }

    // -------------------------------------------------------------- a whole block

    /** The transactions of a block, each validated before it is applied. */
    method ApplyTransactions(o: Oracle, node: Node, ghost base: State, ghost seen: set<Txn>) returns (ok: bool)
      requires Indexed() && Logged(node, base, {}) && State() == base
      requires node.height == |path| > 0 && Fresh(base, seen, |path| - 1) && Balanced(contracts, |path| - 1)
      requires |path| + MATURITY_DELAY in delayed
      modifies `outputs, `contracts, `expirations, `delayed, node`outputDiffs, node`contractDiffs, node`delayedDiffs
      ensures ok <==> ValidTransactions(o, base, node.block.transactions, node.height)
      ensures ok ==>
                Indexed() && Logged(node, base, {}) && State() == TxnsEffect(base, node.block.transactions, node.height)
      ensures ok ==> |node.outputDiffs| == old(|node.outputDiffs|) + OutputMoves(node.block.transactions)
      ensures ok ==> |node.contractDiffs| == old(|node.contractDiffs|) + ContractMoves(node.block.transactions)
      ensures ok ==> Lag(node, node.height + MATURITY_DELAY) == old(Lag(node, node.height + MATURITY_DELAY))
    {
      hide Logged, ExpirationsMatch, ValidTransaction, TxnEffect, Applicable, Fresh, Balanced, Record, TxnsEffect,
           ValidTransactions, OutputMoves, ContractMoves;
      var ts := node.block.transactions;
      NoTransactions(o, base, node.height);
      for i := 0 to |ts|
        invariant Indexed() && Logged(node, base, {})
        invariant State() == TxnsEffect(base, ts[..i], node.height)
        invariant ValidTransactions(o, base, ts[..i], node.height)
        invariant |node.outputDiffs| == old(|node.outputDiffs|) + OutputMoves(ts[..i])
        invariant |node.contractDiffs| == old(|node.contractDiffs|) + ContractMoves(ts[..i])
        invariant Lag(node, node.height + MATURITY_DELAY) == old(Lag(node, node.height + MATURITY_DELAY))
      {
        StillValid(o, base, seen, ts[..i]);
        OneMoreTransaction(o, base, ts, i, node.height);
        var valid := CheckTransaction(o, State(), ts[i]);
        if !valid {
          InvalidPrefix(o, base, ts, node.height, i + 1);
          return false;
        }
        ValidIsApplicable(o, State(), Record(seen, ts[..i]), node.height - 1, ts[i], node.height + MATURITY_DELAY);
        ApplyTransaction(node, ts[i], base);
      }
      assert ts[..|ts|] == ts;
      return true;
    }

    /** The transactions and the maintenance of a block, in the opened state. */
    method RecordBlock(o: Oracle, node: Node, ghost s: State, ghost seen: set<Txn>) returns (ok: bool)
      requires Indexed() && Healthy(s, seen) && State() == Opened(s, node.height) && Logged(node, State(), {})
      requires node.height == |s.path| == Height(BlockID(node.block))
      requires node.outputDiffs == [] && node.contractDiffs == [] && node.delayedDiffs == []
      modifies `outputs, `contracts, `expirations, `delayed, node`outputDiffs, node`contractDiffs, node`delayedDiffs
      ensures ok <==> ValidTransactions(o, Opened(s, node.height), node.block.transactions, node.height)
      ensures ok ==> && Indexed() && Logged(node, Opened(s, node.height), Closes(node.height))
                     && State().(path := s.path + [BlockID(node.block)]) == Effect(s, node.block, node.height)
      ensures ok ==> CountsOf(node.Value()) == DiffCounts(s, node.block)
    {
      hide ExpirationsMatch, ValidTransactions, TxnsEffect, Maintained, Fresh, Balanced, Worth, Record, Maintainable,
           Height, Floors, OnlyPays, Logged, Maturing, Expiring, OutputMoves, ContractMoves;
      ghost var base, k := Opened(s, node.height), node.height + MATURITY_DELAY;
      OpenStep(s, seen);
      assert Lag(node, k) == 0;
      ok := ApplyTransactions(o, node, base, seen);
      if !ok {
        return;
      }
      ghost var mid := State();
      ReadyForMaintenance(o, s, seen, node.block);
      StillMaturing(o, s, seen, node.block);
      ApplyMaintenance(node, base);
      ClosedBuckets(o, s, seen, node.block);
      assert |node.outputDiffs| == OutputMoves(node.block.transactions) + Maturing(s, node.height);
      assert |node.contractDiffs| == ContractMoves(node.block.transactions) + |Expiring(mid.contracts, node.height)|;
      assert Lag(node, k) == Maturing(s, node.height);
    }

    /** generateAndApplyDiff on a healthy state: it succeeds exactly on the
        valid blocks, then the state is the effect of the block, and what the
        node recorded replays and reverts that effect. */
    method GenerateAndApplyDiff(o: Oracle, node: Node, ghost seen: set<Txn>) returns (ok: bool)
      requires Indexed() && Healthy(State(), seen)
      requires node.height == |path| == Height(BlockID(node.block))
      requires node.outputDiffs == [] && node.contractDiffs == [] && node.delayedDiffs == []
      modifies this, node
      ensures ok <==> ValidTransactions(o, Opened(old(State()), node.height), node.block.transactions, node.height)
      ensures ok ==> Indexed() && State() == Effect(old(State()), node.block, node.height)
      ensures ok ==> node.diffsGenerated && Recorded(node.Value(), old(State()), State())
      ensures ok ==> CountsOf(node.Value()) == DiffCounts(old(State()), node.block)
      ensures ok ==> Renewed(old(contracts), contracts, node.block.transactions)
    {
      hide ExpirationsMatch, ValidTransactions, Effect, Renewed, Fresh, Balanced, Worth, Height, Floors, CommitAll,
           CommitAllDelayed, FitAll, FitAllDelayed, Shown, DiffCounts;
      ghost var s := State();
      ghost var base := Opened(s, node.height);
      OpenStep(s, seen);
      CreateDSCOBucket(node.height + MATURITY_DELAY);
      assert State() == base;
      StartLog(base);
      ok := RecordBlock(o, node, s, seen);
      if ok {
        node.diffsGenerated := true;
        BlockRenews(o, s, seen, node.block);
        UpdateCurrentPath(BlockID(node.block), true);
      }
    }
  }

  /** Miner payouts leave alone what matures, and what matures leaves alone the new bucket. */
  lemma {:induction false} PaidKeeps(s: State, b: Blk, h: nat)
    ensures Maturing(Paid(s, b, h), h) == Maturing(s, h)
  {
    hide AddItems;
  }

  lemma {:induction false} StillMaturing(o: Oracle, s: State, seen: set<Txn>, b: Blk)
    requires Healthy(s, seen) && ValidTransactions(o, Opened(s, |s.path|), b.transactions, |s.path|)
    ensures Maturing(TxnsEffect(Opened(s, |s.path|), b.transactions, |s.path|), |s.path|) == Maturing(s, |s.path|)
  {
    hide Fresh, Balanced, ValidTransactions, TxnsEffect, Record, Worth, Floors, BucketValue;
    OpenStep(s, seen);
    TransactionsConserve(o, Opened(s, |s.path|), seen, |s.path| - 1, b.transactions);
  }

  lemma {:induction false} MatureKeeps(s: State, h: nat)
    ensures Mature(s, h).contracts == s.contracts
    ensures h + MATURITY_DELAY in Mature(s, h).delayed <==> h + MATURITY_DELAY in s.delayed
    ensures h + MATURITY_DELAY in s.delayed ==>
              Mature(s, h).delayed[h + MATURITY_DELAY] == s.delayed[h + MATURITY_DELAY]
  {
  }

  /** The exchange closes no contract and pays nothing out. */
  lemma {:induction false} ExchangeKeeps(s: State, t: Txn, k: nat)
    requires Applicable(s, t, k)
    ensures TxnExchange(s, t).delayed == s.delayed
    ensures forall i :: 0 <= i < |t.storageProofs| ==> t.storageProofs[i].parentID in TxnExchange(s, t).contracts
  {
    hide ReviseAll;
    AddItemsSplit(s.contracts, TxnContracts(Unsigned(t)), t.fileContracts);
  }

  lemma {:induction false} StartLog(s: State)
    ensures Explains(s.outputs, [], s.outputs) && Explains(s.contracts, [], s.contracts)
    ensures ExplainsDelayed(s.delayed, [], Shown(s.delayed, {}))
  {
    assert Shown(s.delayed, {}) == s.delayed;
  }

  function Without(bucket: map<Hash, Output>, ids: seq<Hash>): map<Hash, Output> {
    bucket - (set id | id in ids)
  }

  function Among(bucket: map<Hash, Output>, ids: seq<Hash>): map<Hash, Output> {
    map id | id in ids && id in bucket :: bucket[id]
  }

  lemma {:induction false} NoneAmong(m: map<Hash, Output>, bucket: map<Hash, Output>)
    ensures m + Among(bucket, []) == m
  {
  }

  lemma {:induction false} AllAmong(bucket: map<Hash, Output>, ids: seq<Hash>)
    requires forall id :: id in ids <==> id in bucket
    ensures Among(bucket, ids) == bucket
  {
  }

  lemma {:induction false} OneMore(m: map<Hash, Output>, bucket: map<Hash, Output>, ids: seq<Hash>, i: nat)
    requires Distinct(ids) && i < |ids| && (forall id :: id in ids ==> id in bucket) && bucket.Keys !! m.Keys
    ensures ids[i] !in m + Among(bucket, ids[..i])
    ensures m + Among(bucket, ids[..i + 1]) == (m + Among(bucket, ids[..i]))[ids[i] := bucket[ids[i]]]
  {
    assert ids[..i + 1] == ids[..i] + [ids[i]];
  }

  lemma {:induction false} OneLess(bucket: map<Hash, Output>, ids: seq<Hash>, i: nat)
    requires Distinct(ids) && i < |ids| && (forall id :: id in ids ==> id in bucket)
    ensures ids[i] in Without(bucket, ids[..i]) && Without(bucket, ids[..i])[ids[i]] == bucket[ids[i]]
    ensures Without(bucket, ids[..i]) - {ids[i]} == Without(bucket, ids[..i + 1])
  {
    assert ids[..i + 1] == ids[..i] + [ids[i]];
  }

  lemma {:induction false} NoDelayedDiffs(m: Delayed)
    ensures CommitAllDelayed(m, []) == m && RevertAllDelayed(m, []) == m
  {
  }

  /** One more diff, applied last or reverted first. */
  lemma {:induction false} OneMoreDelayed(m: Delayed, ds: seq<DelayedDiff>, i: nat)
    requires i < |ds| && Housed(m, ds)
    ensures CommitAllDelayed(m, ds[..i + 1]) == CommitDelayed(CommitAllDelayed(m, ds[..i]), ds[i], true)
    ensures RevertAllDelayed(m, ds[..i + 1]) == RevertAllDelayed(CommitDelayed(m, ds[i], false), ds[..i])
  {
    assert ds[..i + 1][..i] == ds[..i];
  }

  lemma {:induction false} NothingMatures(s: State, h: nat)
    requires h < MATURITY_DELAY
    ensures Mature(s, h) == s
  {
  }

  /** Adding a bucket to the outputs, emptying it and deleting it is its maturity. */
  lemma {:induction false} Matured(s: State, s': State, h: nat)
    requires h >= MATURITY_DELAY && h in s.delayed && s'.outputs == s.outputs + s.delayed[h]
    requires s'.delayed == s.delayed[h := map[]] - {h} && s'.contracts == s.contracts && s'.path == s.path
    ensures s' == Mature(s, h)
  {
    assert s'.delayed == s.delayed - {h};
  }

  /** The state in the middle of a block is as good as the one before it. */
  lemma {:induction false} StillValid(o: Oracle, base: State, seen: set<Txn>, ts: seq<Txn>)
    requires base.path != [] && Fresh(base, seen, |base.path| - 1) && Balanced(base.contracts, |base.path| - 1)
    requires |base.path| + MATURITY_DELAY in base.delayed && ValidTransactions(o, base, ts, |base.path|)
    ensures var s := TxnsEffect(base, ts, |base.path|);
            && s.path == base.path && Fresh(s, Record(seen, ts), |base.path| - 1)
            && |base.path| + MATURITY_DELAY in s.delayed
  {
    hide Fresh, Balanced, ValidTransactions, TxnsEffect, Record, Worth;
    TransactionsConserve(o, base, seen, |base.path| - 1, ts);
  }

  lemma {:induction false} NoTransactions(o: Oracle, base: State, height: nat)
    requires base.path != []
    ensures TxnsEffect(base, [], height) == base && ValidTransactions(o, base, [], height)
    ensures OutputMoves([]) == ContractMoves([]) == 0
  {
  }

  lemma {:induction false} OneMoreTransaction(o: Oracle, base: State, ts: seq<Txn>, i: nat, height: nat)
    requires base.path != [] && i < |ts| && ValidTransactions(o, base, ts[..i], height)
    requires TxnsEffect(base, ts[..i], height).path != []
    ensures var s, t := TxnsEffect(base, ts[..i], height), ts[i];
            && TxnsEffect(base, ts[..i + 1], height) == TxnEffect(s, t, height)
            && (ValidTransaction(o, s, t) ==> ValidTransactions(o, base, ts[..i + 1], height))
            && OutputMoves(ts[..i + 1]) == OutputMoves(ts[..i]) + |t.siacoinInputs| + |t.siacoinOutputs|
            && ContractMoves(ts[..i + 1])
               == ContractMoves(ts[..i]) + |t.fileContracts| + 2 * |t.fileContractRevisions| + |t.storageProofs|
  {
    hide ValidTransaction, TxnEffect;
    assert ts[..i + 1][..i] == ts[..i];
  }

  lemma {:induction false} InvalidPrefix(o: Oracle, base: State, ts: seq<Txn>, height: nat, i: nat)
    requires base.path != [] && 0 < i <= |ts|
    requires ValidTransactions(o, base, ts[..i - 1], height)
    requires TxnsEffect(base, ts[..i - 1], height).path != []
    requires !ValidTransaction(o, TxnsEffect(base, ts[..i - 1], height), ts[i - 1])
    ensures !ValidTransactions(o, base, ts, height)
  {
    hide ValidTransaction, TxnsEffect;
    assert ts[..i][..i - 1] == ts[..i - 1];
    if ValidTransactions(o, base, ts, height) {
      ValidPrefix(o, base, ts, height, i);
    }
  }

  /** Validation establishes all that applyTransaction takes for granted. */
  lemma {:induction false} ValidIsApplicable(o: Oracle, s: State, seen: set<Txn>, n: nat, t: Txn, k: nat)
    requires s.path != [] && Fresh(s, seen, n) && ValidTransaction(o, s, t) && k in s.delayed
    ensures Applicable(s, t, k)
  {
    RevisionsDistinct(t);
    FormedAreNew(o, s, seen, n, t);
    MadeAreNew(o, s, seen, n, t);
    PartsAreThere(o, s, t);
    forall i, p | 0 <= i < |t.storageProofs| && From(ProofOutputs(t.storageProofs[i].parentID, true), p)
      ensures p !in s.delayed[k]
    {
      NotYetPaid(s, seen, n, t.storageProofs[i].parentID, p, k);
    }
  }

  lemma {:induction false} NotYetPaid(s: State, seen: set<Txn>, n: nat, c: Hash, p: Hash, k: nat)
    requires Fresh(s, seen, n) && c in s.contracts && k in s.delayed && From(ProofOutputs(c, true), p)
    ensures p !in s.delayed[k]
  {
    UnusedIsUntouched(s, seen, n, p);
    assert !Held(s.delayed, k, p);
  }

  lemma {:induction false} MadeAreNew(o: Oracle, s: State, seen: set<Txn>, n: nat, t: Txn)
    requires s.path != [] && Fresh(s, seen, n) && ValidTransaction(o, s, t)
    ensures forall p :: p in Made(t) ==> p !in s.outputs
  {
    CreatorIsNew(o, s, seen, n, t);
    ItemsKeys(TxnOutputs(Unsigned(t)), t.siacoinOutputs);
    forall p | p in Made(t)
      ensures p !in s.outputs
    {
      assert t.siacoinOutputs != [];
      assert !Used(s.contracts, seen, n, p);
    }
  }

  lemma {:induction false} PartsAreThere(o: Oracle, s: State, t: Txn)
    requires s.path != [] && ValidTransaction(o, s, t)
    ensures forall i :: 0 <= i < |t.siacoinInputs| ==> t.siacoinInputs[i].parentID in s.outputs
    ensures forall i :: 0 <= i < |t.fileContractRevisions| ==> t.fileContractRevisions[i].parentID in s.contracts
    ensures forall i :: 0 <= i < |t.storageProofs| ==> t.storageProofs[i].parentID in s.contracts
  {
    forall i | 0 <= i < |t.siacoinInputs|
      ensures t.siacoinInputs[i].parentID in s.outputs
    {
      assert InputUnlocks(s.outputs, t.siacoinInputs[i]);
    }
    forall i | 0 <= i < |t.fileContractRevisions|
      ensures t.fileContractRevisions[i].parentID in s.contracts
    {
      assert RevisionOk(s, t.fileContractRevisions[i]);
    }
    forall i | 0 <= i < |t.storageProofs|
      ensures t.storageProofs[i].parentID in s.contracts
    {
      assert ProofOk(o, s, t.storageProofs[i]);
    }
  }

  /** After its transactions, a block on a healthy state can be maintained. */
  lemma {:induction false} ReadyForMaintenance(o: Oracle, s: State, seen: set<Txn>, b: Blk)
    requires Healthy(s, seen) && Height(BlockID(b)) == |s.path|
    requires ValidTransactions(o, Opened(s, |s.path|), b.transactions, |s.path|)
    ensures Maintainable(TxnsEffect(Opened(s, |s.path|), b.transactions, |s.path|), b, |s.path|)
  {
    hide Fresh, Balanced, ValidTransactions, TxnsEffect, Record, Worth, Floors, Maintainable, Height, BucketValue;
    var h := |s.path|;
    OpenStep(s, seen);
    TransactionsConserve(o, Opened(s, h), seen, h - 1, b.transactions);
    CanMaintain(TxnsEffect(Opened(s, h), b.transactions, h), Record(seen, b.transactions), b, h);
  }

  lemma {:induction false} CanMaintain(s: State, seen: set<Txn>, b: Blk, h: nat)
    requires h > 0 && Fresh(s, seen, h - 1) && Height(BlockID(b)) == h && h + MATURITY_DELAY in s.delayed
    requires h >= MATURITY_DELAY ==> h in s.delayed
    ensures Maintainable(s, b, h)
  {
    hide Worth, BucketValue, ValueSum, MissedItems, Expiring, PayInto, Height, AddItems;
    var k := h + MATURITY_DELAY;
    forall p | From(Payouts(BlockID(b)), p)
      ensures p !in s.delayed[k]
    {
      UnusedIsUntouched(s, seen, h - 1, p);
      assert !Held(s.delayed, k, p);
    }
    PayoutsStep(s, seen, h - 1, b, k);
    var s1 := Paid(s, b, h);
    DelayedAreApart(s1, seen, h, h);
    MatureFresh(s1, seen, h, h);
    var s2 := Mature(s1, h);
    MissedAreNew(s2, seen, h, Expiring(s2.contracts, h), k) by { ExpiringAreOpen(s2.contracts, h); }
  }

  lemma {:induction false} ExpiringAreOpen(contracts: map<Hash, Contract>, h: nat)
    ensures Expiring(contracts, h) <= contracts.Keys
  {
  }

  lemma {:induction false} DelayedAreApart(s: State, seen: set<Txn>, n: nat, h: nat)
    requires Fresh(s, seen, n)
    ensures h in s.delayed ==> s.delayed[h].Keys !! s.outputs.Keys
  {
    if h in s.delayed {
      forall p | p in s.delayed[h]
        ensures p !in s.outputs
      {
        assert Held(s.delayed, h, p);
      }
    }
  }

  /** A block leaves no bucket at its own height. */
  lemma {:induction false} ClosedBuckets(o: Oracle, s: State, seen: set<Txn>, b: Blk)
    requires Healthy(s, seen) && Height(BlockID(b)) == |s.path|
    requires ValidTransactions(o, Opened(s, |s.path|), b.transactions, |s.path|)
    ensures var s1 := TxnsEffect(Opened(s, |s.path|), b.transactions, |s.path|);
            Closes(|s.path|) !! Maintained(s1, b, |s.path|).delayed.Keys && Maintained(s1, b, |s.path|).path == s.path
  {
    hide Fresh, Balanced, ValidTransactions, TxnsEffect, Record, Worth, Floors, Height, BucketValue, Maintained;
    var h := |s.path|;
    OpenStep(s, seen);
    TransactionsConserve(o, Opened(s, h), seen, h - 1, b.transactions);
    MaintenanceStep(TxnsEffect(Opened(s, h), b.transactions, h), Record(seen, b.transactions), b, h);
  }

  /** What the block-level alterations take for granted. */
  ghost predicate Maintainable(s: State, b: Blk, h: nat) {
    && h + MATURITY_DELAY in s.delayed
    && (forall p :: From(Payouts(BlockID(b)), p) ==> p !in s.delayed[h + MATURITY_DELAY])
    && var s1 := Paid(s, b, h);
    && (h >= MATURITY_DELAY ==> h in s1.delayed && s1.delayed[h].Keys !! s1.outputs.Keys)
    && var s2 := Mature(s1, h);
    && h + MATURITY_DELAY in s2.delayed
    && (forall p :: p in MissedItems(s2.contracts, Expiring(s2.contracts, h)) ==> p !in s2.delayed[h + MATURITY_DELAY])
  }

  /** The diffs that pay the missed-proof outputs of a contract. */
  function MissedDiffs(id: Hash, outs: seq<Output>, payHeight: nat): seq<DelayedDiff> {
    if outs == [] then []
    else MissedDiffs(id, outs[..|outs| - 1], payHeight)
         + [DelayedDiff(true, ItemID(ProofOutputs(id, false), |outs| - 1), outs[|outs| - 1], payHeight)]
  }

  /** The entries that a list of additions makes. */
  function AsMap(ds: seq<DelayedDiff>): map<Hash, Output> {
    if ds == [] then map[] else AsMap(ds[..|ds| - 1])[ds[|ds| - 1].id := ds[|ds| - 1].value]
  }

  /** Additions to one bucket, no id twice. */
  ghost predicate Additions(ds: seq<DelayedDiff>, k: nat) {
    && (forall i :: 0 <= i < |ds| ==> ds[i].direction && ds[i].maturityHeight == k)
    && (forall i, j :: 0 <= i < j < |ds| ==> ds[i].id != ds[j].id)
  }

  /** Removals of exactly the given contracts, each once. */
  ghost predicate Closings(ds: seq<Diff<Hash, Contract>>, contracts: map<Hash, Contract>, ids: set<Hash>) {
    && (forall i :: 0 <= i < |ds| ==>
       ds[i].id in ids && ds[i].id in contracts && ds[i] == Diff(false, ds[i].id, contracts[ds[i].id]))
    && (forall i, j :: 0 <= i < j < |ds| ==> ds[i].id != ds[j].id)
    && (forall id :: id in ids ==> exists i :: 0 <= i < |ds| && ds[i].id == id)
  }

  lemma {:induction false} AsMapIDs(ds: seq<DelayedDiff>)
    ensures forall p :: p in AsMap(ds) <==> exists i :: 0 <= i < |ds| && ds[i].id == p
  {
    if ds != [] {
      AsMapIDs(ds[..|ds| - 1]);
      forall p
        ensures p in AsMap(ds) <==> exists i :: 0 <= i < |ds| && ds[i].id == p
      {
        if p in AsMap(ds[..|ds| - 1]) {
          var i :| 0 <= i < |ds| - 1 && ds[..|ds| - 1][i].id == p;
          assert ds[i].id == p;
        }
        if i :| 0 <= i < |ds| - 1 && ds[i].id == p {
          assert ds[..|ds| - 1][i].id == p;
        }
      }
    }
  }

  lemma {:induction false} PayOne(delayed: Delayed, k: nat, paid: map<Hash, Output>, d: DelayedDiff)
    requires k in delayed && d.direction && d.maturityHeight == k && d.id !in delayed[k] && d.id !in paid
    ensures var now := delayed[k := delayed[k] + paid];
            FitsDelayed(now, d) && CommitDelayed(now, d, true) == delayed[k := delayed[k] + paid[d.id := d.value]]
  {
    assert (delayed[k] + paid)[d.id := d.value] == delayed[k] + paid[d.id := d.value];
  }

  lemma {:induction false} AsMapHas(ds: seq<DelayedDiff>, i: nat)
    requires i < |ds| && forall j, k :: 0 <= j < k < |ds| ==> ds[j].id != ds[k].id
    ensures ds[i].id in AsMap(ds) && ds[i].id !in AsMap(ds[..i])
  {
    AsMapIDs(ds);
    AsMapIDs(ds[..i]);
  }

  lemma {:induction false} AsMapConcat(a: seq<DelayedDiff>, b: seq<DelayedDiff>)
    ensures AsMap(a + b) == AsMap(a) + AsMap(b)
  {
    if b == [] {
      assert a + b == a;
    } else {
      AsMapConcat(a, b[..|b| - 1]);
      assert (a + b)[..|a + b| - 1] == a + b[..|b| - 1];
    }
  }

  lemma {:induction false} MissedDiffsAre(id: Hash, outs: seq<Output>, k: nat)
    ensures |MissedDiffs(id, outs, k)| == |outs|
    ensures forall i :: 0 <= i < |outs| ==>
            MissedDiffs(id, outs, k)[i] == DelayedDiff(true, ItemID(ProofOutputs(id, false), i), outs[i], k)
    ensures AsMap(MissedDiffs(id, outs, k)) == AddItems(map[], ProofOutputs(id, false), outs)
  {
    if outs != [] {
      MissedDiffsAre(id, outs[..|outs| - 1], k);
      var ds := MissedDiffs(id, outs, k);
      assert ds[..|ds| - 1] == MissedDiffs(id, outs[..|outs| - 1], k);
    }
  }

  /** One more contract in the scan of the expiring ones. */
  lemma {:induction false} AddMissed(dscods: seq<DelayedDiff>, contracts: map<Hash, Contract>, done: set<Hash>,
                                     id: Hash, k: nat)
    requires done <= contracts.Keys && id in contracts && id !in done
    requires Additions(dscods, k) && AsMap(dscods) == MissedItems(contracts, done)
    ensures var more := dscods + MissedDiffs(id, contracts[id].missedProofOutputs, k);
            Additions(more, k) && AsMap(more) == MissedItems(contracts, done + {id})
  {
    hide AsMap, MissedItems, MissedDiffs;
    var outs := contracts[id].missedProofOutputs;
    MissedDiffsAre(id, outs, k);
    MissedAreOthers(dscods, contracts, done, id, k);
    AsMapConcat(dscods, MissedDiffs(id, outs, k));
    MissedSplit(contracts, done + {id}, id);
    assert done + {id} - {id} == done;
  }

  lemma {:induction false} MissedAreOthers(dscods: seq<DelayedDiff>, contracts: map<Hash, Contract>, done: set<Hash>,
                                           id: Hash, k: nat)
    requires done <= contracts.Keys && id in contracts && id !in done
    requires Additions(dscods, k) && AsMap(dscods) == MissedItems(contracts, done)
    ensures var mine := MissedDiffs(id, contracts[id].missedProofOutputs, k);
            forall i, j :: 0 <= i < |dscods| && 0 <= j < |mine| ==> dscods[i].id != mine[j].id
  {
    hide AsMap, MissedDiffs;
    var mine := MissedDiffs(id, contracts[id].missedProofOutputs, k);
    MissedDiffsAre(id, contracts[id].missedProofOutputs, k);
    forall i, j | 0 <= i < |dscods| && 0 <= j < |mine|
      ensures dscods[i].id != mine[j].id
    {
      AsMapHas(dscods, i);
    }
  }

  lemma {:induction false} AddClosing(fcds: seq<Diff<Hash, Contract>>, contracts: map<Hash, Contract>,
                                      done: set<Hash>, id: Hash)
    requires id in contracts && id !in done && Closings(fcds, contracts, done)
    ensures Closings(fcds + [Diff(false, id, contracts[id])], contracts, done + {id})
  {
    var more := fcds + [Diff(false, id, contracts[id])];
    forall c | c in done + {id}
      ensures exists i :: 0 <= i < |more| && more[i].id == c
    {
      if c == id {
        assert more[|fcds|].id == c;
      } else {
        var i :| 0 <= i < |fcds| && fcds[i].id == c;
        assert more[i].id == c;
      }
    }
  }

  lemma {:induction false} NothingScanned(contracts: map<Hash, Contract>, k: nat)
    ensures Additions([], k) && AsMap([]) == MissedItems(contracts, {}) && Closings([], contracts, {})
  {
  }

  lemma {:induction false} NothingExpires(s: State, h: nat)
    requires Expiring(s.contracts, h) == {}
    ensures Expire(s, h) == s
  {
    assert MissedItems(s.contracts, {}) == map[];
    if h + MATURITY_DELAY in s.delayed {
      assert s.delayed[h + MATURITY_DELAY] + map[] == s.delayed[h + MATURITY_DELAY];
    }
  }

  /** The bucket of a height lists exactly the contracts that end there. */
  lemma {:induction false} ExpirationBucket(contracts: map<Hash, Contract>, expirations: Expirations, h: nat)
    requires ExpirationsMatch(contracts, expirations)
    ensures Expiring(contracts, h) == if h in expirations then expirations[h] else {}
  {
    forall id
      ensures id in Expiring(contracts, h) <==> Listed(expirations, h, id)
    {
      assert Listed(expirations, h, id) <==> EndsAt(contracts, h, id);
    }
  }

  /** Once its contracts are closed, an expiration bucket may go. */
  lemma {:induction false} ForgetExpired(contracts: map<Hash, Contract>, expirations: Expirations, h: nat)
    requires ExpirationsMatch(contracts, expirations) && Expiring(contracts, h) == {}
    ensures ExpirationsMatch(contracts, expirations - {h})
  {
    forall j: nat, id: Hash
      ensures Listed(expirations - {h}, j, id) <==> EndsAt(contracts, j, id)
    {
      assert Listed(expirations, j, id) <==> EndsAt(contracts, j, id);
      assert id !in Expiring(contracts, h);
    }
  }

  /** What applyTransaction takes for granted. */
  ghost predicate Applicable(s: State, t: Txn, k: nat) {
    && (forall i :: 0 <= i < |t.siacoinInputs| ==> t.siacoinInputs[i].parentID in s.outputs)
    && (forall i, j :: 0 <= i < j < |t.siacoinInputs| ==> t.siacoinInputs[i].parentID != t.siacoinInputs[j].parentID)
    && (forall p :: p in Made(t) ==> p !in s.outputs)
    && (forall c :: c in Formed(t) ==> c !in s.contracts)
    && (forall i :: 0 <= i < |t.fileContractRevisions| ==> t.fileContractRevisions[i].parentID in s.contracts)
    && (forall i :: 0 <= i < |t.storageProofs| ==> t.storageProofs[i].parentID in s.contracts)
    && (forall i, j :: 0 <= i < j < |t.storageProofs| ==> t.storageProofs[i].parentID != t.storageProofs[j].parentID)
    && k in s.delayed
    && (forall i, p :: 0 <= i < |t.storageProofs| && From(ProofOutputs(t.storageProofs[i].parentID, true), p) ==>
       p !in s.delayed[k])
  }

  /** Ids of later items are not among those added so far. */
  lemma {:induction false} NotYetAdded<V>(m: map<Hash, V>, src: Source, vs: seq<V>, id: Hash)
    requires id == ItemID(src, |vs|) && id !in m
    ensures id !in AddItems(m, src, vs)
  {
    AddItemsSplit(m, src, vs);
    ItemsKeys(src, vs);
  }

  /** Proofs of other contracts do not pay this contract's outputs. */
  lemma {:induction false} ProveAllAdds(s: State, proofs: seq<Proof>, k: nat, c: Hash)
    requires k in s.delayed && c !in ProofIDs(proofs)
    requires forall p :: From(ProofOutputs(c, true), p) ==> p !in s.delayed[k]
    ensures k in ProveAll(s, proofs, k).delayed
    ensures forall p :: From(ProofOutputs(c, true), p) ==> p !in ProveAll(s, proofs, k).delayed[k]
  {
    if proofs != [] {
      var pre, id := proofs[..|proofs| - 1], proofs[|proofs| - 1].parentID;
      assert ProofIDs(proofs) == ProofIDs(pre) + {id};
      ProveAllAdds(s, pre, k, c);
      var s1 := ProveAll(s, pre, k);
      if id in s1.contracts {
        AddItemsSplit(s1.delayed[k], ProofOutputs(id, true), s1.contracts[id].validProofOutputs);
        ItemsKeys(ProofOutputs(id, true), s1.contracts[id].validProofOutputs);
      }
    }
  }

  /** What replaying the delayed diffs of a block at height h leaves once its obsolete buckets go. */
  lemma {:induction false} ReplayDelayed(d: Delayed, ds: seq<DelayedDiff>, d': Delayed, h: nat)
    requires Closes(h) !! d'.Keys
    requires ExplainsDelayed(OpenBucket(d, h + MATURITY_DELAY), ds, Shown(d', Closes(h)))
    ensures Housed(OpenBucket(d, h + MATURITY_DELAY), ds)
    ensures CommitAllDelayed(OpenBucket(d, h + MATURITY_DELAY), ds) - Closes(h) == d'
  {
    hide CommitAllDelayed, FitAllDelayed, Closes, OpenBucket;
    assert Shown(d', Closes(h)) - Closes(h) == d';
  }

  /** And what undoing them leaves once the bucket it opened goes. */
  lemma {:induction false} UnplayDelayed(d: Delayed, ds: seq<DelayedDiff>, d': Delayed, h: nat)
    requires h + MATURITY_DELAY !in d && Closes(h) !! d'.Keys
    requires ExplainsDelayed(OpenBucket(d, h + MATURITY_DELAY), ds, Shown(d', Closes(h)))
    ensures Housed(Shown(d', Closes(h)), ds)
    ensures RevertAllDelayed(Shown(d', Closes(h)), ds) - {h + MATURITY_DELAY} == d
  {
    hide CommitAllDelayed, FitAllDelayed, RevertAllDelayed, Closes, Shown;
    RevertUndoesDelayed(OpenBucket(d, h + MATURITY_DELAY), ds);
  }

  /** A list of diffs that fits does so at every position. */
  lemma {:induction false} FitsAt<V>(m: map<Hash, V>, ds: seq<Diff<Hash, V>>, i: nat)
    requires FitAll(m, ds) && i < |ds|
    ensures FitAll(m, ds[..i]) && Fits(CommitAll(m, ds[..i]), ds[i])
    decreases |ds|
  {
    if i < |ds| - 1 {
      FitsAt(m, ds[..|ds| - 1], i);
      assert ds[..|ds| - 1][..i] == ds[..i];
    }
  }
}
