/** One transaction neither makes nor destroys coins, but for its miner fees,
    and keeps ids fresh. */
module Conservation {
  import opened Types
  import opened Hashing
  import opened Sums
  import opened Diffs
  import opened Ledger
  import opened Validation
  import opened Freshness
  import opened Admission

  function OutputValue(o: Output): nat { o.value }

  /** checkSiacoinCount counts a contract by its valid-proof outputs. */
  function ContractValue(fc: Contract): nat { ValueSum(fc.validProofOutputs) }

  ghost function BucketValue(b: map<Hash, Output>): nat { Total(b, OutputValue) }

  /** All coins in a state. */
  ghost function Worth(s: State): nat {
    Total(s.outputs, OutputValue) + Total(s.delayed, BucketValue) + Total(s.contracts, ContractValue)
  }

  /** A contract pays something, the same whether or not it is proved, and ends after height n. */
  ghost predicate Balanced(contracts: map<Hash, Contract>, n: int) {
    forall c :: c in contracts ==>
      && 0 < contracts[c].payout == ContractValue(contracts[c]) == ValueSum(contracts[c].missedProofOutputs)
      && contracts[c].windowEnd > n
  }

  // ---------------------------------------------------------------- sums of what is added

  lemma {:induction false} ItemsTotal<V>(src: Source, vs: seq<V>, f: V -> nat)
    ensures Total(AddItems(map[], src, vs), f) == ListTotal(vs, f)
  {
    if vs != [] {
      var pre := vs[..|vs| - 1];
      ItemsTotal(src, pre, f);
      ItemsKeys(src, pre);
      TotalInsert(AddItems(map[], src, pre), ItemID(src, |vs| - 1), vs[|vs| - 1], f);
    }
  }

  lemma {:induction false} ListOfValues(outputs: seq<Output>)
    ensures ListTotal(outputs, OutputValue) == ValueSum(outputs)
  {
    if outputs != [] {
      ListOfValues(outputs[..|outputs| - 1]);
    }
  }

  lemma {:induction false} ListOfPayouts(fcs: seq<Contract>, height: nat)
    requires forall i :: 0 <= i < |fcs| ==> ContractCorrect(fcs[i], height)
    ensures ListTotal(fcs, ContractValue) == PayoutSum(fcs)
  {
    if fcs != [] {
      ListOfPayouts(fcs[..|fcs| - 1], height);
    }
  }

  // ---------------------------------------------------------------- spending

  lemma {:induction false} SpendTotal(outputs: map<Hash, Output>, inputs: seq<Input>)
    requires forall i :: 0 <= i < |inputs| ==> inputs[i].parentID in outputs
    requires forall i, j :: 0 <= i < j < |inputs| ==> inputs[i].parentID != inputs[j].parentID
    ensures Total(outputs - InputIDs(inputs), OutputValue) + SpentValue(outputs, inputs) == Total(outputs, OutputValue)
  {
    if inputs == [] {
      assert outputs - InputIDs(inputs) == outputs;
    } else {
      var pre, last := inputs[..|inputs| - 1], inputs[|inputs| - 1].parentID;
      SpendTotal(outputs, pre);
      assert last !in InputIDs(pre);
      TotalSplit(outputs - InputIDs(pre), last, OutputValue);
      assert InputIDs(inputs) == InputIDs(pre) + {last};
      assert outputs - InputIDs(inputs) == (outputs - InputIDs(pre)) - {last};
    }
  }

  lemma {:induction false} PositiveSums(t: Txn)
    requires FollowsMinimumValues(t)
    ensures t.siacoinOutputs != [] ==> ValueSum(t.siacoinOutputs) > 0
    ensures t.fileContracts != [] ==> PayoutSum(t.fileContracts) > 0
  {
    if t.siacoinOutputs != [] {
      assert t.siacoinOutputs[|t.siacoinOutputs| - 1].value > 0;
    }
    if t.fileContracts != [] {
      assert t.fileContracts[|t.fileContracts| - 1].payout > 0;
    }
  }

  /** A transaction that creates anything spends something, and cannot have been applied before. */
  lemma {:induction false} CreatorIsNew(o: Oracle, s: State, seen: set<Txn>, n: nat, t: Txn)
    requires Fresh(s, seen, n) && s.path != [] && ValidTransaction(o, s, t)
    ensures t.siacoinOutputs != [] || t.fileContracts != [] ==> t.siacoinInputs != []
    ensures t.siacoinInputs != [] ==> Unsigned(t) !in seen
    ensures t.siacoinInputs != [] ==> t.siacoinInputs[0].parentID in s.outputs
  {
    PositiveSums(t);
    if t.siacoinInputs != [] {
      var p := t.siacoinInputs[0].parentID;
      assert InputUnlocks(s.outputs, t.siacoinInputs[0]);
      assert Spends(Unsigned(t), p) && Live(s, p);
    }
  }

  // ---------------------------------------------------------------- revisions

  /** A contract that no revision names stays as it is. */
  lemma {:induction false} ReviseLeaves(contracts: map<Hash, Contract>, rs: seq<Revision>, c: Hash)
    requires c in contracts && forall i :: 0 <= i < |rs| ==> rs[i].parentID != c
    ensures ReviseAll(contracts, rs)[c] == contracts[c]
  {
    if rs != [] {
      ReviseLeaves(contracts, rs[..|rs| - 1], c);
    }
  }

  /** A revision that keeps the value of its contract and ends after height n. */
  predicate Keeps(contracts: map<Hash, Contract>, r: Revision, n: int) {
    && r.parentID in contracts
    && r.newWindowEnd > n
    && ValueSum(r.newValidProofOutputs) == ValueSum(r.newMissedProofOutputs) == ContractValue(contracts[r.parentID])
  }

  lemma {:induction false} ReviseTotal(contracts: map<Hash, Contract>, rs: seq<Revision>, n: int)
    requires Balanced(contracts, n)
    requires forall i :: 0 <= i < |rs| ==> Keeps(contracts, rs[i], n)
    requires forall i, j :: 0 <= i < j < |rs| ==> rs[i].parentID != rs[j].parentID
    ensures Total(ReviseAll(contracts, rs), ContractValue) == Total(contracts, ContractValue)
    ensures Balanced(ReviseAll(contracts, rs), n)
  {
    hide ValueSum;
    if rs != [] {
      var pre, r := rs[..|rs| - 1], rs[|rs| - 1];
      ReviseTotal(contracts, pre, n);
      ReviseLeaves(contracts, pre, r.parentID);
      var cs := ReviseAll(contracts, pre);
      assert Keeps(contracts, r, n);
      TotalReplace(cs, r.parentID, Revised(cs[r.parentID], r), ContractValue);
    }
  }

  // ---------------------------------------------------------------- everything but the proofs

  /** The contracts a transaction forms, by id. */
  function Formed(t: Txn): map<Hash, Contract> {
    AddItems(map[], TxnContracts(Unsigned(t)), t.fileContracts)
  }

  function Made(t: Txn): map<Hash, Output> {
    AddItems(map[], TxnOutputs(Unsigned(t)), t.siacoinOutputs)
  }

  lemma {:induction false} FormedAreNew(o: Oracle, s: State, seen: set<Txn>, n: nat, t: Txn)
    requires Fresh(s, seen, n) && s.path != [] && ValidTransaction(o, s, t)
    ensures Formed(t) != map[] ==> Unsigned(t) !in seen
    ensures forall c :: c in Formed(t) ==> From(TxnContracts(Unsigned(t)), c)
    ensures Formed(t).Keys !! s.contracts.Keys
  {
    hide Admissible, ValidSiacoins, ValidStorageProofs, ValidFileContractRevisions, NoRepeats;
    CreatorIsNew(o, s, seen, n, t);
    ItemsKeys(TxnContracts(Unsigned(t)), t.fileContracts);
    if t.fileContracts == [] {
      assert Formed(t) == map[];
    }
  }

  lemma {:induction false} ExchangeFresh(o: Oracle, s: State, seen: set<Txn>, n: nat, t: Txn)
    requires Fresh(s, seen, n) && s.path != [] && ValidTransaction(o, s, t)
    ensures Fresh(TxnExchange(s, t), seen + {Unsigned(t)}, n)
  {
    var u, seen' := Unsigned(t), seen + {Unsigned(t)};
    CreatorIsNew(o, s, seen, n, t);
    FormedAreNew(o, s, seen, n, t);
    EnterFresh(s, seen, n, u, InputIDs(t.siacoinInputs), Formed(t));
    var s1 := s.(outputs := s.outputs - InputIDs(t.siacoinInputs), contracts := s.contracts + Formed(t));
    ItemsKeys(TxnOutputs(u), t.siacoinOutputs);
    forall p | p in Made(t)
      ensures Untouched(s1, seen', p) && Used(s1.contracts, seen', n, p)
    {
      assert t.siacoinOutputs != [];
      UnusedIsUntouched(s, seen, n, p);
      MadeUntouched(s, seen, u, p, InputIDs(t.siacoinInputs), Formed(t));
    }
    AddOutputsFresh(s1, seen', n, Made(t));
    var s2 := s1.(outputs := s1.outputs + Made(t));
    AddItemsSplit(s.outputs - InputIDs(t.siacoinInputs), TxnOutputs(u), t.siacoinOutputs);
    AddItemsSplit(s.contracts, TxnContracts(u), t.fileContracts);
    ReviseFresh(s2, seen', n, ReviseAll(s2.contracts, t.fileContractRevisions));
  }

  /** An id that is untouched before a transaction enters is untouched after. */
  lemma {:induction false} MadeUntouched(s: State, seen: set<Txn>, u: Txn, p: Hash, spent: set<Hash>,
                                         formed: map<Hash, Contract>)
    requires Untouched(s, seen, p)
    requires u.siacoinInputs != [] ==> u.siacoinInputs[0].parentID in s.outputs
    ensures Untouched(s.(outputs := s.outputs - spent, contracts := s.contracts + formed), seen + {u}, p)
  {
  }

  lemma {:induction false} FormedBalanced(t: Txn, h: nat)
    requires forall i :: 0 <= i < |t.fileContracts| ==> ContractCorrect(t.fileContracts[i], h)
    requires forall i :: 0 <= i < |t.fileContracts| ==> t.fileContracts[i].payout > 0
    ensures Balanced(Formed(t), h)
    ensures Total(Formed(t), ContractValue) == PayoutSum(t.fileContracts)
  {
    ItemsKeys(TxnContracts(Unsigned(t)), t.fileContracts);
    forall c | c in Formed(t)
      ensures 0 < ContractValue(Formed(t)[c]) == ValueSum(Formed(t)[c].missedProofOutputs)
      ensures Formed(t)[c].windowEnd > h
    {
      assert ContractCorrect(t.fileContracts[c.index], h);
    }
    ItemsTotal(TxnContracts(Unsigned(t)), t.fileContracts, ContractValue);
    ListOfPayouts(t.fileContracts, h);
  }

  lemma {:induction false} ExchangeContracts(o: Oracle, s: State, seen: set<Txn>, n: nat, t: Txn)
    requires Fresh(s, seen, n) && s.path != [] && ValidTransaction(o, s, t) && Balanced(s.contracts, |s.path| - 1)
    ensures Balanced(TxnExchange(s, t).contracts, |s.path| - 1)
    ensures Total(TxnExchange(s, t).contracts, ContractValue)
            == Total(s.contracts, ContractValue) + PayoutSum(t.fileContracts)
  {
    hide Fresh, NoRepeats, ValidSiacoins, ValidStorageProofs, ValidFileContractRevisions, ValueSum, PayoutSum,
         Admissible;
    var h := |s.path| - 1;
    FormedAreNew(o, s, seen, n, t);
    FormedBalanced(t, h);
    AddItemsSplit(s.contracts, TxnContracts(Unsigned(t)), t.fileContracts);
    TotalUnion(s.contracts, Formed(t), ContractValue);
    var cs := s.contracts + Formed(t);
    RevisionsKeep(o, s, t, cs);
    RevisionsDistinct(t);
    ReviseTotal(cs, t.fileContractRevisions, h);
  }

  lemma {:induction false} RevisionsKeep(o: Oracle, s: State, t: Txn, cs: map<Hash, Contract>)
    requires s.path != [] && ValidTransaction(o, s, t)
    requires forall c :: c in s.contracts ==> c in cs && cs[c] == s.contracts[c]
    ensures forall i :: 0 <= i < |t.fileContractRevisions| ==> Keeps(cs, t.fileContractRevisions[i], |s.path| - 1)
  {
    forall i | 0 <= i < |t.fileContractRevisions|
      ensures Keeps(cs, t.fileContractRevisions[i], |s.path| - 1)
    {
      assert RevisionOk(s, t.fileContractRevisions[i]) && RevisionCorrect(t.fileContractRevisions[i], |s.path| - 1);
    }
  }

  lemma {:induction false} RevisionsDistinct(t: Txn)
    requires NoRepeats(t)
    ensures forall i, j :: 0 <= i < j < |t.fileContractRevisions| ==>
            t.fileContractRevisions[i].parentID != t.fileContractRevisions[j].parentID
    ensures forall i, j :: 0 <= i < j < |t.storageProofs| ==> t.storageProofs[i].parentID != t.storageProofs[j].parentID
    ensures forall i, j :: 0 <= i < j < |t.siacoinInputs| ==> t.siacoinInputs[i].parentID != t.siacoinInputs[j].parentID
  {
    var ids := ProofParents(t) + RevisionParents(t);
    forall i, j | 0 <= i < j < |t.fileContractRevisions|
      ensures t.fileContractRevisions[i].parentID != t.fileContractRevisions[j].parentID
    {
      assert ids[|t.storageProofs| + i] != ids[|t.storageProofs| + j];
    }
    forall i, j | 0 <= i < j < |t.storageProofs|
      ensures t.storageProofs[i].parentID != t.storageProofs[j].parentID
    {
      assert ids[i] != ids[j];
    }
    forall i, j | 0 <= i < j < |t.siacoinInputs|
      ensures t.siacoinInputs[i].parentID != t.siacoinInputs[j].parentID
    {
      assert InputParents(t)[i] != InputParents(t)[j];
    }
  }

  lemma {:induction false} ExchangeOutputs(o: Oracle, s: State, seen: set<Txn>, n: nat, t: Txn)
    requires Fresh(s, seen, n) && s.path != [] && ValidTransaction(o, s, t)
    ensures Total(TxnExchange(s, t).outputs, OutputValue) + SpentValue(s.outputs, t.siacoinInputs)
            == Total(s.outputs, OutputValue) + ValueSum(t.siacoinOutputs)
  {
    hide Admissible, ValidStorageProofs, ValidFileContractRevisions;
    var u := Unsigned(t);
    RevisionsDistinct(t);
    assert forall i :: 0 <= i < |t.siacoinInputs| ==> InputUnlocks(s.outputs, t.siacoinInputs[i]);
    SpendTotal(s.outputs, t.siacoinInputs);
    var rest := s.outputs - InputIDs(t.siacoinInputs);
    AddItemsSplit(rest, TxnOutputs(u), t.siacoinOutputs);
    ItemsTotal(TxnOutputs(u), t.siacoinOutputs, OutputValue);
    ListOfValues(t.siacoinOutputs);
    CreatorIsNew(o, s, seen, n, t);
    ItemsKeys(TxnOutputs(u), t.siacoinOutputs);
    forall p | p in Made(t)
      ensures p !in rest
    {
      assert t.siacoinOutputs != [];
      assert !Used(s.contracts, seen, n, p);
    }
    TotalUnion(rest, Made(t), OutputValue);
  }

  // ---------------------------------------------------------------- storage proofs

  /** Paying new outputs into a bucket adds their value. */
  lemma {:induction false} PayWorth(delayed: Delayed, k: nat, extra: map<Hash, Output>)
    requires k in delayed && delayed[k].Keys !! extra.Keys
    ensures Total(delayed[k := delayed[k] + extra], BucketValue) == Total(delayed, BucketValue) + BucketValue(extra)
  {
    TotalReplace(delayed, k, delayed[k] + extra, BucketValue);
    TotalUnion(delayed[k], extra, OutputValue);
  }

  lemma {:induction false} PayIntoIsUnion(delayed: Delayed, k: nat, src: Source, outputs: seq<Output>)
    requires k in delayed
    ensures PayInto(delayed, k, src, outputs) == delayed[k := delayed[k] + AddItems(map[], src, outputs)]
    ensures BucketValue(AddItems(map[], src, outputs)) == ValueSum(outputs)
  {
    AddItemsSplit(delayed[k], src, outputs);
    ItemsTotal(src, outputs, OutputValue);
    ListOfValues(outputs);
  }

  lemma {:induction false} ProveStep(s: State, seen: set<Txn>, n: nat, id: Hash, k: nat)
    requires Fresh(s, seen, n) && id in s.contracts && k in s.delayed
    ensures Fresh(Prove(s, id, k), seen, n)
    ensures Worth(Prove(s, id, k)) == Worth(s)
  {
    var outs := s.contracts[id].validProofOutputs;
    var src := ProofOutputs(id, true);
    var extra := AddItems(map[], src, outs);
    ItemsKeys(src, outs);
    var s1 := s.(contracts := s.contracts - {id});
    CloseFresh(s, seen, n, {id});
    forall p | p in extra
      ensures Untouched(s1, seen, p) && Used(s1.contracts, seen, n, p) && p !in s.delayed[k]
    {
      UnusedIsUntouched(s, seen, n, p);
      assert !Held(s.delayed, k, p);
      SameLives(s, s1, p);
    }
    AddDelayedFresh(s1, seen, n, k, extra);
    PayIntoIsUnion(s.delayed, k, src, outs);
    PayWorth(s.delayed, k, extra);
    TotalSplit(s.contracts, id, ContractValue);
  }

  lemma {:induction false} SameLives(s: State, s': State, p: Hash)
    requires s.outputs == s'.outputs && s.delayed == s'.delayed
    ensures Live(s, p) <==> Live(s', p)
  {
  }

  /** What a transaction may do to the delayed buckets: add to one of them. */
  ghost predicate OnlyPays(delayed: Delayed, delayed': Delayed, k: nat) {
    && delayed'.Keys == delayed.Keys
    && (forall j :: j in delayed && j != k ==> delayed'[j] == delayed[j])
    && (k in delayed ==> BucketValue(delayed'[k]) >= BucketValue(delayed[k]))
  }

  lemma {:induction false} PayOnlyPays(s: State, id: Hash, k: nat, seen: set<Txn>, n: nat)
    requires Fresh(s, seen, n) && id in s.contracts && k in s.delayed
    ensures OnlyPays(s.delayed, Prove(s, id, k).delayed, k)
  {
    var outs := s.contracts[id].validProofOutputs;
    var src := ProofOutputs(id, true);
    var extra := AddItems(map[], src, outs);
    PayIntoIsUnion(s.delayed, k, src, outs);
    ItemsKeys(src, outs);
    forall p | p in extra
      ensures p !in s.delayed[k]
    {
      UnusedIsUntouched(s, seen, n, p);
      assert !Held(s.delayed, k, p);
    }
    TotalUnion(s.delayed[k], extra, OutputValue);
  }

  function ProofIDs(proofs: seq<Proof>): set<Hash> {
    set i | 0 <= i < |proofs| :: proofs[i].parentID
  }

  lemma {:induction false} ProveAllCloses(s: State, proofs: seq<Proof>, k: nat)
    ensures ProveAll(s, proofs, k).contracts == s.contracts - ProofIDs(proofs)
    ensures ProveAll(s, proofs, k).outputs == s.outputs && ProveAll(s, proofs, k).path == s.path
  {
    if proofs == [] {
      assert ProofIDs(proofs) == {};
    } else {
      var pre, id := proofs[..|proofs| - 1], proofs[|proofs| - 1].parentID;
      ProveAllCloses(s, pre, k);
      assert ProofIDs(proofs) == ProofIDs(pre) + {id};
    }
  }

  lemma {:induction false} ProveAllSteps(s: State, seen: set<Txn>, n: nat, proofs: seq<Proof>, k: nat)
    requires Fresh(s, seen, n) && k in s.delayed
    requires forall i :: 0 <= i < |proofs| ==> proofs[i].parentID in s.contracts
    requires forall i, j :: 0 <= i < j < |proofs| ==> proofs[i].parentID != proofs[j].parentID
    ensures Fresh(ProveAll(s, proofs, k), seen, n)
    ensures Worth(ProveAll(s, proofs, k)) == Worth(s)
    ensures OnlyPays(s.delayed, ProveAll(s, proofs, k).delayed, k)
  {
    if proofs != [] {
      var pre, id := proofs[..|proofs| - 1], proofs[|proofs| - 1].parentID;
      ProveAllSteps(s, seen, n, pre, k);
      ProveAllCloses(s, pre, k);
      var s1 := ProveAll(s, pre, k);
      assert id in s1.contracts by {
        assert id !in ProofIDs(pre);
      }
      ProveStep(s1, seen, n, id, k);
      PayOnlyPays(s1, id, k, seen, n);
    }
  }

  // ---------------------------------------------------------------- one transaction

  /** A valid transaction keeps ids fresh and contracts balanced, touches only
      the bucket of its block, and loses exactly its miner fees. */
  lemma {:induction false} TransactionConserves(o: Oracle, s: State, seen: set<Txn>, n: nat, t: Txn)
    requires s.path != [] && ValidTransaction(o, s, t)
    requires Fresh(s, seen, n) && Balanced(s.contracts, |s.path| - 1) && |s.path| + MATURITY_DELAY in s.delayed
    ensures var s' := TxnEffect(s, t, |s.path|);
            && Fresh(s', seen + {Unsigned(t)}, n) && Balanced(s'.contracts, |s.path| - 1)
            && Worth(s') + CurrencySum(t.minerFees) == Worth(s)
            && OnlyPays(s.delayed, s'.delayed, |s.path| + MATURITY_DELAY) && s'.path == s.path
  {
    var s1 := TxnExchange(s, t);
    ExchangeFresh(o, s, seen, n, t);
    ExchangeContracts(o, s, seen, n, t);
    ExchangeOutputs(o, s, seen, n, t);
    RevisionsDistinct(t);
    ProofsStillOpen(o, s, t);
    ProveAllSteps(s1, seen + {Unsigned(t)}, n, t.storageProofs, |s.path| + MATURITY_DELAY);
    ProveAllCloses(s1, t.storageProofs, |s.path| + MATURITY_DELAY);
  }

  lemma {:induction false} ProofsStillOpen(o: Oracle, s: State, t: Txn)
    requires s.path != [] && ValidTransaction(o, s, t)
    ensures forall i :: 0 <= i < |t.storageProofs| ==> t.storageProofs[i].parentID in TxnExchange(s, t).contracts
  {
    AddItemsSplit(s.contracts, TxnContracts(Unsigned(t)), t.fileContracts);
    forall i | 0 <= i < |t.storageProofs|
      ensures t.storageProofs[i].parentID in TxnExchange(s, t).contracts
    {
      assert ProofOk(o, s, t.storageProofs[i]);
    }
  }
}
