/** The filter of a block (gcs/blockcf/blockcf.go): it never makes a light
    client miss an address of the block. */
module BlockFilter {
  import opened Types
  import opened Wire
  import opened Gcs
  import opened GolombCode
  import opened BitStreams
  import opened Sorting

  const P: uint8 := 20

  /** How unlock conditions hash to an address. */
  type Addresser = UnlockConditions -> Digest

  // ---------------------------------------------------------------- the entries

  function OutputHashes(outs: seq<SiacoinOutput<Digest>>): seq<bytes> {
    if outs == [] then [] else OutputHashes(outs[..|outs| - 1]) + [outs[|outs| - 1].unlockHash]
  }

  function InputHashes(address: Addresser, inputs: seq<SiacoinInput<Digest>>): seq<bytes> {
    if inputs == [] then []
    else InputHashes(address, inputs[..|inputs| - 1]) + [address(inputs[|inputs| - 1].unlockConditions)]
  }

  function ContractHashes(fcs: seq<FileContract<Digest>>): seq<bytes> {
    if fcs == [] then [] else
      var fc := fcs[|fcs| - 1];
      ContractHashes(fcs[..|fcs| - 1]) + (OutputHashes(fc.validProofOutputs) + OutputHashes(fc.missedProofOutputs))
  }

  function RevisionHashes(rs: seq<FileContractRevision<Digest>>): seq<bytes> {
    if rs == [] then [] else
      var r := rs[|rs| - 1];
      RevisionHashes(rs[..|rs| - 1]) + (OutputHashes(r.newValidProofOutputs) + OutputHashes(r.newMissedProofOutputs))
  }

  function TransactionHashes(address: Addresser, ts: seq<Transaction<Digest>>): seq<bytes> {
    if ts == [] then [] else
      var t := ts[|ts| - 1];
      TransactionHashes(address, ts[..|ts| - 1])
      + (OutputHashes(t.siacoinOutputs) + InputHashes(address, t.siacoinInputs) + ContractHashes(t.fileContracts)
         + RevisionHashes(t.fileContractRevisions))
  }

  function RawHashes(hs: seq<Digest>): seq<bytes> {
    if hs == [] then [] else RawHashes(hs[..|hs| - 1]) + [hs[|hs| - 1]]
  }

  function Entries(address: Addresser, b: Block<Digest>, extra: seq<Digest>): seq<bytes> {
    TransactionHashes(address, b.transactions) + OutputHashes(b.minerPayouts) + RawHashes(extra)
  }

  // ---------------------------------------------------------------- the loops

  method AddOutputs(data: seq<bytes>, outs: seq<SiacoinOutput<Digest>>) returns (more: seq<bytes>)
    ensures more == data + OutputHashes(outs)
  {
    more := data;
    for i := 0 to |outs|
      invariant more == data + OutputHashes(outs[..i])
    {
      assert outs[..i + 1][..i] == outs[..i];
      more := more + [outs[i].unlockHash];
    }
    assert outs[..|outs|] == outs;
  }

  method AddInputs(address: Addresser, data: seq<bytes>, inputs: seq<SiacoinInput<Digest>>) returns (more: seq<bytes>)
    ensures more == data + InputHashes(address, inputs)
  {
    more := data;
    for i := 0 to |inputs|
      invariant more == data + InputHashes(address, inputs[..i])
    {
      assert inputs[..i + 1][..i] == inputs[..i];
      more := more + [address(inputs[i].unlockConditions)];
    }
    assert inputs[..|inputs|] == inputs;
  }

  lemma {:induction false} Regroup(a: seq<bytes>, b: seq<bytes>, c: seq<bytes>, d: seq<bytes>)
    ensures a + b + c + d == a + (b + (c + d))
  {
  }

  lemma {:induction false} ContractStep(fcs: seq<FileContract<Digest>>, i: nat)
    requires i < |fcs|
    ensures ContractHashes(fcs[..i + 1]) == ContractHashes(fcs[..i])
            + (OutputHashes(fcs[i].validProofOutputs) + OutputHashes(fcs[i].missedProofOutputs))
  {
    hide OutputHashes;
    assert fcs[..i + 1][..i] == fcs[..i];
  }

  method AddContracts(data: seq<bytes>, fcs: seq<FileContract<Digest>>) returns (more: seq<bytes>)
    ensures more == data + ContractHashes(fcs)
  {
    hide OutputHashes, ContractHashes;
    more := data;
    assert ContractHashes(fcs[..0]) == [] by { NoContracts(fcs[..0]); }
    for i := 0 to |fcs|
      invariant more == data + ContractHashes(fcs[..i])
    {
      ContractStep(fcs, i);
      Regroup(data, ContractHashes(fcs[..i]), OutputHashes(fcs[i].validProofOutputs),
        OutputHashes(fcs[i].missedProofOutputs));
      more := AddOutputs(more, fcs[i].validProofOutputs);
      more := AddOutputs(more, fcs[i].missedProofOutputs);
    }
    assert fcs[..|fcs|] == fcs;
  }

  lemma {:induction false} NoContracts(fcs: seq<FileContract<Digest>>)
    requires fcs == []
    ensures ContractHashes(fcs) == []
  {
  }

  lemma {:induction false} RevisionStep(rs: seq<FileContractRevision<Digest>>, i: nat)
    requires i < |rs|
    ensures RevisionHashes(rs[..i + 1]) == RevisionHashes(rs[..i])
            + (OutputHashes(rs[i].newValidProofOutputs) + OutputHashes(rs[i].newMissedProofOutputs))
  {
    hide OutputHashes;
    assert rs[..i + 1][..i] == rs[..i];
  }

  method AddRevisions(data: seq<bytes>, rs: seq<FileContractRevision<Digest>>) returns (more: seq<bytes>)
    ensures more == data + RevisionHashes(rs)
  {
    hide OutputHashes, RevisionHashes;
    more := data;
    assert RevisionHashes(rs[..0]) == [] by { NoRevisions(rs[..0]); }
    for i := 0 to |rs|
      invariant more == data + RevisionHashes(rs[..i])
    {
      RevisionStep(rs, i);
      Regroup(data, RevisionHashes(rs[..i]), OutputHashes(rs[i].newValidProofOutputs),
        OutputHashes(rs[i].newMissedProofOutputs));
      more := AddOutputs(more, rs[i].newValidProofOutputs);
      more := AddOutputs(more, rs[i].newMissedProofOutputs);
    }
    assert rs[..|rs|] == rs;
  }

  lemma {:induction false} NoRevisions(rs: seq<FileContractRevision<Digest>>)
    requires rs == []
    ensures RevisionHashes(rs) == []
  {
  }

  method AddTransaction(address: Addresser, data: seq<bytes>, t: Transaction<Digest>) returns (more: seq<bytes>)
    ensures more == data + (OutputHashes(t.siacoinOutputs) + InputHashes(address, t.siacoinInputs)
            + ContractHashes(t.fileContracts)
                            + RevisionHashes(t.fileContractRevisions))
  {
    hide OutputHashes, InputHashes, ContractHashes, RevisionHashes;
    more := AddOutputs(data, t.siacoinOutputs);
    more := AddInputs(address, more, t.siacoinInputs);
    more := AddContracts(more, t.fileContracts);
    more := AddRevisions(more, t.fileContractRevisions);
  }

  /** Key: the first bytes of the block id. */
  function Key(id: Digest): bytes { id[..16] }

  /** BuildFilter. It fails exactly when the block mentions no address or more
      than a filter can count. */
  method BuildFilter(address: Addresser, hash: Hasher, id: Digest, b: Block<Digest>,
                     unlockHashes: seq<Digest>) returns (r: Result)
    ensures r.Err? <==> |Entries(address, b, unlockHashes)| == 0 || |Entries(address, b, unlockHashes)| > MAX_INT32
    ensures r.Ok? ==> r.filter.p == P && Built(r.filter, hash, Key(id), Entries(address, b, unlockHashes))
  {
    hide OutputHashes, InputHashes, ContractHashes, RevisionHashes, Built;
    var data: seq<bytes> := [];
    for i := 0 to |b.transactions|
      invariant data == TransactionHashes(address, b.transactions[..i])
    {
      assert b.transactions[..i + 1][..i] == b.transactions[..i];
      data := AddTransaction(address, data, b.transactions[i]);
    }
    assert b.transactions[..|b.transactions|] == b.transactions;
    data := AddOutputs(data, b.minerPayouts);
    ghost var base := data;
    for i := 0 to |unlockHashes|
      invariant data == base + RawHashes(unlockHashes[..i])
    {
      assert unlockHashes[..i + 1][..i] == unlockHashes[..i];
      data := data + [unlockHashes[i]];
    }
    assert unlockHashes[..|unlockHashes|] == unlockHashes;
    r := NewFilter(P, hash, Key(id), data);
  }

  // ---------------------------------------------------------------- nothing is missed

  predicate Pays(outs: seq<SiacoinOutput<Digest>>, h: bytes) {
    exists i :: 0 <= i < |outs| && outs[i].unlockHash == h
  }

  predicate SpendsFrom(address: Addresser, inputs: seq<SiacoinInput<Digest>>, h: bytes) {
    exists i :: 0 <= i < |inputs| && address(inputs[i].unlockConditions) == h
  }

  predicate ContractPays(fc: FileContract<Digest>, h: bytes) {
    Pays(fc.validProofOutputs, h) || Pays(fc.missedProofOutputs, h)
  }

  predicate ContractsPay(fcs: seq<FileContract<Digest>>, h: bytes) {
    exists i :: 0 <= i < |fcs| && ContractPays(fcs[i], h)
  }

  predicate RevisionPays(r: FileContractRevision<Digest>, h: bytes) {
    Pays(r.newValidProofOutputs, h) || Pays(r.newMissedProofOutputs, h)
  }

  predicate RevisionsPay(rs: seq<FileContractRevision<Digest>>, h: bytes) {
    exists i :: 0 <= i < |rs| && RevisionPays(rs[i], h)
  }

  /** The transaction pays to the address, spends from it, or a contract of it may pay to it. */
  predicate TouchedBy(address: Addresser, t: Transaction<Digest>, h: bytes) {
    || Pays(t.siacoinOutputs, h) || SpendsFrom(address, t.siacoinInputs, h)
    || ContractsPay(t.fileContracts, h) || RevisionsPay(t.fileContractRevisions, h)
  }

  predicate SomeTouches(address: Addresser, ts: seq<Transaction<Digest>>, h: bytes) {
    exists i :: 0 <= i < |ts| && TouchedBy(address, ts[i], h)
  }

  predicate Mentions(address: Addresser, b: Block<Digest>, extra: seq<Digest>, h: bytes) {
    SomeTouches(address, b.transactions, h) || Pays(b.minerPayouts, h) || h in extra
  }

  lemma {:induction false} OutputsAre(outs: seq<SiacoinOutput<Digest>>, h: bytes)
    ensures h in OutputHashes(outs) <==> Pays(outs, h)
  {
    if outs != [] {
      var pre := outs[..|outs| - 1];
      OutputsAre(pre, h);
      assert outs == pre + [outs[|outs| - 1]];
    }
  }

  lemma {:induction false} InputsAre(address: Addresser, inputs: seq<SiacoinInput<Digest>>, h: bytes)
    ensures h in InputHashes(address, inputs) <==> SpendsFrom(address, inputs, h)
  {
    if inputs != [] {
      var pre := inputs[..|inputs| - 1];
      InputsAre(address, pre, h);
      assert inputs == pre + [inputs[|inputs| - 1]];
    }
  }

  lemma {:induction false} InBoth(a: seq<bytes>, b: seq<bytes>, h: bytes)
    ensures h in a + b <==> h in a || h in b
  {
  }

  lemma {:induction false} LastContract(fcs: seq<FileContract<Digest>>, h: bytes)
    requires fcs != []
    ensures ContractsPay(fcs, h) <==> ContractsPay(fcs[..|fcs| - 1], h) || ContractPays(fcs[|fcs| - 1], h)
  {
    hide ContractPays;
    var n := |fcs| - 1;
    var pre := fcs[..n];
    if i :| 0 <= i <= n && ContractPays(fcs[i], h) {
      assert i < n ==> pre[i] == fcs[i];
    }
    if i :| 0 <= i < n && ContractPays(pre[i], h) {
      assert fcs[i] == pre[i];
    }
  }

  lemma {:induction false} ContractsAre(fcs: seq<FileContract<Digest>>, h: bytes)
    ensures h in ContractHashes(fcs) <==> ContractsPay(fcs, h)
  {
    if fcs != [] {
      hide OutputHashes, ContractHashes, Pays, ContractsPay;
      var n := |fcs| - 1;
      var valid, missed := OutputHashes(fcs[n].validProofOutputs), OutputHashes(fcs[n].missedProofOutputs);
      assert fcs[..n + 1] == fcs;
      ContractStep(fcs, n);
      ContractsAre(fcs[..n], h);
      LastContract(fcs, h);
      OutputsAre(fcs[n].validProofOutputs, h);
      OutputsAre(fcs[n].missedProofOutputs, h);
      InBoth(valid, missed, h);
      InBoth(ContractHashes(fcs[..n]), valid + missed, h);
    }
  }

  lemma {:induction false} LastRevision(rs: seq<FileContractRevision<Digest>>, h: bytes)
    requires rs != []
    ensures RevisionsPay(rs, h) <==> RevisionsPay(rs[..|rs| - 1], h) || RevisionPays(rs[|rs| - 1], h)
  {
    hide RevisionPays;
    var n := |rs| - 1;
    var pre := rs[..n];
    if i :| 0 <= i <= n && RevisionPays(rs[i], h) {
      assert i < n ==> pre[i] == rs[i];
    }
    if i :| 0 <= i < n && RevisionPays(pre[i], h) {
      assert rs[i] == pre[i];
    }
  }

  lemma {:induction false} RevisionsAre(rs: seq<FileContractRevision<Digest>>, h: bytes)
    ensures h in RevisionHashes(rs) <==> RevisionsPay(rs, h)
  {
    if rs != [] {
      hide OutputHashes, RevisionHashes, Pays, RevisionsPay;
      var n := |rs| - 1;
      var valid, missed := OutputHashes(rs[n].newValidProofOutputs), OutputHashes(rs[n].newMissedProofOutputs);
      assert rs[..n + 1] == rs;
      RevisionStep(rs, n);
      RevisionsAre(rs[..n], h);
      LastRevision(rs, h);
      OutputsAre(rs[n].newValidProofOutputs, h);
      OutputsAre(rs[n].newMissedProofOutputs, h);
      InBoth(valid, missed, h);
      InBoth(RevisionHashes(rs[..n]), valid + missed, h);
    }
  }

  lemma {:induction false} LastTransaction(address: Addresser, ts: seq<Transaction<Digest>>, h: bytes)
    requires ts != []
    ensures SomeTouches(address, ts, h)
       <==> SomeTouches(address, ts[..|ts| - 1], h) || TouchedBy(address, ts[|ts| - 1], h)
  {
    hide TouchedBy;
    var n := |ts| - 1;
    var pre := ts[..n];
    if i :| 0 <= i <= n && TouchedBy(address, ts[i], h) {
      assert i < n ==> pre[i] == ts[i];
    }
    if i :| 0 <= i < n && TouchedBy(address, pre[i], h) {
      assert ts[i] == pre[i];
    }
  }

  lemma {:induction false} TransactionsAre(address: Addresser, ts: seq<Transaction<Digest>>, h: bytes)
    ensures h in TransactionHashes(address, ts) <==> SomeTouches(address, ts, h)
  {
    if ts != [] {
      hide OutputHashes, InputHashes, ContractHashes, RevisionHashes, Pays, SpendsFrom, ContractsPay, RevisionsPay,
           SomeTouches;
      var t := ts[|ts| - 1];
      TransactionsAre(address, ts[..|ts| - 1], h);
      LastTransaction(address, ts, h);
      OutputsAre(t.siacoinOutputs, h);
      InputsAre(address, t.siacoinInputs, h);
      ContractsAre(t.fileContracts, h);
      RevisionsAre(t.fileContractRevisions, h);
    }
  }

  lemma {:induction false} RawAre(hs: seq<Digest>, h: bytes)
    ensures h in RawHashes(hs) <==> h in hs
  {
    if hs != [] {
      var pre := hs[..|hs| - 1];
      RawAre(pre, h);
      assert hs == pre + [hs[|hs| - 1]];
    }
  }

  /** The entries of a filter are the addresses that its block mentions, and no others. */
  lemma {:induction false} EntriesAre(address: Addresser, b: Block<Digest>, extra: seq<Digest>, h: bytes)
    ensures h in Entries(address, b, extra) <==> Mentions(address, b, extra, h)
  {
    hide OutputHashes, TransactionHashes, RawHashes, SomeTouches, Pays;
    TransactionsAre(address, b.transactions, h);
    OutputsAre(b.minerPayouts, h);
    RawAre(extra, h);
  }

  /** A query that includes an address of the block always matches its filter. */
  lemma {:induction false} NeverMissed(address: Addresser, hash: Hasher, id: Digest, b: Block<Digest>,
                                       extra: seq<Digest>, f: Filter, h: bytes, queries: seq<bytes>)
    requires Built(f, hash, Key(id), Entries(address, b, extra)) && Mentions(address, b, extra, h) && h in queries
    ensures Usable(f) && ZipsAny(f, hash, Key(id), queries)
  {
    hide Built, ZipsAny, Entries, Mentions;
    BuiltIsUsable(f, hash, Key(id), Entries(address, b, extra));
    EntriesAre(address, b, extra, h);
    MembersAreFound(f, hash, Key(id), Entries(address, b, extra), queries, h);
  }

  /** The block mentions an address with this hash. */
  ghost predicate Hit(address: Addresser, hash: Hasher, id: Digest, b: Block<Digest>, extra: seq<Digest>, m: nat,
                      v: nat)
    requires m > 0
  {
    exists h :: Mentions(address, b, extra, h) && hash(Key(id), h) % m == v
  }

  /** And a query that matches has a reason: the hash of an entry of it is zero,
      or is that of an address of the block. */
  lemma {:induction false} MatchHasReason(address: Addresser, hash: Hasher, id: Digest, b: Block<Digest>,
                                          extra: seq<Digest>, f: Filter, queries: seq<bytes>)
    requires Built(f, hash, Key(id), Entries(address, b, extra)) && queries != []
    ensures Usable(f) && f.modulusNP == f.n * Pow2(f.p)
    ensures ZipsAny(f, hash, Key(id), queries)
       <==> exists i :: 0 <= i < |queries| &&
              var m := f.modulusNP; var v := hash(Key(id), queries[i]) % m;
              v == 0 || Hit(address, hash, id, b, extra, m, v)
  {
    hide ZipsAny, Entries, Mentions, Stored, Hit, Sort, Pow2, AllBits, CodeAll, Differences, Ascending, Put32;
    var data := Entries(address, b, extra);
    MatchAnyIsExact(f, hash, Key(id), data, queries);
    forall v: nat
      ensures Stored(hash, Key(id), data, f.modulusNP, v) <==> Hit(address, hash, id, b, extra, f.modulusNP, v)
    {
      StoredIsHit(address, hash, id, b, extra, f.modulusNP, v);
    }
  }

  lemma {:induction false} StoredIsHit(address: Addresser, hash: Hasher, id: Digest, b: Block<Digest>,
                                       extra: seq<Digest>, m: nat, v: nat)
    requires m > 0
    ensures Stored(hash, Key(id), Entries(address, b, extra), m, v) <==> Hit(address, hash, id, b, extra, m, v)
  {
    hide Entries, Mentions, Key;
    var data := Entries(address, b, extra);
    if i :| 0 <= i < |data| && hash(Key(id), data[i]) % m == v {
      EntriesAre(address, b, extra, data[i]);
    }
    if h :| Mentions(address, b, extra, h) && hash(Key(id), h) % m == v {
      EntriesAre(address, b, extra, h);
      var i :| 0 <= i < |data| && data[i] == h;
    }
  }
}
