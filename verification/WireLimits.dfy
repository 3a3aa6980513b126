/** Consequences of the binary form: fields that the source reads straight out
    of stored bytes, and what the size rules mean for the decoder. */
module WireLimits {
  import opened Types
  import opened Numerals
  import opened Wire
  import opened WireTypes
  import opened WireRecords

  // ---------------------------------------------------------------- raw reads

  lemma {:induction false} Fourth(a: bytes, b: bytes, c: bytes, d: bytes, rest: bytes)
    requires |a| == 8 && |b| == 32 && |c| == 8 && |d| == 8
    ensures (a + (b + (c + (d + rest))))[48..56] == d
  {
  }

  /** removeFileContract: bytes 48 to 56 of a stored contract are its WindowEnd. */
  lemma {:induction false} WindowEndInRawBytes(fc: FileContract<Digest>, tail: bytes)
    ensures var raw := ContractCodec().put(fc, tail);
            |raw| >= 56 && FromLittleEndian(raw[48..56]) == fc.windowEnd
  {
    hide LittleEndian, FromLittleEndian, Via, Then, WordCodec, DigestCodec, OutputsCodec, CurrencyCodec;
    var (x0, (x1, (x2, (x3, rest)))) := ContractFields(fc);
    var w, d := WordCodec(), DigestCodec();
    var c4 := Then(CurrencyCodec(), Then(OutputsCodec(), Then(OutputsCodec(), Then(d, w))));
    var c3 := Then(w, c4);
    var c2 := Then(w, c3);
    var c1 := Then(d, c2);
    ViaPut(Then(w, c1), ContractFields, ContractOf, fc, tail);
    ThenPut(w, c1, x0, (x1, (x2, (x3, rest))), tail);
    ThenPut(d, c2, x1, (x2, (x3, rest)), tail);
    ThenPut(w, c3, x2, (x3, rest), tail);
    ThenPut(w, c4, x3, rest, tail);
    PutsAre(x0, x1);
    PutsAre(x2, x1);
    PutsAre(x3, x1);
    var t := c4.put(rest, tail);
    assert ContractCodec().put(fc, tail)
      == LittleEndian(x0, 8) + (x1 + (LittleEndian(x2, 8) + (LittleEndian(x3, 8) + t)));
    Fourth(LittleEndian(x0, 8), x1, LittleEndian(x2, 8), LittleEndian(x3, 8), t);
    WordReadsBack(fc.windowEnd);
  }

  lemma {:induction false} PutsAre(u: uint64, d: Digest)
    ensures forall tail: bytes :: WordCodec().put(u, tail) == LittleEndian(u, 8) + tail
    ensures forall tail: bytes :: DigestCodec().put(d, tail) == d + tail
    ensures |LittleEndian(u, 8)| == 8
  {
    hide LittleEndian;
  }

  lemma {:induction false} WordReadsBack(u: uint64)
    ensures FromLittleEndian(LittleEndian(u, 8)) == u
  {
    assert Pow256(8) == 0x1_0000_0000_0000_0000;
    LittleEndianRoundTrip(u, 8);
  }

  lemma {:induction false} FirstAndThird(a: bytes, b: bytes, c: bytes, rest: bytes)
    requires |a| == 32 && |b| == 8 && |c| == 8
    ensures var raw := a + (b + (c + rest)); raw[..32] == a && raw[40..48] == c
  {
  }

  /** minimumValidChildTimestamp: the parent id and the timestamp of a stored
      block, whatever is stored after the block. */
  lemma {:induction false} ParentAndTimeInRawBytes(b: Block<Digest>, tail: bytes)
    ensures var raw := BlockCodec().put(b, tail);
            |raw| >= 48 && raw[..32] == b.parentID && FromLittleEndian(raw[40..48]) == b.timestamp
  {
    hide LittleEndian, FromLittleEndian, Via, Then, WordCodec, DigestCodec, OutputsCodec, TransactionsCodec;
    var rest := (b.minerPayouts, b.transactions);
    var c3 := Then(OutputsCodec(), TransactionsCodec());
    var c2 := Then(WordCodec(), c3);
    var c1 := Then(NonceCodec(), c2);
    ViaPut(Then(DigestCodec(), c1), BlockFields, BlockOf, b, tail);
    ThenPut(DigestCodec(), c1, b.parentID, (b.nonce, (b.timestamp, rest)), tail);
    ThenPut(NonceCodec(), c2, b.nonce, (b.timestamp, rest), tail);
    ThenPut(WordCodec(), c3, b.timestamp, rest, tail);
    PutsAre(b.timestamp, b.parentID);
    var t := c3.put(rest, tail);
    assert BlockCodec().put(b, tail) == b.parentID + (b.nonce + (LittleEndian(b.timestamp, 8) + t));
    FirstAndThird(b.parentID, b.nonce, LittleEndian(b.timestamp, 8), t);
    WordReadsBack(b.timestamp);
  }

  // ---------------------------------------------------------------- what fits

  /** A list is at least as long as its elements, and each element is part of it. */
  lemma {:induction false} ListBounds<T>(size: T -> nat, xs: seq<T>, least: nat)
    requires forall i :: 0 <= i < |xs| ==> size(xs[i]) >= least
    ensures ListSize(size, xs) >= |xs| * least
    ensures forall i :: 0 <= i < |xs| ==> size(xs[i]) <= ListSize(size, xs)
  {
    if xs != [] {
      var tail := xs[1..];
      ListBounds(size, tail, least);
      assert |xs| * least == |tail| * least + least;
      forall i | 0 <= i < |xs|
        ensures size(xs[i]) <= ListSize(size, xs)
      {
        if i > 0 {
          assert xs[i] == tail[i - 1];
        }
      }
    }
  }

  lemma {:induction false} OutputsWithin<H>(os: seq<SiacoinOutput<H>>, limit: nat)
    requires SliceSize(OutputSize<H>, os) <= limit <= 2_000_000
    ensures OutputsFit(os)
  {
    hide BigEndian;
    ListBounds(OutputSize<H>, os, 40);
    forall i | 0 <= i < |os|
      ensures CurrencyFits(os[i].value)
    {
      assert OutputSize<H>(os[i]) <= ListSize(OutputSize<H>, os);
    }
  }

  lemma {:induction false} ConditionsWithin(uc: UnlockConditions)
    requires ConditionsSize(uc) <= 64_000
    ensures ConditionsFit(uc)
  {
    ListBounds(PublicKeySize, uc.publicKeys, 24);
    forall i | 0 <= i < |uc.publicKeys|
      ensures DataFits(uc.publicKeys[i].key)
    {
      assert PublicKeySize(uc.publicKeys[i]) <= ListSize(PublicKeySize, uc.publicKeys);
    }
  }

  lemma {:induction false} ContractWithin<H>(fc: FileContract<H>)
    requires ContractSize(fc) <= 64_000
    ensures ContractFits(fc)
  {
    hide BigEndian;
    OutputsWithin(fc.validProofOutputs, 64_000);
    OutputsWithin(fc.missedProofOutputs, 64_000);
  }

  lemma {:induction false} RevisionWithin<H>(r: FileContractRevision<H>)
    requires RevisionSize(r) <= 64_000
    ensures RevisionFits(r)
  {
    hide BigEndian, ConditionsFit;
    ConditionsWithin(r.unlockConditions);
    OutputsWithin(r.newValidProofOutputs, 64_000);
    OutputsWithin(r.newMissedProofOutputs, 64_000);
  }

  lemma {:induction false} SignatureWithin<H>(ts: TransactionSignature<H>)
    requires SignatureSize(ts) <= 64_000
    ensures SignatureFits(ts)
  {
    var cf := ts.coveredFields;
    WordsWithin(cf.siacoinInputs);
    WordsWithin(cf.siacoinOutputs);
    WordsWithin(cf.fileContracts);
    WordsWithin(cf.fileContractRevisions);
    WordsWithin(cf.storageProofs);
    WordsWithin(cf.minerFees);
    WordsWithin(cf.arbitraryData);
    WordsWithin(cf.transactionSignatures);
  }

  lemma {:induction false} WordsWithin(us: seq<uint64>)
    requires SliceSize(WordSize, us) <= 64_000
    ensures SliceFits(us, SIZEOF_UINT64)
  {
    ListBounds(WordSize, us, 8);
  }

  /** A transaction that the size rule admits is within the decoder's limits. */
  lemma {:induction false} AdmittedTransactionFits<H>(t: Transaction<H>)
    requires TransactionSize(t) <= 64_000
    ensures TransactionFits(t)
  {
    hide BigEndian, ConditionsFit, OutputsFit, ContractFits, RevisionFits, SignatureFits, ConditionsSize, ContractSize,
         RevisionSize, SignatureSize, ListSize;
    InputsWithin(t.siacoinInputs);
    OutputsWithin(t.siacoinOutputs, 64_000);
    ContractsWithin(t.fileContracts);
    RevisionsWithin(t.fileContractRevisions);
    ProofsWithin(t.storageProofs);
    FeesWithin(t.minerFees);
    BlobsWithin(t.arbitraryData);
    SignaturesWithin(t.transactionSignatures);
  }

  lemma {:induction false} InputsWithin<H>(xs: seq<SiacoinInput<H>>)
    requires SliceSize(InputSize<H>, xs) <= 64_000
    ensures SliceFits(xs, SIZEOF_INPUT) && forall i :: 0 <= i < |xs| ==> ConditionsFit(xs[i].unlockConditions)
  {
    hide ConditionsFit;
    ListBounds(InputSize<H>, xs, 56);
    forall i | 0 <= i < |xs| ensures ConditionsFit(xs[i].unlockConditions) {
      assert InputSize<H>(xs[i]) <= ListSize(InputSize<H>, xs);
      ConditionsWithin(xs[i].unlockConditions);
    }
  }

  lemma {:induction false} ContractsWithin<H>(xs: seq<FileContract<H>>)
    requires SliceSize(ContractSize<H>, xs) <= 64_000
    ensures SliceFits(xs, SIZEOF_CONTRACT) && forall i :: 0 <= i < |xs| ==> ContractFits(xs[i])
  {
    hide ContractFits, BigEndian;
    ListBounds(ContractSize<H>, xs, 96);
    forall i | 0 <= i < |xs| ensures ContractFits(xs[i]) {
      assert ContractSize<H>(xs[i]) <= ListSize(ContractSize<H>, xs);
      ContractWithin(xs[i]);
    }
  }

  lemma {:induction false} RevisionsWithin<H>(xs: seq<FileContractRevision<H>>)
    requires SliceSize(RevisionSize<H>, xs) <= 64_000
    ensures SliceFits(xs, SIZEOF_REVISION) && forall i :: 0 <= i < |xs| ==> RevisionFits(xs[i])
  {
    hide RevisionFits, BigEndian;
    ListBounds(RevisionSize<H>, xs, 96);
    forall i | 0 <= i < |xs| ensures RevisionFits(xs[i]) {
      assert RevisionSize<H>(xs[i]) <= ListSize(RevisionSize<H>, xs);
      RevisionWithin(xs[i]);
    }
  }

  lemma {:induction false} ProofsWithin<H>(xs: seq<StorageProof<H>>)
    requires SliceSize(ProofSize<H>, xs) <= 64_000
    ensures SliceFits(xs, SIZEOF_PROOF) && forall i :: 0 <= i < |xs| ==> SliceFits(xs[i].hashSet, SIZEOF_HASH)
  {
    ListBounds(ProofSize<H>, xs, 96);
    forall i | 0 <= i < |xs| ensures SliceFits(xs[i].hashSet, SIZEOF_HASH) {
      assert ProofSize<H>(xs[i]) <= ListSize(ProofSize<H>, xs);
      ListBounds(DigestSize<H>, xs[i].hashSet, 32);
    }
  }

  lemma {:induction false} FeesWithin(xs: seq<nat>)
    requires SliceSize(CurrencySize, xs) <= 64_000
    ensures SliceFits(xs, SIZEOF_CURRENCY) && forall i :: 0 <= i < |xs| ==> CurrencyFits(xs[i])
  {
    hide BigEndian;
    ListBounds(CurrencySize, xs, 8);
    forall i | 0 <= i < |xs| ensures CurrencyFits(xs[i]) {
      assert CurrencySize(xs[i]) <= ListSize(CurrencySize, xs);
    }
  }

  lemma {:induction false} BlobsWithin(xs: seq<bytes>)
    requires SliceSize(DataSize, xs) <= 64_000
    ensures SliceFits(xs, SIZEOF_BYTES) && forall i :: 0 <= i < |xs| ==> DataFits(xs[i])
  {
    ListBounds(DataSize, xs, 8);
    forall i | 0 <= i < |xs| ensures DataFits(xs[i]) {
      assert DataSize(xs[i]) <= ListSize(DataSize, xs);
    }
  }

  lemma {:induction false} SignaturesWithin<H>(xs: seq<TransactionSignature<H>>)
    requires SliceSize(SignatureSize<H>, xs) <= 64_000
    ensures SliceFits(xs, SIZEOF_SIGNATURE) && forall i :: 0 <= i < |xs| ==> SignatureFits(xs[i])
  {
    hide SignatureFits, CoveredFieldsSize;
    ListBounds(SignatureSize<H>, xs, 48);
    forall i | 0 <= i < |xs| ensures SignatureFits(xs[i]) {
      assert SignatureSize<H>(xs[i]) <= ListSize(SignatureSize<H>, xs);
      SignatureWithin(xs[i]);
    }
  }

  /** A block that the size rules admit is within the decoder's limits exactly
      when it has at most 26041 transactions. */
  lemma {:induction false} AdmittedBlockFits<H>(b: Block<H>)
    requires BlockSize(b) <= 2_000_000
    requires forall i :: 0 <= i < |b.transactions| ==> TransactionSize(b.transactions[i]) <= 64_000
    ensures BlockFits(b) <==> |b.transactions| <= 26_041
  {
    hide TransactionFits, TransactionSize, OutputsFit, OutputSize;
    OutputsWithin(b.minerPayouts, 2_000_000);
    forall i | 0 <= i < |b.transactions|
      ensures TransactionFits(b.transactions[i])
    {
      AdmittedTransactionFits(b.transactions[i]);
    }
  }

  /** A block with too many transactions is refused. */
  lemma {:induction false} CrowdedIsRefused(b: Block<Digest>, tail: bytes, n: nat)
    requires OutputsFit(b.minerPayouts) && n + 48 + SliceSize(OutputSize<Digest>, b.minerPayouts) <= MAX_OBJECT_SIZE - 8
    requires 26_041 < |b.transactions| < 0x1_0000_0000_0000_0000
    ensures Refuses(BlockCodec(), b, tail, n)
  {
    hide Good, Returns, Refuses, DigestCodec, NonceCodec, WordCodec, OutputsCodec, TransactionCodec, SliceCodec,
         OutputsFit, OutputSize, ListSize, Via, Then;
    var k := SliceSize(OutputSize<Digest>, b.minerPayouts);
    DigestGood(b.parentID);
    NonceGood(b.nonce);
    WordGood(b.timestamp);
    OutputsGood(b.minerPayouts);
    GoodReturns(DigestCodec(), b.parentID, 32);
    GoodReturns(NonceCodec(), b.nonce, 8);
    GoodReturns(WordCodec(), b.timestamp, 8);
    GoodReturns(OutputsCodec(), b.minerPayouts, k);
    LongSliceRefused(TransactionCodec(), SIZEOF_TRANSACTION, b.transactions, tail, n + 48 + k);
    var c3, p3 := ThenRefuses(OutputsCodec(), b.minerPayouts, k, TransactionsCodec(), b.transactions, tail, n + 48);
    var c2, p2 := ThenRefuses(WordCodec(), b.timestamp, 8, c3, p3, tail, n + 40);
    var c1, p1 := ThenRefuses(NonceCodec(), b.nonce, 8, c2, p2, tail, n + 32);
    var c, _ := ThenRefuses(DigestCodec(), b.parentID, 32, c1, p1, tail, n);
    ViaRefuses(c, BlockFields, BlockOf, b, tail, n);
  }

  /** A block that the size rules admit reads back from its encoding exactly
      when it has at most 26041 transactions. */
  lemma {:induction false} AdmittedBlockReadsBack(b: Block<Digest>, suffix: bytes)
    requires BlockSize(b) <= 2_000_000
    requires forall i :: 0 <= i < |b.transactions| ==> TransactionSize(b.transactions[i]) <= 64_000
    ensures BlockCodec().parse(Stream(BlockCodec().put(b, suffix), 0)) == Some((b, Stream(suffix, BlockSize(b))))
       <==> |b.transactions| <= 26_041
  {
    hide BlockFits, TransactionSize, OutputSize, BlockCodec, OutputsFit, ListSize, TransactionFits;
    AdmittedBlockFits(b);
    if |b.transactions| <= 26_041 {
      BlockRoundTrips(b, suffix);
    } else {
      OutputsWithin(b.minerPayouts, 2_000_000);
      TransactionCount(b);
      CrowdedIsRefused(b, suffix, 0);
    }
  }

  lemma {:induction false} TransactionCount(b: Block<Digest>)
    requires BlockSize(b) <= 2_000_000
    ensures |b.transactions| <= 2_000_000
  {
    ListBounds(TransactionSize<Digest>, b.transactions, 64);
  }

  lemma {:induction false} ListOfEqual<T>(size: T -> nat, xs: seq<T>, k: nat)
    requires forall i :: 0 <= i < |xs| ==> size(xs[i]) == k
    ensures ListSize(size, xs) == |xs| * k
  {
    if xs != [] {
      ListOfEqual(size, xs[1..], k);
      assert |xs| * k == (|xs| - 1) * k + k;
    }
  }
}
