/** The bytes of the consensus records, field by field in the order of MarshalSia
    (types/encoding.go), without reference to codecs. A round trip cannot see
    the order of the fields or of the digits; this does. */
module WireBytes {
  import opened Types
  import opened Numerals
  import opened Wire
  import opened WireTypes
  import opened WireRecords
  import opened WireIds

  /** Eight bytes, least significant first. */
  function Word(u: nat): bytes { LittleEndian(u, 8) }

  function Prefixed(b: bytes): bytes { Word(|b|) + b }

  /** The minimal bytes of a number, most significant first, with their length. */
  function CurrencyBytes(c: nat): bytes { Prefixed(BigEndian(c)) }

  function ListBytes<T>(f: T -> bytes, xs: seq<T>): bytes {
    if xs == [] then [] else f(xs[0]) + ListBytes(f, xs[1..])
  }

  function SliceBytes<T>(f: T -> bytes, xs: seq<T>): bytes { Word(|xs|) + ListBytes(f, xs) }

  function DigestBytes(d: Digest): bytes { d }

  function OutputBytes(o: SiacoinOutput<Digest>): bytes { CurrencyBytes(o.value) + o.unlockHash }

  function OutputsBytes(os: Outputs): bytes { SliceBytes(OutputBytes, os) }

  function PublicKeyBytes(pk: SiaPublicKey): bytes { pk.algorithm + Prefixed(pk.key) }

  function ConditionsBytes(uc: UnlockConditions): bytes {
    Word(uc.timelock) + (SliceBytes(PublicKeyBytes, uc.publicKeys) + Word(uc.signaturesRequired))
  }

  function InputBytes(i: SiacoinInput<Digest>): bytes { i.parentID + ConditionsBytes(i.unlockConditions) }

  function ContractBytes(fc: FileContract<Digest>): bytes {
    Word(fc.fileSize) + (fc.fileMerkleRoot + (Word(fc.windowStart) + (Word(fc.windowEnd) + (CurrencyBytes(fc.payout)
    + (OutputsBytes(fc.validProofOutputs) + (OutputsBytes(fc.missedProofOutputs) + (fc.unlockHash
    + Word(fc.revisionNumber))))))))
  }

  function RevisionBytes(r: FileContractRevision<Digest>): bytes {
    r.parentID + (ConditionsBytes(r.unlockConditions) + (Word(r.newRevisionNumber) + (Word(r.newFileSize)
    + (r.newFileMerkleRoot + (Word(r.newWindowStart) + (Word(r.newWindowEnd)
    + (OutputsBytes(r.newValidProofOutputs) + (OutputsBytes(r.newMissedProofOutputs) + r.newUnlockHash))))))))
  }

  function ProofBytes(p: StorageProof<Digest>): bytes {
    p.parentID + (p.segment + SliceBytes(DigestBytes, p.hashSet))
  }

  function WordsBytes(us: Words): bytes { SliceBytes((u: uint64) => Word(u), us) }

  function CoveredBytes(cf: CoveredFields): bytes {
    [if cf.wholeTransaction then 1 else 0] + (WordsBytes(cf.siacoinInputs) + (WordsBytes(cf.siacoinOutputs)
    + (WordsBytes(cf.fileContracts) + (WordsBytes(cf.fileContractRevisions) + (WordsBytes(cf.storageProofs)
    + (WordsBytes(cf.minerFees) + (WordsBytes(cf.arbitraryData) + WordsBytes(cf.transactionSignatures))))))))
  }

  function SignatureBytes(ts: TransactionSignature<Digest>): bytes {
    ts.parentID + (Word(ts.publicKeyIndex) + (Word(ts.timelock) + (CoveredBytes(ts.coveredFields)
    + Prefixed(ts.signature))))
  }

  /** marshalSiaNoSignatures. */
  function UnsignedBytes(t: Transaction<Digest>): bytes {
    SliceBytes(InputBytes, t.siacoinInputs) + (OutputsBytes(t.siacoinOutputs)
    + (SliceBytes(ContractBytes, t.fileContracts) + (SliceBytes(RevisionBytes, t.fileContractRevisions)
    + (SliceBytes(ProofBytes, t.storageProofs) + (SliceBytes(CurrencyBytes, t.minerFees)
    + SliceBytes(Prefixed, t.arbitraryData))))))
  }

  function TransactionBytes(t: Transaction<Digest>): bytes {
    UnsignedBytes(t) + SliceBytes(SignatureBytes, t.transactionSignatures)
  }

  function BlockBytes(b: Block<Digest>): bytes {
    b.parentID + (b.nonce + (Word(b.timestamp) + (OutputsBytes(b.minerPayouts)
    + SliceBytes(TransactionBytes, b.transactions))))
  }

  // ---------------------------------------------------------------- digits

  /** Digit i of a word is worth 256 to the i. */
  lemma {:induction false} WordDigit(u: nat, n: nat, i: nat)
    requires i < n
    ensures LittleEndian(u, n)[i] == u / Pow256(i) % 256
  {
    if i > 0 {
      WordDigit(u / 256, n - 1, i - 1);
      NestedFloors(u, 256, Pow256(i - 1));
    }
  }

  /** Counted from the last, digit i of a currency is worth 256 to the i, and
      the first is not zero. */
  lemma {:induction false} CurrencyDigit(c: nat, i: nat)
    requires i < |BigEndian(c)|
    ensures BigEndian(c)[|BigEndian(c)| - 1 - i] == c / Pow256(i) % 256 && BigEndian(c)[0] != 0
  {
    if c >= 256 {
      CurrencyDigit(c / 256, if i > 0 then i - 1 else 0);
    } else {
      assert BigEndian(c / 256) == [];
    }
    if i > 0 {
      NestedFloors(c, 256, Pow256(i - 1));
    }
  }

  // ---------------------------------------------------------------- codecs write these bytes

  ghost predicate Writes<T>(c: Codec<T>, x: T, b: bytes) {
    forall tail: bytes :: c.put(x, tail) == b + tail
  }

  lemma {:induction false} ThenWrites<A, B>(a: Codec<A>, x: A, bx: bytes, b: Codec<B>, y: B, by_: bytes)
      returns (c: Codec<(A, B)>, p: (A, B), bs: bytes)
    requires Writes(a, x, bx) && Writes(b, y, by_)
    ensures c == Then(a, b) && p == (x, y) && bs == bx + by_ && Writes(c, p, bs)
  {
    c, p, bs := Then(a, b), (x, y), bx + by_;
    forall tail: bytes
      ensures c.put(p, tail) == bs + tail
    {
      assert a.put(x, b.put(y, tail)) == bx + b.put(y, tail) == bx + (by_ + tail);
    }
  }

  lemma {:induction false} ViaWrites<A, R>(c: Codec<A>, to: R -> A, from: A -> R, r: R, b: bytes)
    requires Writes(c, to(r), b)
    ensures Writes(Via(c, to, from), r, b)
  {
    forall tail: bytes
      ensures Via(c, to, from).put(r, tail) == b + tail
    {
      assert c.put(to(r), tail) == b + tail;
    }
  }

  lemma {:induction false} ListWrites<T>(c: Codec<T>, f: T -> bytes, xs: seq<T>, tail: bytes)
    requires forall i :: 0 <= i < |xs| ==> Writes(c, xs[i], f(xs[i]))
    ensures PutList(c, xs, tail) == ListBytes(f, xs) + tail
  {
    if xs != [] {
      ListWrites(c, f, xs[1..], tail);
      assert Writes(c, xs[0], f(xs[0]));
      assert c.put(xs[0], PutList(c, xs[1..], tail)) == f(xs[0]) + PutList(c, xs[1..], tail);
    }
  }

  lemma {:induction false} SliceWrites<T>(c: Codec<T>, elemSize: nat, f: T -> bytes, xs: seq<T>)
    requires forall i :: 0 <= i < |xs| ==> Writes(c, xs[i], f(xs[i]))
    ensures Writes(SliceCodec(c, elemSize), xs, SliceBytes(f, xs))
  {
    forall tail: bytes
      ensures SliceCodec(c, elemSize).put(xs, tail) == SliceBytes(f, xs) + tail
    {
      ListWrites(c, f, xs, tail);
    }
  }

  lemma {:induction false} WordWrites(u: uint64)
    ensures Writes(WordCodec(), u, Word(u))
  {
  }

  lemma {:induction false} DigestWrites(d: Digest)
    ensures Writes(DigestCodec(), d, d)
  {
  }

  lemma {:induction false} DataWrites(b: bytes)
    ensures Writes(DataCodec(), b, Prefixed(b))
  {
    hide LittleEndian;
    forall tail: bytes
      ensures DataCodec().put(b, tail) == Prefixed(b) + tail
    {
    }
  }

  lemma {:induction false} CurrencyWrites(c: nat)
    ensures Writes(CurrencyCodec(), c, CurrencyBytes(c))
  {
    hide LittleEndian, BigEndian;
    forall tail: bytes
      ensures CurrencyCodec().put(c, tail) == CurrencyBytes(c) + tail
    {
    }
  }

  lemma {:induction false} OutputWrites(o: SiacoinOutput<Digest>)
    ensures Writes(OutputCodec(), o, OutputBytes(o))
  {
    hide Writes, CurrencyCodec, DigestCodec, CurrencyBytes;
    CurrencyWrites(o.value);
    DigestWrites(o.unlockHash);
    var c, _, b := ThenWrites(CurrencyCodec(), o.value, CurrencyBytes(o.value),
                              DigestCodec(), o.unlockHash, o.unlockHash);
    ViaWrites(c, OutputFields, OutputOf, o, b);
  }

  lemma {:induction false} OutputsWrite(os: Outputs)
    ensures Writes(OutputsCodec(), os, OutputsBytes(os))
  {
    hide Writes, OutputCodec, OutputBytes, SliceCodec, SliceBytes;
    forall i | 0 <= i < |os|
      ensures Writes(OutputCodec(), os[i], OutputBytes(os[i]))
    {
      OutputWrites(os[i]);
    }
    SliceWrites(OutputCodec(), SIZEOF_OUTPUT, OutputBytes, os);
  }

  lemma {:induction false} PublicKeyWrites(pk: SiaPublicKey)
    ensures Writes(PublicKeyCodec(), pk, PublicKeyBytes(pk))
  {
    hide DataCodec, Prefixed;
    DataWrites(pk.key);
    assert Writes(SpecifierCodec(), pk.algorithm, pk.algorithm);
    var c, _, b := ThenWrites(SpecifierCodec(), pk.algorithm, pk.algorithm, DataCodec(), pk.key, Prefixed(pk.key));
    ViaWrites(c, PublicKeyFields, PublicKeyOf, pk, b);
  }

  lemma {:induction false} ConditionsWrite(uc: UnlockConditions)
    ensures Writes(ConditionsCodec(), uc, ConditionsBytes(uc))
  {
    hide Writes, WordCodec, PublicKeyCodec, PublicKeyBytes, SliceCodec, SliceBytes, Word;
    forall i | 0 <= i < |uc.publicKeys|
      ensures Writes(PublicKeyCodec(), uc.publicKeys[i], PublicKeyBytes(uc.publicKeys[i]))
    {
      PublicKeyWrites(uc.publicKeys[i]);
    }
    SliceWrites(PublicKeyCodec(), SIZEOF_PUBLIC_KEY, PublicKeyBytes, uc.publicKeys);
    WordWrites(uc.timelock);
    WordWrites(uc.signaturesRequired);
    var c1, p1, b1 := ThenWrites(PublicKeysCodec(), uc.publicKeys, SliceBytes(PublicKeyBytes, uc.publicKeys),
                                 WordCodec(), uc.signaturesRequired, Word(uc.signaturesRequired));
    var c, _, b := ThenWrites(WordCodec(), uc.timelock, Word(uc.timelock), c1, p1, b1);
    ViaWrites(c, ConditionsFields, ConditionsOf, uc, b);
  }

  lemma {:induction false} InputWrites(i: SiacoinInput<Digest>)
    ensures Writes(InputCodec(), i, InputBytes(i))
  {
    hide Writes, DigestCodec, ConditionsCodec, ConditionsBytes;
    DigestWrites(i.parentID);
    ConditionsWrite(i.unlockConditions);
    var c, _, b := ThenWrites(DigestCodec(), i.parentID, i.parentID, ConditionsCodec(), i.unlockConditions,
      ConditionsBytes(i.unlockConditions));
    ViaWrites(c, InputFields, InputOf, i, b);
  }

  lemma {:induction false} ContractWrites(fc: FileContract<Digest>)
    ensures Writes(ContractCodec(), fc, ContractBytes(fc))
  {
    hide Writes, WordCodec, DigestCodec, CurrencyCodec, OutputsCodec, Word, CurrencyBytes, OutputsBytes;
    var w, d, os := WordCodec(), DigestCodec(), OutputsCodec();
    var valid, missed := fc.validProofOutputs, fc.missedProofOutputs;
    WordWrites(fc.fileSize);
    WordWrites(fc.windowStart);
    WordWrites(fc.windowEnd);
    WordWrites(fc.revisionNumber);
    DigestWrites(fc.fileMerkleRoot);
    DigestWrites(fc.unlockHash);
    CurrencyWrites(fc.payout);
    OutputsWrite(valid);
    OutputsWrite(missed);
    var c7, p7, b7 := ThenWrites(d, fc.unlockHash, fc.unlockHash, w, fc.revisionNumber, Word(fc.revisionNumber));
    var c6, p6, b6 := ThenWrites(os, missed, OutputsBytes(missed), c7, p7, b7);
    var c5, p5, b5 := ThenWrites(os, valid, OutputsBytes(valid), c6, p6, b6);
    var c4, p4, b4 := ThenWrites(CurrencyCodec(), fc.payout, CurrencyBytes(fc.payout), c5, p5, b5);
    var c3, p3, b3 := ThenWrites(w, fc.windowEnd, Word(fc.windowEnd), c4, p4, b4);
    var c2, p2, b2 := ThenWrites(w, fc.windowStart, Word(fc.windowStart), c3, p3, b3);
    var c1, p1, b1 := ThenWrites(d, fc.fileMerkleRoot, fc.fileMerkleRoot, c2, p2, b2);
    var c, _, b := ThenWrites(w, fc.fileSize, Word(fc.fileSize), c1, p1, b1);
    ViaWrites(c, ContractFields, ContractOf, fc, b);
  }

  lemma {:induction false} RevisionWrites(r: FileContractRevision<Digest>)
    ensures Writes(RevisionCodec(), r, RevisionBytes(r))
  {
    hide Writes, WordCodec, DigestCodec, ConditionsCodec, OutputsCodec, Word, ConditionsBytes, OutputsBytes;
    var w, d, os := WordCodec(), DigestCodec(), OutputsCodec();
    var uc, valid, missed := r.unlockConditions, r.newValidProofOutputs, r.newMissedProofOutputs;
    DigestWrites(r.parentID);
    ConditionsWrite(uc);
    WordWrites(r.newRevisionNumber);
    WordWrites(r.newFileSize);
    DigestWrites(r.newFileMerkleRoot);
    WordWrites(r.newWindowStart);
    WordWrites(r.newWindowEnd);
    OutputsWrite(valid);
    OutputsWrite(missed);
    DigestWrites(r.newUnlockHash);
    var c8, p8, b8 := ThenWrites(os, missed, OutputsBytes(missed), d, r.newUnlockHash, r.newUnlockHash);
    var c7, p7, b7 := ThenWrites(os, valid, OutputsBytes(valid), c8, p8, b8);
    var c6, p6, b6 := ThenWrites(w, r.newWindowEnd, Word(r.newWindowEnd), c7, p7, b7);
    var c5, p5, b5 := ThenWrites(w, r.newWindowStart, Word(r.newWindowStart), c6, p6, b6);
    var c4, p4, b4 := ThenWrites(d, r.newFileMerkleRoot, r.newFileMerkleRoot, c5, p5, b5);
    var c3, p3, b3 := ThenWrites(w, r.newFileSize, Word(r.newFileSize), c4, p4, b4);
    var c2, p2, b2 := ThenWrites(w, r.newRevisionNumber, Word(r.newRevisionNumber), c3, p3, b3);
    var c1, p1, b1 := ThenWrites(ConditionsCodec(), uc, ConditionsBytes(uc), c2, p2, b2);
    var c, _, b := ThenWrites(d, r.parentID, r.parentID, c1, p1, b1);
    ViaWrites(c, RevisionFields, RevisionOf, r, b);
  }

  lemma {:induction false} ProofWrites(p: StorageProof<Digest>)
    ensures Writes(ProofCodec(), p, ProofBytes(p))
  {
    hide DigestCodec, SliceCodec, SliceBytes;
    forall i | 0 <= i < |p.hashSet|
      ensures Writes(DigestCodec(), p.hashSet[i], DigestBytes(p.hashSet[i]))
    {
      DigestWrites(p.hashSet[i]);
    }
    SliceWrites(DigestCodec(), SIZEOF_HASH, DigestBytes, p.hashSet);
    DigestWrites(p.parentID);
    assert Writes(SegmentCodec(), p.segment, p.segment);
    var c1, p1, b1 := ThenWrites(SegmentCodec(), p.segment, p.segment, DigestsCodec(), p.hashSet,
      SliceBytes(DigestBytes, p.hashSet));
    var c, _, b := ThenWrites(DigestCodec(), p.parentID, p.parentID, c1, p1, b1);
    ViaWrites(c, ProofFields, ProofOf, p, b);
  }

  lemma {:induction false} WordsWrite(us: Words)
    ensures Writes(WordsCodec(), us, WordsBytes(us))
  {
    hide Writes, WordCodec, SliceCodec, SliceBytes, Word;
    var f := (u: uint64) => Word(u);
    forall i | 0 <= i < |us|
      ensures Writes(WordCodec(), us[i], f(us[i]))
    {
      WordWrites(us[i]);
    }
    SliceWrites(WordCodec(), SIZEOF_UINT64, f, us);
  }

  lemma {:induction false} CoveredWrites(cf: CoveredFields)
    ensures Writes(CoveredCodec(), cf, CoveredBytes(cf))
  {
    hide Writes, WordsCodec, WordsBytes, FlagCodec;
    var us := WordsCodec();
    FlagWrites(cf.wholeTransaction);
    WordsWrite(cf.siacoinInputs);
    WordsWrite(cf.siacoinOutputs);
    WordsWrite(cf.fileContracts);
    WordsWrite(cf.fileContractRevisions);
    WordsWrite(cf.storageProofs);
    WordsWrite(cf.minerFees);
    WordsWrite(cf.arbitraryData);
    WordsWrite(cf.transactionSignatures);
    var c7, p7, b7 := ThenWrites(us, cf.arbitraryData, WordsBytes(cf.arbitraryData),
                                 us, cf.transactionSignatures, WordsBytes(cf.transactionSignatures));
    var c6, p6, b6 := ThenWrites(us, cf.minerFees, WordsBytes(cf.minerFees), c7, p7, b7);
    var c5, p5, b5 := ThenWrites(us, cf.storageProofs, WordsBytes(cf.storageProofs), c6, p6, b6);
    var c4, p4, b4 := ThenWrites(us, cf.fileContractRevisions, WordsBytes(cf.fileContractRevisions), c5, p5, b5);
    var c3, p3, b3 := ThenWrites(us, cf.fileContracts, WordsBytes(cf.fileContracts), c4, p4, b4);
    var c2, p2, b2 := ThenWrites(us, cf.siacoinOutputs, WordsBytes(cf.siacoinOutputs), c3, p3, b3);
    var c1, p1, b1 := ThenWrites(us, cf.siacoinInputs, WordsBytes(cf.siacoinInputs), c2, p2, b2);
    var c, _, b := ThenWrites(FlagCodec(), cf.wholeTransaction, [if cf.wholeTransaction then 1 else 0], c1, p1, b1);
    ViaWrites(c, CoveredFieldsOf, CoveredOf, cf, b);
  }

  lemma {:induction false} FlagWrites(f: bool)
    ensures Writes(FlagCodec(), f, [if f then 1 else 0])
  {
  }

  lemma {:induction false} SignatureWrites(ts: TransactionSignature<Digest>)
    ensures Writes(SignatureCodec(), ts, SignatureBytes(ts))
  {
    hide Writes, DigestCodec, WordCodec, CoveredCodec, DataCodec, Word, CoveredBytes, Prefixed;
    var w, d := WordCodec(), DigestCodec();
    DigestWrites(ts.parentID);
    WordWrites(ts.publicKeyIndex);
    WordWrites(ts.timelock);
    CoveredWrites(ts.coveredFields);
    DataWrites(ts.signature);
    var c3, p3, b3 := ThenWrites(CoveredCodec(), ts.coveredFields, CoveredBytes(ts.coveredFields),
                                 DataCodec(), ts.signature, Prefixed(ts.signature));
    var c2, p2, b2 := ThenWrites(w, ts.timelock, Word(ts.timelock), c3, p3, b3);
    var c1, p1, b1 := ThenWrites(w, ts.publicKeyIndex, Word(ts.publicKeyIndex), c2, p2, b2);
    var c, _, b := ThenWrites(d, ts.parentID, ts.parentID, c1, p1, b1);
    ViaWrites(c, SignatureFields, SignatureOf, ts, b);
  }

  /** The parts of a transaction that its ids hash. */
  lemma {:induction false} UnsignedWrites(t: Transaction<Digest>)
    ensures Writes(UnsignedCodec(), t, UnsignedBytes(t))
  {
    hide Writes, InputCodec, OutputsCodec, ContractCodec, RevisionCodec, ProofCodec, CurrencyCodec, DataCodec,
         InputBytes, OutputsBytes, ContractBytes, RevisionBytes, ProofBytes, CurrencyBytes, Prefixed, SliceCodec,
         SliceBytes;
    SlicesWrite(t);
    OutputsWrite(t.siacoinOutputs);
    var c5, p5, b5 := ThenWrites(FeesCodec(), t.minerFees, SliceBytes(CurrencyBytes, t.minerFees),
                                 BlobsCodec(), t.arbitraryData, SliceBytes(Prefixed, t.arbitraryData));
    var c4, p4, b4 := ThenWrites(ProofsCodec(), t.storageProofs, SliceBytes(ProofBytes, t.storageProofs), c5, p5, b5);
    var c3, p3, b3 := ThenWrites(RevisionsCodec(), t.fileContractRevisions,
                                 SliceBytes(RevisionBytes, t.fileContractRevisions), c4, p4, b4);
    var c2, p2, b2 := ThenWrites(ContractsCodec(), t.fileContracts, SliceBytes(ContractBytes, t.fileContracts),
                                 c3, p3, b3);
    var c1, p1, b1 := ThenWrites(OutputsCodec(), t.siacoinOutputs, OutputsBytes(t.siacoinOutputs), c2, p2, b2);
    var c, _, b := ThenWrites(InputsCodec(), t.siacoinInputs, SliceBytes(InputBytes, t.siacoinInputs), c1, p1, b1);
    ViaWrites(c, UnsignedFields, UnsignedOf, t, b);
  }

  lemma {:induction false} SlicesWrite(t: Transaction<Digest>)
    ensures Writes(InputsCodec(), t.siacoinInputs, SliceBytes(InputBytes, t.siacoinInputs))
    ensures Writes(ContractsCodec(), t.fileContracts, SliceBytes(ContractBytes, t.fileContracts))
    ensures Writes(RevisionsCodec(), t.fileContractRevisions, SliceBytes(RevisionBytes, t.fileContractRevisions))
    ensures Writes(ProofsCodec(), t.storageProofs, SliceBytes(ProofBytes, t.storageProofs))
    ensures Writes(FeesCodec(), t.minerFees, SliceBytes(CurrencyBytes, t.minerFees))
    ensures Writes(BlobsCodec(), t.arbitraryData, SliceBytes(Prefixed, t.arbitraryData))
  {
    hide Writes, InputCodec, ContractCodec, RevisionCodec, ProofCodec, CurrencyCodec, DataCodec, InputBytes,
         ContractBytes, RevisionBytes, ProofBytes, CurrencyBytes, Prefixed, SliceCodec, SliceBytes;
    forall i | 0 <= i < |t.siacoinInputs|
      ensures Writes(InputCodec(), t.siacoinInputs[i], InputBytes(t.siacoinInputs[i]))
    {
      InputWrites(t.siacoinInputs[i]);
    }
    forall i | 0 <= i < |t.fileContracts|
      ensures Writes(ContractCodec(), t.fileContracts[i], ContractBytes(t.fileContracts[i]))
    {
      ContractWrites(t.fileContracts[i]);
    }
    forall i | 0 <= i < |t.fileContractRevisions|
      ensures Writes(RevisionCodec(), t.fileContractRevisions[i], RevisionBytes(t.fileContractRevisions[i]))
    {
      RevisionWrites(t.fileContractRevisions[i]);
    }
    forall i | 0 <= i < |t.storageProofs|
      ensures Writes(ProofCodec(), t.storageProofs[i], ProofBytes(t.storageProofs[i]))
    {
      ProofWrites(t.storageProofs[i]);
    }
    forall i | 0 <= i < |t.minerFees|
      ensures Writes(CurrencyCodec(), t.minerFees[i], CurrencyBytes(t.minerFees[i]))
    {
      CurrencyWrites(t.minerFees[i]);
    }
    forall i | 0 <= i < |t.arbitraryData|
      ensures Writes(DataCodec(), t.arbitraryData[i], Prefixed(t.arbitraryData[i]))
    {
      DataWrites(t.arbitraryData[i]);
    }
    SliceWrites(InputCodec(), SIZEOF_INPUT, InputBytes, t.siacoinInputs);
    SliceWrites(ContractCodec(), SIZEOF_CONTRACT, ContractBytes, t.fileContracts);
    SliceWrites(RevisionCodec(), SIZEOF_REVISION, RevisionBytes, t.fileContractRevisions);
    SliceWrites(ProofCodec(), SIZEOF_PROOF, ProofBytes, t.storageProofs);
    SliceWrites(CurrencyCodec(), SIZEOF_CURRENCY, CurrencyBytes, t.minerFees);
    SliceWrites(DataCodec(), SIZEOF_BYTES, Prefixed, t.arbitraryData);
  }

  /** A whole transaction: the unsigned part, then its signatures. */
  lemma {:induction false} TransactionWrites(t: Transaction<Digest>)
    ensures Writes(TransactionCodec(), t, TransactionBytes(t))
  {
    hide Writes, UnsignedCodec, SignatureCodec, SignatureBytes, SliceCodec, SliceBytes;
    var u, sigs := t.(transactionSignatures := []), t.transactionSignatures;
    UnsignedWrites(u);
    forall i | 0 <= i < |sigs|
      ensures Writes(SignatureCodec(), sigs[i], SignatureBytes(sigs[i]))
    {
      SignatureWrites(sigs[i]);
    }
    SliceWrites(SignatureCodec(), SIZEOF_SIGNATURE, SignatureBytes, sigs);
    var c, _, b := ThenWrites(UnsignedCodec(), u, UnsignedBytes(u), SignaturesCodec(), sigs,
      SliceBytes(SignatureBytes, sigs));
    ViaWrites(c, SignedFields, SignedOf, t, b);
  }

  /** A whole block: header fields, payouts, transactions. */
  lemma {:induction false} BlockWrites(bl: Block<Digest>)
    ensures Writes(BlockCodec(), bl, BlockBytes(bl))
  {
    hide DigestCodec, WordCodec, OutputsCodec, TransactionCodec, TransactionBytes, OutputsBytes, SliceCodec, SliceBytes,
         Word;
    DigestWrites(bl.parentID);
    WordWrites(bl.timestamp);
    OutputsWrite(bl.minerPayouts);
    assert Writes(NonceCodec(), bl.nonce, bl.nonce);
    forall i | 0 <= i < |bl.transactions|
      ensures Writes(TransactionCodec(), bl.transactions[i], TransactionBytes(bl.transactions[i]))
    {
      TransactionWrites(bl.transactions[i]);
    }
    SliceWrites(TransactionCodec(), SIZEOF_TRANSACTION, TransactionBytes, bl.transactions);
    var c3, p3, b3 := ThenWrites(OutputsCodec(), bl.minerPayouts, OutputsBytes(bl.minerPayouts),
                                 TransactionsCodec(), bl.transactions, SliceBytes(TransactionBytes, bl.transactions));
    var c2, p2, b2 := ThenWrites(WordCodec(), bl.timestamp, Word(bl.timestamp), c3, p3, b3);
    var c1, p1, b1 := ThenWrites(NonceCodec(), bl.nonce, bl.nonce, c2, p2, b2);
    var c, _, b := ThenWrites(DigestCodec(), bl.parentID, bl.parentID, c1, p1, b1);
    ViaWrites(c, BlockFields, BlockOf, bl, b);
  }

  /** What the ids of outputs and contracts hash: the specifier, the transaction
      without its signatures, the index. */
  lemma {:induction false} PreimagesWrite(t: Transaction<Digest>, i: uint64)
    ensures OutputPreimage(t, i) == SPECIFIER_OUTPUT + UnsignedBytes(t) + Word(i)
    ensures ContractPreimage(t, i) == SPECIFIER_CONTRACT + UnsignedBytes(t) + Word(i)
  {
    hide UnsignedCodec, UnsignedBytes, LittleEndian;
    UnsignedWrites(t);
  }
}
