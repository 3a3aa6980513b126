/** The binary form of the consensus records (types/encoding.go): every
    transaction and block within the decoder's limits survives the round trip,
    and takes exactly as many bytes as MarshalSiaSize says.

    The codec of a record is that of the tuple of its fields, in the order in
    which MarshalSia writes and UnmarshalSia reads them. */
module WireRecords {
  import opened Types
  import opened Wire
  import opened WireTypes

  // ---------------------------------------------------------------- fixed-size parts

  function SpecifierCodec(): Codec<Specifier> {
    Codec((b: Specifier, tail) => b + tail, s => var (b, s1) :- ReadFull(s, 16); var x: Specifier := b; Some((x, s1)))
  }

  function SegmentCodec(): Codec<Segment> {
    Codec((b: Segment, tail) => b + tail, s => var (b, s1) :- ReadFull(s, 64); var x: Segment := b; Some((x, s1)))
  }

  function NonceCodec(): Codec<Nonce> {
    Codec((b: Nonce, tail) => b + tail, s => var (b, s1) :- ReadFull(s, 8); var x: Nonce := b; Some((x, s1)))
  }

  /** WholeTransaction: one byte, true exactly when it reads 1. */
  function FlagCodec(): Codec<bool> {
    Codec((b: bool, tail) => [if b then 1 else 0] + tail, s => var (b, s1) :- ReadFull(s, 1); Some((b[0] == 1, s1)))
  }

  lemma {:induction false} SpecifierGood(a: Specifier)
    ensures Good(SpecifierCodec(), a, 16)
  {
    forall tail: bytes, n: nat | n + 16 <= MAX_OBJECT_SIZE
      ensures SpecifierCodec().parse(Stream(SpecifierCodec().put(a, tail), n)) == Some((a, Stream(tail, n + 16)))
    {
      ReadFullPut(a, tail, n);
    }
  }

  lemma {:induction false} SegmentGood(g: Segment)
    ensures Good(SegmentCodec(), g, 64)
  {
    forall tail: bytes, n: nat | n + 64 <= MAX_OBJECT_SIZE
      ensures SegmentCodec().parse(Stream(SegmentCodec().put(g, tail), n)) == Some((g, Stream(tail, n + 64)))
    {
      ReadFullPut(g, tail, n);
    }
  }

  lemma {:induction false} NonceGood(o: Nonce)
    ensures Good(NonceCodec(), o, 8)
  {
    forall tail: bytes, n: nat | n + 8 <= MAX_OBJECT_SIZE
      ensures NonceCodec().parse(Stream(NonceCodec().put(o, tail), n)) == Some((o, Stream(tail, n + 8)))
    {
      ReadFullPut(o, tail, n);
    }
  }

  lemma {:induction false} FlagGood(b: bool)
    ensures Good(FlagCodec(), b, 1)
  {
    forall tail: bytes, n: nat | n + 1 <= MAX_OBJECT_SIZE
      ensures FlagCodec().parse(Stream(FlagCodec().put(b, tail), n)) == Some((b, Stream(tail, n + 1)))
    {
      ReadFullPut([if b then 1 else 0], tail, n);
    }
  }

  // ---------------------------------------------------------------- SiacoinOutput

  type Outputs = seq<SiacoinOutput<Digest>>

  function OutputFields(o: SiacoinOutput<Digest>): (nat, Digest) { (o.value, o.unlockHash) }

  function OutputOf(p: (nat, Digest)): SiacoinOutput<Digest> { SiacoinOutput(p.0, p.1) }

  function OutputCodec(): Codec<SiacoinOutput<Digest>> {
    Via(Then(CurrencyCodec(), DigestCodec()), OutputFields, OutputOf)
  }

  function OutputsCodec(): Codec<Outputs> { SliceCodec(OutputCodec(), SIZEOF_OUTPUT) }

  lemma {:induction false} OutputGood(o: SiacoinOutput<Digest>)
    requires CurrencyFits(o.value)
    ensures Good(OutputCodec(), o, OutputSize(o))
  {
    hide Good, CurrencyCodec, DigestCodec, CurrencySize;
    CurrencyGood(o.value);
    DigestGood(o.unlockHash);
    var c, _, k := ThenGood(CurrencyCodec(), o.value, CurrencySize(o.value), DigestCodec(), o.unlockHash, 32);
    ViaGood(c, OutputFields, OutputOf, o, k);
  }

  lemma {:induction false} OutputsGood(os: Outputs)
    requires OutputsFit(os)
    ensures Good(OutputsCodec(), os, SliceSize(OutputSize<Digest>, os))
  {
    hide Good, OutputCodec, OutputSize, CurrencyFits;
    forall i | 0 <= i < |os|
      ensures Good(OutputCodec(), os[i], OutputSize(os[i]))
    {
      OutputGood(os[i]);
    }
    SliceGood(OutputCodec(), SIZEOF_OUTPUT, OutputSize<Digest>, os);
  }

  // ---------------------------------------------------------------- SiaPublicKey, UnlockConditions, SiacoinInput

  function PublicKeyFields(pk: SiaPublicKey): (Specifier, bytes) { (pk.algorithm, pk.key) }

  function PublicKeyOf(p: (Specifier, bytes)): SiaPublicKey { SiaPublicKey(p.0, p.1) }

  function PublicKeyCodec(): Codec<SiaPublicKey> {
    Via(Then(SpecifierCodec(), DataCodec()), PublicKeyFields, PublicKeyOf)
  }

  function PublicKeysCodec(): Codec<seq<SiaPublicKey>> { SliceCodec(PublicKeyCodec(), SIZEOF_PUBLIC_KEY) }

  lemma {:induction false} PublicKeyGood(pk: SiaPublicKey)
    requires DataFits(pk.key)
    ensures Good(PublicKeyCodec(), pk, PublicKeySize(pk))
  {
    hide Good, SpecifierCodec, DataCodec;
    SpecifierGood(pk.algorithm);
    DataGood(pk.key);
    var c, _, k := ThenGood(SpecifierCodec(), pk.algorithm, 16, DataCodec(), pk.key, DataSize(pk.key));
    ViaGood(c, PublicKeyFields, PublicKeyOf, pk, k);
  }

  type ConditionsTuple = (uint64, (seq<SiaPublicKey>, uint64))

  function ConditionsFields(uc: UnlockConditions): ConditionsTuple {
    (uc.timelock, (uc.publicKeys, uc.signaturesRequired))
  }

  function ConditionsOf(p: ConditionsTuple): UnlockConditions { UnlockConditions(p.0, p.1.0, p.1.1) }

  function ConditionsCodec(): Codec<UnlockConditions> {
    Via(Then(WordCodec(), Then(PublicKeysCodec(), WordCodec())), ConditionsFields, ConditionsOf)
  }

  lemma {:induction false} ConditionsGood(uc: UnlockConditions)
    requires ConditionsFit(uc)
    ensures Good(ConditionsCodec(), uc, ConditionsSize(uc))
  {
    hide Good, WordCodec, PublicKeyCodec, PublicKeySize, DataFits;
    forall i | 0 <= i < |uc.publicKeys|
      ensures Good(PublicKeyCodec(), uc.publicKeys[i], PublicKeySize(uc.publicKeys[i]))
    {
      PublicKeyGood(uc.publicKeys[i]);
    }
    SliceGood(PublicKeyCodec(), SIZEOF_PUBLIC_KEY, PublicKeySize, uc.publicKeys);
    WordGood(uc.timelock);
    WordGood(uc.signaturesRequired);
    var c1, p1, k1 := ThenGood(PublicKeysCodec(), uc.publicKeys, SliceSize(PublicKeySize, uc.publicKeys),
                               WordCodec(), uc.signaturesRequired, 8);
    var c, _, k := ThenGood(WordCodec(), uc.timelock, 8, c1, p1, k1);
    ViaGood(c, ConditionsFields, ConditionsOf, uc, k);
  }

  function InputFields(i: SiacoinInput<Digest>): (Digest, UnlockConditions) { (i.parentID, i.unlockConditions) }

  function InputOf(p: (Digest, UnlockConditions)): SiacoinInput<Digest> { SiacoinInput(p.0, p.1) }

  function InputCodec(): Codec<SiacoinInput<Digest>> {
    Via(Then(DigestCodec(), ConditionsCodec()), InputFields, InputOf)
  }

  function InputsCodec(): Codec<seq<SiacoinInput<Digest>>> { SliceCodec(InputCodec(), SIZEOF_INPUT) }

  lemma {:induction false} InputGood(i: SiacoinInput<Digest>)
    requires ConditionsFit(i.unlockConditions)
    ensures Good(InputCodec(), i, InputSize(i))
  {
    hide Good, DigestCodec, ConditionsCodec, ConditionsFit, ConditionsSize;
    DigestGood(i.parentID);
    ConditionsGood(i.unlockConditions);
    var c, _, k := ThenGood(DigestCodec(), i.parentID, 32, ConditionsCodec(), i.unlockConditions,
      ConditionsSize(i.unlockConditions));
    ViaGood(c, InputFields, InputOf, i, k);
  }

  // ---------------------------------------------------------------- FileContract

  type ContractTuple = (uint64, (Digest, (uint64, (uint64, (nat, (Outputs, (Outputs, (Digest, uint64))))))))

  function ContractFields(fc: FileContract<Digest>): ContractTuple {
    (fc.fileSize, (fc.fileMerkleRoot, (fc.windowStart, (fc.windowEnd, (fc.payout,
      (fc.validProofOutputs, (fc.missedProofOutputs, (fc.unlockHash, fc.revisionNumber))))))))
  }

  function ContractOf(p: ContractTuple): FileContract<Digest> {
    var (fileSize, (root, (start, (end, (payout, (valid, (missed, (unlockHash, number)))))))) := p;
    FileContract(fileSize, root, start, end, payout, valid, missed, unlockHash, number)
  }

  function ContractCodec(): Codec<FileContract<Digest>> {
    Via(Then(WordCodec(), Then(DigestCodec(), Then(WordCodec(), Then(WordCodec(), Then(CurrencyCodec(),
          Then(OutputsCodec(), Then(OutputsCodec(), Then(DigestCodec(), WordCodec())))))))), ContractFields, ContractOf)
  }

  function ContractsCodec(): Codec<seq<FileContract<Digest>>> { SliceCodec(ContractCodec(), SIZEOF_CONTRACT) }

  lemma {:induction false} ContractGood(fc: FileContract<Digest>)
    requires ContractFits(fc)
    ensures Good(ContractCodec(), fc, ContractSize(fc))
  {
    hide Good, WordCodec, DigestCodec, CurrencyCodec, OutputsCodec, OutputsFit, CurrencySize, ListSize;
    var w, d, os := WordCodec(), DigestCodec(), OutputsCodec();
    var valid, missed := fc.validProofOutputs, fc.missedProofOutputs;
    WordGood(fc.fileSize);
    WordGood(fc.windowStart);
    WordGood(fc.windowEnd);
    WordGood(fc.revisionNumber);
    DigestGood(fc.fileMerkleRoot);
    DigestGood(fc.unlockHash);
    CurrencyGood(fc.payout);
    OutputsGood(valid);
    OutputsGood(missed);
    var c7, p7, k7 := ThenGood(d, fc.unlockHash, 32, w, fc.revisionNumber, 8);
    var c6, p6, k6 := ThenGood(os, missed, SliceSize(OutputSize<Digest>, missed), c7, p7, k7);
    var c5, p5, k5 := ThenGood(os, valid, SliceSize(OutputSize<Digest>, valid), c6, p6, k6);
    var c4, p4, k4 := ThenGood(CurrencyCodec(), fc.payout, CurrencySize(fc.payout), c5, p5, k5);
    var c3, p3, k3 := ThenGood(w, fc.windowEnd, 8, c4, p4, k4);
    var c2, p2, k2 := ThenGood(w, fc.windowStart, 8, c3, p3, k3);
    var c1, p1, k1 := ThenGood(d, fc.fileMerkleRoot, 32, c2, p2, k2);
    var c, _, k := ThenGood(w, fc.fileSize, 8, c1, p1, k1);
    ViaGood(c, ContractFields, ContractOf, fc, k);
  }

  // ---------------------------------------------------------------- FileContractRevision

  type RevisionTuple =
    (Digest, (UnlockConditions, (uint64, (uint64, (Digest, (uint64, (uint64, (Outputs, (Outputs, Digest)))))))))

  function RevisionFields(r: FileContractRevision<Digest>): RevisionTuple {
    (r.parentID, (r.unlockConditions, (r.newRevisionNumber, (r.newFileSize, (r.newFileMerkleRoot, (r.newWindowStart,
      (r.newWindowEnd, (r.newValidProofOutputs, (r.newMissedProofOutputs, r.newUnlockHash)))))))))
  }

  function RevisionOf(p: RevisionTuple): FileContractRevision<Digest> {
    var (id, (uc, (number, (fileSize, (root, (start, (end, (valid, (missed, unlockHash))))))))) := p;
    FileContractRevision(id, uc, number, fileSize, root, start, end, valid, missed, unlockHash)
  }

  function RevisionCodec(): Codec<FileContractRevision<Digest>> {
    Via(Then(DigestCodec(), Then(ConditionsCodec(),
      Then(WordCodec(), Then(WordCodec(), Then(DigestCodec(), Then(WordCodec(),
          Then(WordCodec(), Then(OutputsCodec(), Then(OutputsCodec(), DigestCodec()))))))))), RevisionFields,
            RevisionOf)
  }

  function RevisionsCodec(): Codec<seq<FileContractRevision<Digest>>> { SliceCodec(RevisionCodec(), SIZEOF_REVISION) }

  lemma {:induction false} RevisionGood(r: FileContractRevision<Digest>)
    requires RevisionFits(r)
    ensures Good(RevisionCodec(), r, RevisionSize(r))
  {
    hide Good, WordCodec, DigestCodec, ConditionsCodec, OutputsCodec, OutputsFit, ConditionsFit, ConditionsSize,
         ListSize;
    var w, d, os := WordCodec(), DigestCodec(), OutputsCodec();
    var uc, valid, missed := r.unlockConditions, r.newValidProofOutputs, r.newMissedProofOutputs;
    WordGood(r.newRevisionNumber);
    WordGood(r.newFileSize);
    WordGood(r.newWindowStart);
    WordGood(r.newWindowEnd);
    DigestGood(r.parentID);
    DigestGood(r.newFileMerkleRoot);
    DigestGood(r.newUnlockHash);
    ConditionsGood(uc);
    OutputsGood(valid);
    OutputsGood(missed);
    var c8, p8, k8 := ThenGood(os, missed, SliceSize(OutputSize<Digest>, missed), d, r.newUnlockHash, 32);
    var c7, p7, k7 := ThenGood(os, valid, SliceSize(OutputSize<Digest>, valid), c8, p8, k8);
    var c6, p6, k6 := ThenGood(w, r.newWindowEnd, 8, c7, p7, k7);
    var c5, p5, k5 := ThenGood(w, r.newWindowStart, 8, c6, p6, k6);
    var c4, p4, k4 := ThenGood(d, r.newFileMerkleRoot, 32, c5, p5, k5);
    var c3, p3, k3 := ThenGood(w, r.newFileSize, 8, c4, p4, k4);
    var c2, p2, k2 := ThenGood(w, r.newRevisionNumber, 8, c3, p3, k3);
    var c1, p1, k1 := ThenGood(ConditionsCodec(), uc, ConditionsSize(uc), c2, p2, k2);
    var c, _, k := ThenGood(d, r.parentID, 32, c1, p1, k1);
    ViaGood(c, RevisionFields, RevisionOf, r, k);
  }

  // ---------------------------------------------------------------- StorageProof

  type ProofTuple = (Digest, (Segment, seq<Digest>))

  function ProofFields(p: StorageProof<Digest>): ProofTuple { (p.parentID, (p.segment, p.hashSet)) }

  function ProofOf(p: ProofTuple): StorageProof<Digest> { StorageProof(p.0, p.1.0, p.1.1) }

  function DigestsCodec(): Codec<seq<Digest>> { SliceCodec(DigestCodec(), SIZEOF_HASH) }

  function ProofCodec(): Codec<StorageProof<Digest>> {
    Via(Then(DigestCodec(), Then(SegmentCodec(), DigestsCodec())), ProofFields, ProofOf)
  }

  function ProofsCodec(): Codec<seq<StorageProof<Digest>>> { SliceCodec(ProofCodec(), SIZEOF_PROOF) }

  lemma {:induction false} ProofGood(p: StorageProof<Digest>)
    requires SliceFits(p.hashSet, SIZEOF_HASH)
    ensures Good(ProofCodec(), p, ProofSize(p))
  {
    hide Good, DigestCodec, SegmentCodec;
    forall i | 0 <= i < |p.hashSet|
      ensures Good(DigestCodec(), p.hashSet[i], DigestSize(p.hashSet[i]))
    {
      DigestGood(p.hashSet[i]);
    }
    SliceGood(DigestCodec(), SIZEOF_HASH, DigestSize<Digest>, p.hashSet);
    DigestGood(p.parentID);
    SegmentGood(p.segment);
    var c1, p1, k1 := ThenGood(SegmentCodec(), p.segment, 64, DigestsCodec(), p.hashSet,
      SliceSize(DigestSize<Digest>, p.hashSet));
    var c, _, k := ThenGood(DigestCodec(), p.parentID, 32, c1, p1, k1);
    ViaGood(c, ProofFields, ProofOf, p, k);
  }

  // ---------------------------------------------------------------- CoveredFields, TransactionSignature

  type Words = seq<uint64>
  type CoveredTuple = (bool, (Words, (Words, (Words, (Words, (Words, (Words, (Words, Words))))))))

  function CoveredFieldsOf(cf: CoveredFields): CoveredTuple {
    (cf.wholeTransaction, (cf.siacoinInputs, (cf.siacoinOutputs, (cf.fileContracts, (cf.fileContractRevisions,
      (cf.storageProofs, (cf.minerFees, (cf.arbitraryData, cf.transactionSignatures))))))))
  }

  function CoveredOf(p: CoveredTuple): CoveredFields {
    var (whole, (a, (b, (c, (d, (e, (f, (g, h)))))))) := p;
    CoveredFields(whole, a, b, c, d, e, f, g, h)
  }

  function WordsCodec(): Codec<Words> { SliceCodec(WordCodec(), SIZEOF_UINT64) }

  function CoveredCodec(): Codec<CoveredFields> {
    var us := WordsCodec();
    Via(Then(FlagCodec(), Then(us, Then(us, Then(us, Then(us, Then(us, Then(us, Then(us, us)))))))), CoveredFieldsOf,
      CoveredOf)
  }

  function WordsSize(us: Words): nat { SliceSize(WordSize, us) }

  lemma {:induction false} WordsGood(us: Words)
    requires SliceFits(us, SIZEOF_UINT64)
    ensures Good(WordsCodec(), us, WordsSize(us))
  {
    hide Good, WordCodec;
    forall i | 0 <= i < |us|
      ensures Good(WordCodec(), us[i], WordSize(us[i]))
    {
      WordGood(us[i]);
    }
    SliceGood(WordCodec(), SIZEOF_UINT64, WordSize, us);
  }

  lemma {:induction false} CoveredGood(cf: CoveredFields)
    requires CoveredFit(cf)
    ensures Good(CoveredCodec(), cf, CoveredFieldsSize(cf))
  {
    hide Good, FlagCodec, WordsCodec, SliceFits, ListSize;
    var us := WordsCodec();
    FlagGood(cf.wholeTransaction);
    WordsGood(cf.siacoinInputs);
    WordsGood(cf.siacoinOutputs);
    WordsGood(cf.fileContracts);
    WordsGood(cf.fileContractRevisions);
    WordsGood(cf.storageProofs);
    WordsGood(cf.minerFees);
    WordsGood(cf.arbitraryData);
    WordsGood(cf.transactionSignatures);
    var c7, p7, k7 := ThenGood(us, cf.arbitraryData, WordsSize(cf.arbitraryData),
                               us, cf.transactionSignatures, WordsSize(cf.transactionSignatures));
    var c6, p6, k6 := ThenGood(us, cf.minerFees, WordsSize(cf.minerFees), c7, p7, k7);
    var c5, p5, k5 := ThenGood(us, cf.storageProofs, WordsSize(cf.storageProofs), c6, p6, k6);
    var c4, p4, k4 := ThenGood(us, cf.fileContractRevisions, WordsSize(cf.fileContractRevisions), c5, p5, k5);
    var c3, p3, k3 := ThenGood(us, cf.fileContracts, WordsSize(cf.fileContracts), c4, p4, k4);
    var c2, p2, k2 := ThenGood(us, cf.siacoinOutputs, WordsSize(cf.siacoinOutputs), c3, p3, k3);
    var c1, p1, k1 := ThenGood(us, cf.siacoinInputs, WordsSize(cf.siacoinInputs), c2, p2, k2);
    var c, _, k := ThenGood(FlagCodec(), cf.wholeTransaction, 1, c1, p1, k1);
    ViaGood(c, CoveredFieldsOf, CoveredOf, cf, k);
  }

  type SignatureTuple = (Digest, (uint64, (uint64, (CoveredFields, bytes))))

  function SignatureFields(ts: TransactionSignature<Digest>): SignatureTuple {
    (ts.parentID, (ts.publicKeyIndex, (ts.timelock, (ts.coveredFields, ts.signature))))
  }

  function SignatureOf(p: SignatureTuple): TransactionSignature<Digest> {
    TransactionSignature(p.0, p.1.0, p.1.1.0, p.1.1.1.0, p.1.1.1.1)
  }

  function SignatureCodec(): Codec<TransactionSignature<Digest>> {
    Via(Then(DigestCodec(), Then(WordCodec(), Then(WordCodec(), Then(CoveredCodec(), DataCodec())))),
      SignatureFields, SignatureOf)
  }

  function SignaturesCodec(): Codec<seq<TransactionSignature<Digest>>> { SliceCodec(SignatureCodec(),
    SIZEOF_SIGNATURE) }

  lemma {:induction false} SignatureGood(ts: TransactionSignature<Digest>)
    requires SignatureFits(ts)
    ensures Good(SignatureCodec(), ts, SignatureSize(ts))
  {
    hide Good, DigestCodec, WordCodec, CoveredCodec, DataCodec, CoveredFit, CoveredFieldsSize;
    DigestGood(ts.parentID);
    WordGood(ts.publicKeyIndex);
    WordGood(ts.timelock);
    CoveredGood(ts.coveredFields);
    DataGood(ts.signature);
    var c3, p3, k3 := ThenGood(CoveredCodec(), ts.coveredFields, CoveredFieldsSize(ts.coveredFields),
                               DataCodec(), ts.signature, DataSize(ts.signature));
    var c2, p2, k2 := ThenGood(WordCodec(), ts.timelock, 8, c3, p3, k3);
    var c1, p1, k1 := ThenGood(WordCodec(), ts.publicKeyIndex, 8, c2, p2, k2);
    var c, _, k := ThenGood(DigestCodec(), ts.parentID, 32, c1, p1, k1);
    ViaGood(c, SignatureFields, SignatureOf, ts, k);
  }

  // ---------------------------------------------------------------- Transaction

  type UnsignedTuple = (seq<SiacoinInput<Digest>>,
    (Outputs, (seq<FileContract<Digest>>, (seq<FileContractRevision<Digest>>,
                         (seq<StorageProof<Digest>>, (seq<nat>, seq<bytes>))))))

  function UnsignedFields(t: Transaction<Digest>): UnsignedTuple {
    (t.siacoinInputs, (t.siacoinOutputs, (t.fileContracts, (t.fileContractRevisions,
      (t.storageProofs, (t.minerFees, t.arbitraryData))))))
  }

  function UnsignedOf(p: UnsignedTuple): Transaction<Digest> {
    var (inputs, (outputs, (contracts, (revisions, (proofs, (fees, data)))))) := p;
    Transaction(inputs, outputs, contracts, revisions, proofs, fees, data, [])
  }

  function FeesCodec(): Codec<seq<nat>> { SliceCodec(CurrencyCodec(), SIZEOF_CURRENCY) }

  function BlobsCodec(): Codec<seq<bytes>> { SliceCodec(DataCodec(), SIZEOF_BYTES) }

  /** marshalSiaNoSignatures, which the ids hash. */
  function UnsignedCodec(): Codec<Transaction<Digest>> {
    Via(Then(InputsCodec(), Then(OutputsCodec(), Then(ContractsCodec(), Then(RevisionsCodec(),
          Then(ProofsCodec(), Then(FeesCodec(), BlobsCodec())))))), UnsignedFields, UnsignedOf)
  }

  /** The unsigned part and the signatures. */
  function SignedFields(t: Transaction<Digest>): (Transaction<Digest>, seq<TransactionSignature<Digest>>) {
    (t.(transactionSignatures := []), t.transactionSignatures)
  }

  function SignedOf(p: (Transaction<Digest>, seq<TransactionSignature<Digest>>)): Transaction<Digest> {
    p.0.(transactionSignatures := p.1)
  }

  function TransactionCodec(): Codec<Transaction<Digest>> {
    Via(Then(UnsignedCodec(), SignaturesCodec()), SignedFields, SignedOf)
  }

  function TransactionsCodec(): Codec<seq<Transaction<Digest>>> { SliceCodec(TransactionCodec(), SIZEOF_TRANSACTION) }

  lemma {:induction false} InputsGood(xs: seq<SiacoinInput<Digest>>)
    requires SliceFits(xs, SIZEOF_INPUT) && forall i :: 0 <= i < |xs| ==> ConditionsFit(xs[i].unlockConditions)
    ensures Good(InputsCodec(), xs, SliceSize(InputSize<Digest>, xs))
  {
    hide Good, InputCodec, InputSize, ConditionsFit;
    forall i | 0 <= i < |xs| ensures Good(InputCodec(), xs[i], InputSize(xs[i])) {
      InputGood(xs[i]);
    }
    SliceGood(InputCodec(), SIZEOF_INPUT, InputSize<Digest>, xs);
  }

  lemma {:induction false} ContractsGood(xs: seq<FileContract<Digest>>)
    requires SliceFits(xs, SIZEOF_CONTRACT) && forall i :: 0 <= i < |xs| ==> ContractFits(xs[i])
    ensures Good(ContractsCodec(), xs, SliceSize(ContractSize<Digest>, xs))
  {
    hide Good, ContractCodec, ContractSize, ContractFits;
    forall i | 0 <= i < |xs| ensures Good(ContractCodec(), xs[i], ContractSize(xs[i])) {
      ContractGood(xs[i]);
    }
    SliceGood(ContractCodec(), SIZEOF_CONTRACT, ContractSize<Digest>, xs);
  }

  lemma {:induction false} RevisionsGood(xs: seq<FileContractRevision<Digest>>)
    requires SliceFits(xs, SIZEOF_REVISION) && forall i :: 0 <= i < |xs| ==> RevisionFits(xs[i])
    ensures Good(RevisionsCodec(), xs, SliceSize(RevisionSize<Digest>, xs))
  {
    hide Good, RevisionCodec, RevisionSize, RevisionFits;
    forall i | 0 <= i < |xs| ensures Good(RevisionCodec(), xs[i], RevisionSize(xs[i])) {
      RevisionGood(xs[i]);
    }
    SliceGood(RevisionCodec(), SIZEOF_REVISION, RevisionSize<Digest>, xs);
  }

  lemma {:induction false} ProofsGood(xs: seq<StorageProof<Digest>>)
    requires SliceFits(xs, SIZEOF_PROOF) && forall i :: 0 <= i < |xs| ==> SliceFits(xs[i].hashSet, SIZEOF_HASH)
    ensures Good(ProofsCodec(), xs, SliceSize(ProofSize<Digest>, xs))
  {
    hide Good, ProofCodec, ProofSize;
    forall i | 0 <= i < |xs| ensures Good(ProofCodec(), xs[i], ProofSize(xs[i])) {
      ProofGood(xs[i]);
    }
    SliceGood(ProofCodec(), SIZEOF_PROOF, ProofSize<Digest>, xs);
  }

  lemma {:induction false} FeesGood(xs: seq<nat>)
    requires SliceFits(xs, SIZEOF_CURRENCY) && forall i :: 0 <= i < |xs| ==> CurrencyFits(xs[i])
    ensures Good(FeesCodec(), xs, SliceSize(CurrencySize, xs))
  {
    hide Good, CurrencyCodec, CurrencySize;
    forall i | 0 <= i < |xs| ensures Good(CurrencyCodec(), xs[i], CurrencySize(xs[i])) {
      CurrencyGood(xs[i]);
    }
    SliceGood(CurrencyCodec(), SIZEOF_CURRENCY, CurrencySize, xs);
  }

  lemma {:induction false} BlobsGood(xs: seq<bytes>)
    requires SliceFits(xs, SIZEOF_BYTES) && forall i :: 0 <= i < |xs| ==> DataFits(xs[i])
    ensures Good(BlobsCodec(), xs, SliceSize(DataSize, xs))
  {
    hide Good, DataCodec;
    forall i | 0 <= i < |xs| ensures Good(DataCodec(), xs[i], DataSize(xs[i])) {
      DataGood(xs[i]);
    }
    SliceGood(DataCodec(), SIZEOF_BYTES, DataSize, xs);
  }

  lemma {:induction false} SignaturesGood(xs: seq<TransactionSignature<Digest>>)
    requires SliceFits(xs, SIZEOF_SIGNATURE) && forall i :: 0 <= i < |xs| ==> SignatureFits(xs[i])
    ensures Good(SignaturesCodec(), xs, SliceSize(SignatureSize<Digest>, xs))
  {
    hide Good, SignatureCodec, SignatureSize, SignatureFits;
    forall i | 0 <= i < |xs| ensures Good(SignatureCodec(), xs[i], SignatureSize(xs[i])) {
      SignatureGood(xs[i]);
    }
    SliceGood(SignatureCodec(), SIZEOF_SIGNATURE, SignatureSize<Digest>, xs);
  }

  lemma {:induction false} UnsignedGood(t: Transaction<Digest>)
    requires TransactionFits(t) && t.transactionSignatures == []
    ensures Good(UnsignedCodec(), t, UnsignedSize(t))
  {
    hide Good, InputsCodec, OutputsCodec, ContractsCodec, RevisionsCodec, ProofsCodec, FeesCodec, BlobsCodec, ListSize,
         OutputsFit, ConditionsFit, ContractFits, RevisionFits, SignatureFits, CurrencyFits, DataFits, SliceFits;
    InputsGood(t.siacoinInputs);
    OutputsGood(t.siacoinOutputs);
    ContractsGood(t.fileContracts);
    RevisionsGood(t.fileContractRevisions);
    ProofsGood(t.storageProofs);
    FeesGood(t.minerFees);
    BlobsGood(t.arbitraryData);
    var c5, p5, k5 := ThenGood(FeesCodec(), t.minerFees, SliceSize(CurrencySize, t.minerFees),
                               BlobsCodec(), t.arbitraryData, SliceSize(DataSize, t.arbitraryData));
    var c4, p4, k4 := ThenGood(ProofsCodec(), t.storageProofs, SliceSize(ProofSize<Digest>, t.storageProofs), c5, p5,
      k5);
    var c3, p3, k3 := ThenGood(RevisionsCodec(), t.fileContractRevisions,
                               SliceSize(RevisionSize<Digest>, t.fileContractRevisions), c4, p4, k4);
    var c2, p2, k2 := ThenGood(ContractsCodec(), t.fileContracts, SliceSize(ContractSize<Digest>, t.fileContracts),
      c3, p3, k3);
    var c1, p1, k1 := ThenGood(OutputsCodec(), t.siacoinOutputs, SliceSize(OutputSize<Digest>, t.siacoinOutputs), c2,
      p2, k2);
    var c, _, k := ThenGood(InputsCodec(), t.siacoinInputs, SliceSize(InputSize<Digest>, t.siacoinInputs), c1, p1, k1);
    ViaGood(c, UnsignedFields, UnsignedOf, t, k);
  }

  /** Signatures matter neither to the limits nor to the size of the rest. */
  lemma {:induction false} WithoutSignatures<H>(t: Transaction<H>)
    requires TransactionFits(t)
    ensures var u := t.(transactionSignatures := []);
            TransactionFits(u) && UnsignedSize(u) == UnsignedSize(t)
    ensures SliceFits(t.transactionSignatures, SIZEOF_SIGNATURE)
    ensures forall i :: 0 <= i < |t.transactionSignatures| ==> SignatureFits(t.transactionSignatures[i])
  {
    hide OutputsFit, ConditionsFit, ContractFits, RevisionFits, SignatureFits, CurrencyFits, DataFits, ListSize;
  }

  lemma {:induction false} TransactionGood(t: Transaction<Digest>)
    requires TransactionFits(t)
    ensures Good(TransactionCodec(), t, TransactionSize(t))
  {
    hide Good, UnsignedCodec, SignaturesCodec, TransactionFits, UnsignedSize, SignatureFits, ListSize;
    var u, sigs := t.(transactionSignatures := []), t.transactionSignatures;
    WithoutSignatures(t);
    UnsignedGood(u);
    SignaturesGood(sigs);
    var c, _, k := ThenGood(UnsignedCodec(), u, UnsignedSize(u), SignaturesCodec(), sigs,
      SliceSize(SignatureSize<Digest>, sigs));
    ViaGood(c, SignedFields, SignedOf, t, k);
  }

  // ---------------------------------------------------------------- Block

  type BlockTuple = (Digest, (Nonce, (uint64, (Outputs, seq<Transaction<Digest>>))))

  function BlockFields(b: Block<Digest>): BlockTuple {
    (b.parentID, (b.nonce, (b.timestamp, (b.minerPayouts, b.transactions))))
  }

  function BlockOf(p: BlockTuple): Block<Digest> { Block(p.0, p.1.0, p.1.1.0, p.1.1.1.0, p.1.1.1.1) }

  function BlockCodec(): Codec<Block<Digest>> {
    Via(Then(DigestCodec(), Then(NonceCodec(), Then(WordCodec(), Then(OutputsCodec(), TransactionsCodec())))),
      BlockFields, BlockOf)
  }

  lemma {:induction false} BlockGood(b: Block<Digest>)
    requires BlockFits(b)
    ensures Good(BlockCodec(), b, BlockSize(b))
  {
    hide Good, DigestCodec, NonceCodec, WordCodec, OutputsCodec, TransactionCodec, OutputsFit, TransactionFits,
         TransactionSize, ListSize;
    forall i | 0 <= i < |b.transactions|
      ensures Good(TransactionCodec(), b.transactions[i], TransactionSize(b.transactions[i]))
    {
      TransactionGood(b.transactions[i]);
    }
    SliceGood(TransactionCodec(), SIZEOF_TRANSACTION, TransactionSize<Digest>, b.transactions);
    DigestGood(b.parentID);
    NonceGood(b.nonce);
    WordGood(b.timestamp);
    OutputsGood(b.minerPayouts);
    var c3, p3, k3 := ThenGood(OutputsCodec(), b.minerPayouts, SliceSize(OutputSize<Digest>, b.minerPayouts),
                               TransactionsCodec(), b.transactions, SliceSize(TransactionSize<Digest>, b.transactions));
    var c2, p2, k2 := ThenGood(WordCodec(), b.timestamp, 8, c3, p3, k3);
    var c1, p1, k1 := ThenGood(NonceCodec(), b.nonce, 8, c2, p2, k2);
    var c, _, k := ThenGood(DigestCodec(), b.parentID, 32, c1, p1, k1);
    ViaGood(c, BlockFields, BlockOf, b, k);
  }

  // ---------------------------------------------------------------- round trips

  /** Every transaction within the decoder's limits, followed by any suffix,
      decodes to itself and leaves the suffix; MarshalSiaSize is its length. */
  lemma {:induction false} TransactionRoundTrips(t: Transaction<Digest>, suffix: bytes)
    requires TransactionFits(t)
    ensures |TransactionCodec().put(t, suffix)| == TransactionSize(t) + |suffix|
    ensures TransactionSize(t) <= MAX_OBJECT_SIZE ==>
              TransactionCodec().parse(Stream(TransactionCodec().put(t, suffix), 0))
              == Some((t, Stream(suffix, TransactionSize(t))))
  {
    hide TransactionCodec, TransactionFits, TransactionSize, Good;
    TransactionGood(t);
    Reads(TransactionCodec(), t, TransactionSize(t), suffix, 0);
  }

  /** The same for blocks. */
  lemma {:induction false} BlockRoundTrips(b: Block<Digest>, suffix: bytes)
    requires BlockFits(b)
    ensures |BlockCodec().put(b, suffix)| == BlockSize(b) + |suffix|
    ensures BlockSize(b) <= MAX_OBJECT_SIZE ==>
              BlockCodec().parse(Stream(BlockCodec().put(b, suffix), 0)) == Some((b, Stream(suffix, BlockSize(b))))
  {
    hide BlockCodec, BlockFits, BlockSize, Good;
    BlockGood(b);
    Reads(BlockCodec(), b, BlockSize(b), suffix, 0);
  }
}
