/** The stored form of a processed block (modules/consensus/processedblock.go,
    modules/consensus/consensusdb.go), and when it reads back.

    A processedBlock has no MarshalSia of its own: the encoder writes its fields
    in order. Fields whose types have one, such as the block and the outputs in
    the diffs, are read by a decoder of their own, whose count starts at zero
    and is not added to the outer one. */
module WireStore {
  import opened Types
  import opened Wire
  import opened WireTypes
  import opened WireRecords
  import opened WireLimits
  import opened Diffs
  import opened Buckets
  import opened Storage

  /** DelayedSiacoinOutputDiff. */
  datatype StoredDelayed = StoredDelayed(direction: bool, id: Digest, value: SiacoinOutput<Digest>,
    maturityHeight: uint64)

  /** A processedBlock; targets are byte arrays. */
  datatype StoredBlock = StoredBlock(
    block: Block<Digest>,
    height: uint64,
    depth: Digest,
    childTarget: Digest,
    diffsGenerated: bool,
    outputDiffs: seq<Diff<Digest, SiacoinOutput<Digest>>>,
    contractDiffs: seq<Diff<Digest, FileContract<Digest>>>,
    delayedDiffs: seq<StoredDelayed>,
    checksum: Digest)

  // ---------------------------------------------------------------- codecs

  /** A value read by a decoder of its own. */
  function Inner<T>(c: Codec<T>): Codec<T> {
    Codec(c.put, (s: Stream) => var (x, s1) :- c.parse(Stream(s.rest, 0)); Some((x, Stream(s1.rest, s.n))))
  }

  lemma {:induction false} InnerReturns<T>(c: Codec<T>, x: T, k: nat)
    requires Good(c, x, k) && k <= MAX_OBJECT_SIZE
    ensures Returns(Inner(c), x, 0)
  {
    forall tail: bytes, n: nat | n <= MAX_OBJECT_SIZE
      ensures Inner(c).parse(Stream(Inner(c).put(x, tail), n)) == Some((x, Stream(tail, n)))
    {
      Reads(c, x, k, tail, 0);
    }
  }

  /** NextBool: any byte but 0 and 1 is an error. */
  function BoolCodec(): Codec<bool> {
    Codec((b: bool, tail) => [if b then 1 else 0] + tail,
          s => var (b, s1) :- ReadFull(s, 1); if b[0] > 1 then None else Some((b[0] == 1, s1)))
  }

  lemma {:induction false} BoolReturns(b: bool)
    ensures Returns(BoolCodec(), b, 1)
  {
    forall tail: bytes, n: nat | n + 1 <= MAX_OBJECT_SIZE
      ensures BoolCodec().parse(Stream(BoolCodec().put(b, tail), n)) == Some((b, Stream(tail, n + 1)))
    {
      ReadFullPut([if b then 1 else 0], tail, n);
    }
  }

  function DiffFields<V>(d: Diff<Digest, V>): (bool, (Digest, V)) { (d.direction, (d.id, d.value)) }

  function DiffOf<V>(p: (bool, (Digest, V))): Diff<Digest, V> { Diff(p.0, p.1.0, p.1.1) }

  function DiffCodec<V>(value: Codec<V>): Codec<Diff<Digest, V>> {
    Via(Then(BoolCodec(), Then(DigestCodec(), Inner(value))), DiffFields<V>, DiffOf<V>)
  }

  lemma {:induction false} DiffReturns<V>(value: Codec<V>, d: Diff<Digest, V>, k: nat)
    requires Good(value, d.value, k) && k <= MAX_OBJECT_SIZE
    ensures Returns(DiffCodec(value), d, 33)
  {
    hide Good, Returns, BoolCodec, DigestCodec, Inner;
    BoolReturns(d.direction);
    DigestGood(d.id);
    GoodReturns(DigestCodec(), d.id, 32);
    InnerReturns(value, d.value, k);
    var c1, p1, k1 := ThenReturns(DigestCodec(), d.id, 32, Inner(value), d.value, 0);
    var c, _, n := ThenReturns(BoolCodec(), d.direction, 1, c1, p1, k1);
    ViaReturns(c, DiffFields<V>, DiffOf<V>, d, n);
  }

  type DelayedTuple = (bool, (Digest, (SiacoinOutput<Digest>, uint64)))

  function DelayedFields(d: StoredDelayed): DelayedTuple { (d.direction, (d.id, (d.value, d.maturityHeight))) }

  function DelayedOf(p: DelayedTuple): StoredDelayed { StoredDelayed(p.0, p.1.0, p.1.1.0, p.1.1.1) }

  function DelayedCodec(): Codec<StoredDelayed> {
    Via(Then(BoolCodec(), Then(DigestCodec(), Then(Inner(OutputCodec()), WordCodec()))), DelayedFields, DelayedOf)
  }

  lemma {:induction false} DelayedReturns(d: StoredDelayed)
    requires CurrencyFits(d.value.value)
    ensures Returns(DelayedCodec(), d, 41)
  {
    hide Good, Returns, BoolCodec, DigestCodec, WordCodec, OutputCodec, Inner, OutputSize;
    BoolReturns(d.direction);
    DigestGood(d.id);
    GoodReturns(DigestCodec(), d.id, 32);
    WordGood(d.maturityHeight);
    GoodReturns(WordCodec(), d.maturityHeight, 8);
    OutputGood(d.value);
    InnerReturns(OutputCodec(), d.value, OutputSize(d.value)) by { OutputIsSmall(d.value); }
    var c2, p2, k2 := ThenReturns(Inner(OutputCodec()), d.value, 0, WordCodec(), d.maturityHeight, 8);
    var c1, p1, k1 := ThenReturns(DigestCodec(), d.id, 32, c2, p2, k2);
    var c, _, k := ThenReturns(BoolCodec(), d.direction, 1, c1, p1, k1);
    ViaReturns(c, DelayedFields, DelayedOf, d, k);
  }

  lemma {:induction false} OutputIsSmall<H>(o: SiacoinOutput<H>)
    requires CurrencyFits(o.value)
    ensures OutputSize(o) <= MAX_OBJECT_SIZE
  {
  }

  function OutputDiffsCodec(): Codec<seq<Diff<Digest, SiacoinOutput<Digest>>>> {
    SliceCodec(DiffCodec(OutputCodec()), SIZEOF_OUTPUT_DIFF)
  }

  function ContractDiffsCodec(): Codec<seq<Diff<Digest, FileContract<Digest>>>> {
    SliceCodec(DiffCodec(ContractCodec()), SIZEOF_CONTRACT_DIFF)
  }

  function DelayedDiffsCodec(): Codec<seq<StoredDelayed>> { SliceCodec(DelayedCodec(), SIZEOF_DELAYED_DIFF) }

  /** What comes after the block, and before the diffs. */
  type HeadTuple = (uint64, (Digest, (Digest, bool)))

  function HeadCodec(): Codec<HeadTuple> {
    Then(WordCodec(), Then(DigestCodec(), Then(DigestCodec(), BoolCodec())))
  }

  function HeadOf(s: StoredBlock): HeadTuple { (s.height, (s.depth, (s.childTarget, s.diffsGenerated))) }

  type StoredTuple = (Block<Digest>, (HeadTuple, (seq<Diff<Digest, SiacoinOutput<Digest>>>,
                       (seq<Diff<Digest, FileContract<Digest>>>, (seq<StoredDelayed>, Digest)))))

  function StoredFields(s: StoredBlock): StoredTuple {
    (s.block, (HeadOf(s), (s.outputDiffs, (s.contractDiffs, (s.delayedDiffs, s.checksum)))))
  }

  function StoredOf(p: StoredTuple): StoredBlock {
    var (block, (head, (outputs, (contracts, (delayed, checksum))))) := p;
    StoredBlock(block, head.0, head.1.0, head.1.1.0, head.1.1.1, outputs, contracts, delayed, checksum)
  }

  function StoredCodec(): Codec<StoredBlock> {
    Via(Then(Inner(BlockCodec()), Then(HeadCodec(), Then(OutputDiffsCodec(), Then(ContractDiffsCodec(),
          Then(DelayedDiffsCodec(), DigestCodec()))))), StoredFields, StoredOf)
  }

  // ---------------------------------------------------------------- lists of diffs

  function Constant<T>(k: nat): T -> nat { (x: T) => k }

  lemma {:induction false} ConstantSize<T>(k: nat, xs: seq<T>)
    ensures ListSize(Constant<T>(k), xs) == |xs| * k
  {
    ListOfEqual(Constant<T>(k), xs, k);
  }

  /** A list of values that count alike reads back if it is short enough. */
  lemma {:induction false} ListReturnsAlike<T>(c: Codec<T>, elemSize: nat, xs: seq<T>, k: nat)
    requires forall i :: 0 <= i < |xs| ==> Returns(c, xs[i], k)
    requires elemSize > 0 && |xs| * elemSize <= MAX_SLICE_SIZE
    ensures Returns(SliceCodec(c, elemSize), xs, 8 + |xs| * k)
  {
    hide Returns;
    ConstantSize(k, xs);
    SliceReturns(c, elemSize, Constant<T>(k), xs);
  }

  /** The values in the diffs are within the decoder's limits. */
  predicate ValuesFit(s: StoredBlock) {
    && (forall i :: 0 <= i < |s.outputDiffs| ==> CurrencyFits(s.outputDiffs[i].value.value))
    && (forall i :: 0 <= i < |s.contractDiffs| ==>
          ContractFits(s.contractDiffs[i].value) && ContractSize(s.contractDiffs[i].value) <= MAX_OBJECT_SIZE)
    && (forall i :: 0 <= i < |s.delayedDiffs| ==> CurrencyFits(s.delayedDiffs[i].value.value))
  }

  function ListCounts(s: StoredBlock): Counts {
    Counts(|s.outputDiffs|, |s.contractDiffs|, |s.delayedDiffs|)
  }

  lemma {:induction false} OutputDiffsReturn(s: StoredBlock)
    requires ValuesFit(s) && |s.outputDiffs| * SIZEOF_OUTPUT_DIFF <= MAX_SLICE_SIZE
    ensures Returns(OutputDiffsCodec(), s.outputDiffs, 8 + |s.outputDiffs| * 33)
  {
    hide Returns, DiffCodec, OutputCodec, Good, OutputSize, CurrencyFits;
    forall i | 0 <= i < |s.outputDiffs|
      ensures Returns(DiffCodec(OutputCodec()), s.outputDiffs[i], 33)
    {
      var o := s.outputDiffs[i].value;
      OutputGood(o);
      OutputIsSmall(o);
      DiffReturns(OutputCodec(), s.outputDiffs[i], OutputSize(o));
    }
    ListReturnsAlike(DiffCodec(OutputCodec()), SIZEOF_OUTPUT_DIFF, s.outputDiffs, 33);
  }

  lemma {:induction false} ContractDiffsReturn(s: StoredBlock)
    requires ValuesFit(s) && |s.contractDiffs| * SIZEOF_CONTRACT_DIFF <= MAX_SLICE_SIZE
    ensures Returns(ContractDiffsCodec(), s.contractDiffs, 8 + |s.contractDiffs| * 33)
  {
    hide Returns, DiffCodec, ContractCodec, Good, ContractSize, ContractFits;
    forall i | 0 <= i < |s.contractDiffs|
      ensures Returns(DiffCodec(ContractCodec()), s.contractDiffs[i], 33)
    {
      var fc := s.contractDiffs[i].value;
      ContractGood(fc);
      DiffReturns(ContractCodec(), s.contractDiffs[i], ContractSize(fc));
    }
    ListReturnsAlike(DiffCodec(ContractCodec()), SIZEOF_CONTRACT_DIFF, s.contractDiffs, 33);
  }

  lemma {:induction false} DelayedDiffsReturn(s: StoredBlock)
    requires ValuesFit(s) && |s.delayedDiffs| * SIZEOF_DELAYED_DIFF <= MAX_SLICE_SIZE
    ensures Returns(DelayedDiffsCodec(), s.delayedDiffs, 8 + |s.delayedDiffs| * 41)
  {
    hide Returns, DelayedCodec, CurrencyFits;
    forall i | 0 <= i < |s.delayedDiffs|
      ensures Returns(DelayedCodec(), s.delayedDiffs[i], 41)
    {
      DelayedReturns(s.delayedDiffs[i]);
    }
    ListReturnsAlike(DelayedCodec(), SIZEOF_DELAYED_DIFF, s.delayedDiffs, 41);
  }

  lemma {:induction false} HeadReturns(s: StoredBlock)
    ensures Returns(HeadCodec(), HeadOf(s), 73)
  {
    hide Returns, Good, WordCodec, DigestCodec, BoolCodec;
    WordGood(s.height);
    GoodReturns(WordCodec(), s.height, 8);
    DigestGood(s.depth);
    GoodReturns(DigestCodec(), s.depth, 32);
    DigestGood(s.childTarget);
    GoodReturns(DigestCodec(), s.childTarget, 32);
    BoolReturns(s.diffsGenerated);
    var c2, p2, k2 := ThenReturns(DigestCodec(), s.childTarget, 32, BoolCodec(), s.diffsGenerated, 1);
    var c1, p1, k1 := ThenReturns(DigestCodec(), s.depth, 32, c2, p2, k2);
    var _, _, _ := ThenReturns(WordCodec(), s.height, 8, c1, p1, k1);
  }

  // ---------------------------------------------------------------- the whole record

  /** How many bytes the outer decoder counts. */
  function Counted(s: StoredBlock): nat {
    73 + (8 + |s.outputDiffs| * 33) + (8 + |s.contractDiffs| * 33) + (8 + |s.delayedDiffs| * 41) + 32
  }

  lemma {:induction false} StoredReturns(s: StoredBlock)
    requires BlockFits(s.block) && BlockSize(s.block) <= MAX_OBJECT_SIZE && ValuesFit(s) && ListsFit(ListCounts(s))
    ensures Returns(StoredCodec(), s, Counted(s)) && Counted(s) <= MAX_OBJECT_SIZE
  {
    hide Returns, Good, Inner, BlockCodec, HeadCodec, OutputDiffsCodec, ContractDiffsCodec, DelayedDiffsCodec,
         DigestCodec, BlockFits, BlockSize, ValuesFit;
    BlockGood(s.block);
    InnerReturns(BlockCodec(), s.block, BlockSize(s.block));
    HeadReturns(s);
    OutputDiffsReturn(s);
    ContractDiffsReturn(s);
    DelayedDiffsReturn(s);
    DigestGood(s.checksum);
    GoodReturns(DigestCodec(), s.checksum, 32);
    var c4, p4, k4 := ThenReturns(DelayedDiffsCodec(), s.delayedDiffs, 8
      + |s.delayedDiffs| * 41, DigestCodec(), s.checksum, 32);
    var c3, p3, k3 := ThenReturns(ContractDiffsCodec(), s.contractDiffs, 8 + |s.contractDiffs| * 33, c4, p4, k4);
    var c2, p2, k2 := ThenReturns(OutputDiffsCodec(), s.outputDiffs, 8 + |s.outputDiffs| * 33, c3, p3, k3);
    var c1, p1, k1 := ThenReturns(HeadCodec(), HeadOf(s), 73, c2, p2, k2);
    var c, _, k := ThenReturns(Inner(BlockCodec()), s.block, 0, c1, p1, k1);
    ViaReturns(c, StoredFields, StoredOf, s, k);
  }

  lemma {:induction false} InnerRefuses<T>(c: Codec<T>, x: T, tail: bytes, n: nat)
    requires Refuses(c, x, tail, 0)
    ensures Refuses(Inner(c), x, tail, n)
  {
  }

  /** A stored block with too many transactions is refused. */
  lemma {:induction false} CrowdedStored(s: StoredBlock, tail: bytes)
    requires OutputsFit(s.block.minerPayouts)
    requires 48 + SliceSize(OutputSize<Digest>, s.block.minerPayouts) <= MAX_OBJECT_SIZE - 8
    requires 26_041 < |s.block.transactions| < WORD
    ensures Refuses(StoredCodec(), s, tail, 0)
  {
    hide Refuses, Inner, BlockCodec, HeadCodec, OutputDiffsCodec, ContractDiffsCodec, DelayedDiffsCodec, OutputsFit,
         OutputSize, ListSize;
    var rest := Then(HeadCodec(),
      Then(OutputDiffsCodec(), Then(ContractDiffsCodec(), Then(DelayedDiffsCodec(), DigestCodec()))));
    var y := StoredFields(s).1;
    CrowdedIsRefused(s.block, rest.put(y, tail), 0);
    InnerRefuses(BlockCodec(), s.block, rest.put(y, tail), 0);
    var c, _ := HeadRefuses(Inner(BlockCodec()), s.block, rest, y, tail, 0);
    ViaRefuses(c, StoredFields, StoredOf, s, tail, 0);
  }

  /** A stored block with a list of diffs that is too long is refused. */
  lemma {:induction false} LongStored(s: StoredBlock, tail: bytes)
    requires BlockFits(s.block) && BlockSize(s.block) <= MAX_OBJECT_SIZE && ValuesFit(s) && !ListsFit(ListCounts(s))
    requires |s.outputDiffs| < WORD && |s.contractDiffs| < WORD && |s.delayedDiffs| < WORD
    ensures Refuses(StoredCodec(), s, tail, 0)
  {
    hide Refuses, Returns, Good, Inner, BlockCodec, HeadCodec, OutputDiffsCodec, ContractDiffsCodec, DelayedDiffsCodec,
         DigestCodec, BlockFits, BlockSize, ValuesFit;
    BlockGood(s.block);
    InnerReturns(BlockCodec(), s.block, BlockSize(s.block));
    HeadReturns(s);
    var c2, p2 := LongLists(s, tail);
    var c1, p1 := ThenRefuses(HeadCodec(), HeadOf(s), 73, c2, p2, tail, 0);
    var c, _ := ThenRefuses(Inner(BlockCodec()), s.block, 0, c1, p1, tail, 0);
    ViaRefuses(c, StoredFields, StoredOf, s, tail, 0);
  }

  type ListsTuple = (seq<Diff<Digest, SiacoinOutput<Digest>>>,
    (seq<Diff<Digest, FileContract<Digest>>>, (seq<StoredDelayed>, Digest)))

  lemma {:induction false} LongLists(s: StoredBlock, tail: bytes) returns (c: Codec<ListsTuple>, p: ListsTuple)
    requires ValuesFit(s) && !ListsFit(ListCounts(s))
    requires |s.outputDiffs| < WORD && |s.contractDiffs| < WORD && |s.delayedDiffs| < WORD
    ensures c == Then(OutputDiffsCodec(), Then(ContractDiffsCodec(), Then(DelayedDiffsCodec(), DigestCodec())))
    ensures p == (s.outputDiffs, (s.contractDiffs, (s.delayedDiffs, s.checksum))) && Refuses(c, p, tail, 73)
  {
    hide Refuses, Returns, SliceCodec, Then, DiffCodec, DelayedCodec, OutputCodec, ContractCodec, DigestCodec,
         ValuesFit;
    var c4, p4 := Then(DelayedDiffsCodec(), DigestCodec()), (s.delayedDiffs, s.checksum);
    var c3, p3 := Then(ContractDiffsCodec(), c4), (s.contractDiffs, p4);
    var n := 73;
    if |s.outputDiffs| * SIZEOF_OUTPUT_DIFF > MAX_SLICE_SIZE {
      LongSliceRefused(DiffCodec(OutputCodec()), SIZEOF_OUTPUT_DIFF, s.outputDiffs, c3.put(p3, tail), n);
      c, p := HeadRefuses(OutputDiffsCodec(), s.outputDiffs, c3, p3, tail, n);
    } else {
      var k := 8 + |s.outputDiffs| * 33;
      OutputDiffsReturn(s);
      if |s.contractDiffs| * SIZEOF_CONTRACT_DIFF > MAX_SLICE_SIZE {
        LongSliceRefused(DiffCodec(ContractCodec()), SIZEOF_CONTRACT_DIFF, s.contractDiffs, c4.put(p4, tail), n + k);
        c3, p3 := HeadRefuses(ContractDiffsCodec(), s.contractDiffs, c4, p4, tail, n + k);
      } else {
        var j := 8 + |s.contractDiffs| * 33;
        ContractDiffsReturn(s);
        LongSliceRefused(DelayedCodec(), SIZEOF_DELAYED_DIFF, s.delayedDiffs, DigestCodec().put(s.checksum, tail), n
          + k + j);
        c4, p4 := HeadRefuses(DelayedDiffsCodec(), s.delayedDiffs, DigestCodec(), s.checksum, tail, n + k + j);
        c3, p3 := ThenRefuses(ContractDiffsCodec(), s.contractDiffs, j, c4, p4, tail, n + k);
      }
      c, p := ThenRefuses(OutputDiffsCodec(), s.outputDiffs, k, c3, p3, tail, n);
    }
  }

  /** A stored block of admissible size reads back if and only if it has at most
      26041 transactions, 48076 output diffs, 23148 contract diffs and 44642
      delayed diffs. Otherwise the decoder refuses it. */
  lemma {:induction false} StoredReadsBack(s: StoredBlock, suffix: bytes)
    requires BlockSize(s.block) <= BLOCK_SIZE_LIMIT && ValuesFit(s)
    requires forall i :: 0 <= i < |s.block.transactions| ==> TransactionSize(s.block.transactions[i]) <= 64_000
    requires |s.outputDiffs| < WORD && |s.contractDiffs| < WORD && |s.delayedDiffs| < WORD
    ensures BlockFits(s.block) && ListsFit(ListCounts(s)) <==>
              && |s.block.transactions| <= 26_041 && |s.outputDiffs| <= 48_076 && |s.contractDiffs| <= 23_148
              && |s.delayedDiffs| <= 44_642
    ensures StoredCodec().parse(Stream(StoredCodec().put(s, suffix), 0))
         == if BlockFits(s.block) && ListsFit(ListCounts(s)) then Some((s, Stream(suffix, Counted(s)))) else None
  {
    hide StoredCodec, TransactionSize, BlockFits, ValuesFit, OutputsFit, OutputSize, ListSize;
    AdmittedBlockFits(s.block);
    if !BlockFits(s.block) {
      TransactionCount(s.block);
      OutputsWithin(s.block.minerPayouts, BLOCK_SIZE_LIMIT);
      CrowdedStored(s, suffix);
    } else if !ListsFit(ListCounts(s)) {
      LongStored(s, suffix);
    } else {
      StoredReturns(s);
    }
  }
}
