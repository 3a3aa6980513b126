/** Golomb-coded set filters (gcs/gcs.go). */
module Gcs {
  import opened Types
  import opened Numerals
  import opened Sorting
  import opened BitStreams
  import opened GolombCode

  /** The keyed hash of the siphash library. */
  type Hasher = (bytes, bytes) -> uint64

  datatype Filter = Filter(n: nat, p: uint8, modulusNP: nat, filterNData: seq<uint8>)

  datatype Error = NoData | NTooBig | PTooBig | Misserialized
  datatype Result = Ok(filter: Filter) | Err(error: Error)

  /** What Match and MatchAny need not to panic: a modulus to divide by, a
      remainder of at most 64 bits, and the four bytes of n. */
  predicate Usable(f: Filter) {
    f.modulusNP > 0 && f.p <= 64 && |f.filterNData| >= 4
  }

  function Hashed(hash: Hasher, key: bytes, d: bytes, modulus: nat): nat
    requires modulus > 0
  {
    hash(key, d) % modulus
  }

  function Hashes(hash: Hasher, key: bytes, data: seq<bytes>, modulus: nat): (hs: seq<int>)
    requires modulus > 0
    ensures |hs| == |data| && forall i :: 0 <= i < |data| ==> hs[i] == Hashed(hash, key, data[i], modulus)
  {
    seq(|data|, i requires 0 <= i < |data| => Hashed(hash, key, data[i], modulus))
  }

  /** binary.BigEndian.PutUint32 and Uint32. */
  function Put32(n: nat): (b: seq<uint8>)
    requires n < 0x1_0000_0000
    ensures |b| == 4
  {
    [n / 256 / 256 / 256, n / 256 / 256 % 256, n / 256 % 256, n % 256]
  }

  function Get32(b: seq<uint8>): (n: nat)
    requires |b| == 4
    ensures n < 0x1_0000_0000
  {
    (((b[0] as int) * 256 + b[1]) * 256 + b[2]) * 256 + b[3]
  }

  lemma Get32Put32(n: nat)
    requires n < 0x1_0000_0000
    ensures Get32(Put32(n)) == n
  {
  }

  lemma {:induction false} Get32IsBigEndian(b: seq<uint8>)
    requires |b| == 4
    ensures Get32(b) == FromBigEndian(b)
  {
    var b1, b2, b3 := b[..3], b[..2], b[..1];
    assert b1[..2] == b2 && b2[..1] == b3 && b3[..0] == [];
    assert FromBigEndian(b3) == b[0] && FromBigEndian(b2) == FromBigEndian(b3) * 256 + b[1];
  }

  // ---------------------------------------------------------------- reading

  /** readFullUint64. */
  method ReadFullUint64(b: BitReader, p: nat) returns (value: nat, ok: bool)
    requires b.Valid() && p <= 64
    modifies b
    ensures b.Valid()
    ensures ok <==> DecodeOne(old(b.Remaining()), p).Some?
    ensures ok ==> DecodeOne(old(b.Remaining()), p) == Some((value, b.Remaining()))
  {
    hide BitReader.Valid, BitReader.Remaining, Number, Pow2, DecodeOne;
    ghost var bits := b.Remaining();
    DecodeParts(bits, p);
    var v, rem;
    v, ok := b.ReadUnary();
    if !ok {
      return 0, false;
    }
    rem, ok := b.ReadNBits(p);
    if !ok {
      return 0, false;
    }
    value := (v * Pow2(p) + rem) % WORD;
  }

  lemma {:induction false} DecodeParts(b: seq<bool>, p: nat)
    ensures Ones(b) >= |b| ==> DecodeOne(b, p) == None
    ensures Ones(b) < |b| ==> var rest := b[Ones(b) + 1..];
              DecodeOne(b, p) == if p > |rest| then None
                else Some(((Ones(b) * Pow2(p) + Number(rest[..p])) % WORD, rest[p..]))
  {
    hide Ones, Number, Pow2;
  }

  /** The differences that the data of a filter decodes to. */
  function Decoded(f: Filter): seq<nat>
    requires |f.filterNData| >= 4
  {
    DecodeAll(AllBits(f.filterNData[4..]), f.p)
  }

  lemma {:induction false} DecodeStep(b: seq<bool>, p: nat)
    ensures DecodeOne(b, p) == None ==> DecodeAll(b, p) == []
    ensures DecodeOne(b, p).Some? ==> DecodeAll(b, p) != [] && DecodeAll(b, p)[0] == DecodeOne(b, p).value.0
                                       && DecodeAll(b, p)[1..] == DecodeAll(DecodeOne(b, p).value.1, p)
  {
    hide DecodeOne;
  }

  /** Match, on any usable filter. */
  method Match(f: Filter, hash: Hasher, key: bytes, data: bytes) returns (found: bool)
    requires Usable(f)
    ensures found <==> Meets(Decoded(f), 0, Hashed(hash, key, data, f.modulusNP))
  {
    hide DecodeOne, DecodeAll, AllBits, BitReader.Valid, BitReader.Remaining;
    var b := new BitReader(f.filterNData[4..]);
    var term := Hashed(hash, key, data, f.modulusNP);
    var lastValue := 0;
    while lastValue < term
      invariant b.Valid() && fresh(b)
      invariant Meets(Decoded(f), 0, term) == Meets(DecodeAll(b.Remaining(), f.p), lastValue, term)
      decreases |b.Remaining()|
    {
      ghost var bits := b.Remaining();
      DecodeStep(bits, f.p);
      var value, ok := ReadFullUint64(b, f.p);
      if !ok {
        return false;
      }
      value := (value + lastValue) % WORD;
      if value == term {
        return true;
      }
      lastValue := value;
    }
    return false;
  }

  /** MatchAny, on any usable filter. */
  method MatchAny(f: Filter, hash: Hasher, key: bytes, data: seq<bytes>) returns (found: bool)
    requires Usable(f)
    ensures found <==> data != [] && ZipsAny(f, hash, key, data)
  {
    hide DecodeOne, DecodeAll, AllBits, Sort, BitReader.Valid, BitReader.Remaining;
    if |data| == 0 {
      return false;
    }
    var b := new BitReader(f.filterNData[4..]);
    var values := HashAll(hash, key, data, f.modulusNP);
    SortedHashes(hash, key, data, f.modulusNP);
    var terms := Sort(values);
    var lastValue1, lastValue2 := 0, terms[0];
    var i := 1;
    while lastValue1 != lastValue2
      invariant b.Valid() && fresh(b) && 0 < i <= |terms|
      invariant Zips(Decoded(f), 0, terms, 1, terms[0])
                == Zips(DecodeAll(b.Remaining(), f.p), lastValue1, terms, i, lastValue2)
      decreases |b.Remaining()| + |terms| - i
    {
      if lastValue1 > lastValue2 {
        if i < |terms| {
          lastValue2 := terms[i];
          i := i + 1;
        } else {
          return false;
        }
      } else {
        DecodeStep(b.Remaining(), f.p);
        var value, ok := ReadFullUint64(b, f.p);
        if !ok {
          return false;
        }
        lastValue1 := (lastValue1 + value) % WORD;
      }
    }
    return true;
  }

  method HashAll(hash: Hasher, key: bytes, data: seq<bytes>, modulus: nat) returns (values: seq<int>)
    requires modulus > 0
    ensures values == Hashes(hash, key, data, modulus)
  {
    values := [];
    for i := 0 to |data|
      invariant |values| == i && forall j :: 0 <= j < i ==> values[j] == Hashed(hash, key, data[j], modulus)
    {
      values := values + [Hashed(hash, key, data[i], modulus)];
    }
  }

  ghost predicate ZipsAny(f: Filter, hash: Hasher, key: bytes, data: seq<bytes>)
    requires Usable(f) && data != []
  {
    var terms := Sort(Hashes(hash, key, data, f.modulusNP));
    SortSorts(Hashes(hash, key, data, f.modulusNP));
    Zips(Decoded(f), 0, terms, 1, terms[0])
  }

  lemma {:induction false} SortedHashes(hash: Hasher, key: bytes, data: seq<bytes>, modulus: nat)
    requires modulus > 0
    ensures var hs := Hashes(hash, key, data, modulus);
            Sorted(Sort(hs)) && |Sort(hs)| == |data| && forall v :: v in Sort(hs) <==> v in hs
  {
    var hs := Hashes(hash, key, data, modulus);
    SortSorts(hs);
    assert forall v :: v in Sort(hs) <==> v in multiset(Sort(hs));
    assert forall v :: v in hs <==> v in multiset(hs);
  }

  // ---------------------------------------------------------------- building

  const MAX_INT32: nat := 0x7FFF_FFFF

  /** What NewFilter has built: the sorted hashes, coded as differences and
      padded with fewer than eight zero bits. */
  ghost predicate Built(f: Filter, hash: Hasher, key: bytes, data: seq<bytes>) {
    && 0 < |data| <= MAX_INT32 && f.p <= 32
    && f.n == |data| && f.modulusNP == |data| * Pow2(f.p)
    && |f.filterNData| >= 4 && f.filterNData[..4] == Put32(f.n)
    && f.modulusNP > 0
    && var values := Sort(Hashes(hash, key, data, f.modulusNP));
    && Ascending(values, 0)
    && exists k :: 0 <= k < 8 && AllBits(f.filterNData[4..]) == CodeAll(Differences(values, 0), f.p) + Zeros(k)
  }

  /** The unary part, the zero and the remainder of one difference. */
  method WriteParts(b: BitWriter, multiple: nat, remainder: uint64, p: nat)
    requires b.Valid() && p <= 32
    modifies b
    ensures b.Valid() && b.Contents() == old(b.Contents()) + (Trues(multiple) + [false] + Bits(remainder, p))
  {
    hide BitWriter.Valid, BitWriter.Contents, Bits;
    var value := multiple;
    while value > 0
      invariant b.Valid() && 0 <= value <= multiple
      invariant b.Contents() == old(b.Contents()) + Trues(multiple - value)
      decreases value
    {
      b.WriteOne();
      assert Trues(multiple - value) + [true] == Trues(multiple - value + 1);
      value := value - 1;
    }
    b.WriteZero();
    b.WriteNBits(remainder, p);
    assert b.Contents() == old(b.Contents()) + Trues(multiple) + [false] + Bits(remainder, p);
  }

  method WriteCode(b: BitWriter, d: uint64, p: nat)
    requires b.Valid() && p <= 32
    modifies b
    ensures b.Valid() && b.Contents() == old(b.Contents()) + Code(d, p)
  {
    hide BitWriter.Valid, BitWriter.Contents, Bits, Pow2, Multiple, Remainder;
    var modP := Pow2(p);
    Together(d, modP);
    WriteParts(b, Multiple(d, modP), Remainder(d, modP), p);
  }

  method WriteValues(values: seq<int>, p: nat) returns (b: BitWriter)
    requires Ascending(values, 0) && p <= 32
    ensures fresh(b) && b.Valid() && b.Contents() == CodeAll(Differences(values, 0), p)
  {
    hide BitWriter.Valid, BitWriter.Contents, Code;
    b := new BitWriter();
    var lastValue := 0;
    ghost var ds := Differences(values, 0);
    for i := 0 to |values|
      invariant fresh(b) && b.Valid() && b.Contents() == CodeAll(ds[..i], p)
      invariant lastValue == if i == 0 then 0 else values[i - 1]
    {
      DifferenceAt(values, 0, i);
      WriteCode(b, values[i] - lastValue, p);
      assert ds[..i + 1][..i] == ds[..i];
      lastValue := values[i];
    }
    assert ds[..|values|] == ds;
  }

  lemma {:induction false} DifferenceAt(values: seq<int>, low: int, i: nat)
    requires Ascending(values, low) && i < |values|
    ensures Differences(values, low)[i] == values[i] - if i == 0 then low else values[i - 1]
    ensures values[i] >= if i == 0 then low else values[i - 1]
    decreases |values|
  {
    if i > 0 {
      DifferenceAt(values[1..], values[0], i - 1);
    }
  }

  /** NewFilter. */
  method NewFilter(P: uint8, hash: Hasher, key: bytes, data: seq<bytes>) returns (r: Result)
    ensures r.Err? <==> |data| == 0 || |data| > MAX_INT32 || P > 32
    ensures r.Ok? ==> r.filter.p == P && Built(r.filter, hash, key, data)
  {
    hide Pow2, Sort, AllBits, CodeAll, Differences;
    if |data| == 0 {
      return Err(NoData);
    }
    if |data| > MAX_INT32 {
      return Err(NTooBig);
    }
    if P > 32 {
      return Err(PTooBig);
    }
    var modulus := |data| * Pow2(P);
    ModulusFits(|data|, P);
    var hashes := HashAll(hash, key, data, modulus);
    HashesAscend(hash, key, data, modulus);
    var values := Sort(hashes);
    var b := WriteValues(values, P);
    Padding(b);
    var f := Filter(|data|, P, modulus, Put32(|data|) + b.bytes);
    assert f.filterNData[4..] == b.bytes && f.filterNData[..4] == Put32(|data|);
    return Ok(f);
  }

  /** What a writer leaves unwritten in its last byte is zeros. */
  lemma {:induction false} Padding(b: BitWriter)
    requires b.Valid()
    ensures exists k :: 0 <= k < 8 && AllBits(b.bytes) == b.Contents() + Zeros(k)
  {
    var all := AllBits(b.bytes);
    assert all == all[..|all| - b.free] + all[|all| - b.free..];
  }

  lemma {:induction false} ModulusFits(n: nat, p: nat)
    requires 0 < n <= MAX_INT32 && p <= 32
    ensures 0 < n * Pow2(p) < WORD && Pow2(p) < WORD
  {
    hide Pow2;
    var w := 32;
    Pow2Grows(p, w);
    BigPowers(w);
    Product(n, Pow2(p), Pow2(w));
  }

  lemma Product(n: nat, a: nat, b: nat)
    requires n > 0 && 0 < a <= b
    ensures 0 < n * a <= n * b
  {
  }

  lemma {:induction false} Pow2Grows(a: nat, b: nat)
    requires a <= b
    ensures Pow2(a) <= Pow2(b)
  {
    if a < b {
      Pow2Grows(a, b - 1);
    }
  }

  lemma {:induction false} HashesAscend(hash: Hasher, key: bytes, data: seq<bytes>, modulus: nat)
    requires 0 < modulus < WORD
    ensures Ascending(Sort(Hashes(hash, key, data, modulus)), 0)
  {
    hide Sort;
    SortedHashes(hash, key, data, modulus);
    var values := Sort(Hashes(hash, key, data, modulus));
    forall i | 0 <= i < |values|
      ensures 0 <= values[i] < WORD
    {
      assert values[i] in values;
      assert values[i] in Hashes(hash, key, data, modulus);
    }
  }

  // ---------------------------------------------------------------- exactness

  /** What a built filter decodes to. */
  lemma {:induction false} BuiltDecodes(f: Filter, hash: Hasher, key: bytes, data: seq<bytes>) returns (pad: seq<nat>)
    requires Built(f, hash, key, data)
    ensures AllZero(pad) && Decoded(f) == Differences(Sort(Hashes(hash, key, data, f.modulusNP)), 0) + pad
  {
    hide AllBits, CodeAll, DecodeAll, Differences, Sort, Pow2;
    var values := Sort(Hashes(hash, key, data, f.modulusNP));
    var ds := Differences(values, 0);
    var k :| 0 <= k < 8 && AllBits(f.filterNData[4..]) == CodeAll(ds, f.p) + Zeros(k);
    forall i | 0 <= i < |ds|
      ensures ds[i] < WORD
    {
      DifferenceAt(values, 0, i);
    }
    DecodeCodeAll(ds, f.p, k);
    pad := DecodeAll(Zeros(k), f.p);
  }

  /** Some element of the data has this hash. */
  ghost predicate Stored(hash: Hasher, key: bytes, data: seq<bytes>, modulus: nat, h: int)
    requires modulus > 0
  {
    exists i :: 0 <= i < |data| && hash(key, data[i]) % modulus == h
  }

  lemma {:induction false} StoredIsSorted(hash: Hasher, key: bytes, data: seq<bytes>, modulus: nat, h: int)
    requires modulus > 0
    ensures h in Sort(Hashes(hash, key, data, modulus)) <==> Stored(hash, key, data, modulus, h)
  {
    hide Sort;
    SortedHashes(hash, key, data, modulus);
    var hs := Hashes(hash, key, data, modulus);
    if h in hs {
      var i :| 0 <= i < |hs| && hs[i] == h;
      assert Hashed(hash, key, data[i], modulus) == h;
    }
    if i :| 0 <= i < |data| && Hashed(hash, key, data[i], modulus) == h {
      assert hs[i] == h;
    }
  }

  /** Match on a built filter: the hash is not zero and is stored. */
  lemma {:induction false} MatchIsExact(f: Filter, hash: Hasher, key: bytes, data: seq<bytes>, d: bytes)
    requires Built(f, hash, key, data)
    ensures Meets(Decoded(f), 0, Hashed(hash, key, d, f.modulusNP))
       <==> var h := hash(key, d) % f.modulusNP; h != 0 && Stored(hash, key, data, f.modulusNP, h)
  {
    hide Sort, Differences, Meets, AllBits, CodeAll, Decoded, Stored;
    var values, h := Sort(Hashes(hash, key, data, f.modulusNP)), Hashed(hash, key, d, f.modulusNP);
    var pad := BuiltDecodes(f, hash, key, data);
    MeetsExactly(values, 0, pad, h);
    StoredIsSorted(hash, key, data, f.modulusNP, h);
  }

  /** MatchAny on a built filter: some hash is zero or is stored. */
  lemma {:induction false} MatchAnyIsExact(f: Filter, hash: Hasher, key: bytes, data: seq<bytes>, queries: seq<bytes>)
    requires Built(f, hash, key, data) && queries != []
    ensures ZipsAny(f, hash, key, queries)
       <==> exists i :: 0 <= i < |queries| &&
              var h := hash(key, queries[i]) % f.modulusNP; h == 0 || Stored(hash, key, data, f.modulusNP, h)
  {
    hide Sort, Differences, Zips, AllBits, CodeAll, Decoded, Stored;
    var values := Sort(Hashes(hash, key, data, f.modulusNP));
    var hs := Hashes(hash, key, queries, f.modulusNP);
    var terms := Sort(hs);
    var pad := BuiltDecodes(f, hash, key, data);
    SortedHashes(hash, key, queries, f.modulusNP);
    ZipsExactly(values, 0, pad, terms, 1);
    forall h
      ensures h in values <==> Stored(hash, key, data, f.modulusNP, h)
    {
      StoredIsSorted(hash, key, data, f.modulusNP, h);
    }
    if j :| 0 <= j < |terms| && (terms[j] == 0 || terms[j] in values) {
      assert terms[j] in hs;
      var i :| 0 <= i < |hs| && hs[i] == terms[j];
      assert Hashed(hash, key, queries[i], f.modulusNP) == terms[j];
    }
    if i :| 0 <= i < |queries| &&
            var h := hash(key, queries[i]) % f.modulusNP; h == 0 || Stored(hash, key, data, f.modulusNP, h) {
      assert hs[i] in hs && hs[i] in terms;
      var j :| 0 <= j < |terms| && terms[j] == hs[i];
    }
  }

  /** A member is never missed by MatchAny, and by Match only if its hash is zero. */
  lemma {:induction false} MembersAreFound(f: Filter, hash: Hasher, key: bytes, data: seq<bytes>, queries: seq<bytes>,
                                           d: bytes)
    requires Built(f, hash, key, data) && d in data && d in queries
    ensures ZipsAny(f, hash, key, queries)
    ensures Meets(Decoded(f), 0, Hashed(hash, key, d, f.modulusNP)) <==> Hashed(hash, key, d, f.modulusNP) != 0
  {
    hide Sort, Built, ZipsAny, Meets, Decoded;
    assert f.modulusNP > 0 && |f.filterNData| >= 4 by { BuiltIsUsable(f, hash, key, data); }
    MatchIsExact(f, hash, key, data, d);
    MatchAnyIsExact(f, hash, key, data, queries);
    var i :| 0 <= i < |data| && data[i] == d;
    var j :| 0 <= j < |queries| && queries[j] == d;
    assert Hashed(hash, key, data[i], f.modulusNP) == Hashed(hash, key, queries[j], f.modulusNP);
  }

  /** Match does miss a member, whatever the hash: with P = 0, which NewFilter
      accepts, the hash of the only element is taken modulo one. */
  lemma {:induction false} OnlyMemberIsMissed(f: Filter, hash: Hasher, key: bytes, d: bytes)
    requires Built(f, hash, key, [d]) && f.p == 0
    ensures !Meets(Decoded(f), 0, Hashed(hash, key, d, f.modulusNP)) && ZipsAny(f, hash, key, [d])
  {
    hide Decoded, Sort, ZipsAny, Meets;
    assert f.modulusNP == 1;
    MembersAreFound(f, hash, key, [d], [d], d);
  }

  lemma {:induction false} BuiltIsUsable(f: Filter, hash: Hasher, key: bytes, data: seq<bytes>)
    requires Built(f, hash, key, data)
    ensures Usable(f)
  {
  }

  // ---------------------------------------------------------------- serialisation

  /** The fields agree with each other, as the constructors leave them. */
  predicate WellFormed(f: Filter) {
    && f.n < 0x1_0000_0000 && |f.filterNData| >= 4 && f.filterNData[..4] == Put32(f.n)
    && f.modulusNP == Modulus(f.n, f.p)
  }

  /** uint64(N) * uint64(1<<P). */
  function Modulus(n: nat, p: nat): nat {
    n * (Pow2(p) % WORD) % WORD
  }

  function FromBytes(n: nat, p: uint8, d: seq<uint8>): Result
    requires n < 0x1_0000_0000
  {
    if p > 32 then Err(PTooBig) else Ok(Filter(n, p, Modulus(n, p), Put32(n) + d))
  }

  function FromNBytes(p: uint8, d: seq<uint8>): Result {
    if |d| < 4 then Err(Misserialized) else Ok(Filter(Get32(d[..4]), p, Modulus(Get32(d[..4]), p), d))
  }

  function FromPBytes(n: nat, d: seq<uint8>): Result
    requires n < 0x1_0000_0000
  {
    if |d| < 1 then Err(Misserialized) else FromBytes(n, d[0], d[1..])
  }

  function FromNPBytes(d: seq<uint8>): Result {
    if |d| < 5 then Err(Misserialized) else FromBytes(Get32(d[..4]), d[4], d[5..])
  }

  function Bytes(f: Filter): seq<uint8>
    requires |f.filterNData| >= 4
  {
    f.filterNData[4..]
  }

  function NBytes(f: Filter): seq<uint8> { f.filterNData }

  function PBytes(f: Filter): seq<uint8>
    requires |f.filterNData| >= 4
  {
    [f.p] + f.filterNData[4..]
  }

  function NPBytes(f: Filter): seq<uint8>
    requires |f.filterNData| >= 4
  {
    f.filterNData[..4] + [f.p] + f.filterNData[4..]
  }

  /** The form with n reads back as the same filter; the other three do exactly
      when p is within the limit that they check. */
  lemma {:induction false} RoundTrips(f: Filter)
    requires WellFormed(f)
    ensures FromNBytes(f.p, NBytes(f)) == Ok(f)
    ensures FromBytes(f.n, f.p, Bytes(f)) == Ok(f) <==> f.p <= 32
    ensures FromPBytes(f.n, PBytes(f)) == Ok(f) <==> f.p <= 32
    ensures FromNPBytes(NPBytes(f)) == Ok(f) <==> f.p <= 32
  {
    hide Pow2, Put32, Get32;
    Get32Put32(f.n);
    assert Put32(f.n) + f.filterNData[4..] == f.filterNData;
    assert PBytes(f)[1..] == f.filterNData[4..];
    assert NPBytes(f)[..4] == f.filterNData[..4] && NPBytes(f)[5..] == f.filterNData[4..];
  }

  /** What NewFilter builds is well formed. */
  lemma {:induction false} BuiltIsWellFormed(f: Filter, hash: Hasher, key: bytes, data: seq<bytes>)
    requires Built(f, hash, key, data)
    ensures WellFormed(f)
  {
    hide Pow2, Sort, AllBits, CodeAll, Differences, Put32;
    ModulusFits(f.n, f.p);
    Wraps(Pow2(f.p));
    Wraps(f.n * Pow2(f.p));
  }

  lemma Wraps(x: nat)
    requires x < WORD
    ensures x % WORD == x
  {
  }
}
