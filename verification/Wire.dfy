/** The binary form of the consensus types: primitives and slices
    (encoding/marshal.go, encoding/integers.go).

    A codec pairs a writer with a reader. `put(x, tail)` is the encoding of x
    followed by tail, so MarshalSia writes put(x, []). `parse` reads one value
    from a stream and returns the rest, or None where the decoder sets its
    error. The codec of a record is written over the codecs of its fields. */
module Wire {
  import opened Types
  import opened Numerals

  type Digest = b: bytes | |b| == 32 witness seq(32, _ => 0)

  const MAX_OBJECT_SIZE: nat := 12_000_000
  const MAX_SLICE_SIZE: nat := 5_000_000

  /** What is left to read, and how many bytes have been read. */
  datatype Stream = Stream(rest: bytes, n: nat)

  datatype Codec<!T> = Codec(put: (T, bytes) -> bytes, parse: Stream -> Option<(T, Stream)>)

  /** The encoding of x followed by anything reads back as x, leaves the rest
      and counts as k bytes. */
  ghost predicate Returns<T>(c: Codec<T>, x: T, k: nat) {
    forall tail: bytes, n: nat :: n + k <= MAX_OBJECT_SIZE ==>
      c.parse(Stream(c.put(x, tail), n)) == Some((x, Stream(tail, n + k)))
  }

  /** Also, x takes exactly k bytes. */
  ghost predicate Good<T>(c: Codec<T>, x: T, k: nat) {
    Returns(c, x, k) && forall tail: bytes :: |c.put(x, tail)| == k + |tail|
  }

  // ---------------------------------------------------------------- fixed-size reads

  function ReadFull(s: Stream, k: nat): (r: Option<(bytes, Stream)>)
    ensures r.Some? ==> |r.value.0| == k
  {
    if |s.rest| < k || s.n + k > MAX_OBJECT_SIZE then None
    else Some((s.rest[..k], Stream(s.rest[k..], s.n + k)))
  }

  lemma {:induction false} ReadFullPut(b: bytes, tail: bytes, n: nat)
    requires n + |b| <= MAX_OBJECT_SIZE
    ensures ReadFull(Stream(b + tail, n), |b|) == Some((b, Stream(tail, n + |b|)))
  {
    assert (b + tail)[..|b|] == b && (b + tail)[|b|..] == tail;
  }

  function DigestCodec(): Codec<Digest> {
    Codec((d: Digest, tail) => d + tail,
          s => var (b, s1) :- ReadFull(s, 32); var d: Digest := b; Some((d, s1)))
  }

  lemma {:induction false} DigestGood(d: Digest)
    ensures Good(DigestCodec(), d, 32)
  {
    forall tail: bytes, n: nat | n + 32 <= MAX_OBJECT_SIZE
      ensures DigestCodec().parse(Stream(DigestCodec().put(d, tail), n)) == Some((d, Stream(tail, n + 32)))
    {
      ReadFullPut(d, tail, n);
    }
  }

  // ---------------------------------------------------------------- integers and prefixes

  function PutUint64(u: nat, tail: bytes): bytes {
    LittleEndian(u, 8) + tail
  }

  function NextUint64(s: Stream): (r: Option<(uint64, Stream)>) {
    var (b, s1) :- ReadFull(s, 8);
    FromLittleEndianBound(b);
    assert Pow256(8) == 0x1_0000_0000_0000_0000;
    Some((FromLittleEndian(b), s1))
  }

  lemma {:induction false} Uint64RoundTrip(u: uint64, tail: bytes, n: nat)
    requires n + 8 <= MAX_OBJECT_SIZE
    ensures NextUint64(Stream(PutUint64(u, tail), n)) == Some((u, Stream(tail, n + 8)))
  {
    assert Pow256(8) == 0x1_0000_0000_0000_0000;
    LittleEndianRoundTrip(u, 8);
    ReadFullPut(LittleEndian(u, 8), tail, n);
  }

  function WordCodec(): Codec<uint64> {
    Codec((u: uint64, tail) => PutUint64(u, tail), NextUint64)
  }

  lemma {:induction false} WordGood(u: uint64)
    ensures Good(WordCodec(), u, 8)
  {
    forall tail: bytes, n: nat | n + 8 <= MAX_OBJECT_SIZE
      ensures WordCodec().parse(Stream(WordCodec().put(u, tail), n)) == Some((u, Stream(tail, n + 8)))
    {
      Uint64RoundTrip(u, tail, n);
    }
  }

  /** NextPrefix: a length, refused when the slice would exceed MAX_SLICE_SIZE. */
  function NextPrefix(s: Stream, elemSize: nat): (r: Option<(nat, Stream)>) {
    var (k, s1) :- NextUint64(s);
    if k > 0x7FFF_FFFF || k * elemSize > MAX_SLICE_SIZE then None else Some((k, s1))
  }

  lemma {:induction false} PrefixRoundTrip(k: nat, elemSize: nat, tail: bytes, n: nat)
    requires n + 8 <= MAX_OBJECT_SIZE && elemSize > 0 && k * elemSize <= MAX_SLICE_SIZE
    ensures NextPrefix(Stream(PutUint64(k, tail), n), elemSize) == Some((k, Stream(tail, n + 8)))
  {
    assert k <= k * elemSize;
    Uint64RoundTrip(k, tail, n);
  }

  function PutPrefixedBytes(b: bytes, tail: bytes): bytes {
    PutUint64(|b|, b + tail)
  }

  /** ReadPrefixedBytes on a bytes.Buffer, which does not check MAX_OBJECT_SIZE itself. */
  function ReadPrefixedBytes(s: Stream): Option<(bytes, Stream)> {
    var (k, s1) :- NextPrefix(s, 1);
    if |s1.rest| < k then None
    else Some((s1.rest[..k], Stream(s1.rest[k..], s1.n + k)))
  }

  lemma {:induction false} PrefixedBytesRoundTrip(b: bytes, tail: bytes, n: nat)
    requires n + 8 <= MAX_OBJECT_SIZE && |b| <= MAX_SLICE_SIZE
    ensures ReadPrefixedBytes(Stream(PutPrefixedBytes(b, tail), n)) == Some((b, Stream(tail, n + 8 + |b|)))
  {
    PrefixRoundTrip(|b|, 1, b + tail, n);
    assert (b + tail)[..|b|] == b && (b + tail)[|b|..] == tail;
  }

  function DataCodec(): Codec<bytes> {
    Codec(PutPrefixedBytes, ReadPrefixedBytes)
  }

  lemma {:induction false} DataGood(b: bytes)
    requires |b| <= MAX_SLICE_SIZE
    ensures Good(DataCodec(), b, 8 + |b|)
  {
    forall tail: bytes, n: nat | n + (8 + |b|) <= MAX_OBJECT_SIZE
      ensures DataCodec().parse(Stream(DataCodec().put(b, tail), n)) == Some((b, Stream(tail, n + (8 + |b|))))
    {
      PrefixedBytesRoundTrip(b, tail, n);
    }
  }

  /** Currency: the big-endian bytes of the number, with a length prefix. */
  function CurrencyCodec(): Codec<nat> {
    Codec((c: nat, tail) => PutPrefixedBytes(BigEndian(c), tail),
          s => var (b, s1) :- ReadPrefixedBytes(s); Some((FromBigEndian(b), s1)))
  }

  function CurrencySize(c: nat): nat { 8 + |BigEndian(c)| }

  lemma {:induction false} CurrencyRoundTrip(c: nat, tail: bytes, n: nat)
    requires |BigEndian(c)| <= MAX_SLICE_SIZE && n + CurrencySize(c) <= MAX_OBJECT_SIZE
    ensures CurrencyCodec().parse(Stream(CurrencyCodec().put(c, tail), n))
            == Some((c, Stream(tail, n + CurrencySize(c))))
  {
    BigEndianRoundTrip(c);
    PrefixedBytesRoundTrip(BigEndian(c), tail, n);
  }

  lemma {:induction false} CurrencyGood(c: nat)
    requires |BigEndian(c)| <= MAX_SLICE_SIZE
    ensures Good(CurrencyCodec(), c, CurrencySize(c))
  {
    forall tail: bytes, n: nat | n + CurrencySize(c) <= MAX_OBJECT_SIZE
      ensures CurrencyCodec().parse(Stream(CurrencyCodec().put(c, tail), n))
              == Some((c, Stream(tail, n + CurrencySize(c))))
    {
      CurrencyRoundTrip(c, tail, n);
    }
  }

  // ---------------------------------------------------------------- slices

  function PutList<T>(c: Codec<T>, xs: seq<T>, tail: bytes): bytes {
    if xs == [] then tail else c.put(xs[0], PutList(c, xs[1..], tail))
  }

  function ParseList<T>(c: Codec<T>, k: nat, s: Stream): (r: Option<(seq<T>, Stream)>)
    ensures r.Some? ==> |r.value.0| == k
    decreases k
  {
    if k == 0 then Some(([], s))
    else
      var (x, s1) :- c.parse(s);
      var (xs, s2) :- ParseList(c, k - 1, s1);
      Some(([x] + xs, s2))
  }

  function PutSlice<T>(c: Codec<T>, xs: seq<T>, tail: bytes): bytes {
    PutUint64(|xs|, PutList(c, xs, tail))
  }

  function ParseSlice<T>(c: Codec<T>, elemSize: nat, s: Stream): Option<(seq<T>, Stream)> {
    var (k, s1) :- NextPrefix(s, elemSize);
    ParseList(c, k, s1)
  }

  function SliceCodec<T>(c: Codec<T>, elemSize: nat): Codec<seq<T>> {
    Codec((xs: seq<T>, tail) => PutSlice(c, xs, tail), s => ParseSlice(c, elemSize, s))
  }

  function ListSize<T>(size: T -> nat, xs: seq<T>): nat {
    if xs == [] then 0 else size(xs[0]) + ListSize(size, xs[1..])
  }

  function SliceSize<T>(size: T -> nat, xs: seq<T>): nat {
    8 + ListSize(size, xs)
  }

  lemma {:induction false} ListReturns<T>(c: Codec<T>, size: T -> nat, xs: seq<T>, tail: bytes, n: nat)
    requires forall i :: 0 <= i < |xs| ==> Returns(c, xs[i], size(xs[i]))
    requires n + ListSize(size, xs) <= MAX_OBJECT_SIZE
    ensures ParseList(c, |xs|, Stream(PutList(c, xs, tail), n)) == Some((xs, Stream(tail, n + ListSize(size, xs))))
  {
    if xs != [] {
      var rest := PutList(c, xs[1..], tail);
      assert Returns(c, xs[0], size(xs[0]));
      assert c.parse(Stream(c.put(xs[0], rest), n)) == Some((xs[0], Stream(rest, n + size(xs[0]))));
      ListReturns(c, size, xs[1..], tail, n + size(xs[0]));
      assert [xs[0]] + xs[1..] == xs;
    }
  }

  lemma {:induction false} ListMeasure<T>(c: Codec<T>, size: T -> nat, xs: seq<T>, tail: bytes)
    requires forall i :: 0 <= i < |xs| ==> Good(c, xs[i], size(xs[i]))
    ensures |PutList(c, xs, tail)| == ListSize(size, xs) + |tail|
  {
    if xs != [] {
      assert Good(c, xs[0], size(xs[0]));
      ListMeasure(c, size, xs[1..], tail);
    }
  }

  /** A slice of values that read back, and that is short enough, reads back. */
  lemma {:induction false} SliceReturns<T>(c: Codec<T>, elemSize: nat, size: T -> nat, xs: seq<T>)
    requires forall i :: 0 <= i < |xs| ==> Returns(c, xs[i], size(xs[i]))
    requires elemSize > 0 && |xs| * elemSize <= MAX_SLICE_SIZE
    ensures Returns(SliceCodec(c, elemSize), xs, SliceSize(size, xs))
  {
    var k := SliceSize(size, xs);
    forall tail: bytes, n: nat | n + k <= MAX_OBJECT_SIZE
      ensures ParseSlice(c, elemSize, Stream(PutSlice(c, xs, tail), n)) == Some((xs, Stream(tail, n + k)))
    {
      PrefixRoundTrip(|xs|, elemSize, PutList(c, xs, tail), n);
      ListReturns(c, size, xs, tail, n + 8);
    }
    SliceLift(c, elemSize, xs, k);
  }

  lemma {:induction false} SliceLift<T>(c: Codec<T>, elemSize: nat, xs: seq<T>, k: nat)
    requires forall tail: bytes, n: nat :: n + k <= MAX_OBJECT_SIZE ==>
               ParseSlice(c, elemSize, Stream(PutSlice(c, xs, tail), n)) == Some((xs, Stream(tail, n + k)))
    ensures Returns(SliceCodec(c, elemSize), xs, k)
  {
  }

  lemma {:induction false} SliceGood<T>(c: Codec<T>, elemSize: nat, size: T -> nat, xs: seq<T>)
    requires forall i :: 0 <= i < |xs| ==> Good(c, xs[i], size(xs[i]))
    requires elemSize > 0 && |xs| * elemSize <= MAX_SLICE_SIZE
    ensures Good(SliceCodec(c, elemSize), xs, SliceSize(size, xs))
  {
    forall i | 0 <= i < |xs|
      ensures Returns(c, xs[i], size(xs[i]))
    {
      assert Good(c, xs[i], size(xs[i]));
    }
    SliceReturns(c, elemSize, size, xs);
    forall tail: bytes
      ensures |PutSlice(c, xs, tail)| == SliceSize(size, xs) + |tail|
    {
      ListMeasure(c, size, xs, tail);
    }
  }

  /** A slice that is too long is refused, whatever its elements. */
  lemma {:induction false} LongSliceRefused<T>(c: Codec<T>, elemSize: nat, xs: seq<T>, tail: bytes, n: nat)
    requires |xs| * elemSize > MAX_SLICE_SIZE && |xs| < 0x1_0000_0000_0000_0000 && n + 8 <= MAX_OBJECT_SIZE
    ensures Refuses(SliceCodec(c, elemSize), xs, tail, n)
  {
    hide PutList;
    Uint64RoundTrip(|xs|, PutList(c, xs, tail), n);
  }

  // ---------------------------------------------------------------- records

  /** One value after another. */
  function Then<A, B>(a: Codec<A>, b: Codec<B>): Codec<(A, B)> {
    Codec((p: (A, B), tail) => a.put(p.0, b.put(p.1, tail)),
          s => var (x, s1) :- a.parse(s); var (y, s2) :- b.parse(s1); Some(((x, y), s2)))
  }

  /** A record, by way of the tuple of its fields. */
  function Via<A, R>(c: Codec<A>, to: R -> A, from: A -> R): Codec<R> {
    Codec((r: R, tail) => c.put(to(r), tail), s => var (x, s1) :- c.parse(s); Some((from(x), s1)))
  }

  lemma {:induction false} ThenReturns<A, B>(a: Codec<A>, x: A, j: nat, b: Codec<B>, y: B, k: nat)
      returns (c: Codec<(A, B)>, p: (A, B), n: nat)
    requires Returns(a, x, j) && Returns(b, y, k)
    ensures c == Then(a, b) && p == (x, y) && n == j + k && Returns(c, p, n)
  {
    c, p, n := Then(a, b), (x, y), j + k;
    forall tail: bytes, m: nat | m + n <= MAX_OBJECT_SIZE
      ensures c.parse(Stream(c.put(p, tail), m)) == Some((p, Stream(tail, m + n)))
    {
      var t := b.put(y, tail);
      assert a.parse(Stream(a.put(x, t), m)) == Some((x, Stream(t, m + j)));
      assert b.parse(Stream(t, m + j)) == Some((y, Stream(tail, m + j + k)));
    }
  }

  /** Good parts make a good pair. Returns the pair's codec, value and size. */
  lemma {:induction false} ThenGood<A, B>(a: Codec<A>, x: A, j: nat, b: Codec<B>, y: B, k: nat)
      returns (c: Codec<(A, B)>, p: (A, B), n: nat)
    requires Good(a, x, j) && Good(b, y, k)
    ensures c == Then(a, b) && p == (x, y) && n == j + k && Good(c, p, n)
  {
    c, p, n := ThenReturns(a, x, j, b, y, k);
    forall tail: bytes
      ensures |c.put(p, tail)| == n + |tail|
    {
      assert |b.put(y, tail)| == k + |tail|;
    }
  }

  lemma {:induction false} ViaReturns<A, R>(c: Codec<A>, to: R -> A, from: A -> R, r: R, k: nat)
    requires Returns(c, to(r), k) && from(to(r)) == r
    ensures Returns(Via(c, to, from), r, k)
  {
    var v := Via(c, to, from);
    forall tail: bytes, n: nat | n + k <= MAX_OBJECT_SIZE
      ensures v.parse(Stream(v.put(r, tail), n)) == Some((r, Stream(tail, n + k)))
    {
      assert c.parse(Stream(c.put(to(r), tail), n)) == Some((to(r), Stream(tail, n + k)));
    }
  }

  lemma {:induction false} ViaGood<A, R>(c: Codec<A>, to: R -> A, from: A -> R, r: R, k: nat)
    requires Good(c, to(r), k) && from(to(r)) == r
    ensures Good(Via(c, to, from), r, k)
  {
    ViaReturns(c, to, from, r, k);
    forall tail: bytes
      ensures |Via(c, to, from).put(r, tail)| == k + |tail|
    {
      assert |c.put(to(r), tail)| == k + |tail|;
    }
  }

  lemma {:induction false} ThenPut<A, B>(a: Codec<A>, b: Codec<B>, x: A, y: B, tail: bytes)
    ensures Then(a, b).put((x, y), tail) == a.put(x, b.put(y, tail))
  {
  }

  lemma {:induction false} ViaPut<A, R>(c: Codec<A>, to: R -> A, from: A -> R, r: R, tail: bytes)
    ensures Via(c, to, from).put(r, tail) == c.put(to(r), tail)
  {
  }

  /** The encoding of x is refused, n bytes into an object. */
  ghost predicate Refuses<T>(c: Codec<T>, x: T, tail: bytes, n: nat) {
    c.parse(Stream(c.put(x, tail), n)) == None
  }

  /** A pair is refused when its second part is. Returns the pair. */
  lemma {:induction false} ThenRefuses<A, B>(a: Codec<A>, x: A, j: nat, b: Codec<B>, y: B, tail: bytes, n: nat)
      returns (c: Codec<(A, B)>, p: (A, B))
    requires Returns(a, x, j) && Refuses(b, y, tail, n + j) && n + j <= MAX_OBJECT_SIZE
    ensures c == Then(a, b) && p == (x, y) && Refuses(c, p, tail, n)
  {
    c, p := Then(a, b), (x, y);
    var t := b.put(y, tail);
    assert a.parse(Stream(a.put(x, t), n)) == Some((x, Stream(t, n + j)));
  }

  /** Or when its first part is. */
  lemma {:induction false} HeadRefuses<A, B>(a: Codec<A>, x: A, b: Codec<B>, y: B, tail: bytes, n: nat)
      returns (c: Codec<(A, B)>, p: (A, B))
    requires Refuses(a, x, b.put(y, tail), n)
    ensures c == Then(a, b) && p == (x, y) && Refuses(c, p, tail, n)
  {
    c, p := Then(a, b), (x, y);
  }

  lemma {:induction false} ViaRefuses<A, R>(c: Codec<A>, to: R -> A, from: A -> R, r: R, tail: bytes, n: nat)
    requires Refuses(c, to(r), tail, n)
    ensures Refuses(Via(c, to, from), r, tail, n)
  {
  }

  lemma {:induction false} GoodReturns<T>(c: Codec<T>, x: T, k: nat)
    requires Good(c, x, k)
    ensures Returns(c, x, k)
  {
  }

  /** What a good value's encoding is. */
  lemma {:induction false} Reads<T>(c: Codec<T>, x: T, k: nat, tail: bytes, n: nat)
    requires Good(c, x, k)
    ensures |c.put(x, tail)| == k + |tail|
    ensures n + k <= MAX_OBJECT_SIZE ==> c.parse(Stream(c.put(x, tail), n)) == Some((x, Stream(tail, n + k)))
  {
  }
}
