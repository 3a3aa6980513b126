/** The Encoder and Decoder objects (encoding/marshal.go) and the loops over
    machine words that write a Currency (types/encoding.go), proved against the
    functions of module Wire. */
module Coders {
  import opened Types
  import opened Numerals
  import opened Wire

  // ---------------------------------------------------------------- Encoder

  /** An Encoder over a writer that takes `limit` bytes and then fails. Once a
      write has failed, all methods are no-ops. */
  class Encoder {
    const limit: nat
    var out: bytes                  // what the writer has taken
    var failed: bool
    ghost var asked: bytes          // everything that was to be written

    /** The writer holds exactly the part of the data that fits, and the error
        is set exactly when something did not fit. */
    ghost predicate Valid()
      reads this
    {
      if failed then |asked| > limit && |out| <= limit && out <= asked else out == asked && |asked| <= limit
    }

    constructor (capacity: nat)
      ensures Valid() && asked == [] && limit == capacity
    {
      limit, out, failed, asked := capacity, [], false, [];
    }

    method Write(p: bytes)
      requires Valid()
      modifies this
      ensures Valid() && asked == old(asked) + p
      ensures old(failed) ==> failed && out == old(out)
    {
      asked := asked + p;
      if failed {
        return;
      }
      var n := if |out| + |p| <= limit then |p| else limit - |out|;
      out := out + p[..n];
      if n != |p| {
        failed := true;
      }
    }

    method WriteByte(b: uint8)
      requires Valid()
      modifies this
      ensures Valid() && asked == old(asked) + [b]
    {
      Write([b]);
    }

    method WriteUint64(u: uint64)
      requires Valid()
      modifies this
      ensures Valid() && asked == old(asked) + PutUint64(u, [])
    {
      Write(LittleEndian(u, 8));
    }

    method WritePrefixedBytes(p: bytes)
      requires Valid() && |p| < 0x1_0000_0000_0000_0000
      modifies this
      ensures Valid() && asked == old(asked) + PutPrefixedBytes(p, [])
    {
      WriteUint64(|p|);
      Write(p);
      assert PutPrefixedBytes(p, []) == LittleEndian(|p|, 8) + p;
    }
  }

  // ---------------------------------------------------------------- Decoder

  class Decoder {
    var rest: bytes
    var n: nat                      // bytes read so far
    var failed: bool

    constructor (input: bytes)
      ensures rest == input && n == 0 && !failed
    {
      rest, n, failed := input, 0, false;
    }

    function At(): Stream
      reads this
    {
      Stream(rest, n)
    }

    /** Once the error is set, nothing is read any more. */
    method ReadFull(k: nat) returns (p: bytes)
      modifies this
      ensures old(failed) ==> failed && At() == old(At())
      ensures !old(failed) ==> (failed <==> Wire.ReadFull(old(At()), k) == None)
      ensures !failed ==> Wire.ReadFull(old(At()), k) == Some((p, At()))
    {
      p := [];
      if failed {
        return;
      }
      var m := if |rest| < k then |rest| else k;
      p := rest[..m];
      rest := rest[m..];
      n := n + m;
      if m < k {
        failed := true;
      }
      if n > MAX_OBJECT_SIZE {
        failed := true;
      }
    }

    method NextUint64() returns (u: uint64)
      modifies this
      ensures old(failed) ==> failed && At() == old(At())
      ensures !old(failed) ==> (failed <==> Wire.NextUint64(old(At())) == None)
      ensures !failed ==> Wire.NextUint64(old(At())) == Some((u, At()))
      ensures failed ==> u == 0
    {
      hide FromLittleEndian;
      var p := ReadFull(8);
      if failed {
        return 0;
      }
      FromLittleEndianBound(p);
      assert Pow256(8) == 0x1_0000_0000_0000_0000;
      u := FromLittleEndian(p);
    }

    /** NextPrefix: too long a slice sets the error and reads as empty. */
    method NextPrefix(elemSize: nat) returns (k: nat)
      requires elemSize < 0x1_0000_0000
      modifies this
      ensures old(failed) ==> failed && At() == old(At())
      ensures !old(failed) ==> (failed <==> Wire.NextPrefix(old(At()), elemSize) == None)
      ensures !failed ==> Wire.NextPrefix(old(At()), elemSize) == Some((k, At()))
      ensures failed ==> k == 0
    {
      hide Wire.NextUint64;
      k := NextUint64();
      if k > 0x7FFF_FFFF || k * elemSize > MAX_SLICE_SIZE {
        failed := true;
        k := 0;
      }
    }

    method ReadPrefixedBytes() returns (b: bytes)
      modifies this
      ensures old(failed) ==> failed && At() == old(At())
      ensures !old(failed) ==> (failed <==> Wire.ReadPrefixedBytes(old(At())) == None)
      ensures !failed ==> Wire.ReadPrefixedBytes(old(At())) == Some((b, At()))
    {
      hide Wire.NextUint64, Wire.NextPrefix;
      var k := NextPrefix(1);
      var m := if |rest| < k then |rest| else k;
      b := rest[..m];
      rest := rest[m..];
      n := n + m;
      if m < k && !failed {
        failed := true;
      }
    }

    /** The loop over the hash set of a storage proof. After an error the
        remaining rounds do nothing, so the loop fails exactly when reading the
        list fails. */
    method ReadDigests(k: nat) returns (ds: seq<Digest>)
      modifies this
      ensures old(failed) ==> failed && At() == old(At())
      ensures !old(failed) ==> (failed <==> ParseList(DigestCodec(), k, old(At())) == None)
      ensures !failed ==> ParseList(DigestCodec(), k, old(At())) == Some((ds, At()))
    {
      hide ParseList;
      ds := [];
      ghost var s := At();
      NothingLeft(DigestCodec(), s);
      for i := 0 to k
        invariant old(failed) ==> failed && At() == s
        invariant !old(failed) && failed ==> ParseList(DigestCodec(), k, s) == None
        invariant !failed ==> |ds| == i && ParseList(DigestCodec(), i, s) == Some((ds, At()))
      {
        ghost var before := failed;
        if !failed {
          ParseOneMore(DigestCodec(), i, s);
        }
        var p := ReadFull(32);
        if !failed {
          var d: Digest := p;
          ds := ds + [d];
        } else if !before {
          ParseFails(DigestCodec(), i + 1, k, s);
        }
      }
    }
  }

  lemma {:induction false} NothingLeft<T>(c: Codec<T>, s: Stream)
    ensures ParseList(c, 0, s) == Some(([], s))
  {
  }

  /** Reading one element more, after the list so far. */
  lemma {:induction false} ParseOneMore<T>(c: Codec<T>, k: nat, s: Stream)
    requires ParseList(c, k, s).Some?
    ensures var (xs, s1) := ParseList(c, k, s).value;
            match c.parse(s1)
            case None => ParseList(c, k + 1, s) == None
            case Some((x, s2)) => ParseList(c, k + 1, s) == Some((xs + [x], s2))
  {
    if k > 0 {
      var (x, s') := c.parse(s).value;
      ParseOneMore(c, k - 1, s');
      var (xs', s1) := ParseList(c, k - 1, s').value;
      assert [x] + xs' == ParseList(c, k, s).value.0;
      if c.parse(s1).Some? {
        var (y, s2) := c.parse(s1).value;
        assert [x] + (xs' + [y]) == [x] + xs' + [y];
      }
    } else {
      if c.parse(s).Some? {
        var (x, s1) := c.parse(s).value;
        assert ParseList(c, 0, s1) == Some(([], s1));
        assert [x] + [] == [] + [x];
      }
    }
  }

  /** A list whose beginning cannot be read cannot be read. */
  lemma {:induction false} ParseFails<T>(c: Codec<T>, j: nat, k: nat, s: Stream)
    requires j <= k && ParseList(c, j, s) == None
    ensures ParseList(c, k, s) == None
    decreases j
  {
    if j > 0 && c.parse(s).Some? {
      ParseFails(c, j - 1, k - 1, c.parse(s).value.1);
    }
  }

  // ---------------------------------------------------------------- Currency

  /** The bytes of a big.Int, from its words, least significant first. */
  function WordBytes(words: seq<uint64>): (b: bytes)
    ensures |b| == 8 * |words|
  {
    if words == [] then [] else WordBytes(words[..|words| - 1]) + LittleEndian(words[|words| - 1], 8)
  }

  /** The number that the words of a big.Int stand for. */
  function CurrencyOf(words: seq<uint64>): nat {
    FromLittleEndian(WordBytes(words))
  }

  /** w >> (8 * k). */
  function ShiftRight(w: nat, k: nat): nat {
    if k == 0 then w else ShiftRight(w / 256, k - 1)
  }

  lemma {:induction false} ShiftedByte(w: nat, k: nat, n: nat)
    requires k < n
    ensures LittleEndian(w, n)[k] == ShiftRight(w, k) % 256
    decreases n
  {
    if k > 0 {
      ShiftedByte(w / 256, k - 1, n - 1);
    }
  }

  lemma {:induction false} ShiftSuffix(w: nat, k: nat, n: nat)
    requires k <= n && w < Pow256(n)
    ensures LittleEndian(w, n)[k..] == LittleEndian(ShiftRight(w, k), n - k) && ShiftRight(w, k) < Pow256(n - k)
    decreases n
  {
    if k > 0 {
      ShiftSuffix(w / 256, k - 1, n - 1);
      assert LittleEndian(w, n)[1..] == LittleEndian(w / 256, n - 1);
      assert LittleEndian(w, n)[k..] == LittleEndian(w, n)[1..][k - 1..];
    }
  }

  lemma {:induction false} ZeroBytes(n: nat, j: nat)
    requires j < n
    ensures LittleEndian(0, n)[j] == 0
  {
    if j > 0 {
      ZeroBytes(n - 1, j - 1);
    }
  }

  /** What is left after shifting out k bytes is zero exactly when all bytes from k on are. */
  lemma {:induction false} ShiftedIsZero(w: nat, k: nat, n: nat)
    requires k <= n && w < Pow256(n)
    ensures ShiftRight(w, k) == 0 <==> forall j :: k <= j < n ==> LittleEndian(w, n)[j] == 0
  {
    hide LittleEndian, ShiftRight;
    var v, rest := ShiftRight(w, k), LittleEndian(ShiftRight(w, k), n - k);
    ShiftSuffix(w, k, n);
    assert forall j :: k <= j < n ==> LittleEndian(w, n)[j] == rest[j - k];
    if v == 0 {
      forall j | 0 <= j < n - k ensures rest[j] == 0 {
        ZeroBytes(n - k, j);
      }
    } else if forall j :: k <= j < n ==> LittleEndian(w, n)[j] == 0 {
      forall j | 0 <= j < n - k ensures rest[j] == 0 {
        assert rest[j] == LittleEndian(w, n)[j + k];
      }
      assert rest[..0] == [];
      DropZeros(rest, 0);
      LittleEndianRoundTrip(v, n - k);
    }
  }

  lemma {:induction false} WordAt(words: seq<uint64>, i: nat, k: nat)
    requires i < |words| && k < 8
    ensures WordBytes(words)[8 * i + k] == LittleEndian(words[i], 8)[k]
  {
    if i < |words| - 1 {
      WordAt(words[..|words| - 1], i, k);
    }
  }

  /** The test of the seeking loops, when all higher bytes are known to be zero. */
  lemma {:induction false} TopNonzero(words: seq<uint64>, i: nat)
    requires i < 8 * |words| && forall j :: i < j < 8 * |words| ==> WordBytes(words)[j] == 0
    ensures ShiftRight(words[i / 8], i % 8) == 0 <==> WordBytes(words)[i] == 0
    ensures ShiftRight(words[i / 8], i % 8) % 256 == WordBytes(words)[i]
  {
    hide LittleEndian, WordBytes, ShiftRight;
    var w, k := words[i / 8], i % 8;
    assert w < Pow256(8) by { assert Pow256(8) == 0x1_0000_0000_0000_0000; }
    ShiftedIsZero(w, k, 8);
    ShiftedByte(w, k, 8);
    WordAt(words, i / 8, k);
    forall j | k < j < 8
      ensures LittleEndian(w, 8)[j] == 0
    {
      WordAt(words, i / 8, j);
    }
  }

  /** Bytes up to the top one that is not zero are the minimal form, reversed. */
  lemma {:induction false} MinimalForm(b: bytes, k: nat)
    requires k <= |b| && (k > 0 ==> b[k - 1] != 0) && forall j :: k <= j < |b| ==> b[j] == 0
    ensures BigEndian(FromLittleEndian(b)) == Reverse(b[..k])
  {
    hide BigEndian;
    BigEndianIsReverse(b[..k]);
    DropZeros(b, k);
  }

  lemma {:induction false} DropZeros(b: bytes, k: nat)
    requires k <= |b| && forall j :: k <= j < |b| ==> b[j] == 0
    ensures FromLittleEndian(b[..k]) == FromLittleEndian(b)
    decreases |b|
  {
    if b != [] {
      if k == 0 {
        DropZeros(b[1..], 0);
      } else {
        DropZeros(b[1..], k - 1);
        assert b[..k][1..] == b[1..][..k - 1];
      }
    }
  }

  /** Seeking down to the top byte that is not zero. */
  method SeekTop(words: seq<uint64>) returns (k: nat)
    ensures k <= 8 * |words| && (k > 0 ==> WordBytes(words)[k - 1] != 0)
    ensures forall j :: k <= j < 8 * |words| ==> WordBytes(words)[j] == 0
  {
    hide WordBytes, ShiftRight;
    var i := 8 * |words| - 1;
    while i >= 0
      invariant -1 <= i < 8 * |words|
      invariant forall j :: i < j < 8 * |words| ==> WordBytes(words)[j] == 0
    {
      TopNonzero(words, i);
      if ShiftRight(words[i / 8], i % 8) != 0 {
        break;
      }
      i := i - 1;
    }
    return i + 1;
  }

  /** Currency.MarshalSia: the length and the bytes of the number, big-endian
      and without leading zeros. */
  method MarshalCurrency(words: seq<uint64>, e: Encoder)
    requires e.Valid() && 8 * |words| < 0x1_0000_0000_0000_0000
    modifies e
    ensures e.Valid() && e.asked == old(e.asked) + PutPrefixedBytes(BigEndian(CurrencyOf(words)), [])
  {
    hide WordBytes, ShiftRight, BigEndian, LittleEndian, Encoder.Valid, FromLittleEndian;
    var k := SeekTop(words);
    ghost var b := WordBytes(words);
    MinimalForm(b, k);
    e.WriteUint64(k);
    ghost var head := e.asked;
    var i := k as int - 1;
    assert Reverse(b[..0]) == [];
    while i >= 0
      invariant -1 <= i < k && e.Valid()
      invariant e.asked + Reverse(b[..i + 1]) == head + Reverse(b[..k])
    {
      ByteOf(words, i);
      ReverseMore(b, i);
      e.WriteByte(ShiftRight(words[i / 8], i % 8) % 256);
      i := i - 1;
    }
    assert e.asked == head + Reverse(b[..k]);
  }

  lemma {:induction false} ByteOf(words: seq<uint64>, i: nat)
    requires i < 8 * |words|
    ensures ShiftRight(words[i / 8], i % 8) % 256 == WordBytes(words)[i]
  {
    ShiftedByte(words[i / 8], i % 8, 8);
    WordAt(words, i / 8, i % 8);
  }

  lemma {:induction false} ReverseMore(b: bytes, i: nat)
    requires i < |b|
    ensures Reverse(b[..i + 1]) == [b[i]] + Reverse(b[..i])
  {
    var c := b[..i + 1];
    if i == 0 {
      assert c == [b[0]] && c[1..] == [] && b[..0] == [];
    } else {
      ReverseMore(b[1..], i - 1);
      assert b[1..][..i] == c[1..] && b[..i][1..] == b[1..][..i - 1];
    }
  }

  /** Currency.MarshalSiaSize: from the top word and byte down, a byte less as
      long as what is left of the word is zero. */
  method CurrencyMarshalSize(words: seq<uint64>) returns (size: nat)
    ensures size == CurrencySize(CurrencyOf(words))
  {
    hide WordBytes, BigEndian, FromLittleEndian, ShiftRight;
    ghost var b := WordBytes(words);
    size := 8 * |words|;
    label zeros: for i := |words| downto 0
      invariant size == 8 * i && forall k :: size <= k < |b| ==> b[k] == 0
    {
      for j := 8 downto 0
        invariant size == 8 * i + j && forall k :: size <= k < |b| ==> b[k] == 0
      {
        TopNonzero(words, 8 * i + j);
        assert (8 * i + j) / 8 == i && (8 * i + j) % 8 == j;
        if ShiftRight(words[i], j) != 0 {
          break zeros;
        }
        size := size - 1;
      }
    }
    MinimalForm(b, size);
    size := 8 + size;
  }
}
