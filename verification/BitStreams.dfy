/** The bit-level writer and reader of gcs/bits.go. A byte is a number below
    256, and a mask with one bit set is a power of two. */
module BitStreams {
  import opened Types

  function Pow2(n: nat): (p: nat)
    ensures p > 0
  {
    if n == 0 then 1 else 2 * Pow2(n - 1)
  }

  function Bit(b: bool): nat { if b then 1 else 0 }

  /** The n low bits of v, most significant first. */
  function Bits(v: nat, n: nat): (b: seq<bool>)
    ensures |b| == n
    decreases n, v
  {
    if n == 0 then [] else Bits(v / 2, n - 1) + [v % 2 == 1]
  }

  /** The number that a list of bits stands for. */
  function Number(b: seq<bool>): nat {
    if b == [] then 0 else 2 * Number(b[..|b| - 1]) + Bit(b[|b| - 1])
  }

  function Zeros(n: nat): seq<bool> { seq(n, _ => false) }

  function AllBits(bytes: seq<uint8>): (b: seq<bool>)
    ensures |b| == 8 * |bytes|
  {
    if bytes == [] then [] else AllBits(bytes[..|bytes| - 1]) + Bits(bytes[|bytes| - 1], 8)
  }

  /** The mask whose bit has k - 1 bits below it; no mask for k = 0. */
  function Mask(k: nat): nat {
    if k == 0 then 0 else Pow2(k - 1)
  }

  // ---------------------------------------------------------------- bits and numbers

  lemma {:induction false} NumberOfBits(v: nat, n: nat)
    requires v < Pow2(n)
    ensures Number(Bits(v, n)) == v
  {
    if n > 0 {
      HalfIsBelow(v, n);
      NumberOfBits(v / 2, n - 1);
      NumberMore(Bits(v / 2, n - 1), v % 2 == 1);
    }
  }

  lemma {:induction false} HalfIsBelow(v: nat, n: nat)
    requires n > 0 && v < Pow2(n)
    ensures v / 2 < Pow2(n - 1) && v == 2 * (v / 2) + Bit(v % 2 == 1)
  {
  }

  lemma {:induction false} NumberMore(b: seq<bool>, x: bool)
    ensures Number(b + [x]) == 2 * Number(b) + Bit(x)
  {
    assert (b + [x])[..|b|] == b;
  }

  lemma {:induction false} BitsOfNumber(b: seq<bool>)
    ensures Bits(Number(b), |b|) == b && Number(b) < Pow2(|b|)
  {
    if b != [] {
      BitsOfNumber(b[..|b| - 1]);
    }
  }

  /** One more bit at the front of a number. */
  lemma {:induction false} NumberCons(x: bool, b: seq<bool>)
    ensures Number([x] + b) == Bit(x) * Pow2(|b|) + Number(b)
  {
    if b == [] {
      assert [x] + b == [x] && [x][..0] == [];
    } else {
      NumberCons(x, b[..|b| - 1]);
      assert ([x] + b)[..|[x] + b| - 1] == [x] + b[..|b| - 1];
    }
  }

  lemma {:induction false} NumberSnoc(b: seq<bool>, x: bool)
    ensures Number(b + [x]) == 2 * Number(b) + Bit(x)
  {
    assert (b + [x])[..|b + [x]| - 1] == b;
  }

  /** Setting a bit that has k zeros below it. */
  lemma {:induction false} SetBit(u: seq<bool>, k: nat)
    ensures Number(u + [true] + Zeros(k)) == Number(u + [false] + Zeros(k)) + Pow2(k)
  {
    if k == 0 {
      assert u + [true] + Zeros(0) == u + [true] && u + [false] + Zeros(0) == u + [false];
      NumberSnoc(u, true);
      NumberSnoc(u, false);
    } else {
      SetBit(u, k - 1);
      assert u + [true] + Zeros(k) == u + [true] + Zeros(k - 1) + [false];
      assert u + [false] + Zeros(k) == u + [false] + Zeros(k - 1) + [false];
      NumberSnoc(u + [true] + Zeros(k - 1), false);
      NumberSnoc(u + [false] + Zeros(k - 1), false);
    }
  }

  /** The low bits of a number are the end of its bits. */
  lemma {:induction false} BitsSuffix(v: nat, m: nat, n: nat)
    requires n <= m
    ensures Bits(v, m)[m - n..] == Bits(v, n)
    decreases n
  {
    if n > 0 {
      BitsSuffix(v / 2, m - 1, n - 1);
      assert Bits(v, m)[m - n..] == Bits(v / 2, m - 1)[m - n..] + [v % 2 == 1];
    }
  }

  lemma {:induction false} AllBitsAppend(bytes: seq<uint8>, x: uint8)
    ensures AllBits(bytes + [x]) == AllBits(bytes) + Bits(x, 8)
  {
    assert (bytes + [x])[..|bytes + [x]| - 1] == bytes;
  }

  lemma {:induction false} AllBitsHead(bytes: seq<uint8>)
    requires bytes != []
    ensures AllBits(bytes) == Bits(bytes[0], 8) + AllBits(bytes[1..])
  {
    hide Bits;
    if |bytes| == 1 {
      assert bytes == [bytes[0]] && bytes[..0] == [];
    } else {
      var pre, tail, last := bytes[..|bytes| - 1], bytes[1..], bytes[|bytes| - 1];
      AllBitsHead(pre);
      assert tail[..|tail| - 1] == pre[1..] && tail[|tail| - 1] == last;
      assert AllBits(tail) == AllBits(pre[1..]) + Bits(last, 8);
    }
  }

  /** Testing a bit of a byte with its mask. */
  lemma MaskedBit(x: uint8, k: nat)
    requires 0 < k <= 8
    ensures Bits(x, 8)[8 - k] <==> x / Mask(k) % 2 == 1
  {
    BitsSuffix(x, 8, k);
    TopBit(x, k);
    assert Bits(x, 8)[8 - k] == Bits(x, 8)[8 - k..][0];
  }

  lemma {:induction false} TopBit(v: nat, k: nat)
    requires 0 < k <= 8
    ensures Bits(v, k)[0] <==> v / Pow2(k - 1) % 2 == 1
  {
    if k > 1 {
      TopBit(v / 2, k - 1);
      SmallPowers();
      assert v / 2 / 1 == v / 2 && v / 2 / 2 == v / 4 && v / 2 / 4 == v / 8 && v / 2 / 8 == v / 16;
      assert v / 2 / 16 == v / 32 && v / 2 / 32 == v / 64 && v / 2 / 64 == v / 128;
    }
  }

  lemma SmallPowers()
    ensures Pow2(0) == 1 && Pow2(1) == 2 && Pow2(2) == 4 && Pow2(3) == 8 && Pow2(4) == 16
    ensures Pow2(5) == 32 && Pow2(6) == 64 && Pow2(7) == 128 && Pow2(8) == 256
  {
  }

  // ---------------------------------------------------------------- bitWriter

  /** bitWriter. The pointer to the last byte is the last position of `bytes`. */
  class BitWriter {
    var bytes: seq<uint8>
    var next: nat
    ghost var free: nat                  // unwritten bits of the last byte

    ghost predicate Valid()
      reads this
    {
      && free < 8 && next == Mask(free) && (bytes == [] ==> free == 0)
      && AllBits(bytes)[8 * |bytes| - free..] == Zeros(free)
    }

    /** The bits written so far. */
    ghost function Contents(): seq<bool>
      reads this
      requires Valid()
    {
      AllBits(bytes)[..8 * |bytes| - free]
    }

    constructor ()
      ensures Valid() && Contents() == []
    {
      bytes, next, free := [], 0, 0;
    }

    method WriteOne()
      requires Valid()
      modifies this
      ensures Valid() && Contents() == old(Contents()) + [true]
    {
      hide Bits, AllBits, Number, Mask;
      Masks(free);
      if next == 0 {
        AllBitsAppend(bytes, 128);
        FirstOfByte(true);
        bytes := bytes + [128];
        next := 64;
        free := 7;
        return;
      }
      var last := |bytes| - 1;
      OrLast(bytes, free);
      bytes := bytes[last := bytes[last] + next];
      next := next / 2;
      free := free - 1;
    }

    method WriteZero()
      requires Valid()
      modifies this
      ensures Valid() && Contents() == old(Contents()) + [false]
    {
      hide Bits, AllBits, Number, Mask;
      Masks(free);
      if next == 0 {
        AllBitsAppend(bytes, 0);
        FirstOfByte(false);
        bytes := bytes + [0];
        next := 64;
        free := 7;
        return;
      }
      assert AllBits(bytes)[8 * |bytes| - free] == Zeros(free)[0];
      next := next / 2;
      free := free - 1;
    }

    /** The bit that is tested with 1 << 63, and the shift that follows. */
    method WriteTopBit(data: uint64, ghost bits: seq<bool>) returns (rest: uint64)
      requires Valid() && |bits| == 64 && data == Number(bits)
      modifies this
      ensures Valid() && Contents() == old(Contents()) + [bits[0]]
      ensures rest == Number(bits[1..] + [false])
    {
      ShiftOnce(bits);
      if data / TOP_BIT % 2 == 1 {
        WriteOne();
      } else {
        WriteZero();
      }
      rest := data * 2 % WORD;
    }

    /** A whole byte, when the last one is full. */
    method WriteTopByte(data: uint64, ghost bits: seq<bool>) returns (rest: uint64)
      requires Valid() && next == 0 && |bits| == 64 && data == Number(bits)
      modifies this
      ensures Valid() && next == 0 && Contents() == old(Contents()) + bits[..8]
      ensures rest == Number(bits[8..] + Zeros(8))
    {
      hide Bits, AllBits, Number, ShiftLeft, Mask;
      TopByte(bits);
      MaskIsZero(free);
      AllBitsAppend(bytes, data / 0x100_0000_0000_0000);
      bytes := bytes + [data / 0x100_0000_0000_0000];
      ShiftIs(data, bits, 8);
      rest := ShiftLeft(data, 8);
    }

    /** writeNBits: the n low bits of data, most significant first. The source panics beyond 64. */
    method WriteNBits(data: uint64, n: nat)
      requires Valid() && n <= 64
      modifies this
      ensures Valid() && Contents() == old(Contents()) + Bits(data, n)
    {
      hide Valid, Contents, Number, Bits, ShiftLeft, Mask, AllBits;
      ghost var bits := Bits(data, 64)[64 - n..] + Zeros(64 - n);
      Aligned(data, n);
      var d: uint64, left: nat := ShiftLeft(data, 64 - n), n;
      assert bits[..n] == Bits(data, n);
      while left > 0 && next != 0
        invariant Valid() && left <= n && |bits| == 64 && d == Number(bits)
        invariant Contents() + bits[..left] == old(Contents()) + Bits(data, n)
        decreases left
      {
        d := WriteTopBit(d, bits);
        OneBitLess(bits, left);
        bits := bits[1..] + [false];
        left := left - 1;
      }
      while left >= 8
        invariant Valid() && left <= n && |bits| == 64 && d == Number(bits)
        invariant left > 0 ==> next == 0
        invariant Contents() + bits[..left] == old(Contents()) + Bits(data, n)
        decreases left
      {
        d := WriteTopByte(d, bits);
        ByteLess(bits, left);
        bits := bits[8..] + Zeros(8);
        left := left - 8;
      }
      while left > 0
        invariant Valid() && left <= n && |bits| == 64 && d == Number(bits)
        invariant Contents() + bits[..left] == old(Contents()) + Bits(data, n)
        decreases left
      {
        d := WriteTopBit(d, bits);
        OneBitLess(bits, left);
        bits := bits[1..] + [false];
        left := left - 1;
      }
      assert Contents() + bits[..0] == Contents();
    }
  }

  const TOP_BIT: nat := 0x8000_0000_0000_0000

  lemma ByteLess(bits: seq<bool>, n: nat)
    requires 8 <= n <= |bits|
    ensures bits[..n] == bits[..8] + (bits[8..] + Zeros(8))[..n - 8]
  {
  }

  lemma OneBitLess(bits: seq<bool>, n: nat)
    requires 0 < n <= |bits|
    ensures bits[..n] == [bits[0]] + (bits[1..] + [false])[..n - 1]
  {
  }

  lemma Masks(k: nat)
    requires k < 8
    ensures Mask(7) == 64 && Mask(0) == 0
    ensures k > 0 ==> Mask(k) > 0 && Mask(k) / 2 == Mask(k - 1)
  {
    SmallPowers();
  }

  lemma MaskIsZero(k: nat)
    requires Mask(k) == 0
    ensures k == 0
  {
  }

  /** data << k on 64 bits. */
  function ShiftLeft(data: uint64, k: nat): uint64 {
    if k == 0 then data else ShiftLeft(data, k - 1) * 2 % WORD
  }

  lemma {:induction false} Pow2Adds(a: nat, b: nat)
    ensures Pow2(a + b) == Pow2(a) * Pow2(b)
  {
    if a > 0 {
      Pow2Adds(a - 1, b);
      assert Pow2(a + b) == 2 * Pow2(a - 1 + b);
      Tripled(Pow2(a - 1), Pow2(b));
    }
  }

  lemma Tripled(x: nat, y: nat)
    ensures 2 * (x * y) == (2 * x) * y
  {
  }

  /** The powers of two that the masks and shifts of a 64-bit word use. */
  lemma {:induction false} BigPowers(n: nat)
    ensures n == 32 ==> Pow2(n) == 0x1_0000_0000
    ensures n == 56 ==> Pow2(n) == 0x100_0000_0000_0000
    ensures n == 63 ==> Pow2(n) == TOP_BIT
    ensures n == 64 ==> Pow2(n) == WORD
  {
    if n == 32 {
      SmallPowers();
      Pow2Adds(8, 8);
      Pow2Adds(16, 16);
    } else if n == 56 {
      SmallPowers();
      Pow2Adds(8, 8);
      BigPowers(32);
      Pow2Adds(16, 8);
      Pow2Adds(32, 24);
    } else if n == 63 {
      SmallPowers();
      BigPowers(56);
      Pow2Adds(56, 7);
    } else if n == 64 {
      BigPowers(63);
    }
  }

  lemma {:induction false} ShiftOnce(bits: seq<bool>)
    requires |bits| == 64
    ensures Number(bits) < WORD && Number(bits) * 2 % WORD == Number(bits[1..] + [false])
    ensures bits[0] <==> Number(bits) / TOP_BIT % 2 == 1
  {
    hide Number, Bits, Pow2;
    var rest := bits[1..];
    BigPowers(|rest|);
    assert bits == [bits[0]] + rest;
    NumberCons(bits[0], rest);
    BitsOfNumber(rest);
    NumberSnoc(rest, false);
  }

  lemma {:induction false} ShiftIs(data: uint64, bits: seq<bool>, k: nat)
    requires |bits| == 64 && data == Number(bits) && k <= 64
    ensures ShiftLeft(data, k) == Number(bits[k..] + Zeros(k))
  {
    if k == 0 {
      assert bits[0..] + Zeros(0) == bits;
    } else {
      ShiftIs(data, bits, k - 1);
      var b := bits[k - 1..] + Zeros(k - 1);
      ShiftOnce(b);
      assert b[1..] + [false] == bits[k..] + Zeros(k);
    }
  }

  /** The bits to write are moved to the top. */
  lemma {:induction false} Aligned(data: uint64, n: nat)
    requires n <= 64
    ensures ShiftLeft(data, 64 - n) == Number(Bits(data, 64)[64 - n..] + Zeros(64 - n))
    ensures Bits(data, 64)[64 - n..] == Bits(data, n)
  {
    hide Number, Bits, Pow2;
    var w := 64;
    BigPowers(w);
    NumberOfBits(data, w);
    ShiftIs(data, Bits(data, 64), 64 - n);
    BitsSuffix(data, 64, n);
  }

  lemma {:induction false} NumberConcat(a: seq<bool>, b: seq<bool>)
    ensures Number(a + b) == Number(a) * Pow2(|b|) + Number(b)
  {
    if b == [] {
      assert a + b == a;
    } else {
      var pre, x := b[..|b| - 1], b[|b| - 1];
      NumberConcat(a, pre);
      assert a + b == a + pre + [x];
      NumberSnoc(a + pre, x);
      Doubled(Number(a), Pow2(|pre|));
    }
  }

  lemma Doubled(x: nat, y: nat)
    ensures x * (2 * y) == 2 * (x * y)
  {
  }

  lemma {:induction false} TopByte(bits: seq<bool>)
    requires |bits| == 64
    ensures Number(bits) < WORD && Number(bits) / 0x100_0000_0000_0000 < 256
    ensures Bits(Number(bits) / 0x100_0000_0000_0000, 8) == bits[..8]
  {
    hide Number, Bits, Pow2;
    var top, rest := bits[..8], bits[8..];
    BigPowers(|rest|);
    SmallPowers();
    assert bits == top + rest;
    NumberConcat(top, rest);
    BitsOfNumber(top);
    BitsOfNumber(rest);
    ShiftOnce(bits);
  }

  /** A byte of which only the top bit is written. */
  lemma FirstOfByte(x: bool)
    ensures Bits(if x then 128 else 0, 8) == [x] + Zeros(7)
  {
    hide Bits, Number, Pow2;
    var b := [x] + Zeros(7);
    NumberCons(x, Zeros(7));
    ZerosAreZero(7);
    SmallPowers();
    BitsOfNumber(b);
  }

  lemma {:induction false} ZerosAreZero(n: nat)
    ensures Number(Zeros(n)) == 0
  {
    if n > 0 {
      ZerosAreZero(n - 1);
      assert Zeros(n)[..n - 1] == Zeros(n - 1);
    }
  }

  /** Setting the highest free bit of the last byte. */
  lemma {:induction false} OrLast(bytes: seq<uint8>, free: nat)
    requires 0 < free < 8 && bytes != [] && AllBits(bytes)[8 * |bytes| - free..] == Zeros(free)
    ensures var last := |bytes| - 1; var all := AllBits(bytes);
            && bytes[last] + Mask(free) < 256
            && AllBits(bytes[last := bytes[last] + Mask(free)]) == all[..|all| - free] + [true] + Zeros(free - 1)
  {
    hide Bits, Number;
    var last, all := |bytes| - 1, AllBits(bytes);
    var x := bytes[last];
    var b := Bits(x, 8);
    var u := b[..8 - free];
    assert all == AllBits(bytes[..last]) + b;
    assert b[8 - free..] == Zeros(free);
    assert Zeros(free) == [false] + Zeros(free - 1);
    assert b == u + [false] + Zeros(free - 1);
    SmallPowers();
    NumberOfBits(x, 8);
    SetBit(u, free - 1);
    var b' := u + [true] + Zeros(free - 1);
    BitsOfNumber(b');
    var bytes' := bytes[last := x + Mask(free)];
    assert bytes'[..last] == bytes[..last];
    assert all[..|all| - free] == AllBits(bytes[..last]) + u;
  }

  // ---------------------------------------------------------------- bitReader

  /** The number of ones before the first zero. */
  function Ones(b: seq<bool>): (n: nat)
    ensures n <= |b|
  {
    if b == [] || !b[0] then 0 else 1 + Ones(b[1..])
  }

  lemma NextMask(k: nat)
    requires k <= 8 && Mask(k) != 0
    ensures k > 0 && Mask(k) / 2 == Mask(k - 1)
  {
    SmallPowers();
  }

  lemma {:induction false} ReadHead(bytes: seq<uint8>, left: nat)
    requires bytes != [] && 0 < left <= 8
    ensures Mask(left) > 0
    ensures AllBits(bytes)[8 - left..] == [bytes[0] / Mask(left) % 2 == 1] + AllBits(bytes)[9 - left..]
  {
    hide Bits, AllBits;
    MaskedBit(bytes[0], left);
    AllBitsHead(bytes);
    assert AllBits(bytes)[8 - left] == Bits(bytes[0], 8)[8 - left];
  }

  lemma NoOnes(b: seq<bool>)
    requires b == []
    ensures Ones(b) == 0
  {
  }

  lemma {:induction false} OnesStep(all: seq<bool>, k: nat)
    requires k < |all|
    ensures Ones(all[k..]) == if all[k] then 1 + Ones(all[k + 1..]) else 0
  {
    assert all[k..][1..] == all[k + 1..];
  }

  /** Reading one more bit into a value whose low bits are still open. */
  lemma {:induction false} ReadOneMore(read: seq<bool>, bit: bool, more: nat)
    ensures Number(read + [bit]) * Pow2(more) == Number(read) * Pow2(more + 1) + if bit then Pow2(more) else 0
  {
    hide Number;
    NumberSnoc(read, bit);
    Tripled(Number(read), Pow2(more));
    Doubled(Number(read), Pow2(more));
  }

  lemma {:induction false} ReadByteMore(read: seq<bool>, x: uint8, more: nat)
    ensures Number(read + Bits(x, 8)) * Pow2(more) == Number(read) * Pow2(more + 8) + x * Pow2(more)
  {
    hide Number, Bits, Pow2;
    SmallPowers();
    NumberConcat(read, Bits(x, 8));
    NumberOfBits(x, 8);
    Pow2Adds(more, 8);
    Spread(Number(read), x, Pow2(more));
  }

  lemma Spread(a: nat, x: nat, p: nat)
    ensures (a * 256 + x) * p == a * (p * 256) + x * p
  {
  }

  class BitReader {
    var bytes: seq<uint8>
    var next: nat
    ghost var left: nat                  // unread bits of bytes[0]

    ghost predicate Valid()
      reads this
    {
      left <= 8 && next == Mask(left)
    }

    /** The bits not read yet. */
    ghost function Remaining(): seq<bool>
      reads this
      requires Valid()
    {
      if bytes == [] then [] else AllBits(bytes)[8 - left..]
    }

    /** newBitReader. */
    constructor (bitstream: seq<uint8>)
      ensures Valid() && bytes == bitstream && Remaining() == AllBits(bitstream)
    {
      bytes, next, left := bitstream, 128, 8;
      new;
      SmallPowers();
    }

    /** Testing the next bit and moving the mask. */
    method NextBit() returns (bit: bool)
      requires Valid() && bytes != [] && next != 0
      modifies this
      ensures Valid() && bytes == old(bytes) && left == old(left) - 1
      ensures old(Remaining()) == [bit] + Remaining()
    {
      hide Bits, AllBits, Mask;
      NextMask(left);
      ReadHead(bytes, left);
      bit := bytes[0] / next % 2 == 1;
      next := next / 2;
      left := left - 1;
    }

    /** Dropping a byte that has been read to its end. */
    method NextByte()
      requires Valid() && bytes != [] && next == 0
      modifies this
      ensures Valid() && bytes == old(bytes)[1..] && next == 128
      ensures Remaining() == old(Remaining())
    {
      hide Bits, AllBits;
      MaskIsZero(left);
      SmallPowers();
      AllBitsHead(bytes);
      bytes := bytes[1..];
      next := 128;
      left := 8;
      if bytes == [] {
        assert |AllBits(bytes)| == 0;
      }
    }

    /** readUnary. */
    method ReadUnary() returns (value: nat, ok: bool)
      requires Valid()
      modifies this
      ensures Valid()
      ensures ok <==> Ones(old(Remaining())) < |old(Remaining())|
      ensures ok ==> value == Ones(old(Remaining())) && Remaining() == old(Remaining())[value + 1..] && bytes != []
    {
      hide Valid, Remaining, Bits, AllBits, Ones;
      value := 0;
      ghost var all := Remaining();
      assert all[0..] == all;
      while true
        invariant Valid() && value <= |all| && Remaining() == all[value..] && Ones(all) == value + Ones(all[value..])
        decreases |bytes|
      {
        if |bytes| == 0 {
          Exhausted();
          NoOnes(all[value..]);
          return value, false;
        }
        ghost var n := |bytes|;
        while next != 0
          invariant Valid() && |bytes| == n && value <= |all| && Remaining() == all[value..]
          invariant Ones(all) == value + Ones(all[value..])
          decreases left
        {
          MaskFalls();
          var bit := NextBit();
          OnesStep(all, value);
          assert all[value..] == [all[value]] + all[value + 1..];
          if !bit {
            return value, true;
          }
          value := value + 1;
        }
        NextByte();
      }
    }

    /** The bits of a byte that has only been read in part. */
    method ReadRest(n: nat) returns (value: nat, more: nat, ghost read: seq<bool>)
      requires Valid() && bytes != []
      modifies this
      ensures Valid() && old(Remaining()) == read + Remaining() && |read| + more == n
      ensures value == Number(read) * Pow2(more)
      ensures more > 0 ==> next == 128
    {
      hide Valid, Remaining, Bits, AllBits, Number, Pow2;
      value, more, read := 0, n, [];
      NothingRead();
      while more > 0
        invariant Valid() && old(Remaining()) == read + Remaining() && |read| + more == n
        invariant value == Number(read) * Pow2(more) && bytes != []
        decreases more
      {
        if next == 0 {
          NextByte();
          break;
        }
        more := more - 1;
        var bit := NextBit();
        ReadOneMore(read, bit, more);
        if bit {
          value := value + Pow2(more);
        }
        read := read + [bit];
      }
    }

    /** Whole bytes. */
    method ReadBytes(n: nat, value0: nat, ghost read0: seq<bool>)
        returns (ok: bool, value: nat, more: nat, ghost read: seq<bool>)
      requires Valid() && (n > 0 ==> next == 128) && value0 == Number(read0) * Pow2(n)
      modifies this
      ensures Valid() && read0 + old(Remaining()) == read + Remaining() && |read| + more == |read0| + n
      ensures ok ==> more < 8 && value == Number(read) * Pow2(more)
      ensures !ok ==> bytes == [] && more > 0
      ensures more > 0 ==> next == 128
    {
      hide Valid, Remaining, Bits, AllBits, Number, Pow2;
      value, more, read := value0, n, read0;
      while more >= 8
        invariant Valid() && read0 + old(Remaining()) == read + Remaining() && |read| + more == |read0| + n
        invariant value == Number(read) * Pow2(more) && (more > 0 ==> next == 128)
        decreases more
      {
        if |bytes| == 0 {
          return false, 0, more, read;
        }
        more := more - 8;
        ReadByteMore(read, bytes[0], more);
        value := value + bytes[0] * Pow2(more);
        read := read + Bits(bytes[0], 8);
        DropByte();
      }
      return true, value, more, read;
    }

    /** The last bits, fewer than a byte. */
    method ReadLast(n: nat, value0: nat, ghost read0: seq<bool>) returns (ok: bool, value: nat, ghost read: seq<bool>)
      requires Valid() && bytes != [] && value0 == Number(read0) * Pow2(n)
      modifies this
      ensures Valid() && read0 + old(Remaining()) == read + Remaining()
      ensures ok ==> |read| == |read0| + n && value == Number(read)
      ensures !ok ==> bytes == [] && |read| < |read0| + n
    {
      hide Valid, Remaining, Bits, AllBits, Number, Pow2;
      value, read := value0, read0;
      var more := n;
      while more > 0
        invariant Valid() && bytes != [] && read0 + old(Remaining()) == read + Remaining()
        invariant |read| + more == |read0| + n
        invariant value == Number(read) * Pow2(more)
        decreases more
      {
        if next == 0 {
          NextByte();
          if |bytes| == 0 {
            return false, 0, read;
          }
        }
        more := more - 1;
        var bit := NextBit();
        ReadOneMore(read, bit, more);
        if bit {
          value := value + Pow2(more);
        }
        read := read + [bit];
      }
      assert Pow2(0) == 1 by { SmallPowers(); }
      return true, value, read;
    }

    /** readNBits, which the source calls on no more than 64 bits. */
    method ReadNBits(n: nat) returns (value: nat, ok: bool)
      requires Valid() && n <= 64
      modifies this
      ensures Valid()
      ensures ok <==> old(bytes) != [] && n <= |old(Remaining())|
      ensures ok ==> value == Number(old(Remaining())[..n]) && Remaining() == old(Remaining())[n..]
    {
      hide Valid, Remaining, Bits, AllBits, Number, Pow2;
      if |bytes| == 0 {
        return 0, false;
      }
      ghost var all := Remaining();
      ghost var read: seq<bool> := [];
      var more := n;
      value := 0;
      NothingRead();
      if next != 128 {
        value, more, read := ReadRest(n);
      }
      assert all == read + Remaining();
      assert Pow2(0) == 1 by { SmallPowers(); }
      if more == 0 {
        assert read == all[..n];
        return value, true;
      }
      ok, value, more, read := ReadBytes(more, value, read);
      assert all == read + Remaining();
      if !ok {
        Exhausted();
        return 0, false;
      }
      if |bytes| == 0 {
        Exhausted();
        if more != 0 {
          return 0, false;
        }
        assert read == all[..n];
        return value, true;
      }
      ok, value, read := ReadLast(more, value, read);
      assert all == read + Remaining();
      if !ok {
        Exhausted();
        return 0, false;
      }
      assert read == all[..n];
    }

    lemma NothingRead()
      ensures Number([]) == 0
    {
    }

    /** With the mask at the top, the next eight bits are a byte. */
    method DropByte()
      requires Valid() && bytes != [] && next == 128
      modifies this
      ensures Valid() && next == 128 && bytes == old(bytes)[1..]
      ensures old(Remaining()) == Bits(old(bytes)[0], 8) + Remaining()
    {
      hide Bits, AllBits;
      SmallPowers();
      AllBitsHead(bytes);
      bytes := bytes[1..];
      if bytes == [] {
        assert |AllBits(bytes)| == 0;
      }
    }

    lemma MaskFalls()
      requires Valid() && next != 0
      ensures left > 0
    {
    }

    lemma Exhausted()
      requires Valid() && bytes == []
      ensures Remaining() == []
    {
    }
  }
}
