/**
 * Byte-order helpers of the ASF compatibility header: the byte swaps, the
 * big- and little-endian conversions and the byte accessors that view an
 * integer through its in-memory bytes.
 *
 * The target is little-endian, so the byte at address offset k of a value is
 * its k-th least significant byte. That view is LeBytes16/LeBytes32 below,
 * and every accessor is defined through it.
 */
module ByteOrder {

  type byte = x: int | 0 <= x < 0x100
  type u16 = x: int | 0 <= x < 0x1_0000
  type u32 = x: int | 0 <= x < 0x1_0000_0000

  /** Unsigned 32-bit subtraction: the C `a - b` on uint32_t wraps modulo 2^32. */
  function Sub32(a: u32, b: nat): u32 {
    (a - b) % 0x1_0000_0000
  }

  /** Unsigned 32-bit addition, wrapping modulo 2^32. */
  function Add32(a: u32, b: nat): u32 {
    (a + b) % 0x1_0000_0000
  }

  /** Without underflow the wrapping subtraction is the exact difference. */
  lemma Sub32Exact(a: u32, b: nat)
    requires b <= a
    ensures Sub32(a, b) == a - b
  {
  }

  /** Two wrapping subtractions in a row are one wrapping subtraction of the sum. */
  lemma Sub32Twice(a: u32, b: nat, c: nat)
    ensures Sub32(Sub32(a, b), c) == Sub32(a, b + c)
  {
    var q1 := (a - b) / 0x1_0000_0000;
    var q2 := (Sub32(a, b) - c) / 0x1_0000_0000;
    assert a - (b + c) == (q1 + q2) * 0x1_0000_0000 + Sub32(Sub32(a, b), c);
    ModUnique(a - (b + c), q1 + q2, Sub32(Sub32(a, b), c));
  }

  /** The quotient/remainder decomposition modulo 2^32 is unique. */
  lemma ModUnique(x: int, q: int, r: int)
    requires 0 <= r < 0x1_0000_0000
    requires x == q * 0x1_0000_0000 + r
    ensures x % 0x1_0000_0000 == r
  {
  }

  // ---------------------------------------------------------------------
  // The little-endian memory view

  /** The bytes of a 16-bit value in memory order (index 0 = lowest address). */
  function LeBytes16(x: u16): (r: seq<byte>)
    ensures |r| == 2
  {
    [x % 0x100, x / 0x100]
  }

  /** The 16-bit value whose memory bytes are `b`. */
  function FromLe16(b: seq<byte>): u16
    requires |b| == 2
  {
    b[0] as int + 0x100 * b[1] as int
  }

  /** The bytes of a 32-bit value in memory order (index 0 = lowest address). */
  function LeBytes32(x: u32): (r: seq<byte>)
    ensures |r| == 4
  {
    [x % 0x100, x / 0x100 % 0x100, x / 0x1_0000 % 0x100, x / 0x100_0000]
  }

  /** The 32-bit value whose memory bytes are `b`. */
  function FromLe32(b: seq<byte>): u32
    requires |b| == 4
  {
    b[0] as int + 0x100 * b[1] as int + 0x1_0000 * b[2] as int + 0x100_0000 * b[3] as int
  }

  /** The bytes of a 32-bit value most significant first (SCSI wire order). */
  function BeBytes32(x: u32): (r: seq<byte>)
    ensures |r| == 4
  {
    [x / 0x100_0000, x / 0x1_0000 % 0x100, x / 0x100 % 0x100, x % 0x100]
  }

  /** The 32-bit value whose big-endian bytes are `b`. */
  function FromBe32(b: seq<byte>): u32
    requires |b| == 4
  {
    0x100_0000 * b[0] as int + 0x1_0000 * b[1] as int + 0x100 * b[2] as int + b[3] as int
  }

  lemma LeBytes16RoundTrip(x: u16)
    ensures FromLe16(LeBytes16(x)) == x
  {
  }

  lemma FromLe16RoundTrip(b: seq<byte>)
    requires |b| == 2
    ensures LeBytes16(FromLe16(b)) == b
  {
  }

  /** Reading a value's four memory bytes and reassembling them gives the value back. */
  lemma LeBytes32RoundTrip(x: u32)
    ensures FromLe32(LeBytes32(x)) == x
  {
    var b0, r0 := x % 0x100, x / 0x100;
    var b1, r1 := r0 % 0x100, r0 / 0x100;
    var b2, b3 := r1 % 0x100, r1 / 0x100;
    assert x == b0 + 0x100 * r0;
    assert r0 == b1 + 0x100 * r1;
    assert r1 == b2 + 0x100 * b3;
    DivDiv(x);
    assert LeBytes32(x) == [b0, b1, b2, b3];
  }

  /** Writing four bytes to memory and reading the word back gives those bytes. */
  lemma FromLe32RoundTrip(b: seq<byte>)
    requires |b| == 4
    ensures LeBytes32(FromLe32(b)) == b
  {
    var x := FromLe32(b);
    var r1 := b[1] as int + 0x100 * b[2] as int + 0x1_0000 * b[3] as int;
    var r2 := b[2] as int + 0x100 * b[3] as int;
    assert x == b[0] as int + 0x100 * r1;
    assert r1 == b[1] as int + 0x100 * r2;
    assert r2 == b[2] as int + 0x100 * b[3] as int;
    assert x % 0x100 == b[0] && x / 0x100 == r1;
    assert r1 % 0x100 == b[1] && r1 / 0x100 == r2;
    assert r2 % 0x100 == b[2] && r2 / 0x100 == b[3];
    DivDiv(x);
  }

  lemma DivDiv(x: nat)
    ensures x / 0x100 / 0x100 == x / 0x1_0000
    ensures x / 0x1_0000 / 0x100 == x / 0x100_0000
  {
  }

  /** Reading the four bytes most-significant first and reassembling gives the value back. */
  lemma BeBytes32RoundTrip(x: u32)
    ensures FromBe32(BeBytes32(x)) == x
  {
    LeBytes32RoundTrip(x);
  }

  // ---------------------------------------------------------------------
  // swap16, swap32 and the endian conversions

  /**
   * swap16: `(u16 >> 8) | (u16 << 8)` truncated to 16 bits. The two shifted
   * halves occupy disjoint bits, so the bitwise or is their sum.
   */
  function Swap16(x: u16): u16 {
    x / 0x100 + (x * 0x100) % 0x1_0000
  }

  /** swap32: __builtin_bswap32, the value with its four bytes in reverse order. */
  function Swap32(x: u32): u32 {
    x / 0x100_0000
    + 0x100 * (x / 0x1_0000 % 0x100)
    + 0x1_0000 * (x / 0x100 % 0x100)
    + 0x100_0000 * (x % 0x100)
  }

  function Le16ToCpu(x: u16): u16 { x }
  function CpuToLe16(x: u16): u16 { x }
  function Le32ToCpu(x: u32): u32 { x }
  function CpuToLe32(x: u32): u32 { x }
  function Be16ToCpu(x: u16): u16 { Swap16(x) }
  function CpuToBe16(x: u16): u16 { Swap16(x) }
  function Be32ToCpu(x: u32): u32 { Swap32(x) }
  function CpuToBe32(x: u32): u32 { Swap32(x) }

  /** swap16 exchanges the two memory bytes of its argument. */
  lemma Swap16Bytes(x: u16)
    ensures LeBytes16(Swap16(x)) == [LeBytes16(x)[1], LeBytes16(x)[0]]
  {
    var lo, hi := x % 0x100, x / 0x100;
    assert x == lo + 0x100 * hi;
    assert (x * 0x100) % 0x1_0000 == lo * 0x100 by {
      assert x * 0x100 == lo * 0x100 + hi * 0x1_0000;
    }
    assert Swap16(x) == hi + 0x100 * lo;
  }

  /** swap16 is its own inverse. */
  lemma {:induction false} Swap16Involution(x: u16)
    ensures Swap16(Swap16(x)) == x
  {
    Swap16Bytes(x);
    Swap16Bytes(Swap16(x));
    LeBytes16RoundTrip(x);
    LeBytes16RoundTrip(Swap16(Swap16(x)));
  }

  /** swap32 reverses the four memory bytes of its argument. */
  lemma Swap32Bytes(x: u32)
    ensures LeBytes32(Swap32(x)) == [LeBytes32(x)[3], LeBytes32(x)[2], LeBytes32(x)[1], LeBytes32(x)[0]]
  {
    var b := LeBytes32(x);
    assert Swap32(x) == FromLe32([b[3], b[2], b[1], b[0]]);
    FromLe32RoundTrip([b[3], b[2], b[1], b[0]]);
  }

  /** swap32 is its own inverse. */
  lemma Swap32Involution(x: u32)
    ensures Swap32(Swap32(x)) == x
  {
    Swap32Bytes(x);
    Swap32Bytes(Swap32(x));
    LeBytes32RoundTrip(x);
    LeBytes32RoundTrip(Swap32(Swap32(x)));
  }

  /** On this little-endian target the little-endian conversions change nothing. */
  lemma LittleEndianConversionsAreIdentity(h: u16, w: u32)
    ensures Le16ToCpu(h) == h && CpuToLe16(h) == h
    ensures Le32ToCpu(w) == w && CpuToLe32(w) == w
  {
  }

  /** Converting to big-endian and back (either way round) restores the value. */
  lemma BigEndianRoundTrip(h: u16, w: u32)
    ensures Be16ToCpu(CpuToBe16(h)) == h && CpuToBe16(Be16ToCpu(h)) == h
    ensures Be32ToCpu(CpuToBe32(w)) == w && CpuToBe32(Be32ToCpu(w)) == w
  {
    Swap16Involution(h);
    Swap32Involution(w);
  }

  /** A value stored after cpu_to_be32 lies in memory in big-endian order. */
  lemma CpuToBe32Layout(x: u32)
    ensures LeBytes32(CpuToBe32(x)) == BeBytes32(x)
  {
    Swap32Bytes(x);
  }

  /** A value stored after cpu_to_be16 lies in memory most significant byte first. */
  lemma CpuToBe16Layout(x: u16)
    ensures LeBytes16(CpuToBe16(x)) == [x / 0x100, x % 0x100]
  {
    Swap16Bytes(x);
  }

  // ---------------------------------------------------------------------
  // Byte accessors: MSB/LSB of a 16-bit value, MSBk/LSBk of a 32-bit value.
  // Each reads one memory byte; as lvalues they replace that byte.

  /** MSB(u16): the byte at offset 1. */
  function Msb(x: u16): byte { LeBytes16(x)[1] }

  /** LSB(u16): the byte at offset 0. */
  function Lsb(x: u16): byte { LeBytes16(x)[0] }

  /** `MSB(x) = b`: the value with its byte at offset 1 replaced. */
  function StoreMsb(x: u16, b: byte): u16 { FromLe16(LeBytes16(x)[1 := b]) }

  /** `LSB(x) = b`: the value with its byte at offset 0 replaced. */
  function StoreLsb(x: u16, b: byte): u16 { FromLe16(LeBytes16(x)[0 := b]) }

  /** MSBk(u32) for k in 0..3: the byte at offset 3 - k (MSB0W .. MSB3W). */
  function MsbK(k: nat, x: u32): byte
    requires k < 4
  {
    LeBytes32(x)[3 - k]
  }

  /** LSBk(u32) for k in 0..3: defined in the header as MSB(3 - k). */
  function LsbK(k: nat, x: u32): byte
    requires k < 4
  {
    MsbK(3 - k, x)
  }

  /** `MSBk(x) = b`: the value with its byte at offset 3 - k replaced. */
  function StoreMsbK(x: u32, k: nat, b: byte): u32
    requires k < 4
  {
    FromLe32(LeBytes32(x)[3 - k := b])
  }

  /** MSB and LSB of a 16-bit value are its high and low byte. */
  lemma MsbLsbRecompose(x: u16)
    ensures Msb(x) * 0x100 + Lsb(x) == x
    ensures Msb(x) == x / 0x100 && Lsb(x) == x % 0x100
  {
  }

  /** Storing `hi` into MSB and `lo` into LSB yields hi*256 + lo, whatever was there before. */
  lemma StoreMsbLsb(x: u16, hi: byte, lo: byte)
    ensures StoreLsb(StoreMsb(x, hi), lo) == hi * 0x100 + lo
  {
  }

  /** MSB0 .. MSB3 are the bytes of a 32-bit value from most to least significant. */
  lemma MsbKOrder(x: u32)
    ensures MsbK(0, x) == x / 0x100_0000
    ensures MsbK(1, x) == x / 0x1_0000 % 0x100
    ensures MsbK(2, x) == x / 0x100 % 0x100
    ensures MsbK(3, x) == x % 0x100
  {
  }

  /** LSBk is the k-th least significant byte: value / 256^k, truncated to a byte. */
  lemma LsbKOrder(x: u32)
    ensures LsbK(0, x) == x % 0x100
    ensures LsbK(1, x) == x / 0x100 % 0x100
    ensures LsbK(2, x) == x / 0x1_0000 % 0x100
    ensures LsbK(3, x) == x / 0x100_0000
  {
  }

  /**
   * Storing b0, b1, b2, b3 into MSB0, MSB1, MSB2, MSB3 yields the big-endian
   * composition of those bytes, whatever the variable held before.
   */
  lemma StoreMsb0To3(x: u32, b0: byte, b1: byte, b2: byte, b3: byte)
    ensures StoreMsbK(StoreMsbK(StoreMsbK(StoreMsbK(x, 0, b0), 1, b1), 2, b2), 3, b3)
         == FromBe32([b0, b1, b2, b3])
  {
    var x0 := StoreMsbK(x, 0, b0);
    FromLe32RoundTrip(LeBytes32(x)[3 := b0]);
    var x1 := StoreMsbK(x0, 1, b1);
    FromLe32RoundTrip(LeBytes32(x0)[2 := b1]);
    var x2 := StoreMsbK(x1, 2, b2);
    FromLe32RoundTrip(LeBytes32(x1)[1 := b2]);
    var x3 := StoreMsbK(x2, 3, b3);
    assert LeBytes32(x2)[0 := b3] == [b3, b2, b1, b0];
  }
}
