/** Fixed-width integers and the byte encodings both sides of the protocol use:
    big-endian (reports, digest preimages), little-endian (compute-budget
    instructions) and big-endian two's complement (answers). */
module Bytes {

  type byte = b: int | 0 <= b < 256

  const U8_MAX: nat := 0xFF
  const U16_MAX: nat := 0xFFFF
  const U32_MAX: nat := 0xFFFF_FFFF
  const U64_MAX: nat := 0xFFFF_FFFF_FFFF_FFFF
  const TWO_64: nat := 0x1_0000_0000_0000_0000
  const TWO_128: nat := 0x1_0000_0000_0000_0000_0000_0000_0000_0000

  type u32 = n: nat | n <= 0xFFFF_FFFF
  type u64 = n: nat | n <= 0xFFFF_FFFF_FFFF_FFFF

  type i128 = x: int | -0x8000_0000_0000_0000_0000_0000_0000_0000 <= x < 0x8000_0000_0000_0000_0000_0000_0000_0000

  /** An unsigned integer addition that stops at the maximum of 64 bits. */
  function SaturatingAdd64(a: nat, b: nat): (r: nat)
    ensures a <= U64_MAX ==> a <= r <= U64_MAX
    ensures r == a + b <==> a + b <= U64_MAX
  {
    if a + b > U64_MAX then U64_MAX else a + b
  }

  /** An unsigned integer subtraction that stops at zero. */
  function SaturatingSub(a: nat, b: nat): nat {
    if a < b then 0 else a - b
  }

  function Min(a: nat, b: nat): nat {
    if a < b then a else b
  }

  function Pow256(n: nat): (r: nat)
    ensures r >= 1
  {
    if n == 0 then 1 else 256 * Pow256(n - 1)
  }

  /** The low `width` bytes of `value`, most significant byte first. */
  function ToBE(value: nat, width: nat): (r: seq<byte>)
    ensures |r| == width
  {
    if width == 0 then [] else ToBE(value / 256, width - 1) + [value % 256]
  }

  function FromBE(s: seq<byte>): nat {
    if s == [] then 0 else 256 * FromBE(s[..|s| - 1]) + s[|s| - 1]
  }

  /** The low `width` bytes of `value`, least significant byte first. */
  function ToLE(value: nat, width: nat): (r: seq<byte>)
    ensures |r| == width
  {
    if width == 0 then [] else [value % 256] + ToLE(value / 256, width - 1)
  }

  function FromLE(s: seq<byte>): nat {
    if s == [] then 0 else s[0] + 256 * FromLE(s[1..])
  }

  /** Whether `value` fits in `width` bytes of two's complement. */
  predicate FitsSigned(value: int, width: nat) {
    && 0 < width
    && 0 <= 2 * value + Pow256(width)
    && 2 * value < Pow256(width)
  }

  /** Two's complement, big-endian (Rust's `iN::to_be_bytes`, libocr's `SerializeSigned`). */
  function ToSignedBE(value: int, width: nat): (r: seq<byte>)
    requires FitsSigned(value, width)
    ensures |r| == width
  {
    ToBE(if value < 0 then value + Pow256(width) else value, width)
  }

  function FromSignedBE(s: seq<byte>): int {
    var unsigned := FromBE(s);
    if 2 * unsigned < Pow256(|s|) then unsigned else unsigned - Pow256(|s|)
  }

  // ----- arithmetic

  lemma MulBound(k: int, n: int)
    requires n > 0
    ensures k >= 1 ==> k * n >= n
    ensures k <= -1 ==> k * n <= -n
  {}

  lemma Distribute(n: int, a: int, b: int)
    ensures n * (a - b) == n * a - n * b
    ensures (a - b) * n == a * n - b * n
  {}

  lemma MulOrder(n: nat, a: int, b: int)
    ensures a <= b ==> n * a <= n * b
    ensures a < b ==> n * a + n <= n * b
  {
    if n > 0 {
      MulBound(b - a, n);
      Distribute(n, b, a);
    }
  }

  lemma MulMonotone(a: nat, b: nat, c: nat, d: nat)
    requires a <= b && c <= d
    ensures a * c <= b * d
  {
    assert a * c <= b * c <= b * d;
  }

  lemma DivMonotone(a: nat, b: nat, n: nat)
    requires a <= b && n > 0
    ensures a / n <= b / n
  {
    MulBound(a / n - b / n, n);
    assert (a / n - b / n) * n == a - a % n - (b - b % n);
  }


  lemma PowValues()
    ensures Pow256(1) == 0x100
    ensures Pow256(4) == U32_MAX + 1
    ensures Pow256(8) == TWO_64
    ensures Pow256(16) == TWO_128
  {
    assert Pow256(2) == 0x1_0000;
    assert Pow256(4) == 0x1_0000_0000;
    assert Pow256(6) == 0x1_0000_0000_0000;
    assert Pow256(8) == TWO_64;
    assert Pow256(10) == 0x1_0000 * TWO_64;
    assert Pow256(12) == 0x1_0000_0000 * TWO_64;
    assert Pow256(14) == 0x1_0000_0000_0000 * TWO_64;
  }

  lemma {:induction false} PowAdd(m: nat, n: nat)
    ensures Pow256(m + n) == Pow256(m) * Pow256(n)
  {
    if n > 0 {
      PowAdd(m, n - 1);
      assert Pow256(m) * (256 * Pow256(n - 1)) == 256 * (Pow256(m) * Pow256(n - 1));
    }
  }

  // ----- round trips

  lemma {:induction false} BigEndianRoundTrip(value: nat, width: nat)
    requires value < Pow256(width)
    ensures FromBE(ToBE(value, width)) == value
  {
    if width > 0 {
      BigEndianRoundTrip(value / 256, width - 1);
      var s := ToBE(value, width);
      assert s[..|s| - 1] == ToBE(value / 256, width - 1);
    }
  }

  lemma {:induction false} BigEndianBound(s: seq<byte>)
    ensures FromBE(s) < Pow256(|s|)
  {
    if s != [] {
      BigEndianBound(s[..|s| - 1]);
    }
  }

  lemma {:induction false} BigEndianCons(s: seq<byte>)
    requires s != []
    ensures FromBE(s) == Pow256(|s| - 1) * s[0] + FromBE(s[1..])
  {
    var (front, n) := (s[..|s| - 1], |s| - 1);
    if n > 0 {
      BigEndianCons(front);
      assert front[1..] == s[1..][..n - 1];
      assert Pow256(n) * s[0] == 256 * (Pow256(n - 1) * s[0]);
    }
  }

  lemma {:induction false} LittleEndianRoundTrip(value: nat, width: nat)
    requires value < Pow256(width)
    ensures FromLE(ToLE(value, width)) == value
  {
    if width > 0 {
      LittleEndianRoundTrip(value / 256, width - 1);
      assert ToLE(value, width)[1..] == ToLE(value / 256, width - 1);
    }
  }

  lemma SignedRoundTrip(value: int, width: nat)
    requires FitsSigned(value, width)
    ensures FromSignedBE(ToSignedBE(value, width)) == value
  {
    BigEndianRoundTrip(if value < 0 then value + Pow256(width) else value, width);
  }

  lemma BigEndianInjective(a: nat, b: nat, width: nat)
    requires a < Pow256(width) && b < Pow256(width)
    requires ToBE(a, width) == ToBE(b, width)
    ensures a == b
  {
    BigEndianRoundTrip(a, width);
    BigEndianRoundTrip(b, width);
  }

  lemma SignedInjective(a: int, b: int, width: nat)
    requires FitsSigned(a, width) && FitsSigned(b, width)
    requires ToSignedBE(a, width) == ToSignedBE(b, width)
    ensures a == b
  {
    SignedRoundTrip(a, width);
    SignedRoundTrip(b, width);
  }

  // ----- the encodings, byte by byte

  /** The 32-bit number of four bytes, the highest given first. */
  function Word(a: byte, b: byte, c: byte, d: byte): u32 {
    0x100_0000 * (a as int) + 0x1_0000 * (b as int) + 0x100 * (c as int) + d
  }

  /** The 64-bit number of two words, the higher given first. */
  function Words(high: u32, low: u32): u64 {
    0x1_0000_0000 * (high as int) + low
  }

  lemma BigEndian4(s: seq<byte>)
    requires |s| == 4
    ensures FromBE(s) == Word(s[0], s[1], s[2], s[3])
  {
    assert s[..3][..2] == s[..2] && s[..2][..1] == s[..1] && s[..1][..0] == [];
    assert FromBE(s[..1]) == s[0];
    assert FromBE(s[..3]) == 256 * FromBE(s[..2]) + s[2];
  }

  lemma BigEndian8(s: seq<byte>)
    requires |s| == 8
    ensures FromBE(s) == Words(Word(s[0], s[1], s[2], s[3]), Word(s[4], s[5], s[6], s[7]))
  {
    assert s[..7][..6] == s[..6] && s[..6][..5] == s[..5] && s[..5][..4] == s[..4];
    BigEndian4(s[..4]);
    assert FromBE(s[..5]) == 256 * FromBE(s[..4]) + s[4];
    assert FromBE(s[..6]) == 256 * FromBE(s[..5]) + s[5];
    assert FromBE(s[..7]) == 256 * FromBE(s[..6]) + s[6];
  }

  lemma LittleEndian4(s: seq<byte>)
    requires |s| == 4
    ensures FromLE(s) == Word(s[3], s[2], s[1], s[0])
  {
    assert s[1..][1..] == s[2..] && s[2..][1..] == s[3..] && s[3..][1..] == [];
    assert FromLE(s[3..]) == s[3];
    assert FromLE(s[1..]) == s[1] + 256 * FromLE(s[2..]);
  }

  lemma LittleEndian8(s: seq<byte>)
    requires |s| == 8
    ensures FromLE(s) == Words(Word(s[7], s[6], s[5], s[4]), Word(s[3], s[2], s[1], s[0]))
  {
    assert s[1..][1..] == s[2..] && s[2..][1..] == s[3..] && s[3..][1..] == s[4..];
    LittleEndian4(s[4..]);
    assert FromLE(s[3..]) == s[3] + 256 * FromLE(s[4..]);
    assert FromLE(s[2..]) == s[2] + 256 * FromLE(s[3..]);
    assert FromLE(s[1..]) == s[1] + 256 * FromLE(s[2..]);
  }

  // ----- sign extension

  function Repeat(b: byte, n: nat): (r: seq<byte>)
    ensures |r| == n
  {
    seq(n, i => b)
  }

  lemma {:induction false} BigEndianConcat(high: nat, low: nat, m: nat, n: nat)
    requires low < Pow256(n)
    ensures ToBE(high * Pow256(n) + low, m + n) == ToBE(high, m) + ToBE(low, n)
  {
    if n > 0 {
      BigEndianConcat(high, low / 256, m, n - 1);
      var rest := high * Pow256(n - 1);
      assert high * Pow256(n) == 256 * rest;
      assert high * Pow256(n) + low == 256 * (rest + low / 256) + low % 256;
    } else {
      assert ToBE(high, m) + [] == ToBE(high, m);
    }
  }

  lemma {:induction false} AllOnes(n: nat)
    ensures ToBE(Pow256(n) - 1, n) == Repeat(0xFF, n)
  {
    if n > 0 {
      AllOnes(n - 1);
      assert (Pow256(n) - 1) / 256 == Pow256(n - 1) - 1;
      assert Repeat(0xFF, n) == Repeat(0xFF, n - 1) + [0xFF];
    }
  }

  lemma {:induction false} AllZeros(n: nat)
    ensures ToBE(0, n) == Repeat(0, n)
  {
    if n > 0 {
      AllZeros(n - 1);
      assert Repeat(0, n) == Repeat(0, n - 1) + [0];
    }
  }

  /** Prefixing a two's-complement number with `extra` copies of its sign byte
      encodes the same number in the wider format. */
  lemma SignExtension(value: int, extra: nat, width: nat)
    requires FitsSigned(value, width)
    ensures FitsSigned(value, extra + width)
    ensures ToSignedBE(value, extra + width)
            == Repeat(if value < 0 then 0xFF else 0x00, extra) + ToSignedBE(value, width)
  {
    PowAdd(extra, width);
    var (h, w) := (Pow256(extra), Pow256(width));
    MulOrder(w, 1, h);
    if value < 0 {
      Distribute(w, h, 1);
      BigEndianConcat(h - 1, value + w, extra, width);
      AllOnes(extra);
    } else {
      BigEndianConcat(0, value, extra, width);
      AllZeros(extra);
    }
  }

  // ----- concatenations of fields

  lemma SplitEqual<T>(a: seq<T>, b: seq<T>, c: seq<T>, d: seq<T>)
    requires |a| == |c| && a + b == c + d
    ensures a == c && b == d
  {
    assert a == (a + b)[..|a|] && c == (c + d)[..|c|];
    assert b == (a + b)[|a|..] && d == (c + d)[|c|..];
  }
}
