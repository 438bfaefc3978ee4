/** Fixed-width C integers, error numbers and optional values. */
module Machine {

  type uint8 = x: int | 0 <= x < 0x100
  type uint16 = x: int | 0 <= x < 0x1_0000
  type uint32 = x: int | 0 <= x < 0x1_0000_0000

  const EINVAL := 22
  const ENOMEM := 12
  const ENODEV := 19
  const EPROBE_DEFER := 517

  datatype Option<+T> = None | Some(value: T)

  function Pow2(k: nat): (p: nat)
    ensures p > 0
  {
    if k == 0 then 1 else 2 * Pow2(k - 1)
  }

  lemma Pow2Plus4(k: nat)
    ensures Pow2(k + 4) == 16 * Pow2(k)
  {
    assert Pow2(k + 2) == 4 * Pow2(k);
  }

  lemma Pow2OfWidths()
    ensures Pow2(16) == 0x1_0000 && Pow2(32) == 0x1_0000_0000
  {
    Pow2Plus4(0);
    Pow2Plus4(4);
    Pow2Plus4(8);
    Pow2Plus4(12);
    Pow2Plus4(16);
    Pow2Plus4(20);
    Pow2Plus4(24);
    Pow2Plus4(28);
  }

  /** Conversion of a long to a 32-bit unsigned field. */
  function ToU32(x: int): (u: uint32)
    ensures 0 <= x < 0x1_0000_0000 ==> u == x
  {
    x % 0x1_0000_0000
  }

  /** Conversion of a long to a 16-bit field, kept as a bit pattern. */
  function ToU16(x: int): uint16 {
    x % 0x1_0000
  }

  /** Conversion of a long to an int. */
  function ToS32(x: int): int {
    if ToU32(x) < 0x8000_0000 then ToU32(x) else ToU32(x) - 0x1_0000_0000
  }

  /** Each conversion keeps the number up to a multiple of two to the power of the width. */
  lemma CutToWidth(x: int) returns (u: int, h: int, i: int)
    ensures x == ToU32(x) + u * 0x1_0000_0000
    ensures x == ToU16(x) + h * 0x1_0000
    ensures x == ToS32(x) + i * 0x1_0000_0000 && -0x8000_0000 <= ToS32(x) < 0x8000_0000
  {
    u, h := x / 0x1_0000_0000, x / 0x1_0000;
    i := if ToU32(x) < 0x8000_0000 then u else u + 1;
  }

  function Le16(x: uint16): seq<uint8> {
    [x % 0x100, x / 0x100]
  }

  function Le32(x: uint32): (b: seq<uint8>)
    ensures |b| == 4
  {
    Le16(x % 0x1_0000) + Le16(x / 0x1_0000)
  }

  function FromLe16(b: seq<uint8>): uint16
    requires |b| == 2
  {
    (b[0] as int) + 0x100 * (b[1] as int)
  }

  function FromLe32(b: seq<uint8>): uint32
    requires |b| == 4
  {
    (FromLe16(b[..2]) as int) + 0x1_0000 * (FromLe16(b[2..]) as int)
  }

  lemma Le16Inverse(x: uint16)
    ensures FromLe16(Le16(x)) == x
  {
  }

  /** The least significant byte of a word comes first. */
  lemma LeastByteFirst(x: uint32)
    ensures Le32(x) == [x % 0x100, x / 0x100 % 0x100, x / 0x1_0000 % 0x100, x / 0x100_0000]
  {
    var low, high := x % 0x1_0000, x / 0x1_0000;
    assert x == high * 0x1_0000 + low;
    assert low % 0x100 == x % 0x100 && low / 0x100 == x / 0x100 % 0x100 && high / 0x100 == x / 0x100_0000;
  }

  lemma Le32Inverse(x: uint32)
    ensures FromLe32(Le32(x)) == x
  {
    assert Le32(x)[..2] == Le16(x % 0x1_0000) && Le32(x)[2..] == Le16(x / 0x1_0000);
    Le16Inverse(x % 0x1_0000);
    Le16Inverse(x / 0x1_0000);
  }

  const WORD_SZ := 4

  /** The little-endian image of an array of 32-bit words, and of 16-bit words. */
  function BytesOf(ws: seq<uint32>): (b: seq<uint8>)
    ensures |b| == WORD_SZ * |ws|
  {
    if ws == [] then [] else Le32(ws[0]) + BytesOf(ws[1..])
  }

  function HalfBytesOf(hs: seq<uint16>): (b: seq<uint8>)
    ensures |b| == 2 * |hs|
  {
    if hs == [] then [] else Le16(hs[0]) + HalfBytesOf(hs[1..])
  }

  function WordsOf(b: seq<uint8>): seq<uint32> {
    if |b| < WORD_SZ then [] else [FromLe32(b[..WORD_SZ])] + WordsOf(b[WORD_SZ..])
  }

  function HalvesOf(b: seq<uint8>): seq<uint16> {
    if |b| < 2 then [] else [FromLe16(b[..2])] + HalvesOf(b[2..])
  }

  lemma {:induction false} WordsOfBytes(ws: seq<uint32>)
    ensures WordsOf(BytesOf(ws)) == ws
  {
    if ws != [] {
      Le32Inverse(ws[0]);
      assert BytesOf(ws)[..WORD_SZ] == Le32(ws[0]) && BytesOf(ws)[WORD_SZ..] == BytesOf(ws[1..]);
      WordsOfBytes(ws[1..]);
    }
  }

  lemma {:induction false} HalvesOfBytes(hs: seq<uint16>)
    ensures HalvesOf(HalfBytesOf(hs)) == hs
  {
    if hs != [] {
      Le16Inverse(hs[0]);
      assert HalfBytesOf(hs)[..2] == Le16(hs[0]) && HalfBytesOf(hs)[2..] == HalfBytesOf(hs[1..]);
      HalvesOfBytes(hs[1..]);
    }
  }
}
