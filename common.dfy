/** Value types and fixed-width integer conversions shared by the other modules. */
module Common {

  datatype Option<T> = None | Some(value: T)

  /** An unsigned 8-bit value (C `uint8_t` / `unsigned char`). */
  type Byte = b: int | 0 <= b < 0x100

  const TwoTo16: int := 0x1_0000
  const TwoTo32: int := 0x1_0000_0000

  /** Conversion to `uint16_t`: reduction modulo 2^16. */
  function ToU16(x: int): (r: int)
    ensures 0 <= r < TwoTo16
    ensures 0 <= x < TwoTo16 ==> r == x
  {
    x % TwoTo16
  }

  /** Conversion to `uint32_t`: reduction modulo 2^32. */
  function ToU32(x: int): (r: int)
    ensures 0 <= r < TwoTo32
    ensures 0 <= x < TwoTo32 ==> r == x
  {
    x % TwoTo32
  }

  /** Conversion to `int16_t` (two's complement wrap). */
  function ToS16(x: int): (r: int)
    ensures -0x8000 <= r < 0x8000
    ensures -0x8000 <= x < 0x8000 ==> r == x
    ensures (r - x) % TwoTo16 == 0
  {
    var u := x % TwoTo16;
    if u < 0x8000 then u else u - TwoTo16
  }

  /** Conversion to `int32_t` (two's complement wrap). */
  function ToS32(x: int): (r: int)
    ensures -0x8000_0000 <= r < 0x8000_0000
    ensures -0x8000_0000 <= x < 0x8000_0000 ==> r == x
    ensures (r - x) % TwoTo32 == 0
  {
    var u := x % TwoTo32;
    if u < 0x8000_0000 then u else u - TwoTo32
  }

  /** C integer division, which truncates toward zero (Dafny's `/` is Euclidean). */
  function TruncDiv(a: int, b: int): (q: int)
    requires b != 0
    ensures a >= 0 && b > 0 ==> q == a / b
    ensures (a >= 0) == (b > 0) || a == 0 ==> q >= 0
  {
    var m := (if a < 0 then -a else a) / (if b < 0 then -b else b);
    if (a < 0) != (b < 0) then -m else m
  }

  /** Little-endian 32-bit word at byte offset `at`. */
  function U32At(s: seq<Byte>, at: nat): (w: int)
    requires at + 4 <= |s|
    ensures 0 <= w < TwoTo32
  {
    (s[at] as int) + 0x100 * (s[at + 1] as int) + 0x1_0000 * (s[at + 2] as int) + 0x100_0000 * (s[at + 3] as int)
  }

  /** The four little-endian bytes of a 32-bit word. */
  function U32Bytes(w: int): (s: seq<Byte>)
    requires 0 <= w < TwoTo32
    ensures |s| == 4
  {
    [w % 0x100, (w / 0x100) % 0x100, (w / 0x1_0000) % 0x100, w / 0x100_0000]
  }

  /** Reading back the bytes of a word gives the word. */
  lemma U32RoundTrip(w: int, pre: seq<Byte>, post: seq<Byte>)
    requires 0 <= w < TwoTo32
    ensures U32At(pre + U32Bytes(w) + post, |pre|) == w
  {
    var s := pre + U32Bytes(w) + post;
    var b := U32Bytes(w);
    assert s[|pre|] == b[0] && s[|pre| + 1] == b[1] && s[|pre| + 2] == b[2] && s[|pre| + 3] == b[3];
    var w1 := w / 0x100;
    var w2 := w1 / 0x100;
    assert w == b[0] as int + 0x100 * w1;
    assert w1 == b[1] as int + 0x100 * w2;
    assert w2 == w / 0x1_0000;
    assert w2 == b[2] as int + 0x100 * (b[3] as int);
  }
}
