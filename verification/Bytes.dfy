/** Octets and the big-endian words built from them. */
module Bytes {
  type Byte = b: int | 0 <= b < 256

  const TWO_16: nat := 0x1_0000
  const TWO_32: nat := 0x1_0000_0000

  type Word16 = n: int | 0 <= n < TWO_16
  type Word32 = n: int | 0 <= n < TWO_32

  function Word16At(s: seq<Byte>, i: nat): Word16
    requires i + 2 <= |s|
  {
    var a: int, b: int := s[i], s[i + 1];
    a * 256 + b
  }

  function Word16Bytes(n: Word16): (r: seq<Byte>)
    ensures |r| == 2 && Word16At(r, 0) == n
  {
    [n / 256, n % 256]
  }

  function Word32At(s: seq<Byte>, i: nat): Word32
    requires i + 4 <= |s|
  {
    var a: int, b: int, c: int, d: int := s[i], s[i + 1], s[i + 2], s[i + 3];
    ((a * 256 + b) * 256 + c) * 256 + d
  }

  function Word32Bytes(n: Word32): (r: seq<Byte>)
    ensures |r| == 4 && Word32At(r, 0) == n
  {
    var upper := n / 256 / 256;
    [upper / 256, upper % 256, n / 256 % 256, n % 256]
  }

  /** Words add modulo their width, as `wrapping_add` does. */
  function Wrap16(n: int): Word16 { n % TWO_16 }

  function Wrap32(n: int): Word32 { n % TWO_32 }

  function Saturate16(n: nat): Word16 { if n < TWO_16 then n else TWO_16 - 1 }

  /** Wrapping at every step is wrapping once. */
  lemma WrapTwice16(a: int, b: int)
    ensures Wrap16(Wrap16(a) + b) == Wrap16(a + b)
  {
  }

  lemma WrapTwice32(a: int, b: int)
    ensures Wrap32(Wrap32(a) + b) == Wrap32(a + b)
  {
  }
}
