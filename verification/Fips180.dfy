/** SHA-1 as FIPS 180-4 defines it, over whole sequences and without any buffer:
    the reference that the packer's in-place code is proved against. */
module Fips180 {

  type Byte = bv8
  type Word = bv32

  /** A chaining value H(0..4), or the five working variables a..e. */
  datatype Hash = Hash(a: Word, b: Word, c: Word, d: Word, e: Word)

  const H0 := Hash(0x67452301, 0xefcdab89, 0x98badcfe, 0x10325476, 0xc3d2e1f0)

  function Rotl1(x: Word): Word { (x << 1) | (x >> 31) }

  function Rotl5(x: Word): Word { (x << 5) | (x >> 27) }

  function Rotl30(x: Word): Word { (x << 30) | (x >> 2) }

  /** Addition modulo 2^32, of two and of five words. */
  function Add(x: Word, y: Word): Word { x + y }

  function Sum(x: Word, f: Word, e: Word, k: Word, w: Word): Word { x + f + e + k + w }

  // Section 4.1.1: the logical functions, in their exclusive-or forms.
  function F(t: nat, x: Word, y: Word, z: Word): Word
  {
    if t < 20 then (x & y) ^ (!x & z)
    else if t < 40 then x ^ y ^ z
    else if t < 60 then (x & y) ^ (x & z) ^ (y & z)
    else x ^ y ^ z
  }

  // Section 4.2.1.
  function K(t: nat): Word
  {
    if t < 20 then 0x5a827999
    else if t < 40 then 0x6ed9eba1
    else if t < 60 then 0x8f1bbcdc
    else 0xca62c1d6
  }

  // Section 6.1.2, step 1: the message schedule of one block.
  function W(block: seq<Word>, t: nat): Word
    requires |block| == 16
  {
    if t < 16 then block[t]
    else Rotl1(W(block, t - 3) ^ W(block, t - 8) ^ W(block, t - 14) ^ W(block, t - 16))
  }

  // Section 6.1.2, step 3: one round.
  function Round(t: nat, v: Hash, w: Word): Hash
  {
    Hash(Sum(Rotl5(v.a), F(t, v.b, v.c, v.d), v.e, K(t), w), v.a, Rotl30(v.b), v.c, v.d)
  }

  function Rounds(h: Hash, block: seq<Word>, n: nat): Hash
    requires |block| == 16
  {
    if n == 0 then h else Round(n - 1, Rounds(h, block, n - 1), W(block, n - 1))
  }

  function Plus(h: Hash, v: Hash): Hash
  {
    Hash(Add(h.a, v.a), Add(h.b, v.b), Add(h.c, v.c), Add(h.d, v.d), Add(h.e, v.e))
  }

  // Section 6.1.2, steps 2 to 4.
  function Compress(h: Hash, block: seq<Word>): Hash
    requires |block| == 16
  {
    Plus(h, Rounds(h, block, 80))
  }

  /** The word whose big-endian bytes are b0 b1 b2 b3. */
  function WordOf(b0: Byte, b1: Byte, b2: Byte, b3: Byte): Word
  {
    ((b0 as Word) << 24) | ((b1 as Word) << 16) | ((b2 as Word) << 8) | (b3 as Word)
  }

  function BytesOf(w: Word): (s: seq<Byte>)
    ensures |s| == 4
  {
    [ ((w >> 24) & 0xFF) as Byte, ((w >> 16) & 0xFF) as Byte, ((w >> 8) & 0xFF) as Byte, (w & 0xFF) as Byte ]
  }

  lemma BytesAndBack(w: Word)
    ensures var s := BytesOf(w); WordOf(s[0], s[1], s[2], s[3]) == w
  {
  }

  function Zeros(n: nat): seq<Byte> { seq(n, _ => 0) }

  /** Section 5.1.1: the number of zero bytes between the 0x80 byte and the length field. */
  function ZeroCount(n: nat): (k: nat)
    ensures k < 64 && (n + 1 + k) % 64 == 56
  {
    (55 - n) % 64
  }

  const TWO32 := 0x1_0000_0000

  /** The 64-bit big-endian length field. */
  function LengthField(bits: nat): (s: seq<Byte>)
    requires bits < TWO32 * TWO32
    ensures |s| == 8
  {
    BytesOf((bits / TWO32) as Word) + BytesOf((bits % TWO32) as Word)
  }

  /** Section 5.1.1, on byte strings. */
  function Pad(msg: seq<Byte>): seq<Byte>
    requires 8 * |msg| < TWO32 * TWO32
  {
    msg + [0x80] + Zeros(ZeroCount(|msg|)) + LengthField(8 * |msg|)
  }

  /** The i-th word of a byte string. */
  function WordAt(p: seq<Byte>, i: nat): Word
    requires 4 * i + 4 <= |p|
  {
    WordOf(p[4 * i], p[4 * i + 1], p[4 * i + 2], p[4 * i + 3])
  }

  /** Section 5.2.1: the j-th 512-bit block as sixteen words. */
  function Block(p: seq<Byte>, j: nat): (b: seq<Word>)
    requires 64 * j + 64 <= |p|
    ensures |b| == 16
  {
    seq(16, t requires 0 <= t < 16 => WordAt(p, 16 * j + t))
  }

  function HashBlocks(p: seq<Byte>, n: nat): Hash
    requires 64 * n <= |p|
  {
    if n == 0 then H0 else Compress(HashBlocks(p, n - 1), Block(p, n - 1))
  }

  function DigestOf(h: Hash): (s: seq<Byte>)
    ensures |s| == 20
  {
    BytesOf(h.a) + BytesOf(h.b) + BytesOf(h.c) + BytesOf(h.d) + BytesOf(h.e)
  }

  /** Section 6.1.2 over every block of the padded message. */
  function Sha1(msg: seq<Byte>): seq<Byte>
    requires 8 * |msg| < TWO32 * TWO32
  {
    DigestOf(HashBlocks(Pad(msg), |Pad(msg)| / 64))
  }
}
