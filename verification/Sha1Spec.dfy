/** SHA-1 as FIPS 180-4 states it. */
module Sha1Spec {
  import Bytes

  type Byte = bv8
  type Word = bv32

  /** The five working variables, and the five words of a hash value. */
  datatype Regs = Regs(a: Word, b: Word, c: Word, d: Word, e: Word)

  /** How far a word is turned. */
  type Amount = bv6

  /** Section 3.2, operation 5. */
  function Rotl(x: Word, n: Amount): Word
    requires 0 < n < 32
  {
    (x << n) | (x >> (32 - n))
  }

  /** Bit `k`, the least significant one being bit 0. */
  predicate Bit(x: Word, k: Amount)
    requires k < 32
  {
    (x >> k) & 1 == 1
  }

  /** Turning a word moves bit `k` to place `k + n`, modulo 32. */
  lemma RotlMoves(x: Word, n: Amount, k: Amount)
    requires 0 < n < 32 && k < 32
    ensures Bit(Rotl(x, n), (k + n) & 31) == Bit(x, k)
  {
    BitMoves(x, n, k);
  }

  lemma BitMoves(x: Word, n: Amount, k: Amount)
    requires 0 < n < 32 && k < 32
    ensures ((((x << n) | (x >> (32 - n))) >> ((k + n) & 31)) & 1 == 1) == ((x >> k) & 1 == 1)
  {
  }

  /** Section 4.1.1. */
  function Ch(x: Word, y: Word, z: Word): Word { (x & y) ^ (!x & z) }
  function Parity(x: Word, y: Word, z: Word): Word { x ^ y ^ z }
  function Maj(x: Word, y: Word, z: Word): Word { (x & y) ^ (x & z) ^ (y & z) }

  function F(t: nat, x: Word, y: Word, z: Word): Word {
    if t < 20 then Ch(x, y, z)
    else if t < 40 then Parity(x, y, z)
    else if t < 60 then Maj(x, y, z)
    else Parity(x, y, z)
  }

  /** Section 4.2.1. */
  function K(t: nat): Word {
    if t < 20 then 0x5a827999
    else if t < 40 then 0x6ed9eba1
    else if t < 60 then 0x8f1bbcdc
    else 0xca62c1d6
  }

  /** Section 6.1.2, step 1: the message schedule of a block of 16 words. */
  function W(m: seq<Word>, t: nat): Word
    requires |m| == 16
    decreases t, m
  {
    if t < 16 then m[t]
    else Rotl(W(m, t - 3) ^ W(m, t - 8) ^ W(m, t - 14) ^ W(m, t - 16), 1)
  }

  /** Section 6.1.2, step 3: the temporary word, and one pass of the loop. */
  function Temp(rotated: Word, f: Word, e: Word, k: Word, w: Word): Word {
    rotated + f + e + k + w
  }

  function Round(r: Regs, t: nat, w: Word): Regs {
    Regs(Temp(Rotl(r.a, 5), F(t, r.b, r.c, r.d), r.e, K(t), w), r.a, Rotl(r.b, 30), r.c, r.d)
  }

  function Rounds(h: Regs, m: seq<Word>, t: nat): Regs
    requires |m| == 16
    decreases t, m
  {
    if t == 0 then h else Round(Rounds(h, m, t - 1), t - 1, W(m, t - 1))
  }

  /** Addition modulo 2^32, word by word. */
  function Plus(x: Word, y: Word): Word {
    x + y
  }

  function Add(x: Regs, y: Regs): Regs {
    Regs(Plus(x.a, y.a), Plus(x.b, y.b), Plus(x.c, y.c), Plus(x.d, y.d), Plus(x.e, y.e))
  }

  /** Section 6.1.2, steps 1 to 4. */
  function Compress(h: Regs, m: seq<Word>): Regs
    requires |m| == 16
  {
    Add(h, Rounds(h, m, 80))
  }

  /** Section 5.3.1. */
  const IV := Regs(0x67452301, 0xefcdab89, 0x98badcfe, 0x10325476, 0xc3d2e1f0)

  const BLOCK_BYTES := 64

  /** Section 3.1: four bytes make a word, most significant first. */
  function WordOf(bytes: seq<Byte>): Word
    requires |bytes| == 4
  {
    Append(Append(Append(bytes[0] as Word, bytes[1]), bytes[2]), bytes[3])
  }

  function Append(w: Word, b: Byte): Word {
    (w << 8) | (b as Word)
  }

  function WordsOf(bytes: seq<Byte>): (words: seq<Word>)
    requires |bytes| == BLOCK_BYTES
    ensures |words| == 16
  {
    seq(16, i requires 0 <= i < 16 => WordOf(bytes[4 * i..4 * i + 4]))
  }

  function Zeros(n: nat): seq<Byte> {
    seq(n, _ => 0)
  }

  /** A number of bits, in 64 bits, most significant byte first. */
  function LengthBytes(bits: bv64): (bytes: seq<Byte>)
    ensures |bytes| == 8
  {
    [(bits >> 56) as Byte, ((bits >> 48) & 0xff) as Byte, ((bits >> 40) & 0xff) as Byte,
     ((bits >> 32) & 0xff) as Byte, ((bits >> 24) & 0xff) as Byte, ((bits >> 16) & 0xff) as Byte,
     ((bits >> 8) & 0xff) as Byte, (bits & 0xff) as Byte]
  }

  /** The low 64 bits of a number. */
  function Low64(n: nat): bv64 {
    (n % Bytes.U64_LIMIT) as bv64
  }

  /** The length of a message in bits; the standard is for lengths below 2^64. */
  function BitLength(n: nat): bv64 {
    Low64(8 * n)
  }

  /** The fewest zero bytes that leave room for the length at the end of a block. */
  function PadZeros(n: nat): nat {
    (55 - n) % BLOCK_BYTES
  }

  /** Section 5.1.1. */
  function Pad(msg: seq<Byte>): (padded: seq<Byte>)
    ensures |padded| % BLOCK_BYTES == 0
  {
    var k := PadZeros(|msg|);
    PadFits(|msg|);
    msg + [0x80] + Zeros(k) + LengthBytes(BitLength(|msg|))
  }

  /** The bit `1`, `k` zero bytes and the length end a block. */
  predicate EndsBlock(n: nat, k: nat) {
    (n + 1 + k + 8) % BLOCK_BYTES == 0
  }

  lemma PadFits(n: nat)
    ensures EndsBlock(n, PadZeros(n)) && forall k | EndsBlock(n, k) :: PadZeros(n) <= k
  {
  }

  /** Section 6.1.2 over all blocks of a padded message. */
  function HashBlocks(bytes: seq<Byte>): Regs
    requires |bytes| % BLOCK_BYTES == 0
    decreases |bytes|
  {
    if bytes == [] then IV
    else
      var n := |bytes| - BLOCK_BYTES;
      Compress(HashBlocks(bytes[..n]), WordsOf(bytes[n..]))
  }

  function Sha1(msg: seq<Byte>): Regs {
    HashBlocks(Pad(msg))
  }

  const HEX := "0123456789abcdef"

  /** The last `width` hexadecimal digits of `n`. */
  function HexDigits(n: nat, width: nat): (text: string)
    ensures |text| == width
    decreases width, n
  {
    if width == 0 then "" else HexDigits(n / 16, width - 1) + [HEX[n % 16]]
  }

  function Hex(r: Regs): (text: string)
    ensures |text| == 40
  {
    HexDigits(r.a as nat, 8) + HexDigits(r.b as nat, 8) + HexDigits(r.c as nat, 8) + HexDigits(r.d as nat, 8) +
    HexDigits(r.e as nat, 8)
  }

  function Sha1Hex(msg: seq<Byte>): (text: string)
    ensures |text| == 40
  {
    Hex(Sha1(msg))
  }
}
