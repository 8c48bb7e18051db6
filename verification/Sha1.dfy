/** SHA-1 as FIPS 180-4 defines it, for messages that are whole bytes. */
module Sha1 {

  type Word = bv32

  datatype Regs = Regs(a: Word, b: Word, c: Word, d: Word, e: Word)

  const INITIAL := Regs(0x67452301, 0xEFCDAB89, 0x98BADCFE, 0x10325476, 0xC3D2E1F0)

  predicate Hashable(m: seq<bv8>)
  {
    |m| * 8 < 0x1_0000_0000_0000_0000
  }

  function BitLength(m: seq<bv8>): bv64
    requires Hashable(m)
  {
    (|m| * 8) as bv64
  }

  // The number of 512-bit blocks that a message of n bytes is padded to.
  function Blocks(n: nat): (b: nat) { (n + 72) / 64 }

  // The zero bytes between the marker and the length.
  function Zeros(n: nat): (z: nat) { (55 - n) % 64 }

  lemma PaddedLength(n: nat)
    ensures n + 9 + Zeros(n) == 64 * Blocks(n)
  {
    var q := 1 - (55 - n) / 64;
    assert n + 9 + (55 - n) % 64 == 64 * q;
  }

  // Section 5.1.1: a one bit, the fewest zero bits that reach 448 modulo 512, and the length in 64 bits.
  function Pad(m: seq<bv8>): (r: seq<bv8>)
    requires Hashable(m)
    ensures |r| == 64 * Blocks(|m|)
  {
    PaddedLength(|m|);
    m + [0x80] + seq(Zeros(|m|), _ => 0) + Big64(BitLength(m))
  }

  function High(n: bv64): bv32 { (n >> 32) as bv32 }

  function Low(n: bv64): bv32 { (n & 0xFFFF_FFFF) as bv32 }

  function Big64(n: bv64): (r: seq<bv8>)
    ensures |r| == 8
  {
    Big32(High(n)) + Big32(Low(n))
  }

  // The bytes of a word, most significant first.
  function Byte0(n: bv32): bv8 { (n >> 24) as bv8 }

  function Byte1(n: bv32): bv8 { ((n >> 16) & 0xFF) as bv8 }

  function Byte2(n: bv32): bv8 { ((n >> 8) & 0xFF) as bv8 }

  function Byte3(n: bv32): bv8 { (n & 0xFF) as bv8 }

  function Big32(n: bv32): (r: seq<bv8>)
    ensures |r| == 4
  {
    [Byte0(n), Byte1(n), Byte2(n), Byte3(n)]
  }

  function Join(b0: bv8, b1: bv8, b2: bv8, b3: bv8): (w: Word)
  {
    ((b0 as bv32) << 24) | ((b1 as bv32) << 16) | ((b2 as bv32) << 8) | (b3 as bv32)
  }

  // Section 5.2.1: the message as 32-bit words, most significant byte first.
  function Words(bs: seq<bv8>, n: nat): (ws: seq<Word>)
    requires |bs| == 4 * n
    ensures |ws| == n
  {
    seq(n, j requires 0 <= j < n => Join(bs[4 * j], bs[4 * j + 1], bs[4 * j + 2], bs[4 * j + 3]))
  }

  /** The padded message that is hashed, as words. */
  function Padded(m: seq<bv8>): (ws: seq<Word>)
    requires Hashable(m)
    ensures |ws| == 16 * Blocks(|m|)
  {
    Words(Pad(m), 16 * Blocks(|m|))
  }

  function Xor(x: Word, y: Word): Word { x ^ y }

  function Xor4(a: Word, b: Word, c: Word, d: Word): Word { Xor(Xor(Xor(a, b), c), d) }

  function Sum5(a: Word, b: Word, c: Word, d: Word, e: Word): Word { a + b + c + d + e }

  function Rotl1(x: Word): Word { (x << 1) | (x >> 31) }

  function Rotl5(x: Word): Word { (x << 5) | (x >> 27) }

  function Rotl30(x: Word): Word { (x << 30) | (x >> 2) }

  // Section 4.1.1.
  function Ch(x: Word, y: Word, z: Word): Word { (x & y) ^ (!x & z) }

  function Parity(x: Word, y: Word, z: Word): Word { x ^ y ^ z }

  function Maj(x: Word, y: Word, z: Word): Word { (x & y) ^ (x & z) ^ (y & z) }

  function F(t: nat, x: Word, y: Word, z: Word): Word
  {
    if t <= 19 then Ch(x, y, z) else if t <= 39 then Parity(x, y, z) else if t <= 59 then Maj(x, y, z) else Parity(x, y, z)
  }

  // Section 4.2.1.
  function K(t: nat): Word
  {
    if t <= 19 then 0x5A827999 else if t <= 39 then 0x6ED9EBA1 else if t <= 59 then 0x8F1BBCDC else 0xCA62C1D6
  }

  // Section 6.1.2, step 1: the first n words of the message schedule of a block.
  function Schedule(block: seq<Word>, n: nat): (w: seq<Word>)
    requires |block| == 16 && 16 <= n <= 80
    ensures |w| == n
  {
    if n == 16 then block
    else
      var w := Schedule(block, n - 1);
      w + [Rotl1(Xor4(w[n - 4], w[n - 9], w[n - 15], w[n - 17]))]
  }

  // Step 3.
  function Round(t: nat, r: Regs, w: Word): Regs
  {
    Regs(Sum5(Rotl5(r.a), F(t, r.b, r.c, r.d), r.e, K(t), w), r.a, Rotl30(r.b), r.c, r.d)
  }

  function Rounds(w: seq<Word>, t: nat, r: Regs): Regs
    requires t <= |w|
  {
    if t == 0 then r else Round(t - 1, Rounds(w, t - 1, r), w[t - 1])
  }

  // Step 4.
  function Add(h: Regs, r: Regs): Regs
  {
    Regs(h.a + r.a, h.b + r.b, h.c + r.c, h.d + r.d, h.e + r.e)
  }

  // Steps 1 to 4 for one block.
  function Compress(h: Regs, block: seq<Word>): Regs
    requires |block| == 16
  {
    Add(h, Rounds(Schedule(block, 80), 80, h))
  }

  // The hash value after the first n blocks.
  function Hash(ws: seq<Word>, n: nat): Regs
    requires 16 * n <= |ws|
  {
    if n == 0 then INITIAL else Compress(Hash(ws, n - 1), ws[16 * n - 16..16 * n])
  }

  function HashOf(ws: seq<Word>, n: nat): Regs
    requires |ws| == 16 * n
  {
    Hash(ws, n)
  }

  function Output(h: Regs): (d: seq<bv8>)
    ensures |d| == 20
  {
    Big32(h.a) + Big32(h.b) + Big32(h.c) + Big32(h.d) + Big32(h.e)
  }

  function Digest(m: seq<bv8>): (d: seq<bv8>)
    requires Hashable(m)
    ensures |d| == 20
  {
    Output(HashOf(Padded(m), Blocks(|m|)))
  }
}
