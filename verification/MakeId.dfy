/** make_id: the serialization id of a type name, computed by an SHA-1 that works on byte-swapped words. */
module MakeId {
  import opened Sha1

  function SwapByteOrder16(x: bv16): bv16 { (x << 8) | (x >> 8) }

  function Low16(x: bv32): bv16 { (x & 0xFFFF) as bv16 }

  function High16(x: bv32): bv16 { (x >> 16) as bv16 }

  function Pair16(high: bv16, low: bv16): bv32 { ((high as bv32) << 16) | (low as bv32) }

  function SwapByteOrder32(x: bv32): bv32
  {
    Pair16(SwapByteOrder16(Low16(x)), SwapByteOrder16(High16(x)))
  }

  function Pair(high: bv32, low: bv32): bv64
  {
    ((high as bv64) << 32) | (low as bv64)
  }

  function SwapByteOrder64(x: bv64): bv64
  {
    Pair(SwapByteOrder32(Low(x)), SwapByteOrder32(High(x)))
  }

  lemma SwapTwice(x: bv32)
    ensures SwapByteOrder32(SwapByteOrder32(x)) == x
  {
  }

  lemma SwapXor(x: bv32, y: bv32)
    ensures Xor(SwapByteOrder32(x), SwapByteOrder32(y)) == SwapByteOrder32(Xor(x, y))
  {
  }

  lemma SwapXor4(a: bv32, b: bv32, c: bv32, d: bv32)
    ensures SwapByteOrder32(Xor4(SwapByteOrder32(a), SwapByteOrder32(b), SwapByteOrder32(c), SwapByteOrder32(d))) ==
            Xor4(a, b, c, d)
  {
    hide SwapByteOrder32, Xor;
    SwapXor(a, b);
    SwapXor(Xor(a, b), c);
    SwapXor(Xor(Xor(a, b), c), d);
    SwapTwice(Xor4(a, b, c, d));
  }

  function Or(x: bv32, y: bv32): bv32 { x | y }

  lemma SwapOr(x: bv32, y: bv32)
    ensures Or(SwapByteOrder32(x), SwapByteOrder32(y)) == SwapByteOrder32(Or(x, y))
  {
  }

  // std::uint32_t(name[i]) for a signed char.
  function Extend(c: bv8): bv32
  {
    if c >= 0x80 then 0xFFFF_FF00 | (c as bv32) else c as bv32
  }

  // A character moved to lane k of its word, lane 0 being the most significant byte.
  function Lane(x: bv32, k: nat): bv32
  {
    if k == 0 then x << 24 else if k == 1 then x << 16 else if k == 2 then x << 8 else x
  }

  // Word j of the message, before swapping, after the first i characters have been stored.
  function Stored(name: seq<bv8>, j: nat, i: nat): (w: Word)
    requires i <= |name|
  {
    if i == 0 then 0
    else if (i - 1) / 4 == j then Or(Stored(name, j, i - 1), Lane(Extend(name[i - 1]), (i - 1) % 4))
    else Stored(name, j, i - 1)
  }

  function AlignedWords(name: seq<bv8>): (n: nat)
    ensures n == 16 * Blocks(|name|) && |name| + 9 <= 4 * n
  {
    ((|name| + 1 + 8 + 63) / 64) * 16
  }

  // Word j of the message that is hashed, before swapping.
  function MessageWord(name: seq<bv8>, j: nat): (w: Word)
    requires Hashable(name)
  {
    var n := AlignedWords(name);
    if j == n - 2 then High(BitLength(name))
    else if j == n - 1 then Low(BitLength(name))
    else if j == |name| / 4 then Or(Stored(name, j, |name|), Lane(0x80, |name| % 4))
    else Stored(name, j, |name|)
  }

  function Message(name: seq<bv8>): (ws: seq<Word>)
    requires Hashable(name)
    ensures |ws| == AlignedWords(name) && forall j | 0 <= j < |ws| :: ws[j] == MessageWord(name, j)
  {
    seq(AlignedWords(name), j requires 0 <= j < AlignedWords(name) => MessageWord(name, j))
  }

  function Swapped(ws: seq<Word>): (r: seq<Word>)
    ensures |r| == |ws| && forall j | 0 <= j < |ws| :: r[j] == SwapByteOrder32(ws[j])
  {
    seq(|ws|, j requires 0 <= j < |ws| => SwapByteOrder32(ws[j]))
  }

  // The characters of the name, each in its lane.
  method StoreName(name: seq<bv8>, n: nat) returns (message: array<Word>)
    requires |name| <= 4 * n
    ensures fresh(message) && message.Length == n
    ensures forall j | 0 <= j < n :: message[j] == SwapByteOrder32(Stored(name, j, |name|))
  {
    hide SwapByteOrder32, Or, Lane, Extend;
    message := new Word[n](_ => 0);
    ZeroSwapped();
    for i := 0 to |name|
      invariant forall j | 0 <= j < n :: message[j] == SwapByteOrder32(Stored(name, j, i))
    {
      var piece := Lane(Extend(name[i]), i % 4);
      SwapOr(Stored(name, i / 4, i), piece);
      message[i / 4] := Or(message[i / 4], SwapByteOrder32(piece));
    }
  }

  method Preprocess(name: seq<bv8>) returns (message: array<Word>)
    requires Hashable(name)
    ensures fresh(message) && message[..] == Swapped(Message(name))
  {
    hide SwapByteOrder32, Or, Lane, High, Low, BitLength, Stored;
    var n := AlignedWords(name);
    message := StoreName(name, n);
    SwapOr(Stored(name, |name| / 4, |name|), Lane(0x80, |name| % 4));
    message[|name| / 4] := Or(message[|name| / 4], SwapByteOrder32(Lane(0x80, |name| % 4)));
    message[n - 2] := SwapByteOrder32(High(BitLength(name)));
    message[n - 1] := SwapByteOrder32(Low(BitLength(name)));
  }

  lemma ZeroSwapped()
    ensures SwapByteOrder32(0) == 0
  {
  }

  lemma ScheduleNext(block: seq<Word>, j: nat)
    requires |block| == 16 && 16 <= j < 80
    ensures var s := Schedule(block, j);
            Schedule(block, j + 1) == s + [Rotl1(Xor4(s[j - 3], s[j - 8], s[j - 14], s[j - 16]))]
  {
    hide Rotl1, Xor4;
  }

  // One word of the extension, on swapped words.
  lemma ExtendNext(s: seq<Word>, w: seq<Word>, j: nat)
    requires 16 <= j <= |s| && j <= |w| && forall k | 0 <= k < j :: w[k] == SwapByteOrder32(s[k])
    ensures SwapByteOrder32(Xor4(w[j - 3], w[j - 8], w[j - 14], w[j - 16])) == Xor4(s[j - 3], s[j - 8], s[j - 14], s[j - 16])
  {
    hide SwapByteOrder32, Xor4;
    SwapXor4(s[j - 3], s[j - 8], s[j - 14], s[j - 16]);
  }

  // The first sixteen words of w.
  method FirstWords(message: array<Word>, at: nat) returns (w: array<Word>)
    requires at + 16 <= message.Length
    ensures fresh(w) && w.Length == 80 && w[..16] == message[at..at + 16]
  {
    w := new Word[80](_ => 0);
    for j := 0 to 16
      invariant forall k | 0 <= k < j :: w[k] == message[at + k]
    {
      w[j] := message[at + j];
    }
  }

  method Extended(message: array<Word>, at: nat, ghost block: seq<Word>) returns (w: array<Word>)
    requires at + 16 <= message.Length && |block| == 16 && message[at..at + 16] == Swapped(block)
    ensures w.Length == 80 && w[..] == Swapped(Schedule(block, 80))
  {
    hide SwapByteOrder32, Rotl1, Xor4, Schedule;
    w := FirstWords(message, at);
    ScheduleStart(block);
    for j := 16 to 80
      invariant w[..j] == Swapped(Schedule(block, j))
    {
      ghost var s, was := Schedule(block, j), w[..j];
      ExtendNext(s, was, j);
      w[j] := SwapByteOrder32(Rotl1(SwapByteOrder32(Xor4(w[j - 3], w[j - 8], w[j - 14], w[j - 16]))));
      ScheduleNext(block, j);
      assert w[..j + 1] == was + [w[j]];
    }
    assert w[..] == w[..80];
  }

  lemma ScheduleStart(block: seq<Word>)
    requires |block| == 16
    ensures Schedule(block, 16) == block
  {
  }

  function Choice(b: Word, c: Word, d: Word): Word { (b & c) | (!b & d) }

  function Majority(b: Word, c: Word, d: Word): Word { (b & c) | (b & d) | (c & d) }

  lemma ChoiceIsCh(b: Word, c: Word, d: Word)
    ensures Choice(b, c, d) == Ch(b, c, d)
  {
    calc {
      Choice(b, c, d);
      (b & c) | (!b & d);
      (b & c) ^ (!b & d);
      Ch(b, c, d);
    }
  }

  lemma MajorityIsMaj(b: Word, c: Word, d: Word)
    ensures Majority(b, c, d) == Maj(b, c, d)
  {
    calc {
      Majority(b, c, d);
      (b & c) | (b & d) | (c & d);
      (b & c) ^ (b & d) ^ (c & d);
      Maj(b, c, d);
    }
  }

  method RoundFunction(j: nat, b: Word, c: Word, d: Word) returns (f: Word, k: Word)
    ensures f == F(j, b, c, d) && k == K(j)
  {
    hide Choice, Majority, Ch, Maj, Parity;
    if j <= 19 {
      ChoiceIsCh(b, c, d);
      f, k := Choice(b, c, d), 0x5A827999;
    } else if j <= 39 {
      f, k := Parity(b, c, d), 0x6ED9EBA1;
    } else if j <= 59 {
      MajorityIsMaj(b, c, d);
      f, k := Majority(b, c, d), 0x8F1BBCDC;
    } else {
      f, k := Parity(b, c, d), 0xCA62C1D6;
    }
  }

  method MainLoop(h: Regs, w: array<Word>, ghost schedule: seq<Word>) returns (r: Regs)
    requires w.Length == 80 && |schedule| == 80 && w[..] == Swapped(schedule)
    ensures r == Rounds(schedule, 80, h)
  {
    hide SwapByteOrder32, Sum5, Rotl5, Rotl30, F, K;
    var a, b, c, d, e := h.a, h.b, h.c, h.d, h.e;
    for j := 0 to 80
      invariant Regs(a, b, c, d, e) == Rounds(schedule, j, h)
    {
      var f, k := RoundFunction(j, b, c, d);
      assert w[j] == w[..][j];
      SwapTwice(schedule[j]);
      var temp := Sum5(Rotl5(a), f, e, k, SwapByteOrder32(w[j]));
      a, b, c, d, e := temp, a, Rotl30(b), c, d;
    }
    r := Regs(a, b, c, d, e);
  }

  // Four bytes, and then eight, as a little-endian integer.
  function Little32(d: seq<bv8>): bv32
    requires |d| == 4
  {
    Join(d[3], d[2], d[1], d[0])
  }

  function Little64(d: seq<bv8>): (id: bv64)
    requires |d| == 8
  {
    Pair(Little32(d[4..]), Little32(d[..4]))
  }

  function Half(high: bv8, low: bv8): bv16 { ((high as bv16) << 8) | (low as bv16) }

  lemma SwapHalf(high: bv8, low: bv8)
    ensures SwapByteOrder16(Half(high, low)) == Half(low, high)
  {
  }

  lemma JoinHalves(b0: bv8, b1: bv8, b2: bv8, b3: bv8)
    ensures Join(b0, b1, b2, b3) == Pair16(Half(b0, b1), Half(b2, b3))
  {
  }

  lemma HalvesOfWord(high: bv16, low: bv16)
    ensures Low16(Pair16(high, low)) == low && High16(Pair16(high, low)) == high
  {
  }

  lemma SwapJoin(b0: bv8, b1: bv8, b2: bv8, b3: bv8)
    ensures SwapByteOrder32(Join(b0, b1, b2, b3)) == Join(b3, b2, b1, b0)
  {
    hide SwapByteOrder16, Half, Join, Pair16, Low16, High16;
    JoinHalves(b0, b1, b2, b3);
    HalvesOfWord(Half(b0, b1), Half(b2, b3));
    SwapHalf(b0, b1);
    SwapHalf(b2, b3);
    JoinHalves(b3, b2, b1, b0);
  }

  lemma SwapReverses(x: bv32)
    ensures SwapByteOrder32(x) == Join(Byte3(x), Byte2(x), Byte1(x), Byte0(x))
  {
    hide SwapByteOrder32, Join, Byte0, Byte1, Byte2, Byte3;
    JoinBytes(x);
    SwapJoin(Byte0(x), Byte1(x), Byte2(x), Byte3(x));
  }

  lemma HalvesOfPair(high: bv32, low: bv32)
    ensures Low(Pair(high, low)) == low && High(Pair(high, low)) == high
  {
  }

  lemma SwapPair(high: bv32, low: bv32)
    ensures SwapByteOrder64(Pair(high, low)) == Pair(SwapByteOrder32(low), SwapByteOrder32(high))
  {
    hide SwapByteOrder32, High, Low, Pair;
    HalvesOfPair(high, low);
  }

  lemma SwapIsLittle64(h0: bv32, h1: bv32)
    ensures SwapByteOrder64(Pair(h0, h1)) == Little64(Big32(h0) + Big32(h1))
  {
    hide SwapByteOrder64, SwapByteOrder32, Pair, Join, Byte0, Byte1, Byte2, Byte3;
    SwapPair(h0, h1);
    SwapReverses(h0);
    SwapReverses(h1);
  }

  method ProcessBlock(message: array<Word>, i: nat, ghost ws: seq<Word>, h: Regs) returns (r: Regs)
    requires message[..] == Swapped(ws) && i + 16 <= |ws|
    ensures r == Compress(h, ws[i..i + 16])
  {
    hide SwapByteOrder32, Rounds, Schedule, Add;
    ghost var block := ws[i..i + 16];
    assert message[i..i + 16] == Swapped(block) by {
      assert message[i..i + 16] == message[..][i..i + 16];
    }
    var w := Extended(message, i, block);
    var regs := MainLoop(h, w, Schedule(block, 80));
    r := Add(h, regs);
  }

  method HashBlocks(message: array<Word>, ghost ws: seq<Word>, ghost n: nat) returns (h: Regs)
    requires message[..] == Swapped(ws) && |ws| == 16 * n
    ensures h == HashOf(ws, n)
  {
    hide SwapByteOrder32, Compress, Hash;
    HashStart(ws);
    h := Regs(0x67452301, 0xEFCDAB89, 0x98BADCFE, 0x10325476, 0xC3D2E1F0);
    var i := 0;
    ghost var blocks := 0;
    while i < message.Length
      invariant i == 16 * blocks <= 16 * n
      invariant h == Hash(ws, blocks)
    {
      h := ProcessBlock(message, i, ws, h);
      HashNext(ws, blocks);
      i := i + 16;
      blocks := blocks + 1;
    }
  }

  lemma HashStart(ws: seq<Word>)
    ensures Hash(ws, 0) == INITIAL
  {
  }

  lemma HashNext(ws: seq<Word>, n: nat)
    requires 16 * n + 16 <= |ws|
    ensures Hash(ws, n + 1) == Compress(Hash(ws, n), ws[16 * n..16 * n + 16])
  {
    hide Compress;
  }

  /** make_id, on the characters of the name without the terminating zero. */
  method MakeId(name: seq<bv8>) returns (id: bv64)
    requires Hashable(name)
    ensures id == Little64(Output(HashOf(Message(name), Blocks(|name|)))[..8])
    ensures Clean(name) ==> id == Little64(Digest(name)[..8])
  {
    hide SwapByteOrder32, SwapByteOrder64, Pair, HashOf, Message, Little64, Big32, Padded, Swapped;
    var message := Preprocess(name);
    var h := HashBlocks(message, Message(name), Blocks(|name|));
    id := SwapByteOrder64(Pair(h.a, h.b));
    SwapIsLittle64(h.a, h.b);
    assert Output(h)[..8] == Big32(h.a) + Big32(h.b);
    MessageIsPadding(name);
  }

  // ---------------------------------------------------------------------------------------------------------

  // A character with the high bit set spills ones into the bytes before it in its word. That is harmless only
  // if those bytes are all ones anyway.
  predicate Clean(name: seq<bv8>)
  {
    forall i, k | 0 <= k < i < |name| && k / 4 == i / 4 :: name[i] < 0x80 || name[k] == 0xFF
  }

  function At(name: seq<bv8>, p: nat, i: nat): bv8
    requires i <= |name|
  {
    if p < i then name[p] else 0
  }

  lemma Place0(c: bv8)
    ensures Or(Join(0, 0, 0, 0), Lane(Extend(c), 0)) == Join(c, 0, 0, 0)
    ensures Or(Join(0, 0, 0, 0), Lane(c as bv32, 0)) == Join(c, 0, 0, 0)
  {
  }

  lemma Place1(b0: bv8, c: bv8)
    ensures c < 0x80 || b0 == 0xFF ==> Or(Join(b0, 0, 0, 0), Lane(Extend(c), 1)) == Join(b0, c, 0, 0)
    ensures Or(Join(b0, 0, 0, 0), Lane(c as bv32, 1)) == Join(b0, c, 0, 0)
  {
  }

  lemma Place2(b0: bv8, b1: bv8, c: bv8)
    ensures c < 0x80 || (b0 == 0xFF && b1 == 0xFF) ==> Or(Join(b0, b1, 0, 0), Lane(Extend(c), 2)) == Join(b0, b1, c, 0)
    ensures Or(Join(b0, b1, 0, 0), Lane(c as bv32, 2)) == Join(b0, b1, c, 0)
  {
  }

  lemma Place3(b0: bv8, b1: bv8, b2: bv8, c: bv8)
    ensures c < 0x80 || (b0 == 0xFF && b1 == 0xFF && b2 == 0xFF) ==>
              Or(Join(b0, b1, b2, 0), Lane(Extend(c), 3)) == Join(b0, b1, b2, c)
    ensures Or(Join(b0, b1, b2, 0), Lane(c as bv32, 3)) == Join(b0, b1, b2, c)
  {
  }

  // Word j, assembled from the bytes before position i.
  function Gathered(name: seq<bv8>, j: nat, i: nat): Word
    requires i <= |name|
  {
    Join(At(name, 4 * j, i), At(name, 4 * j + 1, i), At(name, 4 * j + 2, i), At(name, 4 * j + 3, i))
  }

  lemma CleanAt(name: seq<bv8>, j: nat, m: nat, k: nat)
    requires Clean(name) && k < m < 4 && 4 * j + m < |name|
    ensures name[4 * j + m] < 0x80 || name[4 * j + k] == 0xFF
  {
    assert (4 * j + k) / 4 == j == (4 * j + m) / 4;
  }

  // Character m of group j joins those before it.
  lemma GatherNext(name: seq<bv8>, j: nat, m: nat)
    requires Clean(name) && m < 4 && 4 * j + m < |name|
    ensures Gathered(name, j, 4 * j + m + 1) == Or(Gathered(name, j, 4 * j + m), Lane(Extend(name[4 * j + m]), m))
  {
    hide Join, Extend, Clean, Or, Lane;
    var c := name[4 * j + m];
    if m == 0 {
      Place0(c);
    } else if m == 1 {
      CleanAt(name, j, 1, 0);
      Place1(name[4 * j], c);
    } else if m == 2 {
      CleanAt(name, j, 2, 0);
      CleanAt(name, j, 2, 1);
      Place2(name[4 * j], name[4 * j + 1], c);
    } else {
      CleanAt(name, j, 3, 0);
      CleanAt(name, j, 3, 1);
      CleanAt(name, j, 3, 2);
      Place3(name[4 * j], name[4 * j + 1], name[4 * j + 2], c);
    }
  }

  lemma {:induction false} StoredIsGathered(name: seq<bv8>, j: nat, i: nat)
    requires Clean(name) && i <= |name|
    ensures Stored(name, j, i) == Gathered(name, j, i)
  {
    hide Join, Or, Lane, Extend;
    if i == 0 {
      EmptyWord();
    } else {
      StoredIsGathered(name, j, i - 1);
      if (i - 1) / 4 == j {
        GatherNext(name, j, (i - 1) % 4);
      }
    }
  }

  lemma EmptyWord()
    ensures Join(0, 0, 0, 0) == 0
  {
  }

  // ---------------------------------------------------------------------------------------------------------
  // Which names are hashed as FIPS 180-4 pads them
  // ---------------------------------------------------------------------------------------------------------

  function PadByte(name: seq<bv8>, p: nat): bv8
  {
    if p < |name| then name[p] else if p == |name| then 0x80 else 0
  }

  lemma PaddedAt(name: seq<bv8>, p: nat)
    requires Hashable(name) && p < 64 * Blocks(|name|)
    ensures p < 64 * Blocks(|name|) - 8 ==> Pad(name)[p] == PadByte(name, p)
    ensures p >= 64 * Blocks(|name|) - 8 ==> Pad(name)[p] == Big64(BitLength(name))[p - (64 * Blocks(|name|) - 8)]
  {
    hide Big64, BitLength, Blocks;
    PaddedLength(|name|);
  }

  lemma JoinBytes(x: bv32)
    ensures Join(Byte0(x), Byte1(x), Byte2(x), Byte3(x)) == x
  {
  }

  // Word j of the padded message, from its four bytes.
  lemma PaddedJoin(name: seq<bv8>, j: nat)
    requires Hashable(name) && j < AlignedWords(name)
    ensures Padded(name)[j] == Join(Pad(name)[4 * j], Pad(name)[4 * j + 1], Pad(name)[4 * j + 2], Pad(name)[4 * j + 3])
  {
    hide Join, Pad, Blocks, AlignedWords;
  }

  // A word of the padded message that does not hold the length.
  lemma PaddedWord(name: seq<bv8>, j: nat)
    requires Hashable(name) && j < AlignedWords(name) - 2
    ensures Padded(name)[j] ==
            Join(PadByte(name, 4 * j), PadByte(name, 4 * j + 1), PadByte(name, 4 * j + 2), PadByte(name, 4 * j + 3))
  {
    hide Join, Pad, PadByte, Blocks, AlignedWords, Padded, Big64, BitLength;
    PaddedJoin(name, j);
    PaddedAt(name, 4 * j);
    PaddedAt(name, 4 * j + 1);
    PaddedAt(name, 4 * j + 2);
    PaddedAt(name, 4 * j + 3);
  }

  lemma LengthBytes(n: bv64, k: nat)
    requires k < 2
    ensures var b := Big64(n);
            Join(b[4 * k], b[4 * k + 1], b[4 * k + 2], b[4 * k + 3]) == if k == 0 then High(n) else Low(n)
  {
    hide High, Low, Byte0, Byte1, Byte2, Byte3, Join;
    JoinBytes(High(n));
    JoinBytes(Low(n));
  }

  lemma LengthWords(name: seq<bv8>, j: nat)
    requires Hashable(name) && AlignedWords(name) - 2 <= j < AlignedWords(name)
    ensures Padded(name)[j] == MessageWord(name, j)
  {
    hide Join, Pad, BitLength, Big64, High, Low, PadByte, Stored, Blocks, AlignedWords, Padded, Lane, Or;
    PaddedJoin(name, j);
    PaddedAt(name, 4 * j);
    PaddedAt(name, 4 * j + 1);
    PaddedAt(name, 4 * j + 2);
    PaddedAt(name, 4 * j + 3);
    LengthBytes(BitLength(name), j - (AlignedWords(name) - 2));
  }

  // The marker byte goes into the word that Gathered leaves open.
  lemma Marker(name: seq<bv8>)
    ensures var j := |name| / 4;
            Or(Gathered(name, j, |name|), Lane(0x80, |name| % 4)) ==
            Join(PadByte(name, 4 * j), PadByte(name, 4 * j + 1), PadByte(name, 4 * j + 2), PadByte(name, 4 * j + 3))
  {
    hide Join, Extend, Or, Lane;
    var i := |name|;
    var p := 4 * (i / 4);
    if i == p {
      Place0(0x80);
    } else if i == p + 1 {
      Place1(name[p], 0x80);
    } else if i == p + 2 {
      Place2(name[p], name[p + 1], 0x80);
    } else {
      Place3(name[p], name[p + 1], name[p + 2], 0x80);
    }
  }

  lemma CleanWord(name: seq<bv8>, j: nat)
    requires Hashable(name) && Clean(name) && j < AlignedWords(name)
    ensures Padded(name)[j] == MessageWord(name, j)
  {
    hide Join, Or, Lane, Pad, Padded, Clean, AlignedWords, Blocks, Stored, PadByte, BitLength;
    if j >= AlignedWords(name) - 2 {
      LengthWords(name, j);
    } else {
      PaddedWord(name, j);
      StoredIsGathered(name, j, |name|);
      if j == |name| / 4 {
        Marker(name);
      } else {
        Unmarked(name, j);
      }
    }
  }

  // Every other word holds four characters or none.
  lemma Unmarked(name: seq<bv8>, j: nat)
    requires j != |name| / 4
    ensures Gathered(name, j, |name|) ==
            Join(PadByte(name, 4 * j), PadByte(name, 4 * j + 1), PadByte(name, 4 * j + 2), PadByte(name, 4 * j + 3))
  {
    hide Join;
  }

  // Once stored, a character's bits stay set.
  lemma {:induction false} StoredCovers(name: seq<bv8>, i: nat, m: nat)
    requires i < m <= |name|
    ensures var x := Lane(Extend(name[i]), i % 4);
            Covers(Stored(name, i / 4, m), x)
    decreases m
  {
    hide Covers, Or, Lane, Extend;
    var x := Lane(Extend(name[i]), i % 4);
    if m == i + 1 {
      Covered(Stored(name, i / 4, i), x, x);
    } else {
      StoredCovers(name, i, m - 1);
      if (m - 1) / 4 == i / 4 {
        Covered(Stored(name, i / 4, m - 1), Lane(Extend(name[m - 1]), (m - 1) % 4), x);
      }
    }
  }

  predicate Covers(w: Word, x: Word) { w & x == x }

  lemma Covered(w: Word, y: Word, x: Word)
    ensures Covers(w, x) ==> Covers(Or(w, y), x)
    ensures Covers(Or(w, x), x)
  {
    hide Or, Covers;
    CoveredBits(w, y, x);
    OrBits(w, y);
    OrBits(w, x);
    CoversBits(w, x);
    CoversBits(w | y, x);
    CoversBits(w | x, x);
  }

  lemma CoveredBits(w: Word, y: Word, x: Word)
    ensures w & x == x ==> (w | y) & x == x
    ensures (w | x) & x == x
  {
  }

  lemma OrBits(x: Word, y: Word)
    ensures Or(x, y) == x | y
  {
  }

  lemma CoversBits(w: Word, x: Word)
    ensures Covers(w, x) <==> w & x == x
  {
  }

  // A set high bit in lane i fills every earlier lane k of the word.
  lemma Spill(w: Word, c: bv8, k: nat, i: nat)
    requires k < i < 4 && c >= 0x80 && Covers(w, Lane(Extend(c), i))
    ensures ByteAt(w, k) == 0xFF
  {
  }

  lemma ByteOfJoin(b0: bv8, b1: bv8, b2: bv8, b3: bv8)
    ensures Byte0(Join(b0, b1, b2, b3)) == b0 && Byte1(Join(b0, b1, b2, b3)) == b1 && Byte2(Join(b0, b1, b2, b3)) == b2
  {
  }

  // Byte k of a word.
  function ByteAt(w: Word, k: nat): bv8
  {
    if k == 0 then Byte0(w) else if k == 1 then Byte1(w) else if k == 2 then Byte2(w) else Byte3(w)
  }

  lemma PaddedByte(name: seq<bv8>, j: nat, k: nat)
    requires Hashable(name) && j < AlignedWords(name) - 2 && k < 3 && 4 * j + k < |name|
    ensures ByteAt(Padded(name)[j], k) == name[4 * j + k]
  {
    hide Join, Padded, Byte0, Byte1, Byte2, Byte3, AlignedWords, Blocks;
    PaddedWord(name, j);
    ByteOfJoin(PadByte(name, 4 * j), PadByte(name, 4 * j + 1), PadByte(name, 4 * j + 2), PadByte(name, 4 * j + 3));
  }

  lemma SpilledByte(name: seq<bv8>, i: nat, k: nat)
    requires Hashable(name) && k < i < |name| && k / 4 == i / 4 && name[i] >= 0x80
    ensures i / 4 < AlignedWords(name) - 2 && ByteAt(MessageWord(name, i / 4), k % 4) == 0xFF
  {
    hide Or, Lane, Extend, Byte0, Byte1, Byte2, Byte3, Covers, Stored, BitLength, High, Low;
    var j := i / 4;
    var x := Lane(Extend(name[i]), i % 4);
    StoredCovers(name, i, |name|);
    Covered(Stored(name, j, |name|), Lane(0x80, |name| % 4), x);
    Spill(MessageWord(name, j), name[i], k % 4, i % 4);
  }

  lemma SpoiledWord(name: seq<bv8>, i: nat, k: nat)
    requires Hashable(name) && k < i < |name| && k / 4 == i / 4 && name[i] >= 0x80 && name[k] != 0xFF
    ensures i / 4 < AlignedWords(name) && Padded(name)[i / 4] != MessageWord(name, i / 4)
  {
    hide Padded, MessageWord, ByteAt, AlignedWords;
    SpilledByte(name, i, k);
    PaddedByte(name, i / 4, k % 4);
    assert k == 4 * (i / 4) + k % 4;
  }

  /** The message that is hashed is the padded name exactly when no spilled bit matters. */
  lemma MessageIsPadding(name: seq<bv8>)
    requires Hashable(name)
    ensures Message(name) == Padded(name) <==> Clean(name)
  {
    hide Padded, MessageWord, AlignedWords, Blocks;
    if Clean(name) {
      hide Clean;
      forall j | 0 <= j < AlignedWords(name)
        ensures Message(name)[j] == Padded(name)[j]
      {
        CleanWord(name, j);
      }
    } else {
      var i, k :| 0 <= k < i < |name| && k / 4 == i / 4 && !(name[i] < 0x80 || name[k] == 0xFF);
      SpoiledWord(name, i, k);
    }
  }

  /** Every 7-bit name is clean. */
  lemma SevenBitIsClean(name: seq<bv8>)
    requires forall i | 0 <= i < |name| :: name[i] < 0x80
    ensures Clean(name)
  {
  }

  /** A name that is not: the sign of its second character spills over the first. */
  lemma SpilledName(name: seq<bv8>)
    requires name == [0x41, 0x80]
    ensures Hashable(name) && Message(name) != Padded(name)
  {
    hide Message, Padded;
    assert name[1] >= 0x80 && name[0] != 0xFF && 0 / 4 == 1 / 4;
    assert !Clean(name);
    MessageIsPadding(name);
  }
}
