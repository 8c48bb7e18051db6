/** The stream directory of a multi-stream file: its encoding, and the parser that inverts it. */
module MsfDirectory {
  import opened Arithmetic
  import opened Bytes
  import opened Options
  import opened Msf

  const NO_STREAM: nat := 0xFFFF_FFFF
  const MAX_STREAMS: nat := 4096

  datatype Stream = Stream(size: nat, blocks: seq<nat>)

  // A stream of size zero or of the deleted marker size has no blocks.
  predicate HasBlocks(size: nat)
  {
    size != 0 && size != NO_STREAM
  }

  function BlockCount(size: nat, blockSize: nat): (n: nat)
    requires blockSize > 0
  {
    QuotientNatural(size + blockSize - 1, blockSize);
    (size + blockSize - 1) / blockSize
  }

  predicate IsWord(n: nat)
  {
    n < 0x1_0000_0000
  }

  predicate StreamOk(s: Stream, blockSize: nat)
    requires blockSize > 0
  {
    && IsWord(s.size)
    && |s.blocks| == (if HasBlocks(s.size) then BlockCount(s.size, blockSize) else 0)
    && forall i | 0 <= i < |s.blocks| :: IsWord(s.blocks[i])
  }

  // ---------------------------------------------------------------------------------------------------------
  // Encoding
  // ---------------------------------------------------------------------------------------------------------

  function EncodeWords(ws: seq<nat>): (bs: seq<Byte>)
    ensures |bs| == 4 * |ws|
  {
    if ws == [] then [] else Little(ws[0], 4) + EncodeWords(ws[1..])
  }

  function Sizes(ss: seq<Stream>): (ns: seq<nat>)
    ensures |ns| == |ss| && forall i | 0 <= i < |ss| :: ns[i] == ss[i].size
  {
    seq(|ss|, i requires 0 <= i < |ss| => ss[i].size)
  }

  function EncodeBlocks(ss: seq<Stream>): (bs: seq<Byte>)
  {
    if ss == [] then [] else EncodeWords(ss[0].blocks) + EncodeBlocks(ss[1..])
  }

  function EncodeDirectory(ss: seq<Stream>): (bs: seq<Byte>)
  {
    Little(|ss|, 4) + EncodeWords(Sizes(ss)) + EncodeBlocks(ss)
  }

  /** The directory begins with the encoding of the streams. */
  predicate IsDirectory(dir: seq<Byte>, blockSize: nat, ss: seq<Stream>)
    requires blockSize > 0
  {
    && 0 < |ss| <= 4096
    && (forall i | 0 <= i < |ss| :: StreamOk(ss[i], blockSize))
    && EncodeDirectory(ss) <= dir
  }

  // ---------------------------------------------------------------------------------------------------------
  // Decoding
  // ---------------------------------------------------------------------------------------------------------

  function Words(bytes: seq<Byte>, at: nat, n: nat): (ws: seq<nat>)
    requires at + 4 * n <= |bytes|
    ensures |ws| == n && forall i | 0 <= i < n :: IsWord(ws[i])
    decreases n
  {
    if n == 0 then [] else [U32(bytes, at)] + Words(bytes, at + 4, n - 1)
  }

  lemma {:induction false} EncodeOfWords(bytes: seq<Byte>, at: nat, n: nat)
    requires at + 4 * n <= |bytes|
    ensures EncodeWords(Words(bytes, at, n)) == bytes[at..at + 4 * n]
    decreases n
  {
    if n > 0 {
      EncodeOfWords(bytes, at + 4, n - 1);
      LittleOfValue(bytes[at..at + 4]);
      var ws := Words(bytes, at, n);
      assert ws[1..] == Words(bytes, at + 4, n - 1);
      assert bytes[at..at + 4 * n] == bytes[at..at + 4] + bytes[at + 4..at + 4 * n];
    }
  }

  lemma {:induction false} WordsOfEncode(bytes: seq<Byte>, at: nat, ws: seq<nat>)
    requires forall i | 0 <= i < |ws| :: IsWord(ws[i])
    requires at + 4 * |ws| <= |bytes| && bytes[at..at + 4 * |ws|] == EncodeWords(ws)
    ensures Words(bytes, at, |ws|) == ws
    decreases |ws|
  {
    if ws != [] {
      assert bytes[at..at + 4] == EncodeWords(ws)[..4] == Little(ws[0], 4);
      assert bytes[at + 4..at + 4 * |ws|] == EncodeWords(ws)[4..] == EncodeWords(ws[1..]);
      assert Pow256(4) == 0x1_0000_0000;
      ValueOfLittle(ws[0], 4);
      WordsOfEncode(bytes, at + 4, ws[1..]);
    }
  }

  lemma Associates(a: seq<Byte>, b: seq<Byte>, c: seq<Byte>)
    ensures (a + b) + c == a + (b + c)
  {
  }

  lemma Inside(dir: seq<Byte>, base: nat, a: seq<Byte>, b: seq<Byte>, c: seq<Byte>)
    requires base + |a| + |b| + |c| <= |dir| && dir[base..base + |a| + |b| + |c|] == a + (b + c)
    ensures dir[base + |a|..base + |a| + |b|] == b
  {
    forall i | 0 <= i < |b|
      ensures dir[base + |a| + i] == b[i]
    {
      assert dir[base..base + |a| + |b| + |c|][|a| + i] == (a + (b + c))[|a| + i];
    }
  }

  lemma EncodeBlocksCons(ss: seq<Stream>)
    requires ss != []
    ensures EncodeBlocks(ss) == EncodeWords(ss[0].blocks) + EncodeBlocks(ss[1..])
  {
  }

  lemma {:induction false} EncodeBlocksSplit(a: seq<Stream>, b: seq<Stream>)
    ensures EncodeBlocks(a + b) == EncodeBlocks(a) + EncodeBlocks(b)
  {
    hide EncodeWords, EncodeBlocks;
    if a == [] {
      assert a + b == b;
      NoBlocks();
    } else {
      EncodeBlocksSplit(a[1..], b);
      EncodeBlocksCons(a);
      EncodeBlocksCons(a + b);
      assert (a + b)[1..] == a[1..] + b;
      Associates(EncodeWords(a[0].blocks), EncodeBlocks(a[1..]), EncodeBlocks(b));
    }
  }

  // The streams of a directory, found one field at a time.
  lemma DirectoryCount(dir: seq<Byte>, blockSize: nat, ss: seq<Stream>)
    requires blockSize > 0 && IsDirectory(dir, blockSize, ss)
    ensures 4 + 4 * |ss| <= |dir| && U32(dir, 0) == |ss| && Words(dir, 4, |ss|) == Sizes(ss)
    ensures 4 + 4 * |ss| + |EncodeBlocks(ss)| <= |dir|
    ensures dir[4 + 4 * |ss|..4 + 4 * |ss| + |EncodeBlocks(ss)|] == EncodeBlocks(ss)
  {
    hide EncodeBlocks, EncodeWords, StreamOk, Words;
    var n := |ss|;
    var count, sizes, rest := Little(n, 4), EncodeWords(Sizes(ss)), EncodeBlocks(ss);
    var e := EncodeDirectory(ss);
    assert e == count + sizes + rest;
    Prefixed(dir, count, sizes, rest);
    assert Pow256(4) == 0x1_0000_0000;
    ValueOfLittle(n, 4);
    forall i | 0 <= i < n
      ensures IsWord(Sizes(ss)[i])
    {
      StreamWords(dir, blockSize, ss, i);
    }
    WordsOfEncode(dir, 4, Sizes(ss));
  }

  lemma Prefixed(dir: seq<Byte>, a: seq<Byte>, b: seq<Byte>, c: seq<Byte>)
    requires a + b + c <= dir
    ensures |a| + |b| + |c| <= |dir| && dir[0..|a|] == a && dir[|a|..|a| + |b|] == b
    ensures dir[|a| + |b|..|a| + |b| + |c|] == c
  {
    var e := a + b + c;
    assert e[..|a|] == a && e[|a|..|a| + |b|] == b && e[|a| + |b|..] == c;
  }

  // Where the blocks of stream k lie.
  lemma NextStream(dir: seq<Byte>, blockSize: nat, ss: seq<Stream>, k: nat)
    requires blockSize > 0 && IsDirectory(dir, blockSize, ss) && k < |ss|
    ensures var at := 4 + 4 * |ss| + |EncodeBlocks(ss[..k])|;
            at + 4 * |ss[k].blocks| <= |dir| && Words(dir, at, |ss[k].blocks|) == ss[k].blocks
  {
    hide EncodeDirectory, IsDirectory, EncodeBlocks, EncodeWords, StreamOk, Words;
    DirectoryCount(dir, blockSize, ss);
    BlocksAt(ss, k);
    Inside(dir, 4 + 4 * |ss|, EncodeBlocks(ss[..k]), EncodeWords(ss[k].blocks), EncodeBlocks(ss[k + 1..]));
    StreamWords(dir, blockSize, ss, k);
    WordsOfEncode(dir, 4 + 4 * |ss| + |EncodeBlocks(ss[..k])|, ss[k].blocks);
  }

  lemma BlocksAt(ss: seq<Stream>, k: nat)
    requires k < |ss|
    ensures EncodeBlocks(ss) == EncodeBlocks(ss[..k]) + (EncodeWords(ss[k].blocks) + EncodeBlocks(ss[k + 1..]))
  {
    hide EncodeWords;
    assert ss == ss[..k] + ss[k..];
    EncodeBlocksSplit(ss[..k], ss[k..]);
    assert ss[k..][1..] == ss[k + 1..];
  }

  lemma StreamWords(dir: seq<Byte>, blockSize: nat, ss: seq<Stream>, k: nat)
    requires blockSize > 0 && IsDirectory(dir, blockSize, ss) && k < |ss|
    ensures StreamOk(ss[k], blockSize) && IsWord(ss[k].size) && forall i | 0 <= i < |ss[k].blocks| :: IsWord(ss[k].blocks[i])
  {
  }

  // What the parser has established when it has read the streams so far and stands at offset.
  ghost predicate Parsed(dir: seq<Byte>, blockSize: nat, sizes: seq<nat>, streams: seq<Stream>, offset: nat)
    requires blockSize > 0
  {
    && |streams| <= |sizes| && offset == 4 + 4 * |sizes| + |EncodeBlocks(streams)| && offset <= |dir|
    && dir[4 + 4 * |sizes|..offset] == EncodeBlocks(streams)
    && (forall i | 0 <= i < |streams| :: StreamOk(streams[i], blockSize) && streams[i].size == sizes[i])
    && (forall ss: seq<Stream> :: IsDirectory(dir, blockSize, ss) ==> |ss| == |sizes| && Sizes(ss) == sizes && streams <= ss)
  }

  ghost predicate NoDirectory(dir: seq<Byte>, blockSize: nat)
    requires blockSize > 0
  {
    forall ss: seq<Stream> :: !IsDirectory(dir, blockSize, ss)
  }

  // The stream that size field and position announce.
  function Announced(dir: seq<Byte>, blockSize: nat, size: nat, offset: nat): (s: Stream)
    requires blockSize > 0 && (HasBlocks(size) ==> offset + 4 * BlockCount(size, blockSize) <= |dir|)
  {
    Stream(size, if HasBlocks(size) then Words(dir, offset, BlockCount(size, blockSize)) else [])
  }

  lemma ParsedStep(dir: seq<Byte>, blockSize: nat, sizes: seq<nat>, streams: seq<Stream>, offset: nat)
    requires blockSize > 0 && Parsed(dir, blockSize, sizes, streams, offset) && |streams| < |sizes|
    requires forall i | 0 <= i < |sizes| :: IsWord(sizes[i])
    ensures var size := sizes[|streams|];
            if HasBlocks(size) && offset + 4 * BlockCount(size, blockSize) > |dir| then NoDirectory(dir, blockSize)
            else
              var s := Announced(dir, blockSize, size, offset);
              Parsed(dir, blockSize, sizes, streams + [s], offset + 4 * |s.blocks|)
  {
    hide IsDirectory, EncodeBlocks, EncodeWords, Words, BlockCount, StreamOk;
    var size := sizes[|streams|];
    forall ss: seq<Stream> | IsDirectory(dir, blockSize, ss)
      ensures HasBlocks(size) ==> offset + 4 * BlockCount(size, blockSize) <= |dir|
      ensures streams + [Announced(dir, blockSize, size, offset)] <= ss
    {
      NextDetermined(dir, blockSize, sizes, streams, offset, ss);
    }
    if !(HasBlocks(size) && offset + 4 * BlockCount(size, blockSize) > |dir|) {
      AnnouncedFits(dir, blockSize, size, offset);
      var s := Announced(dir, blockSize, size, offset);
      Extend(streams, s);
      assert dir[4 + 4 * |sizes|..offset + 4 * |s.blocks|] ==
             dir[4 + 4 * |sizes|..offset] + dir[offset..offset + 4 * |s.blocks|];
    }
  }

  lemma NextDetermined(dir: seq<Byte>, blockSize: nat, sizes: seq<nat>, streams: seq<Stream>, offset: nat, ss: seq<Stream>)
    requires blockSize > 0 && Parsed(dir, blockSize, sizes, streams, offset) && |streams| < |sizes|
    requires IsDirectory(dir, blockSize, ss)
    ensures |ss| == |sizes|
    ensures var size := sizes[|streams|];
            (HasBlocks(size) ==> offset + 4 * BlockCount(size, blockSize) <= |dir|) &&
            streams + [Announced(dir, blockSize, size, offset)] <= ss
  {
    hide IsDirectory, EncodeBlocks, EncodeWords, Words, BlockCount;
    var k := |streams|;
    assert ss[..k] == streams;
    assert Sizes(ss)[k] == sizes[k];
    NextStream(dir, blockSize, ss, k);
    StreamWords(dir, blockSize, ss, k);
  }

  lemma {:induction false} PrefixDetermined(dir: seq<Byte>, blockSize: nat, ss: seq<Stream>, tt: seq<Stream>, k: nat)
    requires blockSize > 0 && IsDirectory(dir, blockSize, ss) && IsDirectory(dir, blockSize, tt)
    requires |ss| == |tt| && Sizes(ss) == Sizes(tt) && k <= |ss|
    ensures ss[..k] == tt[..k]
    decreases k
  {
    hide IsDirectory, EncodeBlocks, Words, BlockCount;
    if k > 0 {
      PrefixDetermined(dir, blockSize, ss, tt, k - 1);
      NextStream(dir, blockSize, ss, k - 1);
      NextStream(dir, blockSize, tt, k - 1);
      StreamWords(dir, blockSize, ss, k - 1);
      StreamWords(dir, blockSize, tt, k - 1);
      assert Sizes(ss)[k - 1] == Sizes(tt)[k - 1];
      assert ss[..k] == ss[..k - 1] + [ss[k - 1]] && tt[..k] == tt[..k - 1] + [tt[k - 1]];
    }
  }

  /**
   A stream of size zero or of the size that marks a deleted one has no blocks; any other has as many as its size needs,
   and they are the words that follow those of the streams before it.
   */
  lemma BlocksOfStream(dir: seq<Byte>, blockSize: nat, ss: seq<Stream>, k: nat)
    requires blockSize > 0 && IsDirectory(dir, blockSize, ss) && k < |ss| <= 4096
    ensures 4 + 4 * |ss| <= |dir| && U32(dir, 0) == |ss| && Words(dir, 4, |ss|)[k] == ss[k].size
    ensures var n, at := |ss[k].blocks|, 4 + 4 * |ss| + |EncodeBlocks(ss[..k])|;
            && (if ss[k].size == 0 || ss[k].size == 0xFFFF_FFFF then n == 0
                else (n - 1) * blockSize < ss[k].size <= n * blockSize)
            && at + 4 * n <= |dir| && Words(dir, at, n) == ss[k].blocks
  {
    hide IsDirectory, EncodeBlocks, Words, BlockCount;
    DirectoryCount(dir, blockSize, ss);
    NextStream(dir, blockSize, ss, k);
    StreamWords(dir, blockSize, ss, k);
    Ceiling(ss[k].size, blockSize);
  }

  lemma Ceiling(size: nat, blockSize: nat)
    requires blockSize > 0
    ensures var n := BlockCount(size, blockSize); (n - 1) * blockSize < size <= n * blockSize
  {
    var n, r := Division(size + blockSize - 1, blockSize);
    assert (n - 1) * blockSize == n * blockSize - blockSize;
  }

  /** A directory determines its streams: their number, their sizes and their block lists. */
  lemma Determined(dir: seq<Byte>, blockSize: nat, ss: seq<Stream>, tt: seq<Stream>)
    requires blockSize > 0 && IsDirectory(dir, blockSize, ss) && IsDirectory(dir, blockSize, tt)
    ensures ss == tt
  {
    hide IsDirectory, EncodeBlocks, Words;
    DirectoryCount(dir, blockSize, ss);
    DirectoryCount(dir, blockSize, tt);
    PrefixDetermined(dir, blockSize, ss, tt, |ss|);
    assert ss[..|ss|] == ss && tt[..|tt|] == tt;
  }

  lemma AnnouncedFits(dir: seq<Byte>, blockSize: nat, size: nat, offset: nat)
    requires blockSize > 0 && IsWord(size) && offset <= |dir|
    requires HasBlocks(size) ==> offset + 4 * BlockCount(size, blockSize) <= |dir|
    ensures var s := Announced(dir, blockSize, size, offset);
            StreamOk(s, blockSize) && offset + 4 * |s.blocks| <= |dir| &&
            dir[offset..offset + 4 * |s.blocks|] == EncodeWords(s.blocks)
  {
    if HasBlocks(size) {
      EncodeOfWords(dir, offset, BlockCount(size, blockSize));
    }
  }

  lemma Extend(streams: seq<Stream>, s: Stream)
    ensures EncodeBlocks(streams + [s]) == EncodeBlocks(streams) + EncodeWords(s.blocks)
  {
    hide EncodeWords;
    EncodeBlocksSplit(streams, [s]);
    assert EncodeBlocks([s]) == EncodeWords(s.blocks) + EncodeBlocks([]);
  }

  lemma ParsedEncoding(dir: seq<Byte>, blockSize: nat, sizes: seq<nat>, streams: seq<Stream>, offset: nat)
    requires blockSize > 0 && Parsed(dir, blockSize, sizes, streams, offset) && |streams| == |sizes|
    requires U32(dir, 0) == |sizes| && sizes == Words(dir, 4, |sizes|)
    ensures EncodeDirectory(streams) == dir[..offset]
  {
    hide EncodeBlocks, EncodeWords, Words, IsDirectory, StreamOk, Little, Value;
    var sizesAt, blocksAt := 4, 4 + 4 * |sizes|;
    assert Sizes(streams) == sizes;
    EncodeOfWords(dir, 4, |sizes|);
    LittleOfValue(dir[0..4]);
    Parts(dir, sizesAt, blocksAt, offset);
  }

  lemma Parts(dir: seq<Byte>, a: nat, b: nat, c: nat)
    requires a <= b <= c <= |dir|
    ensures dir[..c] == dir[0..a] + dir[a..b] + dir[b..c]
  {
  }

  lemma ParsedAll(dir: seq<Byte>, blockSize: nat, sizes: seq<nat>, streams: seq<Stream>, offset: nat)
    requires blockSize > 0 && Parsed(dir, blockSize, sizes, streams, offset) && |streams| == |sizes|
    requires 0 < |sizes| <= MAX_STREAMS && U32(dir, 0) == |sizes| && sizes == Words(dir, 4, |sizes|)
    ensures forall ss: seq<Stream> :: IsDirectory(dir, blockSize, ss) <==> ss == streams
  {
    hide EncodeBlocks, EncodeDirectory, Words, StreamOk, U32;
    ParsedEncoding(dir, blockSize, sizes, streams, offset);
    assert IsDirectory(dir, blockSize, streams);
    forall ss: seq<Stream> | IsDirectory(dir, blockSize, ss) ensures ss == streams {
      assert |ss| == |streams| && streams <= ss;
    }
  }

  /** The second half of stacktrace_pdb_read_stream_directory: the streams whose encoding the directory begins with. */
  method ParseStreams(dir: seq<Byte>, blockSize: nat) returns (r: Option<seq<Stream>>)
    requires blockSize > 0
    ensures forall ss: seq<Stream> :: IsDirectory(dir, blockSize, ss) <==> r == Some(ss)
  {
    hide IsDirectory, EncodeBlocks, EncodeWords, Words;
    forall ss: seq<Stream> | IsDirectory(dir, blockSize, ss)
      ensures 4 + 4 * |ss| <= |dir| && U32(dir, 0) == |ss| && Words(dir, 4, |ss|) == Sizes(ss) && 0 < |ss| <= MAX_STREAMS
    {
      DirectoryCount(dir, blockSize, ss);
      CountBounds(dir, blockSize, ss);
    }
    if |dir| < 4 {
      return None;
    }
    var count := U32(dir, 0);
    if count == 0 || count > MAX_STREAMS || 4 * count > |dir| - 4 {
      return None;
    }
    r := ParseBlocks(dir, blockSize, Words(dir, 4, count));
  }

  lemma ParsedStart(dir: seq<Byte>, blockSize: nat, sizes: seq<nat>)
    requires blockSize > 0 && 4 + 4 * |sizes| <= |dir|
    requires forall ss: seq<Stream> :: IsDirectory(dir, blockSize, ss) ==> |ss| == |sizes| && Sizes(ss) == sizes
    ensures Parsed(dir, blockSize, sizes, [], 4 + 4 * |sizes|)
  {
    hide IsDirectory;
    NoBlocks();
  }

  // The block lists that follow the sizes, one after the other.
  method ParseBlocks(dir: seq<Byte>, blockSize: nat, sizes: seq<nat>) returns (r: Option<seq<Stream>>)
    requires blockSize > 0 && 0 < |sizes| <= MAX_STREAMS && 4 + 4 * |sizes| <= |dir|
    requires U32(dir, 0) == |sizes| && sizes == Words(dir, 4, |sizes|)
    requires forall ss: seq<Stream> :: IsDirectory(dir, blockSize, ss) ==> |ss| == |sizes| && Sizes(ss) == sizes
    ensures forall ss: seq<Stream> :: IsDirectory(dir, blockSize, ss) <==> r == Some(ss)
  {
    hide IsDirectory, Words, Parsed, U32, IsWord;
    var offset: nat := 4 + 4 * |sizes|;
    var streams: seq<Stream> := [];
    ParsedStart(dir, blockSize, sizes);
    for index := 0 to |sizes|
      invariant |streams| == index && Parsed(dir, blockSize, sizes, streams, offset)
      invariant offset <= |dir|
    {
      ParsedStep(dir, blockSize, sizes, streams, offset);
      var size := sizes[index];
      if size == 0 || size == 0xFFFF_FFFF {
        streams := streams + [Stream(size, [])];
      } else {
        QuotientNatural(size + blockSize - 1, blockSize);
        var blockCount := (size + blockSize - 1) / blockSize;
        if blockCount * 4 > |dir| - offset {
          return None;
        }
        var blocks := Words(dir, offset, blockCount);
        offset := offset + 4 * |blocks|;
        streams := streams + [Stream(size, blocks)];
      }
    }
    ParsedAll(dir, blockSize, sizes, streams, offset);
    r := Some(streams);
  }

  lemma NoBlocks()
    ensures EncodeBlocks([]) == []
  {
  }

  lemma CountBounds(dir: seq<Byte>, blockSize: nat, ss: seq<Stream>)
    requires blockSize > 0 && IsDirectory(dir, blockSize, ss)
    ensures 0 < |ss| <= MAX_STREAMS
  {
  }
}
