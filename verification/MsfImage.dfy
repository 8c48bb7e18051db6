/** A whole multi-stream file: header, block map, directory blocks and streams. */
module MsfImage {
  import opened Arithmetic
  import opened Bytes
  import opened Options
  import opened Msf
  import opened MsfDirectory

  datatype Image = Image(blockSize: nat, streams: seq<Stream>)

  // "Microsoft C/C++ MSF 7.00\r\n\x1aDS\0\0\0"
  function Magic(): (m: seq<Byte>)
    ensures |m| == 32
  {
    [77, 105, 99, 114, 111, 115, 111, 102, 116, 32, 67, 47, 67, 43, 43, 32, 77, 83, 70, 32, 55, 46, 48, 48, 13, 10, 26,
     68, 83, 0, 0, 0]
  }

  predicate HasHeader(pdb: seq<Byte>)
  {
    |pdb| >= 56 && pdb[..32] == Magic()
  }

  function BlockSize(pdb: seq<Byte>): nat requires |pdb| >= 56 { U32(pdb, 32) }

  function FileBlocks(pdb: seq<Byte>): nat requires |pdb| >= 56 { U32(pdb, 40) }

  function DirectorySize(pdb: seq<Byte>): nat requires |pdb| >= 56 { U32(pdb, 44) }

  function MapOffset(pdb: seq<Byte>): nat requires |pdb| >= 56 { Product(U32(pdb, 52), BlockSize(pdb)) }

  function Product(a: nat, b: nat): nat { Monotone(0, a, b); a * b }

  predicate HeaderOk(pdb: seq<Byte>)
  {
    && HasHeader(pdb)
    && 512 <= BlockSize(pdb) <= 8192 && FileBlocks(pdb) != 0 && DirectorySize(pdb) != 0
    && Product(BlockSize(pdb), FileBlocks(pdb)) <= |pdb|
    && MapOffset(pdb) < |pdb| && 4 * BlockCount(DirectorySize(pdb), BlockSize(pdb)) <= |pdb| - MapOffset(pdb)
  }

  function DirectoryBlocks(pdb: seq<Byte>): (blocks: seq<nat>)
    requires HeaderOk(pdb)
  {
    Words(pdb, MapOffset(pdb), BlockCount(DirectorySize(pdb), BlockSize(pdb)))
  }

  predicate DirectoryInFile(pdb: seq<Byte>)
    requires HeaderOk(pdb)
  {
    RangeInFile(pdb, BlockSize(pdb), DirectoryBlocks(pdb), 0, DirectorySize(pdb))
  }

  function Directory(pdb: seq<Byte>): (dir: seq<Byte>)
    requires HeaderOk(pdb) && DirectoryInFile(pdb)
  {
    Gather(pdb, BlockSize(pdb), DirectoryBlocks(pdb), 0, DirectorySize(pdb))
  }

  /** The file is an image of these streams. */
  predicate IsImage(pdb: seq<Byte>, image: Image)
  {
    && HeaderOk(pdb) && image.blockSize == BlockSize(pdb) && DirectoryInFile(pdb)
    && IsDirectory(Directory(pdb), image.blockSize, image.streams)
  }

  lemma PartStarts(size: nat, blockSize: nat, i: nat)
    requires blockSize > 0 && i < BlockCount(size, blockSize)
    ensures Product(i, blockSize) < size <= Product(BlockCount(size, blockSize), blockSize)
  {
    var n := BlockCount(size, blockSize);
    assert n * blockSize <= size + blockSize - 1 < n * blockSize + blockSize;
    Monotone(i + 1, n, blockSize);
    assert (i + 1) * blockSize == i * blockSize + blockSize;
  }

  // The part of the directory that block i holds: it starts at a block boundary.
  function Part(size: nat, blockSize: nat, i: nat): (n: nat)
    requires blockSize > 0 && i < BlockCount(size, blockSize)
    ensures 0 < n <= blockSize && Product(i, blockSize) + n <= size
    ensures i + 1 < BlockCount(size, blockSize) ==> Product(i, blockSize) + n == Product(i + 1, blockSize)
    ensures i + 1 == BlockCount(size, blockSize) ==> Product(i, blockSize) + n == size
  {
    PartStarts(size, blockSize, i);
    assert (i + 1) * blockSize == i * blockSize + blockSize;
    assert i + 1 < BlockCount(size, blockSize) ==> (i + 1) * blockSize < size by {
      if i + 1 < BlockCount(size, blockSize) {
        PartStarts(size, blockSize, i + 1);
      }
    }
    if size - Product(i, blockSize) < blockSize then size - Product(i, blockSize) else blockSize
  }

  lemma Boundary(blockSize: nat, i: nat)
    requires blockSize > 0
    ensures Product(i, blockSize) / blockSize == i && Product(i, blockSize) % blockSize == 0
  {
    DivUnique(blockSize, i, 0);
  }

  /** The loop that collects the directory from its blocks. */
  method CollectDirectory(pdb: seq<Byte>, blockSize: nat, blocks: seq<nat>, size: nat) returns (dir: Option<seq<Byte>>)
    requires blockSize > 0 && size > 0 && |blocks| == BlockCount(size, blockSize) > 0
    ensures dir.Some? <==> RangeInFile(pdb, blockSize, blocks, 0, size)
    ensures dir.Some? ==> dir.value == Gather(pdb, blockSize, blocks, 0, size)
  {
    hide Gather, InFile, BlockCount, Product;
    var directory := new Byte[size](_ => 0);
    var collected: nat := 0;
    ProductZero(blockSize);
    for index := 0 to |blocks|
      invariant collected <= size && collected == (if index < |blocks| then Product(index, blockSize) else size)
      invariant RangeInFile(pdb, blockSize, blocks, 0, collected)
      invariant directory[..collected] == Gather(pdb, blockSize, blocks, 0, collected)
    {
      var bytes := Part(size, blockSize, index);
      Boundary(blockSize, index);
      RunInFile(pdb, blockSize, blocks, collected, bytes);
      var sourceOffset := Address(blockSize, blocks, collected);
      assert sourceOffset == blocks[index] * blockSize;
      hide Address;
      if sourceOffset >= |pdb| {
        return None;
      }
      if bytes > |pdb| - sourceOffset {
        return None;
      }
      GatherNext(pdb, blockSize, blocks, 0, collected, bytes);
      Copy(directory, collected, pdb[sourceOffset..sourceOffset + bytes], size);
      collected := collected + bytes;
    }
    dir := Some(directory[..]);
  }

  lemma ProductZero(b: nat)
    ensures Product(0, b) == 0
  {
  }

  /** stacktrace_pdb_read_stream_directory: it succeeds exactly on images, and returns the streams of the image. */
  method ReadStreamDirectory(pdb: seq<Byte>) returns (r: Option<Image>)
    ensures forall image: Image :: IsImage(pdb, image) <==> r == Some(image)
  {
    hide IsDirectory, Gather, Words, U32, Magic;
    if |pdb| < 56 || pdb[..32] != Magic() {
      return None;
    }
    var blockSize, fileBlocks, size, mapBlock := U32(pdb, 32), U32(pdb, 40), U32(pdb, 44), U32(pdb, 52);
    if blockSize < 512 || blockSize > 8192 || fileBlocks == 0 || size == 0 || blockSize * fileBlocks > |pdb| {
      return None;
    }
    var count := BlockCount(size, blockSize);
    var offset := Product(mapBlock, blockSize);
    if offset >= |pdb| || count * 4 > |pdb| - offset {
      return None;
    }
    HeaderFacts(pdb);
    var blocks := Words(pdb, offset, count);
    var directory := CollectDirectory(pdb, blockSize, blocks, size);
    if directory.None? {
      return None;
    }
    var streams := ParseStreams(directory.value, blockSize);
    r := if streams.None? then None else Some(Image(blockSize, streams.value));
    assert forall image: Image :: IsImage(pdb, image) <==>
             image.blockSize == blockSize && IsDirectory(directory.value, blockSize, image.streams);
  }

  lemma HeaderFacts(pdb: seq<Byte>)
    requires HeaderOk(pdb)
    ensures |pdb| >= 56 && BlockSize(pdb) > 0 && DirectorySize(pdb) > 0
    ensures |DirectoryBlocks(pdb)| == BlockCount(DirectorySize(pdb), BlockSize(pdb)) > 0
  {
    NotZero(DirectorySize(pdb), BlockSize(pdb));
  }

  lemma NotZero(n: nat, b: nat)
    requires n > 0 && b > 0
    ensures BlockCount(n, b) > 0
  {
    var q := (n + b - 1) / b;
    assert n + b - 1 < q * b + b;
    NoMultiple(q, b);
  }

  /** stacktrace_pdb_copy_stream. */
  method CopyStream(pdb: seq<Byte>, image: Image, index: nat) returns (stream: Option<seq<Byte>>)
    requires image.blockSize > 0
    ensures stream.Some? <==> index < |image.streams| && HasBlocks(image.streams[index].size) &&
                              RangeInFile(pdb, image.blockSize, image.streams[index].blocks, 0, image.streams[index].size)
    ensures stream.Some? ==>
              stream.value == Gather(pdb, image.blockSize, image.streams[index].blocks, 0, image.streams[index].size)
  {
    hide Gather;
    if index >= |image.streams| {
      return None;
    }
    var ref := image.streams[index];
    if ref.size == 0 || ref.size == 0xFFFF_FFFF {
      return None;
    }
    var buffer := new Byte[ref.size](_ => 0);
    var ok := ReadStreamBytes(pdb, image.blockSize, ref.blocks, ref.size, 0, buffer, ref.size);
    stream := if ok then Some(buffer[..]) else None;
    assert buffer[..] == buffer[..ref.size];
  }

  /** A stream of an image whose blocks are all in the file is the start of their concatenation. */
  lemma StreamContents(pdb: seq<Byte>, image: Image, index: nat)
    requires IsImage(pdb, image) && index < |image.streams| && HasBlocks(image.streams[index].size)
    requires image.blockSize > 0
    requires AllInFile(pdb, image.blockSize, image.streams[index].blocks)
    ensures var s := image.streams[index];
            && s.size <= |s.blocks| * image.blockSize
            && RangeInFile(pdb, image.blockSize, s.blocks, 0, s.size)
            && Gather(pdb, image.blockSize, s.blocks, 0, s.size) == Concatenation(pdb, image.blockSize, s.blocks)[..s.size]
  {
    hide HeaderOk, Gather, Concatenation, InFile;
    var s := image.streams[index];
    StreamWords(Directory(pdb), image.blockSize, image.streams, index);
    NotZero(s.size, image.blockSize);
    PartStarts(s.size, image.blockSize, 0);
    GatherIsSlice(pdb, image.blockSize, s.blocks, 0, s.size);
  }

  /**
   A file as a writer lays it out: the directory cut into parts, each part at the start of one of the blocks that the
   block map lists.
   */
  predicate LaidOut(pdb: seq<Byte>, dirBlocks: seq<nat>, dir: seq<Byte>)
  {
    && HeaderOk(pdb) && DirectorySize(pdb) == |dir| && |dirBlocks| == BlockCount(|dir|, BlockSize(pdb))
    && (forall i | 0 <= i < |dirBlocks| :: IsWord(dirBlocks[i]))
    && pdb[MapOffset(pdb)..MapOffset(pdb) + 4 * |dirBlocks|] == EncodeWords(dirBlocks)
    && forall i | 0 <= i < |dirBlocks| :: PartInPlace(pdb, dirBlocks, dir, i)
  }

  predicate PartInPlace(pdb: seq<Byte>, dirBlocks: seq<nat>, dir: seq<Byte>, i: nat)
    requires HeaderOk(pdb) && |dirBlocks| == BlockCount(|dir|, BlockSize(pdb)) && i < |dirBlocks|
  {
    var b, from, n := BlockSize(pdb), Product(i, BlockSize(pdb)), Part(|dir|, BlockSize(pdb), i);
    Product(dirBlocks[i], b) + n <= |pdb| &&
    pdb[Product(dirBlocks[i], b)..Product(dirBlocks[i], b) + n] == dir[from..from + n]
  }

  /** Any directory laid out over any blocks is read back as it was written. */
  lemma LaidOutIsImage(pdb: seq<Byte>, dirBlocks: seq<nat>, dir: seq<Byte>, ss: seq<Stream>)
    requires LaidOut(pdb, dirBlocks, dir) && IsDirectory(dir, BlockSize(pdb), ss)
    ensures IsImage(pdb, Image(BlockSize(pdb), ss))
  {
    hide Gather, IsDirectory, Magic;
    WordsOfEncode(pdb, MapOffset(pdb), dirBlocks);
    assert DirectoryBlocks(pdb) == dirBlocks;
    forall k | 0 <= k < |dir|
      ensures InFile(pdb, BlockSize(pdb), dirBlocks, k)
    {
      LaidOutAt(pdb, dirBlocks, dir, k);
    }
    var read := Directory(pdb);
    forall k | 0 <= k < |dir|
      ensures read[k] == dir[k]
    {
      LaidOutAt(pdb, dirBlocks, dir, k);
      assert read[k - 0] == pdb[Address(BlockSize(pdb), dirBlocks, k)];
    }
    assert read == dir;
  }

  // Byte r of part i.
  lemma PartByte(pdb: seq<Byte>, dirBlocks: seq<nat>, dir: seq<Byte>, i: nat, r: nat)
    requires HeaderOk(pdb) && |dirBlocks| == BlockCount(|dir|, BlockSize(pdb)) && i < |dirBlocks|
    requires PartInPlace(pdb, dirBlocks, dir, i) && r < Part(|dir|, BlockSize(pdb), i)
    ensures Product(dirBlocks[i], BlockSize(pdb)) + r < |pdb| && Product(i, BlockSize(pdb)) + r < |dir|
    ensures pdb[Product(dirBlocks[i], BlockSize(pdb)) + r] == dir[Product(i, BlockSize(pdb)) + r]
  {
    hide HeaderOk, BlockCount, Part, Product, BlockSize;
    HeaderFacts(pdb);
    var b := BlockSize(pdb);
    var n, from, at := Part(|dir|, b, i), Product(i, b), Product(dirBlocks[i], b);
    assert pdb[at..at + n][r] == dir[from..from + n][r];
  }

  lemma AddressIs(blockSize: nat, blocks: seq<nat>, k: nat)
    requires blockSize > 0 && 0 <= k / blockSize < |blocks|
    ensures Address(blockSize, blocks, k) == Product(blocks[k / blockSize], blockSize) + k % blockSize
  {
  }

  lemma LaidOutAt(pdb: seq<Byte>, dirBlocks: seq<nat>, dir: seq<Byte>, k: nat)
    requires LaidOut(pdb, dirBlocks, dir) && k < |dir|
    ensures InFile(pdb, BlockSize(pdb), dirBlocks, k)
    ensures pdb[Address(BlockSize(pdb), dirBlocks, k)] == dir[k]
  {
    hide HeaderOk, BlockCount, Part, EncodeWords, Product, BlockSize, DirectorySize, MapOffset, PartInPlace, Address;
    HeaderFacts(pdb);
    var b := BlockSize(pdb);
    WithinCount(|dir|, b, k);
    PartCovers(|dir|, b, k);
    PartByte(pdb, dirBlocks, dir, k / b, k % b);
    AddressIs(b, dirBlocks, k);
  }

  lemma PartCovers(size: nat, b: nat, k: nat)
    requires b > 0 && k < size && 0 <= k / b < BlockCount(size, b)
    ensures k == Product(k / b, b) + k % b && 0 <= k % b < Part(size, b, k / b)
  {
    hide BlockCount;
    var q, r := Division(k, b);
  }

  lemma WithinCount(size: nat, b: nat, k: nat)
    requires b > 0 && k < size
    ensures 0 <= k / b < BlockCount(size, b)
  {
    hide BlockCount;
    NotZero(size, b);
    PartStarts(size, b, 0);
    Row(BlockCount(size, b), b, k);
  }

  // ---------------------------------------------------------------------------------------------------------
  // The header as it is written
  // ---------------------------------------------------------------------------------------------------------

  // The signature, in words of eight characters.
  const SIGNATURE := "Microsof" + "t C/C++ " + "MSF 7.00" + "\r\n\U{1A}DS\0\0\0"

  function Ascii(text: string): (bytes: seq<Byte>)
    ensures |bytes| == |text|
  {
    seq(|text|, i requires 0 <= i < |text| => text[i] as int % 256)
  }

  // The words of the header, in the order in which they stand behind the signature.
  datatype Header = Header(
    blockSize: nat, freeBlockMap: nat, fileBlocks: nat, directorySize: nat, reserved: nat, mapBlock: nat)

  function HeaderWords(h: Header): (ws: seq<nat>)
  {
    [h.blockSize, h.freeBlockMap, h.fileBlocks, h.directorySize, h.reserved, h.mapBlock]
  }

  predicate HeaderFits(h: Header) { forall i | 0 <= i < 6 :: IsWord(HeaderWords(h)[i]) }

  function EncodeHeader(h: Header): (bytes: seq<Byte>)
    ensures |bytes| == 56
  {
    assert |SIGNATURE| == 32;
    Ascii(SIGNATURE) + EncodeWords(HeaderWords(h))
  }

  lemma AsciiBoth(a: string, b: string)
    ensures Ascii(a + b) == Ascii(a) + Ascii(b)
  {
  }

  lemma AsciiWords()
    ensures Ascii("Microsof") == [77, 105, 99, 114, 111, 115, 111, 102]
    ensures Ascii("t C/C++ ") == [116, 32, 67, 47, 67, 43, 43, 32]
  {
  }

  lemma AsciiWordsBehind()
    ensures Ascii("MSF 7.00") == [77, 83, 70, 32, 55, 46, 48, 48]
    ensures Ascii("\r\n\U{1A}DS\0\0\0") == [13, 10, 26, 68, 83, 0, 0, 0]
  {
  }

  lemma SignatureIsMagic()
    ensures |SIGNATURE| == 32 && Ascii(SIGNATURE) == Magic()
  {
    hide Ascii;
    AsciiBoth("Microsof" + "t C/C++ " + "MSF 7.00", "\r\n\U{1A}DS\0\0\0");
    AsciiBoth("Microsof" + "t C/C++ ", "MSF 7.00");
    AsciiBoth("Microsof", "t C/C++ ");
    AsciiWords();
    AsciiWordsBehind();
    assert Magic() == [77, 105, 99, 114, 111, 115, 111, 102] + [116, 32, 67, 47, 67, 43, 43, 32] +
                      [77, 83, 70, 32, 55, 46, 48, 48] + [13, 10, 26, 68, 83, 0, 0, 0];
  }

  lemma HeaderWord(pdb: seq<Byte>, h: Header, i: nat)
    requires HeaderFits(h) && i < 6 && |pdb| >= 56 && pdb[32..56] == EncodeWords(HeaderWords(h))
    ensures U32(pdb, 32 + 4 * i) == HeaderWords(h)[i]
  {
    hide EncodeWords, U32, Words, HeaderWords;
    WordsOfEncode(pdb, 32, HeaderWords(h));
    WordOf(pdb, 32, 6, i);
  }

  lemma {:induction false} WordOf(bytes: seq<Byte>, at: nat, n: nat, i: nat)
    requires at + 4 * n <= |bytes| && i < n
    ensures Words(bytes, at, n)[i] == U32(bytes, at + 4 * i)
    decreases i
  {
    hide U32;
    if i > 0 {
      WordOf(bytes, at + 4, n - 1, i - 1);
    }
  }

  /**
   Every encoded header is recognized and its fields are read back, whatever follows it; it is accepted exactly within
   the limits on block size, block count, directory size and block map.
   */
  lemma HeaderRead(pdb: seq<Byte>, h: Header)
    requires HeaderFits(h) && EncodeHeader(h) <= pdb
    ensures HasHeader(pdb) && BlockSize(pdb) == h.blockSize && FileBlocks(pdb) == h.fileBlocks
    ensures DirectorySize(pdb) == h.directorySize && MapOffset(pdb) == h.mapBlock * h.blockSize
    ensures HeaderOk(pdb) <==>
            && 512 <= h.blockSize <= 8192 && h.fileBlocks != 0 && h.directorySize != 0
            && h.blockSize * h.fileBlocks <= |pdb| && h.mapBlock * h.blockSize < |pdb|
            && h.mapBlock * h.blockSize + 4 * ((h.directorySize + h.blockSize - 1) / h.blockSize) <= |pdb|
  {
    hide EncodeWords, U32, Ascii, Magic;
    SignatureIsMagic();
    HeaderPlaced(pdb, h);
    HeaderWord(pdb, h, 0);
    HeaderWord(pdb, h, 2);
    HeaderWord(pdb, h, 3);
    HeaderWord(pdb, h, 5);
  }

  lemma HeaderPlaced(pdb: seq<Byte>, h: Header)
    requires EncodeHeader(h) <= pdb
    ensures |pdb| >= 56 && |SIGNATURE| == 32 && pdb[..32] == Ascii(SIGNATURE) && pdb[32..56] == EncodeWords(HeaderWords(h))
  {
    hide EncodeWords, Ascii, HeaderWords;
    var e := EncodeHeader(h);
    assert |SIGNATURE| == 32;
    assert pdb[..56] == e && e[..32] == Ascii(SIGNATURE) && e[32..56] == EncodeWords(HeaderWords(h));
    assert pdb[..32] == pdb[..56][..32] && pdb[32..56] == pdb[..56][32..56];
  }
}
