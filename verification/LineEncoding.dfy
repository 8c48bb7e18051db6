/** Line subsections as a compiler writes them, and that the parser gives back what was written. */
module LineEncoding {
  import opened Bytes
  import opened LineTable
  import opened Options

  // A line entry as written: the code offset, the line number and the flag bits above it.
  datatype Written = Written(offset: nat, line: nat, high: nat)

  // The entries of one source file, with whatever follows them in the block, such as column numbers.
  datatype Block = Block(checksum: nat, entries: seq<Written>, extra: seq<Byte>)

  datatype Header = Header(codeOffset: nat, segment: nat, flags: nat, codeSize: nat)

  predicate WrittenOk(e: Written) { e.offset < WORD && e.line < 0x100_0000 && e.high < 0x100 }

  function BlockSize(b: Block): (n: nat) { 12 + 8 * |b.entries| + |b.extra| }

  predicate BlockOk(b: Block)
  {
    b.checksum < WORD && BlockSize(b) < WORD && forall i | 0 <= i < |b.entries| :: WrittenOk(b.entries[i])
  }

  predicate BlocksOk(bs: seq<Block>) { forall i | 0 <= i < |bs| :: BlockOk(bs[i]) }

  predicate HeaderOk(h: Header)
  {
    h.codeOffset < WORD && h.segment < 0x1_0000 && h.flags < 0x1_0000 && h.codeSize < WORD
  }

  function EncodeEntry(e: Written): (s: seq<Byte>)
    ensures |s| == 8
  {
    Little(e.offset, 4) + Little(e.line + 0x100_0000 * e.high, 4)
  }

  function EncodeEntries(es: seq<Written>): (s: seq<Byte>)
    ensures |s| == 8 * |es|
  {
    if es == [] then [] else EncodeEntry(es[0]) + EncodeEntries(es[1..])
  }

  function EncodeBlock(b: Block): (s: seq<Byte>)
    ensures |s| == BlockSize(b)
  {
    Little(b.checksum, 4) + Little(|b.entries|, 4) + Little(BlockSize(b), 4) + EncodeEntries(b.entries) + b.extra
  }

  function EncodeBlocks(bs: seq<Block>): (s: seq<Byte>)
  {
    if bs == [] then [] else EncodeBlock(bs[0]) + EncodeBlocks(bs[1..])
  }

  function EncodeHeader(h: Header): (s: seq<Byte>)
    ensures |s| == 12
  {
    Little(h.codeOffset, 4) + Little(h.segment, 2) + Little(h.flags, 2) + Little(h.codeSize, 4)
  }

  function Plain(es: seq<Written>): (r: seq<Entry>)
    ensures |r| == |es|
  {
    seq(|es|, i requires 0 <= i < |es| => Entry(es[i].offset, es[i].line))
  }

  // Where the range of written entry i ends, in code offsets.
  function WrittenEnd(es: seq<Written>, i: nat, codeSize: nat): (end: nat)
    requires i < |es|
  {
    if i + 1 == |es| then codeSize
    else if es[i].offset < es[i + 1].offset <= codeSize then es[i + 1].offset
    else es[i].offset + 1
  }

  // The lines of the entries from i on: those with a line number and inside the code.
  function WrittenLines(es: seq<Written>, i: nat, c: Code, file: string): (ls: seq<Line>)
    requires i <= |es|
    decreases |es| - i
  {
    if i == |es| then []
    else
      var rest := WrittenLines(es, i + 1, c, file);
      if es[i].line == 0 || c.size <= es[i].offset then rest
      else
        [Line((c.base + es[i].offset) % 0x1_0000_0000, (c.base + WrittenEnd(es, i, c.size)) % 0x1_0000_0000, es[i].line, file)] + rest
  }

  lemma {:induction false} LinesAsWritten(es: seq<Written>, i: nat, c: Code, file: string)
    requires i <= |es|
    ensures LinesFrom(Plain(es), i, c, file) == WrittenLines(es, i, c, file)
    decreases |es| - i
  {
    if i < |es| {
      LinesAsWritten(es, i + 1, c, file);
    }
  }

  // The lines of a block whose file is known.
  function LinesOf(b: Block, c: Code, files: seq<Checksum>): (ls: seq<Line>)
  {
    var file := FileOf(files, b.checksum);
    if file.Some? && file.value != [] then WrittenLines(b.entries, 0, c, file.value) else []
  }

  function LinesOfAll(bs: seq<Block>, c: Code, files: seq<Checksum>): (ls: seq<Line>)
  {
    if bs == [] then [] else LinesOf(bs[0], c, files) + LinesOfAll(bs[1..], c, files)
  }

  // ---------------------------------------------------------------------------------------------------------

  // `part` stands at position `at` of `s`.
  predicate Holds(s: seq<Byte>, at: nat, part: seq<Byte>)
  {
    at + |part| <= |s| && s[at..at + |part|] == part
  }

  lemma HoldsSplit(s: seq<Byte>, at: nat, a: seq<Byte>, b: seq<Byte>)
    requires Holds(s, at, a + b)
    ensures Holds(s, at, a) && Holds(s, at + |a|, b)
  {
    var whole := s[at..at + |a + b|];
    assert s[at..at + |a|] == whole[..|a|] == a;
    assert s[at + |a|..at + |a| + |b|] == whole[|a|..] == b;
  }

  lemma WordAt(s: seq<Byte>, at: nat, n: nat)
    requires n < WORD && Holds(s, at, Little(n, 4))
    ensures U32(s, at) == n
  {
    ValueOfLittle(n, 4);
  }

  lemma EntryRead(s: seq<Byte>, at: nat, e: Written)
    requires WrittenOk(e) && Holds(s, at, EncodeEntry(e))
    ensures EntryAt(s, at) == Entry(e.offset, e.line)
  {
    hide U32, Holds;
    HoldsSplit(s, at, Little(e.offset, 4), Little(e.line + 0x100_0000 * e.high, 4));
    WordAt(s, at, e.offset);
    WordAt(s, at + 4, e.line + 0x100_0000 * e.high);
  }

  lemma {:induction false} EntryHolds(s: seq<Byte>, at: nat, es: seq<Written>, i: nat)
    requires Holds(s, at, EncodeEntries(es)) && i < |es|
    ensures Holds(s, at + 8 * i, EncodeEntry(es[i]))
    decreases i
  {
    hide Holds, EncodeEntry;
    HoldsSplit(s, at, EncodeEntry(es[0]), EncodeEntries(es[1..]));
    if i > 0 {
      EntryHolds(s, at + 8, es[1..], i - 1);
    }
  }

  lemma EntriesAt(s: seq<Byte>, at: nat, n: nat, i: nat)
    requires at + 8 * n <= |s| && i < n
    ensures Entries(s, at, n)[i] == EntryAt(s, at + 8 * i)
  {
    hide EntryAt;
  }

  lemma OneEntryRead(s: seq<Byte>, at: nat, es: seq<Written>, i: nat)
    requires at + 8 * |es| <= |s| && Holds(s, at, EncodeEntries(es)) && i < |es| && WrittenOk(es[i])
    ensures Entries(s, at, |es|)[i] == Plain(es)[i]
  {
    hide EncodeEntries, EncodeEntry, EntryAt, Holds, WrittenOk, Entries;
    EntryHolds(s, at, es, i);
    var e, p := es[i], at + 8 * i;
    EntryRead(s, p, e);
    EntriesAt(s, at, |es|, i);
  }

  lemma HoldsFits(s: seq<Byte>, at: nat, part: seq<Byte>)
    requires Holds(s, at, part)
    ensures at + |part| <= |s|
  {
  }

  lemma EntriesRead(s: seq<Byte>, at: nat, es: seq<Written>)
    requires Holds(s, at, EncodeEntries(es)) && forall i | 0 <= i < |es| :: WrittenOk(es[i])
    ensures at + 8 * |es| <= |s| && Entries(s, at, |es|) == Plain(es)
  {
    hide EncodeEntries, EntryAt, Holds, WrittenOk, Entries, Plain;
    HoldsFits(s, at, EncodeEntries(es));
    var got, want := Entries(s, at, |es|), Plain(es);
    forall i | 0 <= i < |es| ensures got[i] == want[i] {
      OneEntryRead(s, at, es, i);
    }
  }

  lemma BlockRead(s: seq<Byte>, at: nat, b: Block)
    requires BlockOk(b) && Holds(s, at, EncodeBlock(b))
    ensures at + BlockSize(b) <= |s| && U32(s, at) == b.checksum
    ensures U32(s, at + 4) == |b.entries| && U32(s, at + 8) == BlockSize(b)
    ensures Entries(s, at + 12, |b.entries|) == Plain(b.entries)
  {
    hide U32, EncodeEntries, Entries, Plain;
    var h1, h2, h3, es := Little(b.checksum, 4), Little(|b.entries|, 4), Little(BlockSize(b), 4), EncodeEntries(b.entries);
    HoldsParts(s, at, h1, h2, h3, es, b.extra);
    WordAt(s, at, b.checksum);
    WordAt(s, at + 4, |b.entries|);
    WordAt(s, at + 8, BlockSize(b));
    EntriesRead(s, at + 12, b.entries);
  }

  lemma HoldsParts(s: seq<Byte>, at: nat, a: seq<Byte>, b: seq<Byte>, c: seq<Byte>, d: seq<Byte>, e: seq<Byte>)
    requires Holds(s, at, a + b + c + d + e)
    ensures Holds(s, at, a) && Holds(s, at + |a|, b) && Holds(s, at + |a| + |b|, c) && Holds(s, at + |a| + |b| + |c|, d)
  {
    hide Holds;
    HoldsSplit(s, at, a + b + c + d, e);
    HoldsSplit(s, at, a + b + c, d);
    HoldsSplit(s, at, a + b, c);
    HoldsSplit(s, at, a, b);
  }

  lemma {:induction false} BlocksRead(s: seq<Byte>, at: nat, bs: seq<Block>, c: Code, files: seq<Checksum>)
    requires BlocksOk(bs) && Holds(s, at, EncodeBlocks(bs)) && at + |EncodeBlocks(bs)| == |s|
    ensures BlocksFrom(s, at, c, files) == LinesOfAll(bs, c, files)
    decreases |bs|
  {
    hide U32, EncodeBlock, LinesFrom, WrittenLines, Entries, FileOf, Plain, Holds, BlockOk;
    if bs != [] {
      var b := bs[0];
      assert BlockOk(b);
      HoldsSplit(s, at, EncodeBlock(b), EncodeBlocks(bs[1..]));
      BlockRead(s, at, b);
      if FileOf(files, b.checksum).Some? {
        LinesAsWritten(b.entries, 0, c, FileOf(files, b.checksum).value);
      }
      BlocksRead(s, at + BlockSize(b), bs[1..], c, files);
    }
  }

  /** Parsing an encoded subsection gives exactly the lines of its blocks, or none when its code range is unusable. */
  lemma SubsectionRead(h: Header, bs: seq<Block>, sections: seq<Section>, files: seq<Checksum>)
    requires HeaderOk(h) && BlocksOk(bs)
    ensures SubsectionLines(EncodeHeader(h) + EncodeBlocks(bs), sections, files) ==
            if h.segment == 0 || h.segment > |sections| || h.codeSize == 0 then []
            else LinesOfAll(bs, Code((sections[h.segment - 1].rva + h.codeOffset) % WORD, h.codeSize), files)
  {
    hide U32, U16, EncodeBlocks, LinesOfAll, BlocksFrom;
    var s := EncodeHeader(h) + EncodeBlocks(bs);
    HeaderRead(s, h);
    assert Holds(s, 12, EncodeBlocks(bs));
    var c := CodeOf(s, sections);
    if c.Some? {
      BlocksRead(s, 12, bs, c.value, files);
    }
  }

  lemma HeaderRead(s: seq<Byte>, h: Header)
    requires HeaderOk(h) && |s| >= 12 && s[..12] == EncodeHeader(h)
    ensures U32(s, 0) == h.codeOffset && U16(s, 4) == h.segment && U32(s, 8) == h.codeSize
  {
    hide U32;
    var a, b, f, d := Little(h.codeOffset, 4), Little(h.segment, 2), Little(h.flags, 2), Little(h.codeSize, 4);
    assert s[0..12] == a + b + f + d + [];
    HoldsParts(s, 0, a, b, f, d, []);
    WordAt(s, 0, h.codeOffset);
    WordAt(s, 8, h.codeSize);
    ValueOfLittle(h.segment, 2);
  }

  // ---------------------------------------------------------------------------------------------------------
  // Lookup over all the blocks of a subsection
  // ---------------------------------------------------------------------------------------------------------

  predicate AllAscending(bs: seq<Block>, codeSize: nat)
  {
    forall i | 0 <= i < |bs| :: Ascending(Plain(bs[i].entries), codeSize)
  }

  // The candidate of a block whose file is known.
  function BlockCandidate(b: Block, c: Code, files: seq<Checksum>, rva: nat): (l: Option<Line>)
  {
    var file := FileOf(files, b.checksum);
    if file.Some? && file.value != [] then Candidate(Plain(b.entries), c, file.value, rva) else None
  }

  // Of the blocks' candidates the one that starts furthest on, the first of those.
  function BestCandidate(bs: seq<Block>, c: Code, files: seq<Checksum>, rva: nat): (l: Option<Line>)
  {
    if bs == [] then None else Better(BlockCandidate(bs[0], c, files, rva), BestCandidate(bs[1..], c, files, rva))
  }

  /**
   Lookup over all blocks of a subsection, whose code may interleave: each block offers its entry with the greatest
   offset not above the address, if that has a line, and the one that starts furthest on is found.
   */
  lemma {:induction false} LookupOverBlocks(bs: seq<Block>, c: Code, files: seq<Checksum>, rva: nat)
    requires AllAscending(bs, c.size) && c.base + c.size < WORD
    ensures Best(LinesOfAll(bs, c, files), rva) == BestCandidate(bs, c, files, rva)
    decreases |bs|
  {
    hide Best, Candidate, LinesFrom, WrittenLines, FileOf, Ascending, Plain, Better;
    if bs == [] {
      NothingFound(rva);
    } else {
      var b := bs[0];
      assert AllAscending(bs[1..], c.size);
      LookupOverBlocks(bs[1..], c, files, rva);
      BestOfBoth(LinesOf(b, c, files), LinesOfAll(bs[1..], c, files), rva);
      NothingFound(rva);
      var file := FileOf(files, b.checksum);
      if file.Some? && file.value != [] {
        LinesAsWritten(b.entries, 0, c, file.value);
        LookupFindsLastEntry(Plain(b.entries), c, file.value, rva);
      }
    }
  }

  /** From bytes to lookup: what an encoded subsection answers for an address. */
  lemma SubsectionLookup(h: Header, bs: seq<Block>, sections: seq<Section>, files: seq<Checksum>, rva: nat)
    requires HeaderOk(h) && BlocksOk(bs) && 0 < h.segment <= |sections| && h.codeSize > 0
    requires AllAscending(bs, h.codeSize) && (sections[h.segment - 1].rva + h.codeOffset) % WORD + h.codeSize < WORD
    ensures var c := Code((sections[h.segment - 1].rva + h.codeOffset) % WORD, h.codeSize);
            var best := Best(SubsectionLines(EncodeHeader(h) + EncodeBlocks(bs), sections, files), rva);
            best == BestCandidate(bs, c, files, rva) && (best.Some? ==> SomeWritten(bs, c, files, best.value))
  {
    hide Best, SubsectionLines, EncodeHeader, EncodeBlocks, BestCandidate, LinesOfAll, SomeWritten;
    SubsectionRead(h, bs, sections, files);
    var c := Code((sections[h.segment - 1].rva + h.codeOffset) % WORD, h.codeSize);
    LookupOverBlocks(bs, c, files, rva);
    if BestCandidate(bs, c, files, rva).Some? {
      CandidateWritten(bs, c, files, rva);
    }
  }

  // The line has number, file and start of an entry as it was written.
  predicate IsWritten(b: Block, i: nat, c: Code, files: seq<Checksum>, l: Line)
    requires i < |b.entries|
  {
    l.line == b.entries[i].line && l.rva == c.base + b.entries[i].offset && Some(l.file) == FileOf(files, b.checksum)
  }

  predicate SomeWritten(bs: seq<Block>, c: Code, files: seq<Checksum>, l: Line)
  {
    exists k :: 0 <= k < |bs| && InBlock(bs[k], c, files, l)
  }

  predicate InBlock(b: Block, c: Code, files: seq<Checksum>, l: Line)
  {
    exists i :: 0 <= i < |b.entries| && IsWritten(b, i, c, files, l)
  }

  lemma BlockWritten(b: Block, c: Code, files: seq<Checksum>, rva: nat)
    requires BlockCandidate(b, c, files, rva).Some?
    ensures InBlock(b, c, files, BlockCandidate(b, c, files, rva).value)
  {
    hide LastAt, FileOf;
    var i := LastAt(Plain(b.entries), rva - c.base).value;
    assert IsWritten(b, i, c, files, BlockCandidate(b, c, files, rva).value);
  }

  lemma {:induction false} CandidateWritten(bs: seq<Block>, c: Code, files: seq<Checksum>, rva: nat)
    requires BestCandidate(bs, c, files, rva).Some?
    ensures SomeWritten(bs, c, files, BestCandidate(bs, c, files, rva).value)
    decreases |bs|
  {
    hide BlockCandidate, InBlock;
    var l := BestCandidate(bs, c, files, rva).value;
    if BlockCandidate(bs[0], c, files, rva) == Some(l) {
      BlockWritten(bs[0], c, files, rva);
    } else {
      CandidateWritten(bs[1..], c, files, rva);
      var k :| 0 <= k < |bs[1..]| && InBlock(bs[1..][k], c, files, l);
      assert InBlock(bs[k + 1], c, files, l);
    }
  }

  lemma NothingFound(rva: nat)
    ensures Best([], rva) == None
  {
  }
}
