/** Line numbers of a PDB module: the line subsection parser and the lookup of an address. */
module LineTable {
  import Arithmetic
  import opened Bytes
  import opened Options

  const WORD: nat := 0x1_0000_0000

  datatype Section = Section(rva: nat, size: nat)
  datatype Checksum = Checksum(offset: nat, file: string)
  datatype Line = Line(rva: nat, endRva: nat, line: nat, file: string)

  // An entry of a block: a code offset and a line number, zero meaning no line.
  datatype Entry = Entry(offset: nat, line: nat)

  // The code range a subsection describes; RVAs are 32-bit and wrap.
  datatype Code = Code(base: nat, size: nat)

  function Rva(c: Code, offset: nat): (r: nat)
    ensures r < WORD
  {
    (c.base + offset) % WORD
  }

  // ---------------------------------------------------------------------------------------------------------
  // What a subsection means
  // ---------------------------------------------------------------------------------------------------------

  // Where the range of entry i ends: at the next entry, at the end of the code after the last one, or after one
  // byte when the next entry does not lie ahead inside the code.
  function EndOf(es: seq<Entry>, i: nat, codeSize: nat): (e: nat)
    requires i < |es|
  {
    if i + 1 == |es| then codeSize
    else if es[i + 1].offset <= es[i].offset || es[i + 1].offset > codeSize then es[i].offset + 1
    else es[i + 1].offset
  }

  predicate Recorded(e: Entry, codeSize: nat)
  {
    e.line != 0 && e.offset < codeSize
  }

  function LineOf(es: seq<Entry>, i: nat, c: Code, file: string): (l: Line)
    requires i < |es|
  {
    Line(Rva(c, es[i].offset), Rva(c, EndOf(es, i, c.size)), es[i].line, file)
  }

  function LinesFrom(es: seq<Entry>, i: nat, c: Code, file: string): (ls: seq<Line>)
    requires i <= |es|
    decreases |es| - i
  {
    if i == |es| then []
    else (if Recorded(es[i], c.size) then [LineOf(es, i, c, file)] else []) + LinesFrom(es, i + 1, c, file)
  }

  function EntryAt(payload: seq<Byte>, at: nat): (e: Entry)
    requires at + 8 <= |payload|
  {
    Entry(U32(payload, at), U32(payload, at + 4) % 0x100_0000)
  }

  function Entries(payload: seq<Byte>, at: nat, n: nat): (es: seq<Entry>)
    requires at + 8 * n <= |payload|
    ensures |es| == n
  {
    seq(n, i requires 0 <= i < n => EntryAt(payload, at + 8 * i))
  }

  // The first file with this checksum offset.
  function FileOf(files: seq<Checksum>, offset: nat): (f: Option<string>)
  {
    if files == [] then None else if files[0].offset == offset then Some(files[0].file) else FileOf(files[1..], offset)
  }

  function BlockLines(payload: seq<Byte>, at: nat, size: nat, c: Code, files: seq<Checksum>): (ls: seq<Line>)
    requires 12 <= size <= |payload| - at
  {
    var count, file := U32(payload, at + 4), FileOf(files, U32(payload, at));
    if 8 * count <= size - 12 && file.Some? && file.value != [] then
      LinesFrom(Entries(payload, at + 12, count), 0, c, file.value)
    else []
  }

  function BlocksFrom(payload: seq<Byte>, at: nat, c: Code, files: seq<Checksum>): (ls: seq<Line>)
    decreases |payload| - at
  {
    if at + 12 > |payload| then [] else
    var size := U32(payload, at + 8);
    if size < 12 || size > |payload| - at then []
    else BlockLines(payload, at, size, c, files) + BlocksFrom(payload, at + size, c, files)
  }

  function CodeOf(payload: seq<Byte>, sections: seq<Section>): (c: Option<Code>)
  {
    if |payload| < 12 then None else
    var segment, size := U16(payload, 4), U32(payload, 8);
    if segment == 0 || segment > |sections| || size == 0 then None
    else Some(Code((sections[segment - 1].rva + U32(payload, 0)) % WORD, size))
  }

  function SubsectionLines(payload: seq<Byte>, sections: seq<Section>, files: seq<Checksum>): (ls: seq<Line>)
  {
    var c := CodeOf(payload, sections);
    if c.None? then [] else BlocksFrom(payload, 12, c.value, files)
  }

  // ---------------------------------------------------------------------------------------------------------
  // The parser
  // ---------------------------------------------------------------------------------------------------------

  /** stacktrace_pdb_parse_line_subsection, which appends to the lines found so far. */
  method ParseLineSubsection(payload: seq<Byte>, sections: seq<Section>, files: seq<Checksum>, before: seq<Line>)
    returns (lines: seq<Line>)
    ensures lines == before + SubsectionLines(payload, sections, files)
  {
    hide U32, U16, BlocksFrom;
    Regroup(before, [], []);
    lines := before;
    if |payload| < 12 {
      return;
    }
    var codeOffset, segment, codeSize := U32(payload, 0), U16(payload, 4), U32(payload, 8);
    if segment == 0 || segment > |sections| || codeSize == 0 {
      return;
    }
    var c := Code((sections[segment - 1].rva + codeOffset) % WORD, codeSize);
    lines := ParseBlocks(payload, c, files, before);
  }

  method ParseBlocks(payload: seq<Byte>, c: Code, files: seq<Checksum>, before: seq<Line>) returns (lines: seq<Line>)
    ensures lines == before + BlocksFrom(payload, 12, c, files)
  {
    hide U32, LinesFrom, Entries, FileOf;
    lines := before;
    var blockOffset: nat := 12;
    while blockOffset + 12 <= |payload|
      invariant before + BlocksFrom(payload, 12, c, files) == lines + BlocksFrom(payload, blockOffset, c, files)
      decreases |payload| - blockOffset
    {
      var checksumOffset, lineCount := U32(payload, blockOffset), U32(payload, blockOffset + 4);
      var blockSize := U32(payload, blockOffset + 8);
      if blockSize < 12 || blockSize > |payload| - blockOffset {
        break;
      }
      var file := FindChecksumFile(files, checksumOffset);
      ghost var was, rest := lines, BlocksFrom(payload, blockOffset + blockSize, c, files);
      if 8 * lineCount <= blockSize - 12 && file.Some? && file.value != [] {
        lines := AppendLines(payload, blockOffset + 12, lineCount, c, file.value, lines);
      }
      Regroup(was, BlockLines(payload, blockOffset, blockSize, c, files), rest);
      blockOffset := blockOffset + blockSize;
    }
  }

  lemma Regroup(a: seq<Line>, b: seq<Line>, c: seq<Line>)
    ensures a + (b + c) == (a + b) + c
    ensures a + [] == a
  {
  }

  // The file found is that of the first checksum with the offset, and there is none only if no checksum has it.
  lemma {:induction false} FileFound(files: seq<Checksum>, offset: nat)
    ensures var f := FileOf(files, offset);
            if f.None? then forall i | 0 <= i < |files| :: files[i].offset != offset
            else exists i :: 0 <= i < |files| && files[i] == Checksum(offset, f.value) &&
                             forall j | 0 <= j < i :: files[j].offset != offset
  {
    if files != [] {
      if files[0].offset == offset {
        assert files[0] == Checksum(offset, files[0].file);
      } else {
        FileFound(files[1..], offset);
        if FileOf(files[1..], offset).Some? {
          var i :| 0 <= i < |files[1..]| && files[1..][i] == Checksum(offset, FileOf(files[1..], offset).value) &&
                   forall j | 0 <= j < i :: files[1..][j].offset != offset;
          assert files[i + 1] == files[1..][i];
          assert forall j | 0 < j < i + 1 :: files[j] == files[1..][j - 1];
        }
      }
    }
  }

  method FindChecksumFile(files: seq<Checksum>, offset: nat) returns (f: Option<string>)
    ensures f == FileOf(files, offset)
    ensures f.Some? <==> exists i :: 0 <= i < |files| && files[i].offset == offset
    ensures f.Some? ==> exists i :: 0 <= i < |files| && files[i] == Checksum(offset, f.value) &&
                                    forall j | 0 <= j < i :: files[j].offset != offset
  {
    FileFound(files, offset);
    for i := 0 to |files|
      invariant FileOf(files, offset) == FileOf(files[i..], offset)
    {
      if files[i].offset == offset {
        return Some(files[i].file);
      }
      assert files[i..][1..] == files[i + 1..];
    }
    f := None;
  }

  method AppendLines(payload: seq<Byte>, at: nat, count: nat, c: Code, file: string, before: seq<Line>)
    returns (lines: seq<Line>)
    requires at + 8 * count <= |payload|
    ensures lines == before + LinesFrom(Entries(payload, at, count), 0, c, file)
  {
    hide U32;
    ghost var es := Entries(payload, at, count);
    lines := before;
    for index := 0 to count
      invariant before + LinesFrom(es, 0, c, file) == lines + LinesFrom(es, index, c, file)
    {
      var offset := U32(payload, at + 8 * index);
      var line := U32(payload, at + 8 * index + 4) % 0x100_0000;
      assert es[index] == Entry(offset, line);
      if line != 0 && offset < c.size {
        var next := c.size;
        if index + 1 != count {
          next := U32(payload, at + 8 * (index + 1));
          assert es[index + 1] == EntryAt(payload, at + 8 * (index + 1));
          if next <= offset || next > c.size {
            next := offset + 1;
          }
        }
        assert LineOf(es, index, c, file) == Line(Rva(c, offset), Rva(c, next), line, file);
        lines := lines + [Line(Rva(c, offset), Rva(c, next), line, file)];
      }
    }
  }

  // ---------------------------------------------------------------------------------------------------------
  // Lookup
  // ---------------------------------------------------------------------------------------------------------

  predicate Contains(l: Line, rva: nat)
  {
    l.rva <= rva < l.endRva
  }

  // The later one only if it starts further on.
  function Better(a: Option<Line>, b: Option<Line>): (r: Option<Line>)
  {
    if a.None? || (b.Some? && b.value.rva > a.value.rva) then b else a
  }

  function Hit(l: Line, rva: nat): (r: Option<Line>) { if Contains(l, rva) then Some(l) else None }

  // Of the lines that contain the address, the first with the greatest start.
  function Best(lines: seq<Line>, rva: nat): (r: Option<Line>)
    ensures IsBest(lines, rva, r)
  {
    if lines == [] then None
    else
      var n := |lines| - 1;
      var r := Better(Best(lines[..n], rva), Hit(lines[n], rva));
      BestNext(lines, rva, Best(lines[..n], rva));
      r
  }

  predicate IsBest(lines: seq<Line>, rva: nat, best: Option<Line>)
  {
    match best
    case None => forall i | 0 <= i < |lines| :: !Contains(lines[i], rva)
    case Some(l) => exists i | 0 <= i < |lines| :: lines[i] == l && IsBestAt(lines, rva, i)
  }

  predicate IsBestAt(lines: seq<Line>, rva: nat, i: nat)
    requires i < |lines|
  {
    && Contains(lines[i], rva)
    && (forall k | 0 <= k < |lines| && Contains(lines[k], rva) :: lines[k].rva <= lines[i].rva)
    && (forall k | 0 <= k < i && Contains(lines[k], rva) :: lines[k].rva < lines[i].rva)
  }

  lemma BestNext(lines: seq<Line>, rva: nat, before: Option<Line>)
    requires lines != [] && IsBest(lines[..|lines| - 1], rva, before)
    ensures IsBest(lines, rva, Better(before, Hit(lines[|lines| - 1], rva)))
  {
    hide Contains;
    var n := |lines| - 1;
    var front, last := lines[..n], lines[n];
    if Contains(last, rva) && (before.None? || last.rva > before.value.rva) {
      assert forall k | 0 <= k < n :: lines[k] == front[k];
      assert IsBestAt(lines, rva, n);
    } else if before.Some? {
      var i :| 0 <= i < n && front[i] == before.value && IsBestAt(front, rva, i);
      assert forall k | 0 <= k < n :: lines[k] == front[k];
      assert IsBestAt(lines, rva, i);
    }
  }

  /** stacktrace_find_pdb_line. */
  method FindLine(lines: seq<Line>, rva: nat) returns (best: Option<Line>)
    ensures best == Best(lines, rva) && IsBest(lines, rva, best)
  {
    best := None;
    for i := 0 to |lines|
      invariant best == Best(lines[..i], rva)
    {
      assert lines[..i + 1][..i] == lines[..i];
      if rva < lines[i].rva || rva >= lines[i].endRva {
      } else if best.None? || lines[i].rva > best.value.rva {
        best := Some(lines[i]);
      }
    }
    assert lines[..|lines|] == lines;
  }

  // Lookup in two lists, one behind the other.
  lemma {:induction false} BestOfBoth(a: seq<Line>, b: seq<Line>, rva: nat)
    ensures Best(a + b, rva) == Better(Best(a, rva), Best(b, rva))
    decreases |b|
  {
    hide Contains;
    if b == [] {
      assert a + b == a;
    } else {
      var n := |b| - 1;
      BestOfBoth(a, b[..n], rva);
      assert (a + b)[..|a + b| - 1] == a + b[..n] && (a + b)[|a + b| - 1] == b[n];
      BetterAssociates(Best(a, rva), Best(b[..n], rva), Hit(b[n], rva));
    }
  }

  lemma BetterAssociates(a: Option<Line>, b: Option<Line>, c: Option<Line>)
    ensures Better(Better(a, b), c) == Better(a, Better(b, c))
  {
  }

  // ---------------------------------------------------------------------------------------------------------
  // Properties
  // ---------------------------------------------------------------------------------------------------------

  /**
   Line `l` is that of entry i, which has a line number and lies in the code: it has that number and the block's file,
   starts at the entry, and ends at the next entry if that lies ahead inside the code, one byte on if it does not, and
   at the end of the code after the last entry.
   */
  predicate IsLineOf(l: Line, es: seq<Entry>, i: nat, c: Code, file: string)
    requires i < |es|
  {
    && es[i].line != 0 && es[i].offset < c.size && l.line == es[i].line && l.file == file
    && l.rva == (c.base + es[i].offset) % 0x1_0000_0000
    && var end := if i + 1 == |es| then c.size
                  else if es[i].offset < es[i + 1].offset <= c.size then es[i + 1].offset
                  else es[i].offset + 1;
    l.endRva == (c.base + end) % 0x1_0000_0000
  }

  lemma LineOfIs(es: seq<Entry>, i: nat, c: Code, file: string, l: Line)
    requires i < |es|
    ensures IsLineOf(l, es, i, c, file) <==> Recorded(es[i], c.size) && l == LineOf(es, i, c, file)
  {
  }

  /** The lines of a block are those of its recorded entries. */
  lemma {:induction false} LinesAreRecorded(es: seq<Entry>, from: nat, c: Code, file: string, l: Line)
    requires from <= |es|
    ensures l in LinesFrom(es, from, c, file) <==> exists i | from <= i < |es| :: IsLineOf(l, es, i, c, file)
    decreases |es| - from
  {
    if from < |es| {
      hide IsLineOf, LineOf;
      LinesAreRecorded(es, from + 1, c, file, l);
      LineOfIs(es, from, c, file, l);
      var rest := LinesFrom(es, from + 1, c, file);
      assert Recorded(es[from], c.size) ==> LinesFrom(es, from, c, file)[0] == LineOf(es, from, c, file);
      assert l in rest ==> l in LinesFrom(es, from, c, file);
    }
  }

  /** Whatever the bytes are, a recorded range is non-empty and inside the code, counted in code offsets. */
  lemma RangeInCode(es: seq<Entry>, i: nat, codeSize: nat)
    requires i < |es| && Recorded(es[i], codeSize)
    ensures es[i].offset < EndOf(es, i, codeSize) <= codeSize
  {
  }

  // The range from code offset `from` to `to`, whose 32-bit addresses are in order exactly when they do not wrap.
  predicate Covers(l: Line, c: Code, from: nat, to: nat)
  {
    && l.rva == Rva(c, from) && l.endRva == Rva(c, to) && from < to <= c.size
    && (l.rva < l.endRva <==> (c.base + from) / WORD == (c.base + to) / WORD)
  }

  ghost predicate InCode(l: Line, c: Code)
  {
    exists from: nat, to: nat :: Covers(l, c, from, to)
  }

  lemma WrapsOrNot(c: Code, from: nat, to: nat)
    requires from < to <= c.size < WORD
    ensures Rva(c, from) < Rva(c, to) <==> (c.base + from) / WORD == (c.base + to) / WORD
  {
    var q, r := Arithmetic.Division(c.base + from, WORD);
    var n := to - from;
    if r + n < WORD {
      Arithmetic.DivUnique(WORD, q, r + n);
    } else {
      Arithmetic.Next(q, WORD);
      Arithmetic.DivUnique(WORD, q + 1, r + n - WORD);
    }
  }

  /**
   So every line a subsection yields, from whatever bytes, has a number and a file and covers a non-empty range of its
   code; as 32-bit addresses the range is non-empty exactly when it does not wrap.
   */
  lemma SubsectionInCode(payload: seq<Byte>, sections: seq<Section>, files: seq<Checksum>, l: Line)
    requires l in SubsectionLines(payload, sections, files)
    ensures CodeOf(payload, sections).Some? && InCode(l, CodeOf(payload, sections).value) && l.line != 0 && l.file != []
  {
    hide U32, U16, BlocksFrom;
    BlocksInCode(payload, 12, CodeOf(payload, sections).value, files, l);
  }

  lemma {:induction false} BlocksInCode(payload: seq<Byte>, at: nat, c: Code, files: seq<Checksum>, l: Line)
    requires l in BlocksFrom(payload, at, c, files) && c.size < WORD
    ensures InCode(l, c) && l.line != 0 && l.file != []
    decreases |payload| - at
  {
    hide U32, LinesFrom, FileOf, Entries;
    var size := U32(payload, at + 8);
    if l in BlockLines(payload, at, size, c, files) {
      var count, file := U32(payload, at + 4), FileOf(files, U32(payload, at));
      var es := Entries(payload, at + 12, count);
      LinesAreRecorded(es, 0, c, file.value, l);
      var i :| 0 <= i < |es| && IsLineOf(l, es, i, c, file.value);
      LineOfIs(es, i, c, file.value, l);
      RangeInCode(es, i, c.size);
      WrapsOrNot(c, es[i].offset, EndOf(es, i, c.size));
      assert Covers(l, c, es[i].offset, EndOf(es, i, c.size));
    } else {
      BlocksInCode(payload, at + size, c, files, l);
    }
  }

  /** As 32-bit RVAs it is non-empty exactly when it does not wrap around. */
  lemma RangeInRvas(es: seq<Entry>, i: nat, c: Code, file: string)
    requires i < |es| && Recorded(es[i], c.size) && c.size < WORD
    ensures var l := LineOf(es, i, c, file);
            l.rva < l.endRva <==> (c.base + es[i].offset) / WORD == (c.base + EndOf(es, i, c.size)) / WORD
  {
    RangeInCode(es, i, c.size);
    WrapsOrNot(c, es[i].offset, EndOf(es, i, c.size));
  }

  /** A code range that wraps around yields a line that no address is in, and that lookup therefore never finds. */
  lemma WrappedLineIsLost(file: string, rva: nat)
    ensures var c := Code(0xFFFF_FFF0, 0x20);
            && LinesFrom([Entry(0, 1)], 0, c, file) == [Line(0xFFFF_FFF0, 0x10, 1, file)]
            && Best(LinesFrom([Entry(0, 1)], 0, c, file), rva) == None
  {
    var es, c := [Entry(0, 1)], Code(0xFFFF_FFF0, 0x20);
    assert LinesFrom(es, 1, c, file) == [];
    assert LinesFrom(es, 0, c, file) == [Line(0xFFFF_FFF0, 0x10, 1, file)];
  }

  predicate Ascending(es: seq<Entry>, codeSize: nat)
  {
    && (forall i, j | 0 <= i < j < |es| :: es[i].offset < es[j].offset)
    && (forall i | 0 <= i < |es| :: es[i].offset < codeSize)
  }

  // The last entry at or below a code offset.
  function LastAt(es: seq<Entry>, offset: nat): (i: Option<nat>)
    ensures i.Some? ==> i.value < |es| && es[i.value].offset <= offset
    ensures forall j | (if i.Some? then i.value + 1 else 0) <= j < |es| :: offset < es[j].offset
  {
    if es == [] then None
    else if es[|es| - 1].offset <= offset then Some(|es| - 1)
    else LastAt(es[..|es| - 1], offset)
  }

  // In a well-formed block an address is in the range of exactly the last entry at or below it.
  lemma ContainsIff(es: seq<Entry>, i: nat, c: Code, file: string, rva: nat)
    requires i < |es| && Ascending(es, c.size) && c.base + c.size < WORD
    ensures Contains(LineOf(es, i, c, file), rva) <==>
            c.base <= rva < c.base + c.size && LastAt(es, rva - c.base) == Some(i)
  {
    hide Rva, LastAt, Ascending;
    EndsAtNext(es, i, c.size);
    NoWrap(c, es[i].offset);
    NoWrap(c, EndOf(es, i, c.size));
    if c.base <= rva < c.base + c.size {
      LastIs(es, i, c.size, rva - c.base);
    }
  }

  lemma NoWrap(c: Code, offset: nat)
    requires offset <= c.size && c.base + c.size < WORD
    ensures Rva(c, offset) == c.base + offset
  {
  }

  lemma EndsAtNext(es: seq<Entry>, i: nat, codeSize: nat)
    requires i < |es| && Ascending(es, codeSize)
    ensures es[i].offset < EndOf(es, i, codeSize) == (if i + 1 == |es| then codeSize else es[i + 1].offset) <= codeSize
  {
  }

  lemma LastIs(es: seq<Entry>, i: nat, codeSize: nat, offset: nat)
    requires i < |es| && Ascending(es, codeSize)
    ensures LastAt(es, offset) == Some(i) <==> es[i].offset <= offset && (i + 1 < |es| ==> offset < es[i + 1].offset)
  {
    hide LastAt;
    var last := LastAt(es, offset);
    if last.Some? {
      assert last.value < i ==> offset < es[i].offset;
      assert last.value > i ==> es[i + 1].offset <= es[last.value].offset;
    }
  }

  /** The ranges of a well-formed block do not overlap. */
  lemma Disjoint(es: seq<Entry>, i: nat, j: nat, c: Code, file: string, rva: nat)
    requires i < j < |es| && Ascending(es, c.size) && c.base + c.size < WORD
    ensures !(Contains(LineOf(es, i, c, file), rva) && Contains(LineOf(es, j, c, file), rva))
  {
    ContainsIff(es, i, c, file, rva);
    ContainsIff(es, j, c, file, rva);
  }

  // The line of the entry that an address belongs to in a well-formed block, if the entry has one.
  function Candidate(es: seq<Entry>, c: Code, file: string, rva: nat): (l: Option<Line>)
  {
    var i := if c.base <= rva < c.base + c.size then LastAt(es, rva - c.base) else None;
    if i.Some? && es[i.value].line != 0 then
      var end := if i.value + 1 == |es| then c.size else es[i.value + 1].offset;
      Some(Line(c.base + es[i.value].offset, c.base + end, es[i.value].line, file))
    else None
  }

  /**
   Looking an address up in a well-formed block finds the entry with the greatest offset not above it: its line number,
   the block's file, and the range from it to the next entry or the end of the code. It finds nothing if that entry has
   no line or the address is outside the code.
   */
  lemma LookupFindsLastEntry(es: seq<Entry>, c: Code, file: string, rva: nat)
    requires Ascending(es, c.size) && c.base + c.size < WORD
    ensures Best(LinesFrom(es, 0, c, file), rva) == Candidate(es, c, file, rva)
  {
    hide LastAt, LinesFrom, Best, Ascending, Contains, LineOf, IsLineOf;
    var lines := LinesFrom(es, 0, c, file);
    var best := Best(lines, rva);
    var i := if c.base <= rva < c.base + c.size then LastAt(es, rva - c.base) else None;
    if best.Some? {
      var j :| 0 <= j < |lines| && lines[j] == best.value && IsBestAt(lines, rva, j);
      LinesAreRecorded(es, 0, c, file, best.value);
      var k :| 0 <= k < |es| && IsLineOf(best.value, es, k, c, file);
      LineOfIs(es, k, c, file, best.value);
      ContainsIff(es, k, c, file, rva);
      LineInFields(es, k, c, file);
    } else if i.Some? {
      var l := LineOf(es, i.value, c, file);
      LinesAreRecorded(es, 0, c, file, l);
      LineOfIs(es, i.value, c, file, l);
      ContainsIff(es, i.value, c, file, rva);
      OffsetInCode(es, c.size, i.value);
    }
  }

  lemma LineInFields(es: seq<Entry>, i: nat, c: Code, file: string)
    requires i < |es| && Ascending(es, c.size) && c.base + c.size < WORD
    ensures LineOf(es, i, c, file) ==
            Line(c.base + es[i].offset, c.base + (if i + 1 == |es| then c.size else es[i + 1].offset), es[i].line, file)
  {
    hide Rva, Ascending;
    EndsAtNext(es, i, c.size);
    NoWrap(c, es[i].offset);
    NoWrap(c, EndOf(es, i, c.size));
  }

  lemma OffsetInCode(es: seq<Entry>, codeSize: nat, i: nat)
    requires Ascending(es, codeSize) && i < |es|
    ensures es[i].offset < codeSize
  {
  }
}
