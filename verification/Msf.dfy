/** The multi-stream file that holds a PDB: streams scattered over blocks, and the directory that locates them. */
module Msf {
  import opened Arithmetic
  import opened Bytes

  // ---------------------------------------------------------------------------------------------------------
  // Streams
  // ---------------------------------------------------------------------------------------------------------

  // Where byte k of a stream lies in the file.
  function Address(blockSize: nat, blocks: seq<nat>, k: nat): (a: nat)
    requires blockSize > 0 && k / blockSize < |blocks|
  {
    blocks[k / blockSize] * blockSize + k % blockSize
  }

  predicate InFile(pdb: seq<Byte>, blockSize: nat, blocks: seq<nat>, k: nat)
    requires blockSize > 0
  {
    k / blockSize < |blocks| && Address(blockSize, blocks, k) < |pdb|
  }

  predicate RangeInFile(pdb: seq<Byte>, blockSize: nat, blocks: seq<nat>, from: nat, to: nat)
    requires blockSize > 0
  {
    forall k | from <= k < to :: InFile(pdb, blockSize, blocks, k)
  }

  /** Bytes from..to of a stream. */
  function Gather(pdb: seq<Byte>, blockSize: nat, blocks: seq<nat>, from: nat, to: nat): (s: seq<Byte>)
    requires blockSize > 0 && from <= to && RangeInFile(pdb, blockSize, blocks, from, to)
    ensures |s| == to - from
    ensures forall k | from <= k < to && InFile(pdb, blockSize, blocks, k) ::
              s[k - from] == pdb[Address(blockSize, blocks, k)]
  {
    seq(to - from, i requires 0 <= i < to - from =>
      assert InFile(pdb, blockSize, blocks, from + i);
      pdb[Address(blockSize, blocks, from + i)])
  }

  /** A whole block. */
  function Block(pdb: seq<Byte>, blockSize: nat, b: nat): (s: seq<Byte>)
    requires BlockInFile(pdb, blockSize, b)
    ensures |s| == blockSize
  {
    Natural(b, blockSize);
    pdb[b * blockSize..b * blockSize + blockSize]
  }

  // Every block lies wholly in the file.
  predicate AllInFile(pdb: seq<Byte>, blockSize: nat, blocks: seq<nat>)
  {
    forall i | 0 <= i < |blocks| :: BlockInFile(pdb, blockSize, blocks[i])
  }

  predicate BlockInFile(pdb: seq<Byte>, blockSize: nat, b: nat) { b * blockSize + blockSize <= |pdb| }

  /** The concatenation of blocks that lie wholly in the file. */
  function Concatenation(pdb: seq<Byte>, blockSize: nat, blocks: seq<nat>): (s: seq<Byte>)
    requires AllInFile(pdb, blockSize, blocks)
    ensures |s| == |blocks| * blockSize
  {
    if blocks == [] then []
    else
      Next(|blocks| - 1, blockSize);
      Block(pdb, blockSize, blocks[0]) + Concatenation(pdb, blockSize, blocks[1..])
  }

  lemma InBlock(blockSize: nat, k: nat, j: nat)
    requires blockSize > 0 && k % blockSize + j < blockSize
    ensures (k + j) / blockSize == k / blockSize && (k + j) % blockSize == k % blockSize + j
  {
    var q, r := Division(k, blockSize);
    DivUnique(blockSize, q, r + j);
  }

  lemma BlockAt(pdb: seq<Byte>, blockSize: nat, b: nat, r: nat)
    requires BlockInFile(pdb, blockSize, b) && r < blockSize
    ensures 0 <= b * blockSize && b * blockSize + r < |pdb| && Block(pdb, blockSize, b)[r] == pdb[b * blockSize + r]
  {
    Natural(b, blockSize);
  }

  lemma ConcatenationCons(pdb: seq<Byte>, blockSize: nat, blocks: seq<nat>)
    requires AllInFile(pdb, blockSize, blocks) && blocks != []
    ensures BlockInFile(pdb, blockSize, blocks[0]) && AllInFile(pdb, blockSize, blocks[1..])
    ensures Concatenation(pdb, blockSize, blocks) ==
            Block(pdb, blockSize, blocks[0]) + Concatenation(pdb, blockSize, blocks[1..])
  {
    hide Block, BlockInFile;
  }

  lemma {:induction false} BlockOfConcatenation(pdb: seq<Byte>, blockSize: nat, blocks: seq<nat>, q: nat, r: nat)
    requires AllInFile(pdb, blockSize, blocks) && q < |blocks| && r < blockSize
    ensures 0 <= q * blockSize + r < |blocks| * blockSize
    ensures 0 <= blocks[q] * blockSize && blocks[q] * blockSize + r < |pdb|
    ensures Concatenation(pdb, blockSize, blocks)[q * blockSize + r] == pdb[blocks[q] * blockSize + r]
  {
    hide AllInFile, BlockInFile, Block, Concatenation;
    Monotone(q + 1, |blocks|, blockSize);
    Next(q, blockSize);
    Monotone(0, q, blockSize);
    ConcatenationCons(pdb, blockSize, blocks);
    if q == 0 {
      BlockAt(pdb, blockSize, blocks[0], r);
    } else {
      Next(q - 1, blockSize);
      BlockOfConcatenation(pdb, blockSize, blocks[1..], q - 1, r);
    }
  }

  /** Byte k of a stream whose blocks are all in the file is byte k of their concatenation. */
  lemma ConcatenationAt(pdb: seq<Byte>, blockSize: nat, blocks: seq<nat>, k: nat)
    requires blockSize > 0 && AllInFile(pdb, blockSize, blocks) && k < |blocks| * blockSize
    ensures InFile(pdb, blockSize, blocks, k) && 0 <= k / blockSize < |blocks| && Address(blockSize, blocks, k) < |pdb|
    ensures Concatenation(pdb, blockSize, blocks)[k] == pdb[Address(blockSize, blocks, k)]
  {
    hide Concatenation, AllInFile;
    Row(|blocks|, blockSize, k);
    var q, r := Division(k, blockSize);
    BlockOfConcatenation(pdb, blockSize, blocks, q, r);
  }

  /** Reading any range of such a stream yields that slice of the concatenation. */
  lemma GatherIsSlice(pdb: seq<Byte>, blockSize: nat, blocks: seq<nat>, from: nat, to: nat)
    requires blockSize > 0 && AllInFile(pdb, blockSize, blocks) && from <= to <= |blocks| * blockSize
    ensures RangeInFile(pdb, blockSize, blocks, from, to)
    ensures Gather(pdb, blockSize, blocks, from, to) == Concatenation(pdb, blockSize, blocks)[from..to]
  {
    hide Concatenation, InFile, Address, Gather;
    forall k | from <= k < to
      ensures InFile(pdb, blockSize, blocks, k)
    {
      ConcatenationAt(pdb, blockSize, blocks, k);
    }
    var s := Gather(pdb, blockSize, blocks, from, to);
    forall i | 0 <= i < |s|
      ensures s[i] == Concatenation(pdb, blockSize, blocks)[from..to][i]
    {
      ConcatenationAt(pdb, blockSize, blocks, from + i);
      assert s[(from + i) - from] == pdb[Address(blockSize, blocks, from + i)];
    }
  }

  /** stacktrace_msf_read_stream_bytes. */
  method ReadStreamBytes(pdb: seq<Byte>, blockSize: nat, blocks: seq<nat>, streamSize: nat, streamOffset: nat,
                         buffer: array<Byte>, bytes: nat) returns (ok: bool)
    requires blockSize > 0 && bytes <= buffer.Length
    modifies buffer
    ensures ok <==> streamOffset + bytes <= streamSize &&
                    RangeInFile(pdb, blockSize, blocks, streamOffset, streamOffset + bytes)
    ensures ok ==> buffer[..bytes] == Gather(pdb, blockSize, blocks, streamOffset, streamOffset + bytes)
    ensures buffer[bytes..] == old(buffer[bytes..])
  {
    if streamOffset > streamSize || bytes > streamSize - streamOffset {
      return false;
    }
    var remaining: nat, outputOffset: nat, currentOffset: nat := bytes, 0, streamOffset;
    while remaining != 0
      invariant remaining + outputOffset == bytes && currentOffset == streamOffset + outputOffset
      invariant RangeInFile(pdb, blockSize, blocks, streamOffset, currentOffset)
      invariant buffer[..outputOffset] == Gather(pdb, blockSize, blocks, streamOffset, currentOffset)
      invariant buffer[bytes..] == old(buffer[bytes..])
    {
      hide Gather, InFile;
      var blockIndex, offsetInBlock := currentOffset / blockSize, currentOffset % blockSize;
      var bytesInBlock := if remaining < blockSize - offsetInBlock then remaining else blockSize - offsetInBlock;
      QuotientNatural(currentOffset, blockSize);
      RunInFile(pdb, blockSize, blocks, currentOffset, bytesInBlock);
      if blockIndex >= |blocks| {
        return false;
      }
      var pdbOffset := blocks[blockIndex] * blockSize + offsetInBlock;
      if pdbOffset >= |pdb| {
        return false;
      }
      if bytesInBlock > |pdb| - pdbOffset {
        return false;
      }
      GatherNext(pdb, blockSize, blocks, streamOffset, currentOffset, bytesInBlock);
      Copy(buffer, outputOffset, pdb[pdbOffset..pdbOffset + bytesInBlock], bytes);
      outputOffset := outputOffset + bytesInBlock;
      currentOffset := currentOffset + bytesInBlock;
      remaining := remaining - bytesInBlock;
    }
    ok := true;
  }

  // memcpy into the buffer, of which only the first `limit` bytes may be written.
  method Copy(buffer: array<Byte>, at: nat, source: seq<Byte>, ghost limit: nat)
    requires at + |source| <= limit <= buffer.Length
    modifies buffer
    ensures buffer[..at + |source|] == old(buffer[..at]) + source
    ensures buffer[limit..] == old(buffer[limit..])
  {
    forall i | 0 <= i < |source| {
      buffer[at + i] := source[i];
    }
  }

  // A run inside one block is in the file exactly when its block exists and its last byte is in the file.
  lemma RunInFile(pdb: seq<Byte>, blockSize: nat, blocks: seq<nat>, k: nat, n: nat)
    requires blockSize > 0 && 0 < n && k % blockSize + n <= blockSize
    ensures RangeInFile(pdb, blockSize, blocks, k, k + n) <==>
            k / blockSize < |blocks| && Address(blockSize, blocks, k) + n <= |pdb|
  {
    forall i | k <= i < k + n
      ensures i / blockSize == k / blockSize && i % blockSize == k % blockSize + (i - k)
    {
      InBlock(blockSize, k, i - k);
    }
    if RangeInFile(pdb, blockSize, blocks, k, k + n) {
      assert InFile(pdb, blockSize, blocks, k) && InFile(pdb, blockSize, blocks, k + n - 1);
    }
  }

  // A run of bytes inside one block extends what has been gathered.
  lemma GatherNext(pdb: seq<Byte>, blockSize: nat, blocks: seq<nat>, from: nat, k: nat, n: nat)
    requires blockSize > 0 && from <= k && RangeInFile(pdb, blockSize, blocks, from, k)
    requires k / blockSize < |blocks| && k % blockSize + n <= blockSize && Address(blockSize, blocks, k) + n <= |pdb|
    ensures RangeInFile(pdb, blockSize, blocks, from, k + n)
    ensures var at := Address(blockSize, blocks, k);
            Gather(pdb, blockSize, blocks, from, k + n) == Gather(pdb, blockSize, blocks, from, k) + pdb[at..at + n]
  {
    hide Gather, Address;
    var at := Address(blockSize, blocks, k);
    forall i | from <= i < k + n
      ensures InFile(pdb, blockSize, blocks, i)
    {
      if i >= k {
        InRun(pdb, blockSize, blocks, k, n, i);
      }
    }
    var s := Gather(pdb, blockSize, blocks, from, k + n);
    forall i | 0 <= i < |s|
      ensures s[i] == (Gather(pdb, blockSize, blocks, from, k) + pdb[at..at + n])[i]
    {
      assert InFile(pdb, blockSize, blocks, from + i);
      assert s[(from + i) - from] == pdb[Address(blockSize, blocks, from + i)];
      if from + i >= k {
        InRun(pdb, blockSize, blocks, k, n, from + i);
      } else {
        assert Gather(pdb, blockSize, blocks, from, k)[(from + i) - from] == pdb[Address(blockSize, blocks, from + i)];
      }
    }
  }

  lemma InRun(pdb: seq<Byte>, blockSize: nat, blocks: seq<nat>, k: nat, n: nat, i: nat)
    requires blockSize > 0 && k / blockSize < |blocks| && k % blockSize + n <= blockSize && k <= i < k + n
    requires Address(blockSize, blocks, k) + n <= |pdb|
    ensures InFile(pdb, blockSize, blocks, i) && Address(blockSize, blocks, i) == Address(blockSize, blocks, k) + (i - k)
  {
    InBlock(blockSize, k, i - k);
  }
}
