/**
 The swap-buffers minifilter: writes to a protected file are XORed in a replacement buffer on the way down, reads are
 XORed in a replacement buffer on the way up. Operations on one file interleave freely; each goes through its
 pre-operation callback, the file system below, and its post-operation callback, any of them deferred to a worker.
 */
module SwapFilter {
  import opened Options

  const XOR_KEY: bv8 := 0xA7

  function XorByte(b: bv8): (r: bv8) { b ^ XOR_KEY }

  lemma XorTwice(b: bv8)
    ensures XorByte(XorByte(b)) == b
  {
  }

  // The first `n` bytes XORed, the rest as they were.
  function XorPrefix(bytes: seq<bv8>, n: nat): (r: seq<bv8>)
    requires n <= |bytes|
    ensures |r| == |bytes|
    ensures forall k | 0 <= k < |r| :: r[k] == if k < n then XorByte(bytes[k]) else bytes[k]
  {
    seq(|bytes|, k requires 0 <= k < |bytes| => if k < n then XorByte(bytes[k]) else bytes[k])
  }

  // `over` written over the front of `bytes`.
  function Patch(bytes: seq<bv8>, over: seq<bv8>): (r: seq<bv8>)
    ensures |over| <= |bytes| ==> |r| == |bytes|
  {
    over + if |over| <= |bytes| then bytes[|over|..] else []
  }

  datatype Kind = Read | Write

  datatype Phase = Arrived | PrePending | Below(callback: bool) | PostDue | PostPending | Disallowed | Finished

  // A swapped_io_buffers owner: its replacement pages, whether it still owns them, and how often it was completed.
  datatype Swap = Swap(bytes: seq<bv8>, live: bool, completions: nat)

  /**
   One read or write. `user` is the caller's buffer. `expected` is, for a read, what had last been written through the
   filter at each byte the file system returned, and `delivered` how many bytes were put into `user`.
   */
  datatype Io = Io(
    kind: Kind, offset: nat, user: seq<bv8>, phase: Phase, swap: Option<Swap>, ok: bool, information: nat,
    drained: bool, expected: seq<Option<bv8>>, delivered: nat)

  predicate FreshIo(io: Io)
  {
    io.phase.Arrived? && io.swap.None? && io.ok && io.information == 0 && !io.drained && io.expected == [] && io.delivered == 0
  }

  datatype Selection = Unprotected | Protected | Unknown

  // What the environment answers a pre-operation: the kind of request, whether the name could be queried each time,
  // the IRQL, and which of the kernel services succeed.
  datatype PreChoices = PreChoices(
    fastIo: bool, named: bool, namedAgain: bool, passive: bool, queued: bool,
    swapped: bool, view: bool, applied: bool, released: bool)

  datatype PostChoices = PostChoices(
    draining: bool, passive: bool, queued: bool, view: bool, prepared: bool, copied: nat)

  function Select(shielded: bool, named: bool): (s: Selection)
  {
    if !named then Unknown else if shielded then Protected else Unprotected
  }

  // swapped_io_buffers::complete: the owner gives up its pages; a second call finds nothing to do.
  function CompleteSwap(w: Option<Swap>): (r: Option<Swap>)
  {
    if w.Some? && w.value.live then Some(w.value.(live := false, completions := w.value.completions + 1)) else w
  }

  function Fail(io: Io): (r: Io) { io.(ok := false, information := 0, phase := Finished) }

  function FailSwapped(io: Io): (r: Io) { Fail(io.(swap := CompleteSwap(io.swap))) }

  // prepare_xor_write_at_passive and prepare_xor_read_at_passive.
  function PrepareStep(io: Io, shielded: bool, c: PreChoices): (r: Io)
  {
    match Select(shielded, c.namedAgain)
    case Unprotected => io.(phase := Below(false))
    case Unknown => Fail(io)
    case Protected =>
      if !c.swapped then Fail(io)
      else
        var s := io.(swap := Some(Swap(io.user, true, 0)));
        if !c.view then FailSwapped(s)
        else
          var t := if io.kind.Write? then s.(swap := Some(Swap(XorPrefix(io.user, |io.user|), true, 0))) else s;
          if !c.applied || !c.released then FailSwapped(t) else t.(phase := Below(true))
  }

  // queue_xor_pre.
  function PreStep(io: Io, shielded: bool, c: PreChoices): (r: Io)
  {
    if io.user == [] then io.(phase := Below(false))
    else if c.fastIo then
      if Select(shielded, c.named).Unprotected? then io.(phase := Below(false)) else io.(phase := Disallowed)
    else if Select(shielded, c.named).Unprotected? then io.(phase := Below(false))
    else if c.passive then PrepareStep(io, shielded, c)
    else if !c.queued then Fail(io)
    else io.(phase := PrePending)
  }

  // finish_swap.
  function FinishSwap(io: Io): (r: Io) { io.(swap := CompleteSwap(io.swap), phase := Finished) }

  function Min(a: nat, b: nat): (r: nat) { if a < b then a else b }

  // finish_xor_read_at_passive followed by what its caller does with the status.
  function FinishReadStep(io: Io, c: PostChoices): (r: Io)
  {
    if io.swap.None? then Fail(io)
    else if !io.ok then FinishSwap(io)
    else
      var w := io.swap.value;
      var valid := Min(|w.bytes|, io.information);
      if !c.view || !c.prepared then FailSwapped(io)
      else
        var bytes := XorPrefix(w.bytes, valid);
        var copied := Min(c.copied, valid);
        var t := io.(swap := Some(w.(bytes := bytes)), user := Patch(io.user, bytes[..copied]), delivered := copied);
        if c.copied < valid then FailSwapped(t) else FinishSwap(t)
  }

  // write_post and read_post.
  function PostStep(io: Io, c: PostChoices): (r: Io)
  {
    if io.kind.Write? then if io.swap.None? && !c.draining then Fail(io) else FinishSwap(io)
    else if c.draining || !io.ok then FinishSwap(io.(drained := c.draining))
    else if c.passive then FinishReadStep(io, c)
    else if c.queued then io.(phase := PostPending)
    else FailSwapped(io)
  }

  // ---------------------------------------------------------------------------------------------------------
  // One file, the file system below, and all operations on it
  // ---------------------------------------------------------------------------------------------------------

  type Contents = map<nat, bv8>

  predicate Covers(disk: Contents, offset: nat, n: nat)
  {
    forall a | offset <= a < offset + n :: a in disk
  }

  function Overlay(disk: Contents, offset: nat, bytes: seq<bv8>): (r: Contents)
    ensures forall a :: a in r <==> a in disk || offset <= a < offset + |bytes|
    ensures forall a | a in r :: r[a] == if offset <= a < offset + |bytes| then bytes[a - offset] else disk[a]
    decreases |bytes|
  {
    if bytes == [] then disk
    else
      var n := |bytes| - 1;
      Overlay(disk, offset, bytes[..n])[offset + n := bytes[n]]
  }

  /** `disk` is the file below the filter; `written` what was last written through the filter at each byte. */
  datatype State = State(shielded: bool, disk: Contents, written: Contents, ios: seq<Io>)

  predicate Initial(s: State)
  {
    s.written == map[] && forall i | 0 <= i < |s.ios| :: FreshIo(s.ios[i])
  }

  datatype Event =
    | Pre(i: nat, pre: PreChoices)
    | DeferredPre(i: nat, pre: PreChoices)
    | LowerWrite(i: nat, n: nat, ok: bool)
    | LowerRead(i: nat, n: nat, ok: bool)
    | Post(i: nat, post: PostChoices)
    | DeferredPost(i: nat, post: PostChoices)
    | Foreign(offset: nat, bytes: seq<bv8>)
    | Truncate(length: nat)

  // The buffer the file system is given.
  function Buffer(io: Io): (b: seq<bv8>)
    requires io.phase.Below?
  {
    if io.phase.callback && io.swap.Some? then io.swap.value.bytes else io.user
  }

  predicate IoEnabled(s: State, io: Io, e: Event)
  {
    match e
    case Pre(_, _) => io.phase.Arrived?
    case DeferredPre(_, _) => io.phase.PrePending?
    case LowerWrite(_, n, _) => io.phase.Below? && io.kind.Write? && n <= |io.user|
    case LowerRead(_, n, _) =>
      io.phase.Below? && io.kind.Read? && n <= |io.user| && Covers(s.disk, io.offset, n)
    case Post(_, _) => io.phase.PostDue?
    case DeferredPost(_, _) => io.phase.PostPending?
    case _ => false
  }

  predicate OfOperation(e: Event) { !e.Foreign? && !e.Truncate? }

  predicate Enabled(s: State, e: Event)
  {
    if OfOperation(e) then e.i < |s.ios| && IoEnabled(s, s.ios[e.i], e) else true
  }

  function FromDisk(disk: Contents, offset: nat, n: nat): (bytes: seq<bv8>)
    requires Covers(disk, offset, n)
    ensures |bytes| == n
  {
    seq(n, k requires 0 <= k < n => disk[offset + k])
  }

  function Expected(written: Contents, offset: nat, n: nat): (bytes: seq<Option<bv8>>)
    ensures |bytes| == n
  {
    seq(n, k requires 0 <= k < n => if offset + k in written then Some(written[offset + k]) else None)
  }

  // The file system returned `bytes` for a read.
  function ReadBelow(io: Io, bytes: seq<bv8>, expected: seq<Option<bv8>>, ok: bool): (r: Io)
    requires io.phase.Below?
  {
    var t := io.(ok := ok, information := if ok then |bytes| else 0, expected := expected);
    if io.phase.callback && io.swap.Some? then
      t.(swap := Some(io.swap.value.(bytes := Patch(io.swap.value.bytes, bytes))), phase := PostDue)
    else t.(user := Patch(io.user, bytes), delivered := |bytes|, phase := Finished)
  }

  function WroteBelow(io: Io, n: nat, ok: bool): (r: Io)
    requires io.phase.Below?
  {
    io.(ok := ok, information := if ok then n else 0, phase := if io.phase.callback && io.swap.Some? then PostDue else Finished)
  }

  // Bytes of `written` outside a range overwritten from elsewhere, or below a new end of file.
  function Without(written: Contents, offset: nat, n: nat): (r: Contents)
  {
    map a | a in written && !(offset <= a < offset + n) :: written[a]
  }

  function Shortened(contents: Contents, length: nat): (r: Contents)
  {
    map a | a in contents && a < length :: contents[a]
  }

  function Prefix(bytes: seq<bv8>, n: nat): (r: seq<bv8>) { if n <= |bytes| then bytes[..n] else bytes }

  // What event `e` makes of its own operation.
  function IoStep(s: State, io: Io, e: Event): (r: Io)
    requires IoEnabled(s, io, e)
  {
    match e
    case Pre(_, c) => PreStep(io, s.shielded, c)
    case DeferredPre(_, c) => PrepareStep(io, s.shielded, c)
    case LowerWrite(_, n, ok) => WroteBelow(io, n, ok)
    case LowerRead(_, n, ok) =>
      ReadBelow(io, FromDisk(s.disk, io.offset, n), Expected(s.written, io.offset, n), ok)
    case Post(_, c) => PostStep(io, c)
    case DeferredPost(_, c) => FinishReadStep(io, c)
    case _ => io
  }

  function Do(s: State, e: Event): (t: State)
    requires Enabled(s, e)
  {
    if e.Foreign? then s.(disk := Overlay(s.disk, e.offset, e.bytes), written := Without(s.written, e.offset, |e.bytes|))
    else if e.Truncate? then s.(disk := Shortened(s.disk, e.length), written := Shortened(s.written, e.length))
    else
      var io := s.ios[e.i];
      var t := s.(ios := s.ios[e.i := IoStep(s, io, e)]);
      if e.LowerWrite? then
        t.(disk := Overlay(s.disk, io.offset, Prefix(Buffer(io), e.n)), written := Overlay(s.written, io.offset, io.user[..e.n]))
      else t
  }

  // ---------------------------------------------------------------------------------------------------------
  // Invariant
  // ---------------------------------------------------------------------------------------------------------

  function Encoded(shielded: bool, b: bv8): (r: bv8) { if shielded then XorByte(b) else b }

  // The replacement buffer is alive exactly while the operation is below or owes its post-operation work, and is
  // completed once otherwise.
  predicate SwapOk(io: Io)
  {
    match io.swap
    case None => !io.phase.PostDue? && !io.phase.PostPending? && io.phase != Below(true)
    case Some(w) =>
      && |w.bytes| == |io.user|
      && (w.live <==> io.phase == Below(true) || io.phase.PostDue? || io.phase.PostPending?)
      && w.completions == (if w.live then 0 else 1)
      && (io.phase.Finished? || w.live)
  }

  // An operation passed to the file system without a callback carries no bytes or belongs to an unprotected file.
  predicate WriteOk(io: Io, shielded: bool)
  {
    && (io.phase == Below(false) ==> !shielded || io.user == [])
    && (io.phase == Below(true) ==> shielded)
    && (io.phase == Below(true) && io.kind.Write? && io.swap.Some? ==> io.swap.value.bytes == XorPrefix(io.user, |io.user|))
  }

  predicate Matches(byte: bv8, expected: Option<bv8>, shielded: bool)
  {
    expected.Some? ==> byte == Encoded(shielded, expected.value)
  }

  predicate AllMatch(bytes: seq<bv8>, expected: seq<Option<bv8>>, n: nat, shielded: bool)
    requires n <= |bytes| && n <= |expected|
  {
    forall k | 0 <= k < n :: Matches(bytes[k], expected[k], shielded)
  }

  // A read still owing its post-operation work holds the encoded bytes; one that delivered bytes delivered plain ones.
  predicate ReadOk(io: Io, shielded: bool)
  {
    && io.information <= |io.user| && io.delivered <= |io.user| && io.delivered <= |io.expected|
    && (io.kind.Read? ==> io.information <= |io.expected|)
    && AllMatch(io.user, io.expected, io.delivered, false)
    && ((io.phase.PostDue? || io.phase.PostPending?) && io.kind.Read? && io.swap.Some? ==>
          |io.swap.value.bytes| == |io.user| && shielded && AllMatch(io.swap.value.bytes, io.expected, io.information, true))
    && (io.phase.Finished? && io.ok && io.kind.Read? ==> io.delivered == if io.drained then 0 else io.information)
    && (io.phase.PostPending? ==> io.ok && io.kind.Read?)
    && (!io.phase.Finished? ==> !io.drained && io.delivered == 0)
    && (io.drained ==> io.delivered == 0)
  }

  predicate IoOk(io: Io, shielded: bool)
  {
    SwapOk(io) && WriteOk(io, shielded) && ReadOk(io, shielded)
  }

  predicate DiskOk(s: State)
  {
    forall a | a in s.written :: a in s.disk && s.disk[a] == Encoded(s.shielded, s.written[a])
  }

  predicate AllOk(s: State)
  {
    forall i | 0 <= i < |s.ios| :: IoOk(s.ios[i], s.shielded)
  }

  predicate Inv(s: State) { DiskOk(s) && AllOk(s) }

  lemma PrepareKeeps(io: Io, shielded: bool, c: PreChoices)
    requires IoOk(io, shielded) && (io.phase.Arrived? || io.phase.PrePending?)
    ensures IoOk(PrepareStep(io, shielded, c), shielded)
  {
    hide AllMatch;
  }

  lemma PreKeeps(io: Io, shielded: bool, c: PreChoices)
    requires IoOk(io, shielded) && io.phase.Arrived?
    ensures IoOk(PreStep(io, shielded, c), shielded)
  {
    hide AllMatch, PrepareStep;
    PrepareKeeps(io, shielded, c);
  }

  lemma DecodedMatches(bytes: seq<bv8>, expected: seq<Option<bv8>>, n: nat, m: nat)
    requires m <= n <= |bytes| && n <= |expected| && AllMatch(bytes, expected, n, true)
    ensures AllMatch(XorPrefix(bytes, n), expected, m, false)
  {
    hide XorByte;
    forall k | 0 <= k < m ensures Matches(XorPrefix(bytes, n)[k], expected[k], false) {
      assert Matches(bytes[k], expected[k], true);
      if expected[k].Some? {
        XorTwice(expected[k].value);
      }
    }
  }

  lemma PatchMatches(user: seq<bv8>, bytes: seq<bv8>, expected: seq<Option<bv8>>, m: nat, shielded: bool)
    requires m <= |bytes| && |bytes| <= |user| && m <= |expected| && AllMatch(bytes, expected, m, shielded)
    ensures AllMatch(Patch(user, bytes[..m]), expected, m, shielded)
  {
    hide Matches;
    var r := Patch(user, bytes[..m]);
    forall k | 0 <= k < m ensures Matches(r[k], expected[k], shielded) {
      assert r[k] == bytes[k];
    }
  }

  lemma FinishReadKeeps(io: Io, shielded: bool, c: PostChoices)
    requires IoOk(io, shielded) && io.kind.Read? && (io.phase.PostDue? || io.phase.PostPending?)
    ensures IoOk(FinishReadStep(io, c), shielded)
  {
    hide AllMatch, XorPrefix, Patch;
    var w := io.swap.value;
    var valid := Min(|w.bytes|, io.information);
    var copied := Min(c.copied, valid);
    DecodedMatches(w.bytes, io.expected, valid, copied);
    PatchMatches(io.user, XorPrefix(w.bytes, valid), io.expected, copied, false);
  }

  lemma PostKeeps(io: Io, shielded: bool, c: PostChoices)
    requires IoOk(io, shielded) && io.phase.PostDue?
    ensures IoOk(PostStep(io, c), shielded)
  {
    hide AllMatch, FinishReadStep;
    if io.kind.Read? {
      FinishReadKeeps(io, shielded, c);
    }
  }

  lemma DiskMatches(s: State, offset: nat, n: nat)
    requires DiskOk(s) && Covers(s.disk, offset, n)
    ensures AllMatch(FromDisk(s.disk, offset, n), Expected(s.written, offset, n), n, s.shielded)
  {
    hide Encoded;
    var bytes, expected := FromDisk(s.disk, offset, n), Expected(s.written, offset, n);
    forall k | 0 <= k < n ensures Matches(bytes[k], expected[k], s.shielded) {
      assert offset + k in s.disk;
    }
  }

  lemma ReadBelowKeeps(io: Io, bytes: seq<bv8>, expected: seq<Option<bv8>>, ok: bool, shielded: bool)
    requires IoOk(io, shielded) && io.phase.Below? && io.kind.Read?
    requires |bytes| == |expected| <= |io.user| && AllMatch(bytes, expected, |bytes|, shielded)
    ensures IoOk(ReadBelow(io, bytes, expected, ok), shielded)
  {
    hide AllMatch, Patch;
    assert bytes[..|bytes|] == bytes;
    if io.phase.callback {
      PatchMatches(io.swap.value.bytes, bytes, expected, |bytes|, true);
      MatchesLess(Patch(io.swap.value.bytes, bytes), expected, if ok then |bytes| else 0, |bytes|, true);
      MatchesNone(io.user, expected, false);
    } else {
      PatchMatches(io.user, bytes, expected, |bytes|, shielded);
      if |bytes| == 0 { MatchesNone(Patch(io.user, bytes), expected, false); }
    }
  }

  lemma MatchesLess(bytes: seq<bv8>, expected: seq<Option<bv8>>, m: nat, n: nat, shielded: bool)
    requires m <= n <= |bytes| && n <= |expected| && AllMatch(bytes, expected, n, shielded)
    ensures AllMatch(bytes, expected, m, shielded)
  {
  }

  lemma MatchesNone(bytes: seq<bv8>, expected: seq<Option<bv8>>, shielded: bool)
    ensures AllMatch(bytes, expected, 0, shielded)
  {
  }

  lemma IoStepKeeps(s: State, i: nat, e: Event)
    requires Inv(s) && OfOperation(e) && Enabled(s, e) && i == e.i
    ensures IoOk(IoStep(s, s.ios[i], e), s.shielded)
  {
    hide AllMatch, PreStep, PrepareStep, PostStep, FinishReadStep, ReadBelow;
    var io := s.ios[i];
    assert IoOk(io, s.shielded);
    match e
    case Pre(_, c) => PreKeeps(io, s.shielded, c);
    case DeferredPre(_, c) => PrepareKeeps(io, s.shielded, c);
    case LowerWrite(_, n, ok) =>
    case LowerRead(_, n, ok) =>
      DiskMatches(s, io.offset, n);
      ReadBelowKeeps(io, FromDisk(s.disk, io.offset, n), Expected(s.written, io.offset, n), ok, s.shielded);
    case Post(_, c) => PostKeeps(io, s.shielded, c);
    case DeferredPost(_, c) => FinishReadKeeps(io, s.shielded, c);
  }

  // The bytes sent down are the encoding of the caller's bytes.
  lemma SentEncoded(io: Io, n: nat, shielded: bool, k: nat)
    requires IoOk(io, shielded) && io.phase.Below? && io.kind.Write? && k < n <= |io.user|
    ensures |Prefix(Buffer(io), n)| == n && Prefix(Buffer(io), n)[k] == Encoded(shielded, io.user[k])
  {
    hide AllMatch, ReadOk;
  }

  lemma OneOk(s: State, i: nat)
    requires AllOk(s) && i < |s.ios|
    ensures IoOk(s.ios[i], s.shielded)
  {
  }

  // The file stays the encoding of what was written when encoded bytes are written over it.
  lemma EncodedOverlay(disk: Contents, written: Contents, offset: nat, sent: seq<bv8>, bytes: seq<bv8>, shielded: bool)
    requires forall a | a in written :: a in disk && disk[a] == Encoded(shielded, written[a])
    requires |sent| == |bytes| && forall k | 0 <= k < |bytes| :: sent[k] == Encoded(shielded, bytes[k])
    ensures var d, w := Overlay(disk, offset, sent), Overlay(written, offset, bytes);
            forall a | a in w :: a in d && d[a] == Encoded(shielded, w[a])
  {
    hide Encoded;
  }

  lemma LowerWriteKeeps(s: State, i: nat, n: nat, ok: bool)
    requires Inv(s) && Enabled(s, LowerWrite(i, n, ok))
    ensures DiskOk(Do(s, LowerWrite(i, n, ok)))
  {
    hide Encoded, IoOk, Prefix, Buffer, AllOk, IoStep, Overlay;
    var io := s.ios[i];
    OneOk(s, i);
    var sent := Prefix(Buffer(io), n);
    SentWhole(io, n, s.shielded);
    EncodedOverlay(s.disk, s.written, io.offset, sent, io.user[..n], s.shielded);
  }

  lemma SentWhole(io: Io, n: nat, shielded: bool)
    requires IoOk(io, shielded) && io.phase.Below? && io.kind.Write? && n <= |io.user|
    ensures var sent := Prefix(Buffer(io), n);
            |sent| == n && forall k | 0 <= k < n :: sent[k] == Encoded(shielded, io.user[..n][k])
  {
    hide IoOk, Encoded;
    forall k | 0 <= k < n ensures |Prefix(Buffer(io), n)| == n && Prefix(Buffer(io), n)[k] == Encoded(shielded, io.user[k]) {
      SentEncoded(io, n, shielded, k);
    }
    if n > 0 {
      SentEncoded(io, n, shielded, 0);
    }
  }

  lemma StepKeeps(s: State, e: Event)
    requires Inv(s) && Enabled(s, e)
    ensures Inv(Do(s, e))
  {
    hide IoOk, IoStep, IoEnabled, Encoded;
    if OfOperation(e) {
      IoStepKeeps(s, e.i, e);
      if e.LowerWrite? {
        LowerWriteKeeps(s, e.i, e.n, e.ok);
      }
    }
  }

  lemma InitialHolds(s: State)
    requires Initial(s)
    ensures Inv(s)
  {
  }

  // ---------------------------------------------------------------------------------------------------------
  // Runs
  // ---------------------------------------------------------------------------------------------------------

  predicate Run(s: State, run: seq<Event>)
    decreases |run|
  {
    run == [] || (Enabled(s, run[0]) && Run(Do(s, run[0]), run[1..]))
  }

  function After(s: State, run: seq<Event>): (t: State)
    requires Run(s, run)
    decreases |run|
  {
    if run == [] then s else After(Do(s, run[0]), run[1..])
  }

  ghost predicate Reachable(s: State)
  {
    exists s0, run :: Initial(s0) && Run(s0, run) && After(s0, run) == s
  }

  lemma {:induction false} RunKeeps(s: State, run: seq<Event>)
    requires Inv(s) && Run(s, run)
    ensures Inv(After(s, run))
    decreases |run|
  {
    hide Inv, Enabled, Do;
    if run != [] {
      StepKeeps(s, run[0]);
      RunKeeps(Do(s, run[0]), run[1..]);
    }
  }

  lemma ReachableInv(s: State)
    requires Reachable(s)
    ensures Inv(s)
  {
    hide Do, Enabled;
    var s0, run :| Initial(s0) && Run(s0, run) && After(s0, run) == s;
    InitialHolds(s0);
    RunKeeps(s0, run);
  }

  /** A replacement buffer is completed exactly once, at the latest when its operation finishes, and never used after. */
  lemma SwapCompletedOnce(s: State, i: nat)
    requires Reachable(s) && i < |s.ios| && s.ios[i].swap.Some?
    ensures var io := s.ios[i];
            && (io.phase.Finished? <==> !io.swap.value.live)
            && io.swap.value.completions == (if io.phase.Finished? then 1 else 0)
  {
    hide ReadOk, WriteOk;
    ReachableInv(s);
    assert IoOk(s.ios[i], s.shielded);
  }

  // Event `e` changes what is stored at address `a`.
  predicate Touches(s: State, e: Event, a: nat)
    requires Enabled(s, e)
  {
    match e
    case LowerWrite(i, n, _) => s.ios[i].offset <= a < s.ios[i].offset + n
    case Foreign(offset, bytes) => offset <= a < offset + |bytes|
    case Truncate(length) => length <= a
    case _ => false
  }

  predicate Untouched(s: State, run: seq<Event>, a: nat)
    requires Run(s, run)
    decreases |run|
  {
    run == [] || (!Touches(s, run[0], a) && Untouched(Do(s, run[0]), run[1..], a))
  }

  lemma {:induction false} WrittenStays(s: State, run: seq<Event>, a: nat)
    requires Run(s, run) && Untouched(s, run, a) && a in s.written
    ensures a in After(s, run).written && After(s, run).written[a] == s.written[a]
    decreases |run|
  {
    hide IoStep;
    if run != [] {
      var t := Do(s, run[0]);
      assert a in t.written && t.written[a] == s.written[a] by { hide Run, Untouched, After; }
      WrittenStays(t, run[1..], a);
    }
  }

  predicate PastRead(io: Io) { io.phase.PostDue? || io.phase.PostPending? || io.phase.Finished? }

  predicate SameRead(io: Io, io': Io)
  {
    PastRead(io') && io'.expected == io.expected && io'.kind == io.kind && io'.offset == io.offset
  }

  lemma SameReadStep(s: State, io: Io, e: Event)
    requires IoEnabled(s, io, e) && PastRead(io)
    ensures SameRead(io, IoStep(s, io, e))
  {
    hide XorPrefix, Patch, CompleteSwap;
  }

  lemma {:induction false} ExpectedStays(s: State, run: seq<Event>, j: nat)
    requires Run(s, run) && j < |s.ios| && PastRead(s.ios[j])
    ensures var t := After(s, run); j < |t.ios| && SameRead(s.ios[j], t.ios[j])
    decreases |run|
  {
    hide IoStep, IoEnabled;
    if run != [] {
      var e := run[0];
      if OfOperation(e) && e.i == j {
        SameReadStep(s, s.ios[j], e);
      }
      ExpectedStays(Do(s, e), run[1..], j);
    }
  }

  // `run` leads from `s` to `t`.
  predicate Leads(s: State, run: seq<Event>, t: State) { Run(s, run) && After(s, run) == t }

  predicate Steps(s: State, e: Event, t: State) { Enabled(s, e) && t == Do(s, e) }

  /**
   Bytes written through the filter are read back. Operation `i` wrote byte `a` (from `s0` to `s1`), nothing touched `a`
   until `s2`, and operation `j` then read it from the file system (to `s3`). However the operations interleave after
   that, if the caller of `j` is given the byte, it is the one the caller of `i` wrote; and a read that succeeds gives
   its caller all the bytes it reports exactly when it was not drained or reports none.
   */
  lemma ReadReturnsWritten(
      s0: State, w: Event, s1: State, mid: seq<Event>, s2: State, r: Event, s3: State, rest: seq<Event>, t: State, a: nat)
    requires Reachable(s0) && w.LowerWrite? && Steps(s0, w, s1) && Touches(s0, w, a)
    requires Leads(s1, mid, s2) && Untouched(s1, mid, a)
    requires r.LowerRead? && Steps(s2, r, s3) && s2.ios[r.i].offset <= a < s2.ios[r.i].offset + r.n
    requires Leads(s3, rest, t)
    ensures r.i < |t.ios|
    ensures var io := t.ios[r.i];
            && io.offset <= a && io.delivered <= |io.user|
            && (a - io.offset < io.delivered ==>
                  io.user[a - io.offset] == s0.ios[w.i].user[a - s0.ios[w.i].offset])
            && (io.phase.Finished? && io.ok ==> (io.delivered == io.information <==> !io.drained || io.information == 0))
            && (io.drained ==> io.delivered == 0)
  {
    hide Run, After, Untouched, Inv, Reachable, Do, SameRead, PastRead;
    assert Inv(t) by {
      ReachableInv(s0);
      StepKeeps(s0, w);
      RunKeeps(s1, mid);
      StepKeeps(s2, r);
      RunKeeps(s3, rest);
    }
    WriteRecorded(s0, w.i, w.n, w.ok, a);
    WrittenStays(s1, mid, a);
    ExpectedRecorded(s2, r.i, r.n, r.ok, a);
    ExpectedStays(s3, rest, r.i);
    SameDelivered(s3.ios[r.i], t, r.i, a - s2.ios[r.i].offset);
  }

  lemma SameDelivered(io: Io, t: State, j: nat, k: nat)
    requires Inv(t) && j < |t.ios| && SameRead(io, t.ios[j]) && io.kind.Read? && k < |io.expected| && io.expected[k].Some?
    ensures var r := t.ios[j];
            && r.offset == io.offset && r.delivered <= |r.user|
            && (k < r.delivered ==> r.user[k] == io.expected[k].value)
            && (r.phase.Finished? && r.ok ==> (r.delivered == r.information <==> !r.drained || r.information == 0))
            && (r.drained ==> r.delivered == 0)
  {
    hide Inv;
    DeliveredPlain(t, j, k);
  }

  lemma WriteRecorded(s: State, i: nat, n: nat, ok: bool, a: nat)
    requires Enabled(s, LowerWrite(i, n, ok)) && s.ios[i].offset <= a < s.ios[i].offset + n
    ensures var t := Do(s, LowerWrite(i, n, ok)); a in t.written && t.written[a] == s.ios[i].user[a - s.ios[i].offset]
  {
    hide WroteBelow;
  }

  lemma ExpectedRecorded(s: State, j: nat, m: nat, ok: bool, a: nat)
    requires Enabled(s, LowerRead(j, m, ok)) && a in s.written && s.ios[j].offset <= a < s.ios[j].offset + m
    ensures var t := Do(s, LowerRead(j, m, ok));
            && j < |t.ios| && PastRead(t.ios[j]) && t.ios[j].offset == s.ios[j].offset && |t.ios[j].expected| == m
            && t.ios[j].expected[a - s.ios[j].offset] == Some(s.written[a]) && t.ios[j].kind.Read?
  {
    hide Patch;
  }

  lemma DeliveredPlain(s: State, j: nat, k: nat)
    requires Inv(s) && j < |s.ios| && s.ios[j].kind.Read? && k < |s.ios[j].expected| && s.ios[j].expected[k].Some?
    ensures var io := s.ios[j];
            && io.delivered <= |io.user|
            && (k < io.delivered ==> io.user[k] == io.expected[k].value)
            && (io.phase.Finished? && io.ok ==> (io.delivered == io.information <==> !io.drained || io.information == 0))
            && (io.drained ==> io.delivered == 0)
  {
    hide SwapOk, WriteOk;
    assert IoOk(s.ios[j], s.shielded);
    if k < s.ios[j].delivered {
      assert Matches(s.ios[j].user[k], s.ios[j].expected[k], false);
    }
  }

  // ---------------------------------------------------------------------------------------------------------
  // A drained read
  // ---------------------------------------------------------------------------------------------------------

  // A protected file of one byte, and one read of it.
  function OneRead(phase: Phase, swap: Option<Swap>, information: nat, drained: bool, expected: seq<Option<bv8>>): (s: State)
  {
    State(true, map[0 := 7], map[], [Io(Read, 0, [0], phase, swap, true, information, drained, expected, 0)])
  }

  const READY := PreChoices(false, true, true, true, true, true, true, true, true)

  lemma ReadSent() returns (s: State)
    ensures s == OneRead(Below(true), Some(Swap([0], true, 0)), 0, false, []) && Reachable(s)
  {
    var s0 := OneRead(Arrived, None, 0, false, []);
    var e := Pre(0, READY);
    s := OneRead(Below(true), Some(Swap([0], true, 0)), 0, false, []);
    assert Enabled(s0, e) && Do(s0, e) == s;
    hide Do, Enabled;
    assert [e][1..] == [];
    assert Run(s, []) && After(s, []) == s;
    assert Run(s0, [e]) && After(s0, [e]) == s;
  }

  /** A read drained after the file system answered: it ends successfully, reports one byte and has delivered none. */
  lemma DrainedRead() returns (s: State, run: seq<Event>)
    ensures Reachable(s) && Run(s, run)
    ensures |After(s, run).ios| == 1
    ensures var io := After(s, run).ios[0];
            io.phase.Finished? && io.ok && io.drained && io.information == 1 && io.delivered == 0
  {
    s := ReadSent();
    var e1, e2 := LowerRead(0, 1, true), Post(0, PostChoices(true, true, true, true, true, 1));
    var s1 := OneRead(PostDue, Some(Swap([7], true, 0)), 1, false, [None]);
    var s2 := OneRead(Finished, Some(Swap([7], false, 1)), 1, true, [None]);
    assert FromDisk(s.disk, 0, 1) == [7] && Expected(s.written, 0, 1) == [None] && Patch([0], [7]) == [7];
    assert Enabled(s, e1) && Do(s, e1) == s1;
    assert Enabled(s1, e2) && Do(s1, e2) == s2;
    hide Do, Enabled, Reachable;
    run := [e1, e2];
    assert run[1..] == [e2] && [e2][1..] == [];
    assert Run(s2, []) && After(s2, []) == s2;
    assert Run(s1, [e2]) && After(s1, [e2]) == s2;
  }

  // ---------------------------------------------------------------------------------------------------------
  // When the filter fails an operation
  // ---------------------------------------------------------------------------------------------------------

  // Every service that preparing an operation uses succeeds: the name, and for a protected file the replacement buffer,
  // its view, its installation and its release into the completion context.
  predicate PrepareServices(shielded: bool, c: PreChoices)
  {
    c.namedAgain && (shielded ==> c.swapped && c.view && c.applied && c.released)
  }

  // An operation that was passed on: with its replacement buffer if the file is protected, else untouched.
  predicate PassedOn(io: Io, r: Io, shielded: bool)
  {
    && r.phase == Below(shielded) && r.ok == io.ok && r.information == io.information && r.user == io.user
    && (if shielded then r.swap.Some? && r.swap.value.live && |r.swap.value.bytes| == |io.user| else r.swap == io.swap)
    && (shielded && io.kind.Write? ==> EncodedAs(r.swap.value.bytes, io.user))
  }

  predicate EncodedAs(bytes: seq<bv8>, user: seq<bv8>)
  {
    |bytes| == |user| && forall k | 0 <= k < |user| :: bytes[k] == user[k] ^ 0xA7
  }

  lemma XorWhole(user: seq<bv8>)
    ensures EncodedAs(XorPrefix(user, |user|), user)
  {
  }

  predicate Failed(r: Io) { r.phase.Finished? && !r.ok && r.information == 0 }

  /** Preparing an operation passes it on exactly when every service it uses succeeds, and fails it otherwise. */
  lemma PrepareExactly(io: Io, shielded: bool, c: PreChoices)
    ensures var r := PrepareStep(io, shielded, c);
            if PrepareServices(shielded, c) then PassedOn(io, r, shielded) else Failed(r)
  {
    hide XorPrefix, EncodedAs;
    XorWhole(io.user);
  }

  /**
   What becomes of a new operation. One without bytes or on a file known to be unprotected is passed on untouched. Fast
   I/O on any other file is disallowed. At passive level the operation is prepared at once, above it the operation is
   queued, and it fails exactly when a service it uses fails.
   */
  lemma PreExactly(io: Io, shielded: bool, c: PreChoices)
    ensures var r := PreStep(io, shielded, c);
            if io.user == [] || (c.named && !shielded) then r == io.(phase := Below(false))
            else if c.fastIo then r == io.(phase := Disallowed)
            else if !c.passive then if c.queued then r == io.(phase := PrePending) else Failed(r)
            else if PrepareServices(shielded, c) then PassedOn(io, r, shielded) else Failed(r)
  {
    hide PrepareStep, PrepareServices, PassedOn;
    PrepareExactly(io, shielded, c);
  }

  // Every service that finishing a read uses succeeds: the view, the preparation of the copy and the whole copy.
  predicate CopyServices(c: PostChoices, n: nat) { c.view && c.prepared && c.copied >= n }

  // A read that ends successfully with all bytes the file system returned, and one that ends with an error.
  predicate ReadDone(io: Io, r: Io)
  {
    r.phase.Finished? && r.ok && !r.drained && r.information == io.information && r.delivered == io.information
  }

  lemma FinishReadExactly(io: Io, shielded: bool, c: PostChoices)
    requires IoOk(io, shielded) && io.kind.Read? && io.ok && (io.phase.PostDue? || io.phase.PostPending?)
    ensures var r := FinishReadStep(io, c);
            if CopyServices(c, io.information) then ReadDone(io, r) else Failed(r)
  {
    hide AllMatch, XorPrefix, Patch, WriteOk;
  }

  /**
   A read that succeeded below ends successfully, reports the same bytes and delivers them exactly when no service of
   its post-operation fails; drained it keeps its result but delivers nothing; above passive level it waits for a worker,
   unless it cannot be queued.
   */
  lemma ReadPostExactly(s: State, i: nat, c: PostChoices)
    requires Reachable(s) && Enabled(s, Post(i, c)) && s.ios[i].kind.Read? && s.ios[i].ok
    ensures i < |Do(s, Post(i, c)).ios|
    ensures var io, r := s.ios[i], Do(s, Post(i, c)).ios[i];
            if c.draining then
              r.phase.Finished? && r.ok && r.drained && r.information == io.information && r.delivered == 0
            else if !c.passive then if c.queued then r == io.(phase := PostPending) else Failed(r)
            else if CopyServices(c, io.information) then ReadDone(io, r) else Failed(r)
  {
    hide FinishReadStep, CopyServices, ReadDone, Reachable;
    ReachableInv(s);
    OneOk(s, i);
    FinishReadExactly(s.ios[i], s.shielded, c);
  }

  /** The same for the worker that finishes a waiting read. */
  lemma DeferredPostExactly(s: State, i: nat, c: PostChoices)
    requires Reachable(s) && Enabled(s, DeferredPost(i, c))
    ensures i < |Do(s, DeferredPost(i, c)).ios|
    ensures var io, r := s.ios[i], Do(s, DeferredPost(i, c)).ios[i];
            if CopyServices(c, io.information) then ReadDone(io, r) else Failed(r)
  {
    hide FinishReadStep, CopyServices, ReadDone, Reachable;
    ReachableInv(s);
    OneOk(s, i);
    FinishReadExactly(s.ios[i], s.shielded, c);
  }

  /** The post-operation of a write, and of a read that failed below, keeps status and byte count: it never fails. */
  lemma OtherPostExactly(s: State, i: nat, c: PostChoices)
    requires Reachable(s) && Enabled(s, Post(i, c)) && (s.ios[i].kind.Write? || !s.ios[i].ok)
    ensures i < |Do(s, Post(i, c)).ios|
    ensures var io, r := s.ios[i], Do(s, Post(i, c)).ios[i];
            r.phase.Finished? && r.ok == io.ok && r.information == io.information && r.user == io.user
  {
    hide FinishReadStep, Reachable;
    ReachableInv(s);
    OneOk(s, i);
  }

  /** The file system's own result is what the operation carries on: status, and byte count if it succeeded. */
  lemma LowerExactly(s: State, e: Event)
    requires Reachable(s) && Enabled(s, e) && (e.LowerRead? || e.LowerWrite?)
    ensures e.i < |Do(s, e).ios|
    ensures var r := Do(s, e).ios[e.i];
            && r.ok == e.ok && r.information == (if e.ok then e.n else 0)
            && r.phase == (if s.ios[e.i].phase.callback then PostDue else Finished)
  {
    hide Reachable, FromDisk, Expected, Patch, Overlay;
    ReachableInv(s);
    OneOk(s, e.i);
  }

  /** A protected file holds, at every byte last written through the filter, that byte XORed with 0xA7. */
  lemma StoredEncoded(s: State, a: nat)
    requires Reachable(s) && a in s.written
    ensures a in s.disk && s.disk[a] == if s.shielded then s.written[a] ^ 0xA7 else s.written[a]
  {
    hide Reachable, AllOk;
    ReachableInv(s);
  }
}
