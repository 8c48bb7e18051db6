/** The overwrite-oldest record ring of the operation-log minifilter, and the unbounded log it stands for. */
module RecordQueue {
  import Arithmetic

  const QUEUE_CAPACITY: nat := 64
  const BATCH_CAPACITY: nat := 16
  const WORD: nat := 0x1_0000_0000_0000_0000

  datatype Payload = Payload(operation: nat, phase: nat, status: int, information: nat)
  datatype Record = Record(sequence: nat, payload: Payload)
  datatype Batch = Batch(records: seq<Record>, remaining: nat, dropped: nat)

  // ---------------------------------------------------------------------------------------------------------
  // The log: everything pushed since the reset, by index
  // ---------------------------------------------------------------------------------------------------------

  /**
   The pushed payloads with index `first` and above are stored. `delivered` lists the indices read so far, in order;
   `dropped` counts those overwritten and `discarded` those thrown away by closing.
   */
  datatype Log = Log(pushed: seq<Payload>, first: nat, delivered: seq<nat>, dropped: nat, discarded: nat, closed: bool)

  const EMPTY := Log([], 0, [], 0, 0, false)

  // The 64-bit counters of the source.
  function Wrap(n: nat): (r: nat) { n % WORD }

  function RecordAt(g: Log, k: nat): (r: Record)
    requires k < |g.pushed|
  {
    Record(Wrap(k + 1), g.pushed[k])
  }

  function Stored(g: Log): (n: int) { |g.pushed| - g.first }

  function PushLog(g: Log, p: Payload): (g': Log)
  {
    if g.closed then g
    else if Stored(g) == QUEUE_CAPACITY then g.(pushed := g.pushed + [p], first := g.first + 1, dropped := g.dropped + 1)
    else g.(pushed := g.pushed + [p])
  }

  function Taken(g: Log): (n: int) { if Stored(g) < BATCH_CAPACITY then Stored(g) else BATCH_CAPACITY }

  function Indices(from: nat, n: nat): (r: seq<nat>) { seq(n, k requires 0 <= k < n => from + k) }

  function ReadLog(g: Log): (g': Log)
    requires g.first <= |g.pushed|
  {
    g.(first := g.first + Taken(g), delivered := g.delivered + Indices(g.first, Taken(g)))
  }

  function BatchOf(g: Log): (b: Batch)
    requires g.first <= |g.pushed|
  {
    Batch(seq(Taken(g), k requires 0 <= k < Taken(g) => RecordAt(g, g.first + k)), Stored(g) - Taken(g), Wrap(g.dropped))
  }

  function CloseLog(g: Log): (g': Log)
    requires g.first <= |g.pushed|
  {
    g.(first := |g.pushed|, discarded := g.discarded + Stored(g), closed := true)
  }

  predicate Increasing(s: seq<nat>) { forall i, j | 0 <= i < j < |s| :: s[i] < s[j] }

  // Index `k` is among the delivered ones.
  predicate Delivered(g: Log, k: nat) { exists i :: 0 <= i < |g.delivered| && g.delivered[i] == k }

  /**
   At most a ring's worth is stored; deliveries are in order; every pushed record is delivered, dropped, discarded or
   stored; and while the queue is open only a record with a full ring of later ones has been dropped.
   */
  predicate LogOk(g: Log)
  {
    && g.first <= |g.pushed| && Stored(g) <= QUEUE_CAPACITY
    && Increasing(g.delivered) && (forall i | 0 <= i < |g.delivered| :: g.delivered[i] < g.first)
    && |g.delivered| + g.dropped + g.discarded + Stored(g) == |g.pushed|
    && (g.closed ==> g.first == |g.pushed|)
    && (!g.closed ==> g.discarded == 0 && forall k: nat | k < g.first :: Delivered(g, k) || k + QUEUE_CAPACITY < |g.pushed|)
  }

  datatype Call = Push(p: Payload) | Read | Close

  function Apply(g: Log, c: Call): (g': Log)
    requires LogOk(g)
  {
    match c
    case Push(p) => PushLog(g, p)
    case Read => ReadLog(g)
    case Close => CloseLog(g)
  }

  lemma PushKeeps(g: Log, p: Payload)
    requires LogOk(g)
    ensures LogOk(PushLog(g, p))
  {
    var t := PushLog(g, p);
    if !g.closed {
      forall k: nat | k < t.first ensures Delivered(t, k) || k + QUEUE_CAPACITY < |t.pushed| {
        if k < g.first {
          assert Delivered(g, k) ==> Delivered(t, k);
        }
      }
    }
  }

  lemma ReadDelivers(g: Log, k: nat)
    requires LogOk(g) && k < ReadLog(g).first
    ensures Delivered(ReadLog(g), k) || (k < g.first && !Delivered(g, k))
  {
    var t := ReadLog(g);
    if k >= g.first {
      assert t.delivered[|g.delivered| + (k - g.first)] == k;
    } else if i :| 0 <= i < |g.delivered| && g.delivered[i] == k {
      assert t.delivered[i] == k;
    }
  }

  lemma ReadKeeps(g: Log)
    requires LogOk(g)
    ensures LogOk(ReadLog(g))
  {
    var t := ReadLog(g);
    forall i | |g.delivered| <= i < |t.delivered| ensures t.delivered[i] == g.first + (i - |g.delivered|) {
    }
    forall k: nat | k < t.first && !g.closed ensures Delivered(t, k) || k + QUEUE_CAPACITY < |t.pushed| {
      ReadDelivers(g, k);
    }
  }

  lemma ApplyKeeps(g: Log, c: Call)
    requires LogOk(g)
    ensures LogOk(Apply(g, c))
  {
    match c
    case Push(p) => PushKeeps(g, p);
    case Read => ReadKeeps(g);
    case Close =>
  }

  // Whole runs from a reset; `batches` are the results of the reads.
  function After(calls: seq<Call>): (r: (Log, seq<Record>))
    ensures LogOk(r.0)
    decreases |calls|
  {
    if calls == [] then (EMPTY, [])
    else
      var n := |calls| - 1;
      var (g, records) := After(calls[..n]);
      ApplyKeeps(g, calls[n]);
      (Apply(g, calls[n]), if calls[n].Read? then records + BatchOf(g).records else records)
  }

  predicate Open(calls: seq<Call>) { forall i | 0 <= i < |calls| :: !calls[i].Close? }

  function Pushes(calls: seq<Call>): (p: seq<Payload>)
    decreases |calls|
  {
    if calls == [] then []
    else
      var n := |calls| - 1;
      Pushes(calls[..n]) + if calls[n].Push? then [calls[n].p] else []
  }

  predicate RecordsAt(records: seq<Record>, g: Log)
  {
    && |records| == |g.delivered|
    && forall i | 0 <= i < |records| :: g.delivered[i] < |g.pushed| && records[i] == RecordAt(g, g.delivered[i])
  }

  lemma {:induction false} DeliveredRecords(calls: seq<Call>)
    ensures var (g, records) := After(calls); RecordsAt(records, g)
    decreases |calls|
  {
    if calls != [] {
      var n := |calls| - 1;
      DeliveredRecords(calls[..n]);
      var (g, records) := After(calls[..n]);
      DeliveredStep(g, calls[n], records);
    }
  }

  lemma DeliveredStep(g: Log, c: Call, records: seq<Record>)
    requires LogOk(g) && RecordsAt(records, g)
    ensures RecordsAt(if c.Read? then records + BatchOf(g).records else records, Apply(g, c))
  {
    var t := Apply(g, c);
    assert forall k: nat | k < |g.pushed| :: RecordAt(t, k) == RecordAt(g, k);
    if c.Read? {
      DeliveredRead(g, records);
    }
  }

  lemma DeliveredRead(g: Log, records: seq<Record>)
    requires g.first <= |g.pushed| && RecordsAt(records, g)
    ensures RecordsAt(records + BatchOf(g).records, ReadLog(g))
  {
    hide RecordAt;
    var t, b, n := ReadLog(g), BatchOf(g).records, |records|;
    assert |(records + b)| == |t.delivered|;
    forall i | 0 <= i < |records + b| ensures t.delivered[i] < |t.pushed| && (records + b)[i] == RecordAt(t, t.delivered[i]) {
      if i < n {
        assert records[i] == RecordAt(g, g.delivered[i]);
        SameRecord(g, t, g.delivered[i]);
      } else {
        assert t.delivered[i] == g.first + (i - n);
        assert b[i - n] == RecordAt(g, g.first + (i - n));
        SameRecord(g, t, g.first + (i - n));
      }
    }
  }

  lemma SameRecord(g: Log, t: Log, k: nat)
    requires k < |g.pushed| && t.pushed == g.pushed
    ensures RecordAt(t, k) == RecordAt(g, k)
  {
  }

  lemma {:induction false} PushedAll(calls: seq<Call>)
    requires Open(calls)
    ensures After(calls).0.pushed == Pushes(calls) && !After(calls).0.closed
    decreases |calls|
  {
    if calls != [] {
      PushedAll(calls[..|calls| - 1]);
    }
  }

  /**
   Between a reset and a close: the batches concatenate to pushed records in strictly increasing order, numbered from
   one; the rest of the pushed records are stored or dropped; and what is stored is the tail of what was pushed,
   including every undelivered record among the last 64.
   */
  lemma OpenRun(calls: seq<Call>)
    requires Open(calls)
    ensures var (g, records) := After(calls);
            && g.pushed == Pushes(calls)
            && |records| + g.dropped + Stored(g) == |Pushes(calls)| && Stored(g) <= 64
            && |records| == |g.delivered| && Increasing(g.delivered)
            && (forall i | 0 <= i < |records| ::
                  g.delivered[i] < g.first && records[i] == Record(Wrap(g.delivered[i] + 1), Pushes(calls)[g.delivered[i]]))
            && (forall k: nat | k < |g.pushed| && |g.pushed| <= k + 64 :: k >= g.first || Delivered(g, k))
  {
    DeliveredRecords(calls);
    PushedAll(calls);
  }

  /**
   The next read then returns the oldest of the records pushed and neither delivered nor dropped, at most 16 of them,
   with how many remain and how many were dropped so far.
   */
  lemma NextBatch(calls: seq<Call>)
    requires Open(calls)
    ensures var (g, records) := After(calls);
            var stored, b := |Pushes(calls)| - |records| - g.dropped, BatchOf(g);
            && 0 <= stored <= 64 && |b.records| == (if stored < 16 then stored else 16)
            && b.remaining == stored - |b.records| && b.dropped == g.dropped % 0x1_0000_0000_0000_0000
            && (forall k | 0 <= k < |b.records| ::
                  var at := |Pushes(calls)| - stored + k;
                  b.records[k] == Record((at + 1) % 0x1_0000_0000_0000_0000, Pushes(calls)[at]))
  {
    hide After;
    OpenRun(calls);
    var (g, records) := After(calls);
    var b := BatchOf(g);
    assert Stored(g) == |Pushes(calls)| - |records| - g.dropped;
    forall k | 0 <= k < |b.records|
      ensures b.records[k] == Record((g.first + k + 1) % 0x1_0000_0000_0000_0000, Pushes(calls)[g.first + k])
    {
      assert b.records[k] == RecordAt(g, g.first + k);
    }
  }

  /** Sequence numbers of the delivered records strictly increase as long as fewer than 2^64 records were pushed. */
  lemma SequencesIncrease(calls: seq<Call>, i: nat, j: nat)
    requires i < j < |After(calls).1| && |After(calls).0.pushed| < WORD
    ensures After(calls).1[i].sequence < After(calls).1[j].sequence
  {
    hide After, Wrap;
    DeliveredRecords(calls);
    var (g, records) := After(calls);
    assert g.delivered[i] < g.delivered[j];
    WrapSmall(g.delivered[i] + 1);
    WrapSmall(g.delivered[j] + 1);
  }

  lemma WrapSmall(n: nat)
    requires n < WORD
    ensures Wrap(n) == n
  {
  }

  /** After a close, pushes are ignored and reads return nothing. */
  lemma {:induction false} ClosedStays(before: seq<Call>, more: seq<Call>)
    ensures var (g, records) := After(before);
            var (t, all) := After(before + [Close] + more);
            t.closed && t.pushed == g.pushed && Stored(t) == 0 && all == records
    decreases |more|
  {
    var calls := before + [Close] + more;
    if more == [] {
      assert calls[..|calls| - 1] == before && calls[|calls| - 1] == Close;
    } else {
      var n := |more| - 1;
      assert calls[..|calls| - 1] == before + [Close] + more[..n];
      assert calls[|calls| - 1] == more[n];
      ClosedStays(before, more[..n]);
    }
  }

  // ---------------------------------------------------------------------------------------------------------
  // The ring
  // ---------------------------------------------------------------------------------------------------------

  function RingAt(ring: seq<Record>, head: nat, k: nat): (r: Record)
    requires |ring| == QUEUE_CAPACITY
  {
    ring[(head + k) % QUEUE_CAPACITY]
  }

  // The ring holds the stored records of the log in order from `head`.
  predicate RingOk(ring: seq<Record>, head: nat, count: nat, g: Log)
  {
    && |ring| == QUEUE_CAPACITY && head < QUEUE_CAPACITY && g.first <= |g.pushed| && count == Stored(g)
    && forall k | 0 <= k < count :: RingAt(ring, head, k) == RecordAt(g, g.first + k)
  }

  lemma Apart(head: nat, j: nat, k: nat)
    requires j < QUEUE_CAPACITY && k < QUEUE_CAPACITY && j != k
    ensures (head + j) % QUEUE_CAPACITY != (head + k) % QUEUE_CAPACITY
  {
  }

  lemma Turn(head: nat, n: nat, k: nat)
    ensures ((head + n) % QUEUE_CAPACITY + k) % QUEUE_CAPACITY == (head + (n + k)) % QUEUE_CAPACITY
  {
    Arithmetic.RemainderOfSum(head + n, k, QUEUE_CAPACITY);
  }

  // Leaving the first `n` records of the ring behind.
  lemma RingSkips(ring: seq<Record>, head: nat, count: nat, g: Log, n: nat, t: Log)
    requires RingOk(ring, head, count, g) && n <= count && t.pushed == g.pushed && t.first == g.first + n
    ensures RingOk(ring, (head + n) % QUEUE_CAPACITY, count - n, t)
  {
    var head' := (head + n) % QUEUE_CAPACITY;
    forall k | 0 <= k < count - n ensures RingAt(ring, head', k) == RecordAt(t, t.first + k) {
      Turn(head, n, k);
      assert RingAt(ring, head, n + k) == RecordAt(g, g.first + (n + k));
    }
  }

  // Storing one more record behind the last.
  lemma RingAppends(ring: seq<Record>, head: nat, count: nat, g: Log, p: Payload, t: Log)
    requires RingOk(ring, head, count, g) && count < QUEUE_CAPACITY && t.pushed == g.pushed + [p] && t.first == g.first
    ensures RingOk(ring[(head + count) % QUEUE_CAPACITY := Record(Wrap(|g.pushed| + 1), p)], head, count + 1, t)
  {
    var r := Record(Wrap(|g.pushed| + 1), p);
    var ring' := ring[(head + count) % QUEUE_CAPACITY := r];
    forall k | 0 <= k < count + 1 ensures RingAt(ring', head, k) == RecordAt(t, t.first + k) {
      if k < count {
        Apart(head, k, count);
        assert RingAt(ring, head, k) == RecordAt(g, g.first + k);
      }
    }
  }

  lemma RingSize(ring: seq<Record>, head: nat, count: nat, g: Log)
    requires RingOk(ring, head, count, g) && LogOk(g)
    ensures |ring| == QUEUE_CAPACITY && count == Stored(g) <= QUEUE_CAPACITY && g.first <= |g.pushed|
  {
  }

  lemma RingFits(ring: seq<Record>, head: nat, count: nat, g: Log)
    requires RingOk(ring, head, count, g)
    ensures |ring| == QUEUE_CAPACITY
  {
  }

  // The ring depends only on what was pushed and on what is stored of it.
  lemma SameRing(ring: seq<Record>, head: nat, count: nat, g: Log, t: Log)
    requires RingOk(ring, head, count, g) && t.pushed == g.pushed && t.first == g.first
    ensures RingOk(ring, head, count, t)
  {
    hide Wrap;
  }

  lemma WrapNext(n: nat)
    ensures Wrap(Wrap(n) + 1) == Wrap(n + 1)
  {
    Arithmetic.RemainderOfSum(n, 1, WORD);
  }

  class Queue {
    const records: array<Record>
    var head: nat
    var count: nat
    var nextSequence: nat
    var dropped: nat
    var closed: bool
    ghost var log: Log

    ghost predicate Valid()
      reads this, records
    {
      && LogOk(log) && RingOk(records[..], head, count, log) && closed == log.closed
      && nextSequence == Wrap(|log.pushed| + 1) && dropped == Wrap(log.dropped)
    }

    constructor ()
      ensures Valid() && log == EMPTY && fresh(records)
    {
      records := new Record[QUEUE_CAPACITY](_ => Record(0, Payload(0, 0, 0, 0)));
      head, count, nextSequence, dropped, closed := 0, 0, 1, 0, false;
      log := EMPTY;
    }

    method Reset()
      requires Valid()
      modifies this
      ensures Valid() && log == EMPTY
    {
      head, count, nextSequence, dropped, closed := 0, 0, 1, 0, false;
      log := EMPTY;
    }

    method Shut()
      requires Valid()
      modifies this
      ensures Valid() && log == CloseLog(old(log))
    {
      head, count, closed := 0, 0, true;
      log := CloseLog(log);
    }

    // What `head` and `count` describe is the tail of `g`, which the caller is about to make the log.
    ghost predicate Holds(g: Log)
      reads this, records
    {
      RingOk(records[..], head, count, g)
    }

    // The oldest record makes room.
    method DropOldest()
      requires Valid() && count == records.Length == QUEUE_CAPACITY
      modifies this`head, this`count, this`dropped
      ensures Holds(log.(first := log.first + 1)) && count == QUEUE_CAPACITY - 1 && dropped == Wrap(log.dropped + 1)
    {
      hide LogOk, RecordAt, Wrap;
      RingSkips(records[..], head, count, log, 1, log.(first := log.first + 1));
      head := (head + 1) % records.Length;
      count := count - 1;
      WrapNext(log.dropped);
      dropped := Wrap(dropped + 1);
    }

    // A record behind the last one.
    method Append(p: Payload, ghost g: Log)
      requires Holds(g) && count < QUEUE_CAPACITY && nextSequence == Wrap(|g.pushed| + 1)
      modifies this`count, this`nextSequence, records
      ensures Holds(g.(pushed := g.pushed + [p])) && nextSequence == Wrap(|g.pushed| + 2)
    {
      hide RecordAt, Wrap;
      RingAppends(records[..], head, count, g, p, g.(pushed := g.pushed + [p]));
      hide RingOk;
      RingFits(records[..], head, count, g);
      var tail := (head + count) % records.Length;
      records[tail] := Record(nextSequence, p);
      assert records[..] == old(records[..])[tail := Record(nextSequence, p)];
      WrapNext(|g.pushed| + 1);
      nextSequence := Wrap(nextSequence + 1);
      count := count + 1;
    }

    method PushRecord(p: Payload)
      requires Valid()
      modifies this, records
      ensures Valid() && log == PushLog(old(log), p)
    {
      hide LogOk, RingOk, Wrap, RecordAt;
      if closed {
        return;
      }
      PushKeeps(log, p);
      RingSize(records[..], head, count, log);
      ghost var stored := log;
      if count == records.Length {
        DropOldest();
        stored := log.(first := log.first + 1);
      }
      Append(p, stored);
      log := PushLog(log, p);
      SameRing(records[..], head, count, stored.(pushed := stored.pushed + [p]), log);
    }

    method ReadBatch() returns (batch: Batch)
      requires Valid()
      modifies this
      ensures Valid() && log == ReadLog(old(log)) && batch == BatchOf(old(log))
    {
      hide LogOk, RecordAt, Wrap;
      RingSize(records[..], head, count, log);
      var taken := if count < BATCH_CAPACITY then count else BATCH_CAPACITY;
      var out := [];
      var index := 0;
      while index != taken
        invariant index <= taken && |out| == index
        invariant forall k | 0 <= k < index :: out[k] == RecordAt(log, log.first + k)
      {
        assert RingAt(records[..], head, index) == RecordAt(log, log.first + index);
        out := out + [records[(head + index) % records.Length]];
        index := index + 1;
      }
      ReadKeeps(log);
      RingSkips(records[..], head, count, log, taken, ReadLog(log));
      head := (head + taken) % records.Length;
      count := count - taken;
      batch := Batch(out, count, dropped);
      log := ReadLog(log);
    }
  }
}
